/** The pure helpers of the `Utils` class (js/utils.js): the haversine
    distance (kept abstract), the km/h speed conversion and the `M:SS`
    duration format, together with a parser for that format. */
module Utils {
  import opened Wrappers

  /** A geographic position in degrees: the `[latitude, longitude]` pairs
      the map keeps for the route. */
  datatype LatLng = LatLng(lat: real, lng: real)

  /** `calculateDistance(lat1, lon1, lat2, lon2)`: the haversine distance in
      kilometres (Earth radius 6371 km).  Its floating-point trigonometry is
      not modelled; the one property assumed of it is that it never returns a
      negative number (a positive radius times `2 * atan2(sqrt(a), ...)`). */
  type Haversine = f: (real, real, real, real) -> real
    | forall lat1, lon1, lat2, lon2 :: f(lat1, lon1, lat2, lon2) >= 0.0
    witness (lat1: real, lon1: real, lat2: real, lon2: real) => 0.0

  /** The haversine distance between two positions. */
  function Distance(haversine: Haversine, a: LatLng, b: LatLng): (km: real)
    ensures km >= 0.0
  {
    haversine(a.lat, a.lng, b.lat, b.lng)
  }

  /** `calculateSpeed`: kilometres over seconds, converted to km/h; a
      non-positive time gives speed 0. */
  function CalculateSpeed(distance: real, timeSeconds: real): (kmh: real)
    ensures timeSeconds <= 0.0 ==> kmh == 0.0
    ensures distance >= 0.0 ==> kmh >= 0.0
  {
    if timeSeconds > 0.0 then distance / timeSeconds * 3600.0 else 0.0
  }

  /** Over a positive time, the speed covers the distance: speed times
      time, in hours, is the distance. */
  lemma SpeedCoversDistance(distance: real, timeSeconds: real)
    requires timeSeconds > 0.0
    ensures CalculateSpeed(distance, timeSeconds) * timeSeconds == distance * 3600.0
  {
  }

  // ---------------------------------------------------------------------
  // Decimal text of integers, as JavaScript's `Number.prototype.toString`
  // writes an integer-valued number of moderate size.
  // ---------------------------------------------------------------------

  function DigitChar(d: nat): char
    requires d < 10
  {
    ('0' as int + d) as char
  }

  predicate IsDigit(c: char) {
    '0' <= c <= '9'
  }

  function DigitValue(c: char): Option<nat> {
    if IsDigit(c) then Some(c as int - '0' as int) else None
  }

  /** The decimal digits of `n`, most significant first, without leading zeros. */
  function NatToString(n: nat): (s: string)
    ensures |s| >= 1
    ensures forall i :: 0 <= i < |s| ==> IsDigit(s[i])
    ensures n < 10 <==> |s| == 1
    decreases n
  {
    if n < 10 then [DigitChar(n)] else NatToString(n / 10) + [DigitChar(n % 10)]
  }

  /** An integer in decimal, with a leading `-` when negative. */
  function IntToString(i: int): string {
    if i < 0 then "-" + NatToString(-i) else NatToString(i)
  }

  /** `s.padStart(2, '0')`: zeros in front until the text has two characters. */
  function PadStart2(s: string): (r: string)
    ensures |s| >= 2 ==> r == s
    ensures |s| < 2 ==> |r| == 2 && r[2 - |s|..] == s
    ensures forall i :: 0 <= i < |r| - |s| ==> r[i] == '0'
  {
    if |s| >= 2 then s else seq(2 - |s|, _ => '0') + s
  }

  /** The quotient rounded toward zero. */
  function TruncatedQuotient(a: int, b: int): int
    requires b > 0
  {
    if a >= 0 then a / b else -((-a) / b)
  }

  /** JavaScript's `%`: what is left of the dividend after taking out the
      quotient rounded toward zero (`TruncatedDivision`), so it takes the
      sign of the dividend. */
  function TruncatedRemainder(a: int, b: int): (r: int)
    requires b > 0
    ensures a >= 0 ==> 0 <= r < b
    ensures a < 0 ==> -b < r <= 0
  {
    if a >= 0 then a % b else -((-a) % b)
  }

  /** The dividend is the truncated quotient times the divisor plus the
      truncated remainder, which is how `%` is defined on numbers. */
  lemma TruncatedDivision(a: int, b: int)
    requires b > 0
    ensures a == TruncatedQuotient(a, b) * b + TruncatedRemainder(a, b)
  {
    if a < 0 {
      var q, m := (-a) / b, (-a) % b;
      assert -a == q * b + m;
    }
  }

  /** `formatDuration(seconds)`: `Math.floor(seconds / 60)`, a colon, then
      `seconds % 60` padded to two digits.  (Dafny's `/` by a positive
      divisor is the floor; JavaScript's `%` truncates, so a negative input
      gives, for instance, "-1:-5" for -5: see `FormatDurationOfMinusFive`.) */
  function FormatDuration(seconds: int): (text: string)
    ensures seconds == 0 ==> text == "0:00"
  {
    IntToString(seconds / 60) + ":" + PadStart2(IntToString(TruncatedRemainder(seconds, 60)))
  }

  /** A negative input gives a negative seconds field that is not padded. */
  lemma FormatDurationOfMinusFive()
    ensures FormatDuration(-5) == "-1:-5"
  {
    assert TruncatedRemainder(-5, 60) == -5;
    assert NatToString(5) == "5" && NatToString(1) == "1";
  }

  /** Reads a non-empty run of decimal digits. */
  function ParseNat(s: string): (r: Option<nat>)
    decreases |s|
  {
    if |s| == 0 then None
    else match DigitValue(s[|s| - 1])
      case None => None
      case Some(d) =>
        if |s| == 1 then Some(d)
        else match ParseNat(s[..|s| - 1])
          case None => None
          case Some(m) => Some(10 * m + d)
  }

  /** Reads an `M:SS` duration back into seconds (`M * 60 + SS`, `SS < 60`). */
  function ParseDuration(text: string): (r: Option<nat>)
    ensures r.Some? ==> |text| >= 4 && text[|text| - 3] == ':'
  {
    if |text| < 4 || text[|text| - 3] != ':' then None
    else match (ParseNat(text[..|text| - 3]), ParseNat(text[|text| - 2..]))
      case (Some(m), Some(ss)) => if ss < 60 then Some(m * 60 + ss) else None
      case _ => None
  }

  lemma DigitRoundTrip(d: nat)
    requires d < 10
    ensures DigitValue(DigitChar(d)) == Some(d)
  {
  }

  /** Reading back the decimal text of a natural number gives that number. */
  lemma {:induction false} NatToStringRoundTrip(n: nat)
    ensures ParseNat(NatToString(n)) == Some(n)
    decreases n
  {
    DigitRoundTrip(n % 10);
    if n >= 10 {
      var s := NatToString(n);
      assert s[..|s| - 1] == NatToString(n / 10);
      assert s[|s| - 1] == DigitChar(n % 10);
      NatToStringRoundTrip(n / 10);
    }
  }

  /** Two digits read back as the number they write. */
  lemma ParseTwoDigits(a: nat, b: nat)
    requires a < 10 && b < 10
    ensures ParseNat([DigitChar(a), DigitChar(b)]) == Some(10 * a + b)
  {
    var s := [DigitChar(a), DigitChar(b)];
    DigitRoundTrip(a);
    DigitRoundTrip(b);
    assert s[..1] == [DigitChar(a)];
  }

  /** A number below 100 is written with the digits of its tens and units
      (the tens digit dropped when it is 0). */
  lemma NatToStringBelow100(n: nat)
    requires n < 100
    ensures n < 10 ==> NatToString(n) == [DigitChar(n)]
    ensures n >= 10 ==> NatToString(n) == [DigitChar(n / 10), DigitChar(n % 10)]
  {
    if n >= 10 {
      var tens := n / 10;
      assert tens < 10;
      assert NatToString(tens) == [DigitChar(tens)];
    }
  }

  /** The seconds field of a non-negative duration: exactly the two digits
      of `seconds % 60`, which read back as that number. */
  lemma SecondsFieldRoundTrip(ss: nat)
    requires ss < 60
    ensures PadStart2(NatToString(ss)) == [DigitChar(ss / 10), DigitChar(ss % 10)]
    ensures ParseNat(PadStart2(NatToString(ss))) == Some(ss)
  {
    NatToStringBelow100(ss);
    var field := [DigitChar(ss / 10), DigitChar(ss % 10)];
    if ss < 10 {
      assert ss / 10 == 0 && ss % 10 == ss;
      assert PadStart2([DigitChar(ss)]) == field;
    }
    ParseTwoDigits(ss / 10, ss % 10);
  }

  /** For a non-negative number of seconds, `formatDuration` writes the
      minutes without padding, a colon, and the two digits of the
      remaining seconds. */
  lemma FormatDurationShape(seconds: nat)
    ensures FormatDuration(seconds) ==
      NatToString(seconds / 60) + ":" + [DigitChar(seconds % 60 / 10), DigitChar(seconds % 60 % 10)]
  {
    var r := seconds % 60;
    assert TruncatedRemainder(seconds, 60) == r;
    SecondsFieldRoundTrip(r);
  }

  /** `M:SS` text made of readable parts reads back as `M * 60 + SS`. */
  lemma ParseDurationOfParts(minutes: string, field: string, m: nat, ss: nat)
    requires |minutes| >= 1 && |field| == 2 && ss < 60
    requires ParseNat(minutes) == Some(m) && ParseNat(field) == Some(ss)
    ensures ParseDuration(minutes + ":" + field) == Some(m * 60 + ss)
  {
    var text := minutes + ":" + field;
    assert text[..|text| - 3] == minutes;
    assert text[|text| - 2..] == field;
  }

  /** Reading back what `formatDuration` writes for a non-negative number
      of seconds gives that number again. */
  lemma FormatDurationRoundTrip(seconds: int)
    ensures seconds >= 0 ==> ParseDuration(FormatDuration(seconds)) == Some(seconds)
  {
    if seconds >= 0 {
      var m, r := seconds / 60, seconds % 60;
      FormatDurationShape(seconds);
      SecondsFieldRoundTrip(r);
      NatToStringRoundTrip(m);
      ParseDurationOfParts(NatToString(m), [DigitChar(r / 10), DigitChar(r % 10)], m, r);
    }
  }
}
