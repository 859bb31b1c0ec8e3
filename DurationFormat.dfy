/** The recording-duration label of the audio visualiser:
    `Math.floor(d / 60)` and `(d % 60).toString().padStart(2, "0")` joined by
    ':'. The duration is a count of seconds that starts at 0 and only grows,
    so it is a `nat`, and for it JavaScript's floor division and remainder
    agree with Dafny's `/` and `%`. */
module DurationFormat {

  import opened Wrappers

  predicate IsDigit(c: char) {
    '0' <= c <= '9'
  }

  function DigitChar(n: nat): (c: char)
    requires n < 10
    ensures IsDigit(c) && DigitValue(c) == n
  {
    ['0', '1', '2', '3', '4', '5', '6', '7', '8', '9'][n]
  }

  function DigitValue(c: char): nat
    requires IsDigit(c)
  {
    (c as int - '0' as int) as nat
  }

  predicate AllDigits(s: string) {
    forall i :: 0 <= i < |s| ==> IsDigit(s[i])
  }

  /** `n.toString()` for a non-negative integer: decimal, no leading zero
      (see `NatToStringDigits`). */
  function NatToString(n: nat): string
    decreases n
  {
    if n < 10 then [DigitChar(n)] else NatToString(n / 10) + [DigitChar(n % 10)]
  }

  /** `s.padStart(width, [pad])` with a one-character pad string. */
  function PadStart(s: string, width: nat, pad: char): string
    decreases width - |s|
  {
    if |s| >= width then s else PadStart([pad] + s, width, pad)
  }

  /** The text shown beside the visualiser bars (audioVisualizerRecorder.tsx:27):
      a run of digits, a colon, and exactly two digits. */
  function FormatDuration(d: nat): (r: string)
    ensures |r| >= 4 && r[|r| - 3] == ':'
    ensures AllDigits(r[..|r| - 3]) && AllDigits(r[|r| - 2..])
  {
    var m := NatToString(d / 60);
    var sec := PadStart(NatToString(d % 60), 2, '0');
    NatToStringDigits(d / 60);
    SecondsField(d);
    var r := m + ":" + sec;
    assert r[..|r| - 3] == m && r[|r| - 2..] == sec;
    r
  }

  /** The label is rendered only while the visualiser is active and a
      duration was supplied (`recordingDuration !== undefined`). */
  function DurationLabel(isActive: bool, recordingDuration: Option<nat>): (r: Option<string>)
    ensures r.Some? <==> isActive && recordingDuration.Some?
    ensures r.Some? ==> r.value == FormatDuration(recordingDuration.value)
  {
    if isActive then
      match recordingDuration
      case Some(d) => Some(FormatDuration(d))
      case None => None
    else None
  }

  /** The numeric value of a digit string (leading zeros allowed). */
  function DigitsValue(s: string): nat
    requires AllDigits(s)
  {
    if s == [] then 0 else DigitsValue(s[..|s| - 1]) * 10 + DigitValue(s[|s| - 1])
  }

  function ParseNat(s: string): Option<nat> {
    if s != [] && AllDigits(s) then Some(DigitsValue(s)) else None
  }

  /** Reads back a label "m:ss": minutes, a colon, exactly two digits of
      seconds below 60. */
  function ParseDuration(s: string): Option<nat> {
    if |s| < 4 || s[|s| - 3] != ':' then None
    else
      match (ParseNat(s[..|s| - 3]), ParseNat(s[|s| - 2..]))
      case (Some(m), Some(sec)) => if sec < 60 then Some(m * 60 + sec) else None
      case _ => None
  }

  lemma {:induction false} NatToStringDigits(n: nat)
    ensures NatToString(n) != [] && AllDigits(NatToString(n))
    ensures |NatToString(n)| == 1 <==> n < 10
    ensures ParseNat(NatToString(n)) == Some(n)
    ensures NatToString(n)[0] == '0' ==> n == 0
    decreases n
  {
    var s := NatToString(n);
    if n < 10 {
      assert s[..0] == [];
      assert DigitsValue(s) == DigitsValue(s[..0]) * 10 + DigitValue(s[0]);
    } else {
      var p := NatToString(n / 10);
      NatToStringDigits(n / 10);
      assert s == p + [DigitChar(n % 10)];
      assert s[..|s| - 1] == p;
      assert DigitsValue(p) == n / 10;
      assert DigitsValue(s) == DigitsValue(p) * 10 + n % 10;
      assert s[0] == p[0];
    }
  }

  lemma {:induction false} PadStartShape(s: string, width: nat, pad: char)
    ensures PadStart(s, width, pad) == (if |s| >= width then s else seq(width - |s|, _ => pad) + s)
    decreases width - |s|
  {
    if |s| < width {
      PadStartShape([pad] + s, width, pad);
      assert seq(width - |s| - 1, _ => pad) + ([pad] + s) == seq(width - |s|, _ => pad) + s;
    }
  }

  /** The seconds text is always two digits: the remainder itself when it has
      two digits, a '0' before it otherwise. It reads back as `d % 60`. */
  lemma SecondsField(d: nat)
    ensures var sec := PadStart(NatToString(d % 60), 2, '0');
      && |sec| == 2 && AllDigits(sec)
      && (d % 60 < 10 <==> sec[0] == '0')
      && (d % 60 < 10 ==> sec == ['0', DigitChar(d % 60)])
      && ParseNat(sec) == Some(d % 60)
  {
    var t := NatToString(d % 60);
    NatToStringDigits(d % 60);
    PadStartShape(t, 2, '0');
    var sec := PadStart(t, 2, '0');
    if d % 60 < 10 {
      assert sec == ['0'] + t;
      assert sec[..1] == ['0'];
      assert sec[..1][..0] == [];
      assert sec[1..] == t;
      assert DigitsValue(sec[..1]) == 0;
      assert DigitsValue(t) == d % 60;
    } else {
      NatToStringDigits(d % 60 / 10);
      assert sec == t;
      assert t[0] == DigitChar(d % 60 / 10);
    }
  }

  /** The text splits at its third-last character into the minutes
      `d / 60` and the two-digit seconds `d % 60`, which lie in 0..59. */
  lemma FormatFields(d: nat)
    ensures var s := FormatDuration(d);
      && |s| >= 4 && s[|s| - 3] == ':'
      && s[..|s| - 3] == NatToString(d / 60)
      && ParseNat(s[..|s| - 3]) == Some(d / 60)
      && ParseNat(s[|s| - 2..]) == Some(d % 60)
      && 0 <= d % 60 < 60
  {
    var m := NatToString(d / 60);
    var sec := PadStart(NatToString(d % 60), 2, '0');
    NatToStringDigits(d / 60);
    SecondsField(d);
    var s := FormatDuration(d);
    assert s == m + [':'] + sec;
    assert s[..|s| - 3] == m;
    assert s[|s| - 2..] == sec;
  }

  /** Round trip: minutes * 60 + seconds gives back the duration. */
  lemma FormatRoundTrip(d: nat)
    ensures ParseDuration(FormatDuration(d)) == Some(d)
  {
    FormatFields(d);
  }

  /** Hence two different durations never show the same label. */
  lemma FormatInjective(d1: nat, d2: nat)
    requires FormatDuration(d1) == FormatDuration(d2)
    ensures d1 == d2
  {
    FormatRoundTrip(d1);
    FormatRoundTrip(d2);
  }
}
