/** The stopwatch display: `formatTime` and the `HH:MM:SS:CC` rendering. */
module Display {
  import opened ElapsedTime

  datatype Option<T> = None | Some(value: T)

  predicate IsDigit(c: char) {
    '0' <= c <= '9'
  }

  predicate AllDigits(s: string) {
    forall i :: 0 <= i < |s| ==> IsDigit(s[i])
  }

  function DigitChar(d: nat): (c: char)
    requires d < 10
    ensures IsDigit(c)
  {
    (('0' as int) + d) as char
  }

  function DigitValue(c: char): nat
    requires IsDigit(c)
  {
    (c as int) - ('0' as int)
  }

  /** `String(value)` of a non-negative integer: its decimal digits, most
      significant first, with no leading zero. */
  function NatToString(n: nat): (s: string)
    ensures |s| >= 1 && AllDigits(s)
    ensures (s[0] == '0') <==> n == 0
    ensures |s| == 1 <==> n < 10
  {
    if n < 10 then [DigitChar(n)] else NatToString(n / 10) + [DigitChar(n % 10)]
  }

  /** The value of a string of decimal digits, most significant first; the
      partner of `NatToString`. */
  function ParseDecimal(s: string): nat
    requires AllDigits(s)
  {
    if s == [] then 0 else ParseDecimal(s[..|s| - 1]) * 10 + DigitValue(s[|s| - 1])
  }

  /** `s.padStart(targetLength, pad)` for a one-character pad string. */
  function PadStart(s: string, targetLength: nat, pad: char): (r: string)
    ensures |r| == if |s| >= targetLength then |s| else targetLength
    ensures r[|r| - |s|..] == s
    ensures forall i :: 0 <= i < |r| - |s| ==> r[i] == pad
    decreases targetLength - |s|
  {
    if |s| >= targetLength then s else PadStart([pad] + s, targetLength, pad)
  }

  /** `formatTime`: the decimal of `value`, padded on the left with '0' to at
      least two characters. */
  function FormatTime(value: nat): (r: string)
    ensures |r| >= 2 && AllDigits(r)
    ensures value < 10 ==> r == ['0', DigitChar(value)]
    ensures value >= 10 ==> r == NatToString(value)
    ensures value < 100 ==> |r| == 2
  {
    var s := NatToString(value);
    var r := PadStart(s, 2, '0');
    assert r[|r| - |s|..] == s;
    r
  }

  /** The heading text: the four fields, each formatted, joined by ':'. The
      minutes, seconds and hundredths of a normalised record take exactly two
      characters each, so the separators sit at fixed places from the end. */
  function Render(t: Time): (r: string)
    ensures |r| >= 11
    ensures Normalised(t) ==> r[|r| - 3] == ':' && r[|r| - 6] == ':' && r[|r| - 9] == ':'
  {
    var h, m, c, k := FormatTime(t.hr), FormatTime(t.min), FormatTime(t.sec), FormatTime(t.milisec);
    var r := h + ":" + m + ":" + c + ":" + k;
    if Normalised(t) then SeparatorsAt(r, h, m, c, k); r else r
  }

  /** A field of the display read back, if it is made of digits only. */
  function ParseField(s: string): Option<nat> {
    if AllDigits(s) then Some(ParseDecimal(s)) else None
  }

  /** Reads a rendered display back into a record: the partner of `Render`.
      The last three fields have two characters each; hours take the rest. */
  function ParseRender(s: string): Option<Time> {
    var n := |s|;
    if n < 11 || s[n - 3] != ':' || s[n - 6] != ':' || s[n - 9] != ':' then None
    else
      var hr, min, sec, milisec := ParseField(s[..n - 9]), ParseField(s[n - 8..n - 6]),
                                   ParseField(s[n - 5..n - 3]), ParseField(s[n - 2..]);
      if hr.Some? && min.Some? && sec.Some? && milisec.Some?
      then Some(Time(hr.value, min.value, sec.value, milisec.value))
      else None
  }

  /** Reading back the decimal of `n` gives `n`. */
  lemma {:induction false} ParseNatToString(n: nat)
    ensures ParseDecimal(NatToString(n)) == n
  {
    if n >= 10 {
      var s := NatToString(n);
      assert s[..|s| - 1] == NatToString(n / 10);
      ParseNatToString(n / 10);
    }
  }

  /** A leading '0' does not change the value of a digit string. */
  lemma {:induction false} ParseLeadingZero(s: string)
    requires AllDigits(s)
    ensures AllDigits(['0'] + s) && ParseDecimal(['0'] + s) == ParseDecimal(s)
  {
    if s != [] {
      var z := ['0'] + s;
      assert z[..|z| - 1] == ['0'] + s[..|s| - 1];
      ParseLeadingZero(s[..|s| - 1]);
    } else {
      assert ParseDecimal(['0']) == ParseDecimal([]) * 10 + DigitValue('0');
    }
  }

  /** The padded display of a field still reads back as the field. */
  lemma FormatTimeRoundTrip(n: nat)
    ensures ParseDecimal(FormatTime(n)) == n
  {
    ParseNatToString(n);
    if n < 10 {
      assert FormatTime(n) == ['0'] + NatToString(n);
      ParseLeadingZero(NatToString(n));
    }
  }

  /** Rendering `{1, 2, 3, 4}` gives "01:02:03:04". */
  lemma RenderExample()
    ensures Render(Time(1, 2, 3, 4)) == "01:02:03:04"
  {
    assert FormatTime(1) == "01";
    assert FormatTime(2) == "02";
    assert FormatTime(3) == "03";
    assert FormatTime(4) == "04";
  }

  /** Below 100 hours the display has the fixed width `HH:MM:SS:CC`. */
  lemma RenderLength(t: Time)
    requires Normalised(t) && t.hr < 100
    ensures |Render(t)| == 11
  {
    assert |FormatTime(t.hr)| == 2 && |FormatTime(t.min)| == 2;
    assert |FormatTime(t.sec)| == 2 && |FormatTime(t.milisec)| == 2;
  }

  /** The separators of a display joined from three two-character fields. */
  lemma SeparatorsAt(s: string, h: string, m: string, c: string, k: string)
    requires |m| == 2 && |c| == 2 && |k| == 2
    requires s == h + ":" + m + ":" + c + ":" + k
    ensures |s| == |h| + 9 && s[|s| - 3] == ':' && s[|s| - 6] == ':' && s[|s| - 9] == ':'
  {
  }

  /** The fields of a display joined from three two-character fields. */
  lemma FieldsAt(s: string, h: string, m: string, c: string, k: string)
    requires |m| == 2 && |c| == 2 && |k| == 2
    requires s == h + ":" + m + ":" + c + ":" + k
    ensures var n := |s|;
      n == |h| + 9 && s[..n - 9] == h && s[n - 8..n - 6] == m && s[n - 5..n - 3] == c && s[n - 2..] == k
  {
  }

  /** A display whose separators and fields are known reads back field by field. */
  lemma ParseAt(s: string, h: string, m: string, c: string, k: string)
    requires AllDigits(h) && AllDigits(m) && AllDigits(c) && AllDigits(k)
    requires |s| >= 11 && s[|s| - 3] == ':' && s[|s| - 6] == ':' && s[|s| - 9] == ':'
    requires s[..|s| - 9] == h && s[|s| - 8..|s| - 6] == m && s[|s| - 5..|s| - 3] == c && s[|s| - 2..] == k
    ensures ParseRender(s) == Some(Time(ParseDecimal(h), ParseDecimal(m), ParseDecimal(c), ParseDecimal(k)))
  {
  }

  /** A display joined from three two-character digit fields and an hours
      field of at least two digits reads back field by field. */
  lemma ParseJoined(h: string, m: string, c: string, k: string)
    requires |h| >= 2 && |m| == 2 && |c| == 2 && |k| == 2
    requires AllDigits(h) && AllDigits(m) && AllDigits(c) && AllDigits(k)
    ensures ParseRender(h + ":" + m + ":" + c + ":" + k)
         == Some(Time(ParseDecimal(h), ParseDecimal(m), ParseDecimal(c), ParseDecimal(k)))
  {
    var s := h + ":" + m + ":" + c + ":" + k;
    SeparatorsAt(s, h, m, c, k);
    FieldsAt(s, h, m, c, k);
    ParseAt(s, h, m, c, k);
  }

  /** The display of a normalised record reads back as that record. */
  lemma RenderRoundTrip(t: Time)
    requires Normalised(t)
    ensures ParseRender(Render(t)) == Some(t)
  {
    ParseJoined(FormatTime(t.hr), FormatTime(t.min), FormatTime(t.sec), FormatTime(t.milisec));
    FormatTimeRoundTrip(t.hr);
    FormatTimeRoundTrip(t.min);
    FormatTimeRoundTrip(t.sec);
    FormatTimeRoundTrip(t.milisec);
  }

  /** Distinct normalised records never show the same display. */
  lemma RenderInjective(a: Time, b: Time)
    requires Normalised(a) && Normalised(b)
    ensures Render(a) == Render(b) <==> a == b
  {
    RenderRoundTrip(a);
    RenderRoundTrip(b);
  }
}
