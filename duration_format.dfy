/** The elapsed-time label of the recorder: `duration` seconds split into hours,
    minutes and seconds, each turned into decimal text, minutes and seconds
    left-padded with "0" to two characters, joined as h:mm:ss. */
module DurationFormat {
  import opened Wrappers

  // ---------------------------------------------------------------------------
  // Splitting a number of seconds

  /** Math.floor(duration / 3600) */
  function Hours(duration: nat): nat { duration / 3600 }

  /** Math.floor((duration % 3600) / 60) */
  function Minutes(duration: nat): nat { (duration % 3600) / 60 }

  /** duration % 60 */
  function Seconds(duration: nat): nat { duration % 60 }

  /** The three components put the duration back together, and minutes and
      seconds are proper clock fields. */
  lemma Decomposition(duration: nat)
    ensures Hours(duration) * 3600 + Minutes(duration) * 60 + Seconds(duration) == duration
    ensures Minutes(duration) < 60 && Seconds(duration) < 60
  {
    var r := duration % 3600;
    assert duration == Hours(duration) * 3600 + r;
    assert r == Minutes(duration) * 60 + r % 60;
    assert r % 60 == duration % 60 by {
      assert duration == (Hours(duration) * 60) * 60 + r;
      ModOfMultiplePlus(Hours(duration) * 60, r);
    }
  }

  lemma ModOfMultiplePlus(k: nat, r: nat)
    ensures (k * 60 + r) % 60 == r % 60
  {
    var q := r / 60;
    assert r == q * 60 + r % 60;
    assert k * 60 + r == (k + q) * 60 + r % 60;
  }

  /** The split is the only one with minutes and seconds below 60: from any
      such triple, the functions recover exactly that triple. */
  lemma ComponentsAreUnique(h: nat, m: nat, s: nat)
    requires m < 60 && s < 60
    ensures Hours(h * 3600 + m * 60 + s) == h
    ensures Minutes(h * 3600 + m * 60 + s) == m
    ensures Seconds(h * 3600 + m * 60 + s) == s
  {
    var d := h * 3600 + m * 60 + s;
    assert m * 60 + s < 3600;
    assert d / 3600 == h && d % 3600 == m * 60 + s;
    assert (m * 60 + s) / 60 == m;
    ModOfMultiplePlus(h * 60 + m, s);
    assert d == (h * 60 + m) * 60 + s;
  }

  // ---------------------------------------------------------------------------
  // Number.prototype.toString for non-negative integers

  predicate IsDigit(c: char) { '0' <= c <= '9' }

  function DigitChar(d: nat): (c: char)
    requires d < 10
    ensures IsDigit(c)
  {
    ('0' as int + d) as char
  }

  function DigitValue(c: char): nat
    requires IsDigit(c)
  {
    c as int - '0' as int
  }

  /** The decimal text of n: digits only, at least one, no leading zero. */
  function DecimalString(n: nat): (r: string)
    ensures 1 <= |r|
    ensures forall i :: 0 <= i < |r| ==> IsDigit(r[i])
    ensures |r| == 1 <==> n < 10
    ensures |r| > 1 ==> r[0] != '0'
    ensures n < 100 ==> |r| <= 2
  {
    if n < 10 then [DigitChar(n)]
    else DecimalString(n / 10) + [DigitChar(n % 10)]
  }

  /** Reads decimal digits, most significant first; "" reads as 0. */
  function ParseDecimal(s: string): nat
    requires forall i :: 0 <= i < |s| ==> IsDigit(s[i])
  {
    if s == [] then 0
    else ParseDecimal(s[..|s| - 1]) * 10 + DigitValue(s[|s| - 1])
  }

  lemma {:induction false} ParseDecimalString(n: nat)
    ensures ParseDecimal(DecimalString(n)) == n
  {
    var r := DecimalString(n);
    if n < 10 {
      assert r[..0] == [];
    } else {
      ParseDecimalString(n / 10);
      assert r[..|r| - 1] == DecimalString(n / 10);
    }
  }

  /** A leading zero does not change the value read. */
  lemma {:induction false} ParseLeadingZero(s: string)
    requires forall i :: 0 <= i < |s| ==> IsDigit(s[i])
    ensures ParseDecimal(['0'] + s) == ParseDecimal(s)
  {
    var t := ['0'] + s;
    if s == [] {
      assert t[..0] == [];
    } else {
      assert t[..|t| - 1] == ['0'] + s[..|s| - 1];
      ParseLeadingZero(s[..|s| - 1]);
    }
  }

  // ---------------------------------------------------------------------------
  // String.prototype.padStart with a one-character pad string

  function Repeat(c: char, n: nat): (r: string)
    ensures |r| == n && forall i :: 0 <= i < n ==> r[i] == c
  {
    if n == 0 then [] else Repeat(c, n - 1) + [c]
  }

  /** s.padStart(width, [pad]): s itself when it is already long enough,
      otherwise s preceded by as many pad characters as it is short. */
  function PadStart(s: string, width: nat, pad: char): (r: string)
    ensures |r| == if |s| < width then width else |s|
    ensures r[|r| - |s|..] == s
    ensures forall i :: 0 <= i < |r| - |s| ==> r[i] == pad
  {
    if width <= |s| then s else Repeat(pad, width - |s|) + s
  }

  /** minutes.toString().padStart(2, "0") and the same for seconds. */
  function TwoDigits(n: nat): string
  {
    PadStart(DecimalString(n), 2, '0')
  }

  /** Below 100 the padded field is exactly two digits and reads back as n. */
  lemma TwoDigitsField(n: nat)
    requires n < 100
    ensures |TwoDigits(n)| == 2
    ensures forall i :: 0 <= i < 2 ==> IsDigit(TwoDigits(n)[i])
    ensures ParseDecimal(TwoDigits(n)) == n
  {
    var d := DecimalString(n);
    ParseDecimalString(n);
    if n < 10 {
      assert TwoDigits(n) == ['0'] + d;
      ParseLeadingZero(d);
    } else {
      assert TwoDigits(n) == d;
    }
  }

  // ---------------------------------------------------------------------------
  // The h:mm:ss label

  /** `{hours}:{mm}:{ss}` as rendered by the recording view. */
  function DurationString(duration: nat): string
  {
    DecimalString(Hours(duration)) + ":" + TwoDigits(Minutes(duration)) + ":" + TwoDigits(Seconds(duration))
  }

  /** The number of seconds on a clock showing h:m:s. */
  function ClockValue(h: nat, m: nat, s: nat): nat { h * 3600 + m * 60 + s }

  predicate AllDigits(s: string) { forall i :: 0 <= i < |s| ==> IsDigit(s[i]) }

  /** Reads an h:mm:ss label back into seconds; None for text of another shape. */
  function ParseDurationString(s: string): Option<nat>
  {
    if |s| >= 7 && s[|s| - 6] == ':' && s[|s| - 3] == ':'
       && AllDigits(s[..|s| - 6]) && AllDigits(s[|s| - 5..|s| - 3]) && AllDigits(s[|s| - 2..])
    then Some(ClockValue(ParseDecimal(s[..|s| - 6]), ParseDecimal(s[|s| - 5..|s| - 3]), ParseDecimal(s[|s| - 2..])))
    else None
  }

  /** Where the three fields and the two separators of a label sit. */
  lemma FieldPositions(hs: string, ms: string, ss: string)
    requires |ms| == 2 && |ss| == 2
    ensures var t := hs + ":" + ms + ":" + ss;
      |t| == |hs| + 6 && t[|t| - 6] == ':' && t[|t| - 3] == ':'
      && t[..|t| - 6] == hs && t[|t| - 5..|t| - 3] == ms && t[|t| - 2..] == ss
  {
    var t := hs + ":" + ms + ":" + ss;
    assert t == hs + (":" + (ms + (":" + ss)));
  }

  /** Reading a label made of an hours field and two two-digit fields. */
  lemma ParseFields(hs: string, ms: string, ss: string)
    requires 1 <= |hs| && AllDigits(hs)
    requires |ms| == 2 && AllDigits(ms) && |ss| == 2 && AllDigits(ss)
    ensures ParseDurationString(hs + ":" + ms + ":" + ss)
            == Some(ClockValue(ParseDecimal(hs), ParseDecimal(ms), ParseDecimal(ss)))
  {
    FieldPositions(hs, ms, ss);
  }

  /** The label has the h:mm:ss shape and determines the duration: reading it
      back gives the number of seconds it was made from. */
  lemma FormatRoundTrip(duration: nat)
    ensures |DurationString(duration)| == |DecimalString(Hours(duration))| + 6
    ensures ParseDurationString(DurationString(duration)) == Some(duration)
  {
    var h, m, s := Hours(duration), Minutes(duration), Seconds(duration);
    var hs, ms, ss := DecimalString(h), TwoDigits(m), TwoDigits(s);
    assert m < 60 && s < 60 && ClockValue(h, m, s) == duration by {
      Decomposition(duration);
    }
    assert |ms| == 2 && AllDigits(ms) && ParseDecimal(ms) == m by {
      TwoDigitsField(m);
    }
    assert |ss| == 2 && AllDigits(ss) && ParseDecimal(ss) == s by {
      TwoDigitsField(s);
    }
    assert ParseDecimal(hs) == h by {
      ParseDecimalString(h);
    }
    ParseFields(hs, ms, ss);
  }
}
