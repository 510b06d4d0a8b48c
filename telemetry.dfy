/**
 * The telemetry line that `write_data_line` prints: the `sprintf` format
 * "%6lu,%5d,%3d,%3d,%2d,%2d,%1d,%1d,%1d,%s" applied to one sample, and its
 * inverse, a parser that reads the ten fields back.
 */
module Telemetry {
  import opened Wrappers
  import opened Avr

  // ---------------------------------------------------------------------
  // Decimal conversion (the `d` and `lu` conversions without padding)
  // ---------------------------------------------------------------------

  predicate IsDigit(c: char) {
    '0' <= c <= '9'
  }

  predicate AllDigits(s: string) {
    forall i :: 0 <= i < |s| ==> IsDigit(s[i])
  }

  function DigitChar(d: int): (c: char)
    requires 0 <= d < 10
    ensures IsDigit(c)
  {
    ('0' as int + d) as char
  }

  function DigitValue(c: char): int
    requires IsDigit(c)
  {
    c as int - '0' as int
  }

  function Pow10(k: nat): (p: nat)
    ensures 1 <= p
  {
    if k == 0 then 1 else 10 * Pow10(k - 1)
  }

  /** The decimal digits of `n`, most significant first, with no leading zero. */
  function Digits(n: nat): (s: string)
    ensures 1 <= |s| && AllDigits(s)
    ensures s[0] == '0' <==> n == 0
  {
    if n < 10 then [DigitChar(n)] else Digits(n / 10) + [DigitChar(n % 10)]
  }

  /** The number a string of decimal digits denotes. */
  function DigitsValue(s: string): nat
    requires AllDigits(s)
  {
    if s == [] then 0 else 10 * DigitsValue(s[..|s| - 1]) + DigitValue(s[|s| - 1])
  }

  lemma {:induction false} DigitsRoundTrip(n: nat)
    ensures DigitsValue(Digits(n)) == n
  {
    if n >= 10 {
      var s := Digits(n);
      assert s[..|s| - 1] == Digits(n / 10);
      DigitsRoundTrip(n / 10);
    }
  }

  /** `n` has at most `k` digits exactly when it is below 10^k. */
  lemma {:induction false} DigitsLength(n: nat, k: nat)
    requires 1 <= k
    ensures |Digits(n)| <= k <==> n < Pow10(k)
  {
    if n >= 10 {
      if k == 1 {
        assert |Digits(n)| == |Digits(n / 10)| + 1;
      } else {
        DigitsLength(n / 10, k - 1);
      }
    }
  }

  /** The `%d` rendering of `n` without padding: a minus sign, then the digits of |n|. */
  function IntToString(n: int): (s: string)
    ensures s != [] && (s[0] == '-' <==> n < 0)
    ensures AllDigits(if n < 0 then s[1..] else s)
  {
    if n < 0 then "-" + Digits(-n) else Digits(n)
  }

  /** Reads an optional minus sign followed by at least one digit. */
  function ParseInt(s: string): Option<int> {
    if |s| > 1 && s[0] == '-' && AllDigits(s[1..]) then Some(0 - DigitsValue(s[1..]))
    else if s != [] && AllDigits(s) then Some(DigitsValue(s))
    else None
  }

  /** A minus sign followed by digits reads as the negated value of the digits. */
  lemma ParseNegative(d: string)
    requires d != [] && AllDigits(d)
    ensures ParseInt("-" + d) == Some(0 - DigitsValue(d))
  {
    assert ("-" + d)[1..] == d;
  }

  /** Digits alone read as their value. */
  lemma ParseNonNegative(d: string)
    requires d != [] && AllDigits(d)
    ensures ParseInt(d) == Some(DigitsValue(d))
  {
    assert IsDigit(d[0]);
  }

  lemma IntToStringRoundTrip(n: int)
    ensures ParseInt(IntToString(n)) == Some(n)
  {
    if n < 0 {
      assert IntToString(n) == "-" + Digits(-n);
      ParseNegative(Digits(-n));
      DigitsRoundTrip(-n);
    } else {
      assert IntToString(n) == Digits(n);
      ParseNonNegative(Digits(n));
      DigitsRoundTrip(n);
    }
  }

  // ---------------------------------------------------------------------
  // Fields of minimum width
  // ---------------------------------------------------------------------

  function Spaces(k: nat): (r: string)
    ensures |r| == k && forall i :: 0 <= i < k ==> r[i] == ' '
  {
    seq(k, _ => ' ')
  }

  /**
   * Right-justifies `s` in a field of minimum width `w`, as a printf width
   * does: spaces in front, and a longer `s` is kept whole, never cut.
   */
  function PadLeft(s: string, w: nat): (r: string)
    ensures |r| == if |s| < w then w else |s|
  {
    if |s| < w then Spaces(w - |s|) + s else s
  }

  /** The padded field ends with `s` itself and has only spaces before it. */
  lemma PadLeftJustifies(s: string, w: nat)
    ensures var r := PadLeft(s, w);
      && r[|r| - |s|..] == s
      && forall i :: 0 <= i < |r| - |s| ==> r[i] == ' '
  {
  }

  function StripLeadingSpaces(s: string): string {
    if s != [] && s[0] == ' ' then StripLeadingSpaces(s[1..]) else s
  }

  lemma {:induction false} StripSpaces(k: nat, t: string)
    requires t == [] || t[0] != ' '
    ensures StripLeadingSpaces(Spaces(k) + t) == t
  {
    if k > 0 {
      assert (Spaces(k) + t)[1..] == Spaces(k - 1) + t;
      StripSpaces(k - 1, t);
    }
  }

  /** One numeric field: `n` printed with the conversion `%<w>d`, right-justified in at least `w` characters. */
  function Field(n: int, w: nat): (f: string)
    ensures w <= |f|
  {
    PadLeft(IntToString(n), w)
  }

  function ParseField(f: string): Option<int> {
    ParseInt(StripLeadingSpaces(f))
  }

  /** Reading a numeric field back gives the number printed into it. */
  lemma FieldRoundTrip(n: int, w: nat)
    ensures ParseField(Field(n, w)) == Some(n)
  {
    var s := IntToString(n);
    if |s| < w {
      StripSpaces(w - |s|, s);
    } else {
      StripSpaces(0, s);
    }
    IntToStringRoundTrip(n);
  }

  lemma FieldHasNoComma(n: int, w: nat)
    ensures ',' !in Field(n, w)
  {
  }

  /** `n` fits the width `w` of its conversion, so no extra character is printed. */
  predicate FitsWidth(n: int, w: nat) {
    if n >= 0 then n < Pow10(w) else 1 <= w && -n < Pow10(w - 1)
  }

  /** A field is at least `w` wide, and exactly `w` wide precisely when `n` fits. */
  lemma FieldWidth(n: int, w: nat)
    requires 1 <= w
    ensures w <= |Field(n, w)|
    ensures |Field(n, w)| == w <==> FitsWidth(n, w)
  {
    if n >= 0 {
      DigitsLength(n, w);
    } else if w > 1 {
      DigitsLength(-n, w - 1);
    }
  }

  /** A field of width `w <= k` holding a number that fits `k` is at most `k` long. */
  lemma FieldAtMost(n: int, w: nat, k: nat)
    requires 1 <= w <= k && FitsWidth(n, k)
    ensures |Field(n, w)| <= k
  {
    FieldWidth(n, k);
  }

  // ---------------------------------------------------------------------
  // Comma-separated lines
  // ---------------------------------------------------------------------

  /** The fields written one after another with one comma between neighbours. */
  function Join(fs: seq<string>): string {
    if |fs| == 0 then "" else if |fs| == 1 then fs[0] else Join(fs[..|fs| - 1]) + "," + fs[|fs| - 1]
  }

  /** Cuts a line at every comma; the inverse of `Join`. */
  function Split(line: string): (fs: seq<string>)
    ensures 1 <= |fs|
  {
    if line == [] then [""]
    else
      var rest := Split(line[1..]);
      if line[0] == ',' then [""] + rest else [[line[0]] + rest[0]] + rest[1..]
  }

  lemma {:induction false} SplitNoComma(a: string)
    requires ',' !in a
    ensures Split(a) == [a]
  {
    if a != [] {
      assert ',' !in a[1..] by {
        forall i | 0 <= i < |a| - 1 ensures a[1..][i] != ',' { assert a[1..][i] == a[i + 1]; }
      }
      SplitNoComma(a[1..]);
      assert [a[0]] + a[1..] == a;
    }
  }

  /** A last field without a comma becomes the last piece of the split. */
  lemma {:induction false} SplitLastField(x: string, t: string)
    requires ',' !in t
    ensures Split(x + "," + t) == Split(x) + [t]
  {
    if x == [] {
      assert x + "," + t == [','] + t;
      assert ([','] + t)[1..] == t;
      SplitNoComma(t);
    } else {
      assert (x + "," + t)[1..] == x[1..] + "," + t;
      SplitLastField(x[1..], t);
    }
  }

  /** Cutting a joined line at its commas recovers the fields, if none holds a comma. */
  lemma {:induction false} SplitJoin(fs: seq<string>)
    requires 1 <= |fs|
    requires forall i :: 0 <= i < |fs| ==> ',' !in fs[i]
    ensures Split(Join(fs)) == fs
  {
    if |fs| == 1 {
      SplitNoComma(fs[0]);
    } else {
      var init := fs[..|fs| - 1];
      SplitLastField(Join(init), fs[|fs| - 1]);
      SplitJoin(init);
      assert init + [fs[|fs| - 1]] == fs;
    }
  }

  // ---------------------------------------------------------------------
  // The telemetry line
  // ---------------------------------------------------------------------

  /** The values one call of `write_data_line` prints. */
  datatype Sample = Sample(
    timestamp: nat,
    data: int,
    trialNum: int,
    totalTrials: int,
    csPlus: bool,
    nextProbeIn: int,
    tone: int,
    puff: int,
    led: int,
    status: string)

  /** A `bool` passed to a variadic `%d` is promoted to the `int` 0 or 1. */
  function Flag(b: bool): (r: int)
    ensures 0 <= r <= 1
    ensures r == 1 <==> b
  {
    if b then 1 else 0
  }

  /** The widths `%6lu,%5d,%3d,%3d,%2d,%2d,%1d,%1d,%1d` give the nine numeric fields. */
  const WIDTHS: seq<nat> := [6, 5, 3, 3, 2, 2, 1, 1, 1]

  /** The nine numbers of a sample, in the order the format string prints them. */
  function Numbers(s: Sample): (ns: seq<int>)
    ensures |ns| == 9
  {
    [s.timestamp, s.data, s.trialNum, s.totalTrials, Flag(s.csPlus), s.nextProbeIn, s.tone, s.puff, s.led]
  }

  /** The conversion `convert` applied to nine numbers at their widths, then a text field. */
  function Render(convert: (int, nat) -> string, ns: seq<int>, text: string): (fs: seq<string>)
    requires |ns| == 9
    ensures |fs| == 10 && fs[9] == text
  {
    seq(9, k requires 0 <= k < 9 => convert(ns[k], WIDTHS[k])) + [text]
  }

  /** The rendered fields listed one by one. */
  lemma RenderDisplay(convert: (int, nat) -> string, ns: seq<int>, text: string)
    requires |ns| == 9
    ensures Render(convert, ns, text)
         == [convert(ns[0], 6), convert(ns[1], 5), convert(ns[2], 3), convert(ns[3], 3), convert(ns[4], 2),
             convert(ns[5], 2), convert(ns[6], 1), convert(ns[7], 1), convert(ns[8], 1), text]
  {
  }

  /** The ten fields of a sample: its nine numbers at their widths, then its status. */
  function FieldsOf(s: Sample): (fs: seq<string>)
    ensures |fs| == 10 && fs[9] == s.status
  {
    Render(Field, Numbers(s), s.status)
  }

  /** Each numeric field of a sample reads back as the argument printed into it. */
  lemma FieldsReadBack(s: Sample)
    ensures forall k :: 0 <= k < 9 ==> ParseField(FieldsOf(s)[k]) == Some(Numbers(s)[k])
  {
    forall k | 0 <= k < 9
      ensures ParseField(FieldsOf(s)[k]) == Some(Numbers(s)[k])
    {
      FieldRoundTrip(Numbers(s)[k], WIDTHS[k]);
    }
  }

  /** The text `sprintf` writes for the format "%6lu,%5d,%3d,%3d,%2d,%2d,%1d,%1d,%1d,%s". */
  function FormatLine(s: Sample): (line: string)
    ensures |s.status| < |line| && line[|line| - |s.status| - 1] == ','
  {
    Field(s.timestamp, 6) + "," + Field(s.data, 5) + "," + Field(s.trialNum, 3) + ","
      + Field(s.totalTrials, 3) + "," + Field(Flag(s.csPlus), 2) + "," + Field(s.nextProbeIn, 2) + ","
      + Field(s.tone, 1) + "," + Field(s.puff, 1) + "," + Field(s.led, 1) + "," + s.status
  }

  /** Reads a telemetry line back into the sample it was printed from. */
  function ParseLine(line: string): Option<Sample> {
    var fs := Split(line);
    if |fs| != 10 then None
    else
      var timestamp :- ParseField(fs[0]);
      var data :- ParseField(fs[1]);
      var trialNum :- ParseField(fs[2]);
      var totalTrials :- ParseField(fs[3]);
      var flag :- ParseField(fs[4]);
      var nextProbeIn :- ParseField(fs[5]);
      var tone :- ParseField(fs[6]);
      var puff :- ParseField(fs[7]);
      var led :- ParseField(fs[8]);
      if timestamp < 0 || flag < 0 || 1 < flag then None
      else Some(Sample(timestamp, data, trialNum, totalTrials, flag == 1, nextProbeIn, tone, puff, led, fs[9]))
  }

  /** Ten fields joined: each but the last followed by one comma. */
  lemma JoinTen(f0: string, f1: string, f2: string, f3: string, f4: string,
                f5: string, f6: string, f7: string, f8: string, f9: string)
    ensures Join([f0, f1, f2, f3, f4, f5, f6, f7, f8, f9])
         == f0 + "," + f1 + "," + f2 + "," + f3 + "," + f4 + "," + f5 + "," + f6 + "," + f7 + "," + f8 + "," + f9
  {
    var fs := [f0, f1, f2, f3, f4, f5, f6, f7, f8, f9];
    assert Join(fs[..1]) == fs[0];
    assert Join(fs[..2]) == Join(fs[..1]) + "," + fs[1] by { assert fs[..2][..1] == fs[..1]; }
    assert Join(fs[..3]) == Join(fs[..2]) + "," + fs[2] by { assert fs[..3][..2] == fs[..2]; }
    assert Join(fs[..4]) == Join(fs[..3]) + "," + fs[3] by { assert fs[..4][..3] == fs[..3]; }
    assert Join(fs[..5]) == Join(fs[..4]) + "," + fs[4] by { assert fs[..5][..4] == fs[..4]; }
    assert Join(fs[..6]) == Join(fs[..5]) + "," + fs[5] by { assert fs[..6][..5] == fs[..5]; }
    assert Join(fs[..7]) == Join(fs[..6]) + "," + fs[6] by { assert fs[..7][..6] == fs[..6]; }
    assert Join(fs[..8]) == Join(fs[..7]) + "," + fs[7] by { assert fs[..8][..7] == fs[..7]; }
    assert Join(fs[..9]) == Join(fs[..8]) + "," + fs[8] by { assert fs[..9][..8] == fs[..8]; }
    assert Join(fs[..10]) == Join(fs[..9]) + "," + fs[9] by { assert fs[..10][..9] == fs[..9]; }
    assert fs[..10] == fs;
  }

  /** The ten fields of a sample, listed one by one in the order the format string prints them. */
  lemma FieldsOfDisplay(s: Sample)
    ensures FieldsOf(s) == [Field(s.timestamp, 6), Field(s.data, 5), Field(s.trialNum, 3), Field(s.totalTrials, 3),
                            Field(Flag(s.csPlus), 2), Field(s.nextProbeIn, 2), Field(s.tone, 1), Field(s.puff, 1),
                            Field(s.led, 1), s.status]
  {
    RenderDisplay(Field, Numbers(s), s.status);
  }

  /** The line is the ten fields in order, separated by exactly nine commas. */
  lemma FormatLineJoinsFields(s: Sample)
    ensures FormatLine(s) == Join(FieldsOf(s))
  {
    FieldsOfDisplay(s);
    JoinTen(Field(s.timestamp, 6), Field(s.data, 5), Field(s.trialNum, 3), Field(s.totalTrials, 3),
            Field(Flag(s.csPlus), 2), Field(s.nextProbeIn, 2), Field(s.tone, 1), Field(s.puff, 1),
            Field(s.led, 1), s.status);
  }

  /** Ten comma-free fields joined by commas split back into the same ten fields. */
  lemma SplitTen(f0: string, f1: string, f2: string, f3: string, f4: string, f5: string, f6: string, f7: string, f8: string, f9: string)
    requires ',' !in f0 && ',' !in f1 && ',' !in f2 && ',' !in f3 && ',' !in f4
    requires ',' !in f5 && ',' !in f6 && ',' !in f7 && ',' !in f8 && ',' !in f9
    ensures Split(f0 + "," + f1 + "," + f2 + "," + f3 + "," + f4 + "," + f5 + "," + f6 + "," + f7 + "," + f8 + "," + f9)
         == [f0, f1, f2, f3, f4, f5, f6, f7, f8, f9]
  {
    var fs := [f0, f1, f2, f3, f4, f5, f6, f7, f8, f9];
    JoinTen(f0, f1, f2, f3, f4, f5, f6, f7, f8, f9);
    SplitJoin(fs);
  }

  /** Ten fields that each read back as the corresponding value of `s` parse as `s`. */
  lemma ParseTen(s: Sample, f0: string, f1: string, f2: string, f3: string, f4: string,
                 f5: string, f6: string, f7: string, f8: string)
    requires ',' !in f0 && ',' !in f1 && ',' !in f2 && ',' !in f3 && ',' !in f4
    requires ',' !in f5 && ',' !in f6 && ',' !in f7 && ',' !in f8 && ',' !in s.status
    requires ParseField(f0) == Some(s.timestamp as int) && ParseField(f1) == Some(s.data)
    requires ParseField(f2) == Some(s.trialNum) && ParseField(f3) == Some(s.totalTrials)
    requires ParseField(f4) == Some(Flag(s.csPlus)) && ParseField(f5) == Some(s.nextProbeIn)
    requires ParseField(f6) == Some(s.tone) && ParseField(f7) == Some(s.puff) && ParseField(f8) == Some(s.led)
    ensures ParseLine(f0 + "," + f1 + "," + f2 + "," + f3 + "," + f4 + "," + f5 + "," + f6 + "," + f7 + "," + f8 + "," + s.status)
         == Some(s)
  {
    SplitTen(f0, f1, f2, f3, f4, f5, f6, f7, f8, s.status);
  }

  /** Parsing a printed line gives back the sample, provided its status holds no comma. */
  lemma LineRoundTrip(s: Sample)
    requires ',' !in s.status
    ensures ParseLine(FormatLine(s)) == Some(s)
  {
    FieldHasNoComma(s.timestamp, 6); FieldHasNoComma(s.data, 5);
    FieldHasNoComma(s.trialNum, 3); FieldHasNoComma(s.totalTrials, 3);
    FieldHasNoComma(Flag(s.csPlus), 2); FieldHasNoComma(s.nextProbeIn, 2);
    FieldHasNoComma(s.tone, 1); FieldHasNoComma(s.puff, 1); FieldHasNoComma(s.led, 1);
    FieldRoundTrip(s.timestamp, 6); FieldRoundTrip(s.data, 5);
    FieldRoundTrip(s.trialNum, 3); FieldRoundTrip(s.totalTrials, 3);
    FieldRoundTrip(Flag(s.csPlus), 2); FieldRoundTrip(s.nextProbeIn, 2);
    FieldRoundTrip(s.tone, 1); FieldRoundTrip(s.puff, 1); FieldRoundTrip(s.led, 1);
    ParseTen(s, Field(s.timestamp, 6), Field(s.data, 5), Field(s.trialNum, 3), Field(s.totalTrials, 3),
      Field(Flag(s.csPlus), 2), Field(s.nextProbeIn, 2), Field(s.tone, 1), Field(s.puff, 1), Field(s.led, 1));
  }

  /** Size of the stack buffer `msg` that `sprintf` writes into, terminator included. */
  const MSG_SIZE: nat := 40

  /** Every value fits the width of its conversion and the status is four characters. */
  predicate FitsLayout(s: Sample) {
    && FitsWidth(s.timestamp, 6) && FitsWidth(s.data, 5)
    && FitsWidth(s.trialNum, 3) && FitsWidth(s.totalTrials, 3) && FitsWidth(s.nextProbeIn, 2)
    && FitsWidth(s.tone, 1) && FitsWidth(s.puff, 1) && FitsWidth(s.led, 1)
    && |s.status| == 4
  }

  /** Lengths of the ten fields of a line, widths of the conversions included. */
  lemma FieldLengths(s: Sample)
    ensures |FormatLine(s)| == |Field(s.timestamp, 6)| + |Field(s.data, 5)| + |Field(s.trialNum, 3)|
      + |Field(s.totalTrials, 3)| + |Field(Flag(s.csPlus), 2)| + |Field(s.nextProbeIn, 2)|
      + |Field(s.tone, 1)| + |Field(s.puff, 1)| + |Field(s.led, 1)| + |s.status| + 9
  {
  }

  /**
   * A sample that fits the layout prints as a line of exactly 37 characters,
   * which with its terminator fits `msg`; one that does not fit prints longer.
   */
  lemma LineLength(s: Sample)
    requires |s.status| == 4
    ensures 37 <= |FormatLine(s)|
    ensures |FormatLine(s)| == 37 <==> FitsLayout(s)
    ensures FitsLayout(s) ==> |FormatLine(s)| + 1 <= MSG_SIZE
  {
    FieldLengths(s);
    FieldWidth(s.timestamp, 6); FieldWidth(s.data, 5);
    FieldWidth(s.trialNum, 3); FieldWidth(s.totalTrials, 3);
    FieldWidth(Flag(s.csPlus), 2); FieldWidth(s.nextProbeIn, 2);
    FieldWidth(s.tone, 1); FieldWidth(s.puff, 1); FieldWidth(s.led, 1);
  }

  lemma ExampleCounters()
    ensures Field(123, 6) == "   123" && Field(7, 5) == "    7" && Field(4, 3) == "  4"
  {
  }

  lemma ExampleSettings()
    ensures Field(40, 3) == " 40" && Field(1, 2) == " 1" && Field(2, 2) == " 2"
  {
  }

  lemma ExampleConcatenation()
    ensures "   123" + "," + "    7" + "," + "  4" + "," + " 40" + "," + " 1" + "," + " 2" + ","
          + "3" + "," + "0" + "," + "1" + "," + "CS__"
         == "   123,    7,  4, 40, 1, 2,3,0,1,CS__"
  {
  }

  /** The worked example of the telemetry layout. */
  lemma ExampleLine()
    ensures FormatLine(Sample(123, 7, 4, 40, true, 2, 3, 0, 1, "CS__"))
         == "   123,    7,  4, 40, 1, 2,3,0,1,CS__"
  {
    ExampleCounters();
    ExampleSettings();
    assert Field(3, 1) == "3" && Field(0, 1) == "0" && Field(1, 1) == "1";
    ExampleConcatenation();
  }

  lemma Pow10Values()
    ensures Pow10(1) == 10 && Pow10(4) == 10000 && Pow10(5) == 100000
    ensures Pow10(6) == 1000000 && Pow10(10) == 10000000000
  {
  }

  /**
   * `%1d` only sets a minimum width: a reading of 1023 prints four digits, and
   * three such readings make a 46-character line that overruns `msg`.
   */
  lemma LineOverflowsMsg()
    ensures |FormatLine(Sample(0, 0, 0, 0, false, 0, 1023, 1023, 1023, "PRE_"))| == 46
    ensures |FormatLine(Sample(0, 0, 0, 0, false, 0, 1023, 1023, 1023, "PRE_"))| + 1 > MSG_SIZE
  {
  }

  /** A buffer large enough for every line the AVR's value ranges allow. */
  const WIDE_MSG_SIZE: nat := 62

  /** The values a sample can take on the AVR, where the status comes from a `char[5]`. */
  predicate InAvrRange(s: Sample) {
    && s.timestamp <= UINT32_MAX
    && INT16_MIN <= s.data <= INT16_MAX && INT16_MIN <= s.trialNum <= INT16_MAX
    && INT16_MIN <= s.totalTrials <= INT16_MAX && INT16_MIN <= s.nextProbeIn <= INT16_MAX
    && 0 <= s.tone <= 1023 && 0 <= s.puff <= 1023 && 0 <= s.led <= 1023
    && |s.status| <= 4
  }

  /** Every line the AVR can produce, terminator included, fits `WIDE_MSG_SIZE` bytes. */
  lemma LineFitsWideMsg(s: Sample)
    requires InAvrRange(s)
    ensures |FormatLine(s)| + 1 <= WIDE_MSG_SIZE
  {
    FieldLengths(s);
    Pow10Values();
    FieldAtMost(s.timestamp, 6, 10);
    FieldAtMost(s.data, 5, 6); FieldAtMost(s.trialNum, 3, 6);
    FieldAtMost(s.totalTrials, 3, 6); FieldAtMost(s.nextProbeIn, 2, 6);
    FieldAtMost(Flag(s.csPlus), 2, 2);
    FieldAtMost(s.tone, 1, 4); FieldAtMost(s.puff, 1, 4); FieldAtMost(s.led, 1, 4);
  }
}
