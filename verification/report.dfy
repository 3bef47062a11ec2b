/**
 The gist text of `src/index.ts`: per-bucket percentages over `sumCommit`,
 the "early"/"night" title, and four aligned report lines.

 `generateBarChart` and `Number.prototype.toFixed(1)` are parameters (`bar`
 and `fixed1`): nothing is assumed about the strings they return except,
 where stated, that they hold no line break.
 */
module Report {
  import opened JsText
  import opened Activity

  // ---------------------------------------------------------------------------
  // Percentages

  /** A commit total that passed the `if (!sumCommit) return;` guard. */
  type Positive = n: nat | n > 0 witness 1

  /** `commits / sumCommit * 100`, in exact arithmetic: how many hundredths of `sum` the commits make up. */
  function Percent(commits: nat, sum: Positive): (p: real)
    ensures p >= 0.0
    ensures p * sum as real == commits as real * 100.0
  {
    commits as real / sum as real * 100.0
  }

  /** A share of the total lies in [0, 100]; it is 0 or 100 only for none or all of it. */
  lemma PercentRange(commits: nat, sum: Positive)
    requires commits <= sum
    ensures 0.0 <= Percent(commits, sum) <= 100.0
    ensures Percent(commits, sum) == 100.0 <==> commits == sum
    ensures Percent(commits, sum) == 0.0 <==> commits == 0
  {
    var q := commits as real / sum as real;
    assert q * sum as real == commits as real;
    if commits < sum {
      assert q < 1.0;
    }
  }

  /** A bucket's percentage of the commits that were counted. */
  function BucketPercent(c: Counters, b: Bucket): (p: real)
    requires Total(c) > 0
    ensures 0.0 <= p <= 100.0
  {
    PercentRange(CommitsOf(c, b), Total(c));
    Percent(CommitsOf(c, b), Total(c))
  }

  lemma AddShares(x: real, y: real, t: real)
    requires t > 0.0
    ensures x / t + y / t == (x + y) / t
  {
    assert (x / t) * t == x;
    assert (y / t) * t == y;
    assert ((x + y) / t) * t == x + y;
    assert (x / t + y / t) * t == x + y;
  }

  /** Four parts of a positive whole make up all of it. */
  lemma SharesSum(m: real, d: real, e: real, n: real, t: real)
    requires t > 0.0 && m + d + e + n == t
    ensures m / t + d / t + e / t + n / t == 1.0
  {
    AddShares(m, d, t);
    AddShares(m + d, e, t);
    AddShares(m + d + e, n, t);
  }

  /** The four percentages of a report add up to exactly 100. */
  lemma PercentsSumTo100(c: Counters)
    requires Total(c) > 0
    ensures BucketPercent(c, Morning) + BucketPercent(c, Daytime)
          + BucketPercent(c, Evening) + BucketPercent(c, Night) == 100.0
  {
    var t := Total(c) as real;
    SharesSum(c.morning as real, c.daytime as real, c.evening as real, c.night as real, t);
  }

  // ---------------------------------------------------------------------------
  // Title

  const EarlyTitle: string := "I'm an early \U{1F424}"
  const NightTitle: string := "I'm a night \U{1F989}"

  /** The gist file name: "early" exactly for a strict majority of morning and daytime commits; a tie is "night". */
  function Title(c: Counters): (t: string)
    ensures t == EarlyTitle <==> c.morning + c.daytime > c.evening + c.night
    ensures t == NightTitle <==> c.morning + c.daytime <= c.evening + c.night
  {
    assert EarlyTitle[6] != NightTitle[6];
    if c.morning + c.daytime > c.evening + c.night then EarlyTitle else NightTitle
  }

  // ---------------------------------------------------------------------------
  // Report lines

  function Label(b: Bucket): string
  {
    match b
    case Morning => "\U{1F31E} Morning"
    case Daytime => "\U{1F306} Daytime"
    case Evening => "\U{1F303} Evening"
    case Night => "\U{1F319} Night"
  }

  /** `label.padEnd(10)`: the label, then spaces up to 10 code units. */
  function LabelField(text: string): (r: string)
    ensures Units(r) == Max(Units(text), 10)
    ensures |r| >= |text| && r[..|text|] == text
    ensures r[|text|..] == Spaces(|r| - |text|)
  {
    PadEnd(text, 10)
  }

  /**
   `` `${commits.toString().padStart(5)} commits`.padEnd(14) ``: at least 14
   code units; below 100000 commits, the count right-aligned in 5 columns,
   " commits" and one space; from 100000 on, the digits and " commits" with
   no padding at all.
   */
  function CountField(commits: nat): (r: string)
    ensures Units(r) >= 14
    ensures commits < 100000 ==> r == PadStart(NatToString(commits), 5) + " commits" + " " && Units(r) == 14
    ensures commits >= 100000 ==> r == NatToString(commits) + " commits"
  {
    if commits < 100000 then
      CountPadding(commits);
      PadEnd(PadStart(NatToString(commits), 5) + " commits", 14)
    else
      CountNoPadding(commits);
      PadEnd(PadStart(NatToString(commits), 5) + " commits", 14)
  }

  /** `String(percent.toFixed(1)).padStart(5) + '%'`: the text right-aligned in 5 code units, then a percent sign. */
  function PercentField(text: string): (r: string)
    ensures Units(r) == Max(Units(text), 5) + 1
    ensures |r| > |text| && r[|r| - 1] == '%'
    ensures r[|r| - 1 - |text|..|r| - 1] == text
    ensures r[..|r| - 1 - |text|] == Spaces(|r| - 1 - |text|)
  {
    var head := PadStart(text, 5);
    UnitsAppend(head, "%");
    assert Units("%") == 1;
    assert (head + "%")[..|head|] == head;
    assert (head + "%")[..|head| - |text|] == head[..|head| - |text|];
    head + "%"
  }

  /** One entry of the `oneDay` array. */
  datatype Row = Row(caption: string, commits: nat)

  /** The `oneDay` array: the buckets in the order of a day, each with its label and count. */
  function OneDay(c: Counters): (rows: seq<Row>)
    ensures |rows| == |Order|
    ensures forall i :: 0 <= i < |Order| ==> rows[i] == Row(Label(Order[i]), CommitsOf(c, Order[i]))
  {
    [Row(Label(Morning), c.morning), Row(Label(Daytime), c.daytime),
     Row(Label(Evening), c.evening), Row(Label(Night), c.night)]
  }

  /** The reducer's line: label field, count field, bar of width 21 and percent field, separated by single spaces. */
  function FormatLine(row: Row, sum: Positive, bar: (real, nat) -> string, fixed1: real -> string): (r: string)
    ensures var p := Percent(row.commits, sum);
      r == LabelField(row.caption) + " " + CountField(row.commits) + " " + bar(p, 21) + " " + PercentField(fixed1(p))
  {
    var p := Percent(row.commits, sum);
    JoinFour(LabelField(row.caption), CountField(row.commits), bar(p, 21), PercentField(fixed1(p)), " ");
    Join([LabelField(row.caption), CountField(row.commits), bar(p, 21), PercentField(fixed1(p))], " ")
  }

  /** `rows.reduce((prev, cur) => [...prev, line(cur)], prev)`. */
  function ReduceLines<T>(prev: seq<string>, rows: seq<T>, line: T -> string): (ls: seq<string>)
    ensures |ls| == |prev| + |rows|
    ensures ls[..|prev|] == prev
    ensures forall i :: 0 <= i < |rows| ==> ls[|prev| + i] == line(rows[i])
    decreases |rows|
  {
    if |rows| == 0 then prev
    else
      var next := prev + [line(rows[0])];
      var ls := ReduceLines(next, rows[1..], line);
      assert ls[..|prev|] == ls[..|next|][..|prev|];
      ls
  }

  /** The `lines` array: one formatted line per bucket, Morning first. */
  function Lines(c: Counters, bar: (real, nat) -> string, fixed1: real -> string): (ls: seq<string>)
    requires Total(c) > 0
    ensures |ls| == 4
    ensures forall i :: 0 <= i < 4 ==> ls[i] == FormatLine(OneDay(c)[i], Total(c), bar, fixed1)
  {
    var sum: Positive := Total(c);
    ReduceLines([], OneDay(c), row => FormatLine(row, sum, bar, fixed1))
  }

  /** `lines.join('\n')`, the gist content: the four lines with a line break between neighbours. */
  function ReportText(c: Counters, bar: (real, nat) -> string, fixed1: real -> string): (r: string)
    requires Total(c) > 0
    ensures var ls := Lines(c, bar, fixed1);
      r == ls[0] + "\n" + ls[1] + "\n" + ls[2] + "\n" + ls[3]
  {
    var ls := Lines(c, bar, fixed1);
    JoinOfFour(ls, "\n");
    Join(ls, "\n")
  }

  // ---------------------------------------------------------------------------
  // Properties of the report

  /** Morning, Daytime and Evening labels are 10 code units already; Night gets two spaces. */
  lemma LabelWidth(b: Bucket)
    ensures Units(LabelField(Label(b))) == 10
    ensures b != Night ==> LabelField(Label(b)) == Label(b)
    ensures b == Night ==> LabelField(Label(b)) == Label(b) + "  "
  {
    var l := Label(b);
    var emoji, text := l[0], l[1..];
    assert l == [emoji] + text;
    EmojiUnits(emoji, text);
    if b == Night {
      assert |text| == 6;
      assert Spaces(2) == "  ";
    } else {
      assert |text| == 8;
    }
  }

  lemma LabelFree(b: Bucket)
    ensures '\n' !in Label(b)
  {
  }

  /** A label is one emoji, two code units, followed by plain text. */
  lemma EmojiUnits(emoji: char, text: string)
    requires emoji as int >= 0x1_0000
    requires forall i :: 0 <= i < |text| ==> text[i] as int < 0x1_0000
    ensures Units([emoji] + text) == 2 + |text|
  {
    UnitsAppend([emoji], text);
    assert [emoji][1..] == [];
    assert Units([emoji]) == 2;
    UnitsBmp(text);
  }

  /** A count below 100000 right-aligned in 5 columns takes exactly 5 code units. */
  lemma CountDigitsWidth(commits: nat)
    requires commits < 100000
    ensures Units(PadStart(NatToString(commits), 5)) == 5
  {
    assert Pow10(5) == 100000;
    NatToStringLength(commits, 5);
    NatToStringUnits(commits);
  }

  lemma SuffixUnits()
    ensures Units(" commits") == 8
  {
    UnitsBmp(" commits");
  }

  /** Below 100000 commits the padded count and " commits" fill 13 code units, so `padEnd(14)` adds one space. */
  lemma CountPadding(commits: nat)
    requires commits < 100000
    ensures PadEnd(PadStart(NatToString(commits), 5) + " commits", 14)
         == PadStart(NatToString(commits), 5) + " commits" + " "
    ensures Units(PadEnd(PadStart(NatToString(commits), 5) + " commits", 14)) == 14
  {
    var head := PadStart(NatToString(commits), 5);
    CountDigitsWidth(commits);
    SuffixUnits();
    UnitsAppend(head, " commits");
    assert Spaces(1) == " ";
  }

  /** From 100000 commits on the digits alone exceed 5 columns and, with " commits", 14. */
  lemma CountNoPadding(commits: nat)
    requires commits >= 100000
    ensures PadEnd(PadStart(NatToString(commits), 5) + " commits", 14) == NatToString(commits) + " commits"
  {
    var digits := NatToString(commits);
    assert Pow10(5) == 100000;
    NatToStringLong(commits, 5);
    NatToStringUnits(commits);
    assert PadStart(digits, 5) == digits;
    SuffixUnits();
    UnitsAppend(digits, " commits");
  }

  lemma {:induction false} JoinFree(parts: seq<string>, sep: string, c: char)
    requires forall i :: 0 <= i < |parts| ==> c !in parts[i]
    requires c !in sep
    ensures c !in Join(parts, sep)
    decreases |parts|
  {
    if |parts| > 1 {
      JoinFree(parts[1..], sep, c);
    }
  }

  lemma PadFree(s: string, width: nat, c: char)
    requires c !in s && c != ' '
    ensures c !in PadEnd(s, width)
    ensures c !in PadStart(s, width)
  {
    var e, st := PadEnd(s, width), PadStart(s, width);
    forall i | 0 <= i < |e|
      ensures e[i] != c
    {
      if i < |s| {
        assert e[i] == e[..|s|][i];
      }
    }
    forall i | 0 <= i < |st|
      ensures st[i] != c
    {
      if i >= |st| - |s| {
        assert st[i] == st[|st| - |s|..][i - (|st| - |s|)];
      }
    }
  }

  /** The label, count and percentage fields add no line break of their own. */
  lemma FieldsFree(row: Row, text: string)
    requires '\n' !in row.caption && '\n' !in text
    ensures '\n' !in LabelField(row.caption)
    ensures '\n' !in CountField(row.commits)
    ensures '\n' !in PercentField(text)
  {
    PadFree(row.caption, 10, '\n');
    var digits := NatToString(row.commits);
    assert '\n' !in digits by {
      forall i | 0 <= i < |digits| ensures digits[i] != '\n' {
        assert IsDigit(digits[i]);
      }
    }
    PadFree(digits, 5, '\n');
    PadFree(PadStart(digits, 5) + " commits", 14, '\n');
    PadFree(text, 5, '\n');
  }

  /** No line holds a line break when the bar and the percentage text hold none. */
  lemma LineFree(row: Row, sum: Positive, bar: (real, nat) -> string, fixed1: real -> string)
    requires '\n' !in row.caption
    requires forall p: real, w: nat :: '\n' !in bar(p, w)
    requires forall p: real :: '\n' !in fixed1(p)
    ensures '\n' !in FormatLine(row, sum, bar, fixed1)
  {
    var p := Percent(row.commits, sum);
    var name, count, chart, percent :=
      LabelField(row.caption), CountField(row.commits), bar(p, 21), PercentField(fixed1(p));
    FieldsFree(row, fixed1(p));
    assert '\n' !in chart;
    JoinFour(name, count, chart, percent, " ");
  }

  /** Splitting the gist content at line breaks gives back exactly the four lines. */
  lemma ReportSplitsIntoLines(c: Counters, bar: (real, nat) -> string, fixed1: real -> string)
    requires Total(c) > 0
    requires forall p: real, w: nat :: '\n' !in bar(p, w)
    requires forall p: real :: '\n' !in fixed1(p)
    ensures Split(ReportText(c, bar, fixed1), '\n') == Lines(c, bar, fixed1)
  {
    var ls := Lines(c, bar, fixed1);
    forall i | 0 <= i < |ls|
      ensures '\n' !in ls[i]
    {
      var row := OneDay(c)[i];
      assert row.caption == Label(Order[i]);
      LabelFree(Order[i]);
      LineFree(row, Total(c), bar, fixed1);
    }
    SplitJoin(ls, '\n');
  }

  /** Line i belongs to the i-th bucket of the day: its label, count, bar and percentage, space separated. */
  lemma LinesInDayOrder(c: Counters, bar: (real, nat) -> string, fixed1: real -> string)
    requires Total(c) > 0
    ensures forall i :: 0 <= i < 4 ==>
      var b := Order[i];
      var p := BucketPercent(c, b);
      Lines(c, bar, fixed1)[i]
        == LabelField(Label(b)) + " " + CountField(CommitsOf(c, b)) + " " + bar(p, 21) + " " + PercentField(fixed1(p))
  {
    assert forall i :: 0 <= i < 4 ==> OneDay(c)[i] == Row(Label(Order[i]), CommitsOf(c, Order[i]));
  }
}
