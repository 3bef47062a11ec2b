/**
 The JavaScript string operations the report relies on, over Dafny strings.

 JavaScript measures strings in UTF-16 code units, so `padEnd` and `padStart`
 see a character outside the Basic Multilingual Plane (every emoji label of the
 report) as two units. `Units` is that measure; the padding functions pad to a
 width in units, exactly as the JavaScript built-ins do.
 */
module JsText {

  /** Number of UTF-16 code units JavaScript uses for one character. */
  function CharUnits(c: char): nat
  {
    if c as int >= 0x1_0000 then 2 else 1
  }

  /** JavaScript's `length` of a string: its UTF-16 code-unit count. */
  function Units(s: string): (n: nat)
    ensures |s| <= n <= 2 * |s|
  {
    if |s| == 0 then 0 else CharUnits(s[0]) + Units(s[1..])
  }

  /** A string of Basic Multilingual Plane characters has one code unit per character. */
  lemma {:induction false} UnitsBmp(s: string)
    requires forall i :: 0 <= i < |s| ==> s[i] as int < 0x1_0000
    ensures Units(s) == |s|
    decreases |s|
  {
    if |s| > 0 {
      UnitsBmp(s[1..]);
    }
  }

  lemma {:induction false} UnitsAppend(a: string, b: string)
    ensures Units(a + b) == Units(a) + Units(b)
    decreases |a|
  {
    if |a| == 0 {
      assert a + b == b;
    } else {
      assert (a + b)[0] == a[0];
      assert (a + b)[1..] == a[1..] + b;
      UnitsAppend(a[1..], b);
    }
  }

  /** `n` space characters. */
  function Spaces(n: nat): (r: string)
    ensures |r| == n
    ensures forall i :: 0 <= i < n ==> r[i] == ' '
    ensures Units(r) == n
  {
    if n == 0 then "" else " " + Spaces(n - 1)
  }

  function Max(a: int, b: int): int
  {
    if a >= b then a else b
  }

  /** `s.padEnd(width)`: `s` followed by spaces up to `width` code units; never truncates. */
  function PadEnd(s: string, width: nat): (r: string)
    ensures Units(r) == Max(Units(s), width)
    ensures |r| >= |s| && r[..|s|] == s
    ensures r[|s|..] == Spaces(|r| - |s|)
  {
    if Units(s) >= width then s
    else
      UnitsAppend(s, Spaces(width - Units(s)));
      s + Spaces(width - Units(s))
  }

  /** `s.padStart(width)`: spaces up to `width` code units followed by `s`; never truncates. */
  function PadStart(s: string, width: nat): (r: string)
    ensures Units(r) == Max(Units(s), width)
    ensures |r| >= |s| && r[|r| - |s|..] == s
    ensures r[..|r| - |s|] == Spaces(|r| - |s|)
  {
    if Units(s) >= width then s
    else
      UnitsAppend(Spaces(width - Units(s)), s);
      Spaces(width - Units(s)) + s
  }

  /** Padding a string that already has the target width is the identity. */
  lemma PadEndIdempotent(s: string, width: nat)
    ensures PadEnd(PadEnd(s, width), width) == PadEnd(s, width)
  {
  }

  lemma PadStartIdempotent(s: string, width: nat)
    ensures PadStart(PadStart(s, width), width) == PadStart(s, width)
  {
  }

  /** Padding either leaves the string alone or extends it to exactly the width. */
  lemma PadNeverTruncates(s: string, width: nat)
    ensures Units(s) >= width ==> PadEnd(s, width) == s && PadStart(s, width) == s
    ensures Units(s) < width ==> Units(PadEnd(s, width)) == width && Units(PadStart(s, width)) == width
    ensures PadEnd(s, width)[..|s|] == s
    ensures PadStart(s, width)[|PadStart(s, width)| - |s|..] == s
  {
  }

  // ---------------------------------------------------------------------------
  // Number.prototype.toString() on a non-negative integer

  function DigitChar(d: nat): (c: char)
    requires d < 10
    ensures '0' <= c <= '9'
    ensures c as int - '0' as int == d
  {
    "0123456789"[d]
  }

  predicate IsDigit(c: char)
  {
    '0' <= c <= '9'
  }

  /**
   Decimal text of `n`, as `n.toString()` prints a non-negative integer below
   10^21 (from there on JavaScript switches to exponent notation).
   */
  function NatToString(n: nat): (s: string)
    ensures |s| >= 1
    ensures forall i :: 0 <= i < |s| ==> IsDigit(s[i])
    ensures s[0] == '0' ==> n == 0
    decreases n
  {
    if n < 10 then [DigitChar(n)] else NatToString(n / 10) + [DigitChar(n % 10)]
  }

  function DigitValue(c: char): nat
    requires IsDigit(c)
  {
    c as int - '0' as int
  }

  /** Value of a string of decimal digits: the partner of `NatToString`. */
  function DecimalValue(s: string): nat
    requires forall i :: 0 <= i < |s| ==> IsDigit(s[i])
  {
    if |s| == 0 then 0
    else 10 * DecimalValue(s[..|s| - 1]) + DigitValue(s[|s| - 1])
  }

  /** Printing a count and reading it back gives the count. */
  lemma {:induction false} NatToStringRoundTrip(n: nat)
    ensures DecimalValue(NatToString(n)) == n
    decreases n
  {
    var s := NatToString(n);
    if n >= 10 {
      assert s[..|s| - 1] == NatToString(n / 10);
      NatToStringRoundTrip(n / 10);
    }
  }

  /** A count below 10^k prints in at most k digits. */
  lemma {:induction false} NatToStringLength(n: nat, k: nat)
    requires n < Pow10(k)
    ensures |NatToString(n)| <= Max(k, 1)
    decreases n
  {
    if n >= 10 {
      assert Pow10(0) == 1 && Pow10(1) == 10;
      assert k >= 2;
      assert Pow10(k) == 10 * Pow10(k - 1);
      NatToStringLength(n / 10, k - 1);
    }
  }

  function Pow10(k: nat): (p: nat)
    ensures p >= 1
  {
    if k == 0 then 1 else 10 * Pow10(k - 1)
  }

  /** A string of k digits has a value below 10^k. */
  lemma {:induction false} DecimalValueBound(s: string)
    requires forall i :: 0 <= i < |s| ==> IsDigit(s[i])
    ensures DecimalValue(s) < Pow10(|s|)
    decreases |s|
  {
    if |s| > 0 {
      DecimalValueBound(s[..|s| - 1]);
    }
  }

  lemma {:induction false} Pow10Monotone(j: nat, k: nat)
    requires j <= k
    ensures Pow10(j) <= Pow10(k)
    decreases k
  {
    if j < k {
      Pow10Monotone(j, k - 1);
    }
  }

  /** A count of at least 10^k prints in more than k digits. */
  lemma NatToStringLong(n: nat, k: nat)
    requires n >= Pow10(k)
    ensures |NatToString(n)| > k
  {
    var d := NatToString(n);
    NatToStringRoundTrip(n);
    DecimalValueBound(d);
    if |d| <= k {
      Pow10Monotone(|d|, k);
      assert false;
    }
  }

  /** Digits are single code units. */
  lemma NatToStringUnits(n: nat)
    ensures Units(NatToString(n)) == |NatToString(n)|
  {
    var s := NatToString(n);
    assert forall i :: 0 <= i < |s| ==> IsDigit(s[i]);
    UnitsBmp(s);
  }

  // ---------------------------------------------------------------------------
  // Array.prototype.join and String.prototype.split

  /** Total number of characters of the parts. */
  function PartsLength(parts: seq<string>): nat
  {
    if |parts| == 0 then 0 else |parts[0]| + PartsLength(parts[1..])
  }

  /**
   `parts.join(sep)`: the parts with one separator between neighbours; the
   empty array joins to the empty string.
   */
  function Join(parts: seq<string>, sep: string): (r: string)
    ensures |parts| == 0 ==> r == ""
    ensures |parts| > 0 ==> |r| == PartsLength(parts) + (|parts| - 1) * |sep|
  {
    if |parts| == 0 then ""
    else if |parts| == 1 then parts[0]
    else parts[0] + sep + Join(parts[1..], sep)
  }

  /** Joining four parts puts one separator between neighbours. */
  lemma JoinFour(a: string, b: string, c: string, d: string, sep: string)
    ensures Join([a, b, c, d], sep) == a + sep + b + sep + c + sep + d
  {
    assert [a, b, c, d][1..] == [b, c, d];
    assert [b, c, d][1..] == [c, d];
    assert [c, d][1..] == [d];
    assert Join([c, d], sep) == c + sep + d;
    assert Join([b, c, d], sep) == b + sep + (c + sep + d);
    assert Join([a, b, c, d], sep) == a + sep + (b + sep + (c + sep + d));
  }

  lemma JoinOfFour(parts: seq<string>, sep: string)
    requires |parts| == 4
    ensures Join(parts, sep) == parts[0] + sep + parts[1] + sep + parts[2] + sep + parts[3]
  {
    assert parts == [parts[0], parts[1], parts[2], parts[3]];
    JoinFour(parts[0], parts[1], parts[2], parts[3], sep);
  }

  /** `s.split(c)` for a one-character separator: always at least one piece. */
  function Split(s: string, c: char): (r: seq<string>)
    ensures |r| >= 1
    decreases |s|
  {
    if |s| == 0 then [""]
    else if s[0] == c then [""] + Split(s[1..], c)
    else
      var rest := Split(s[1..], c);
      [[s[0]] + rest[0]] + rest[1..]
  }

  lemma {:induction false} SplitFree(a: string, c: char)
    requires c !in a
    ensures Split(a, c) == [a]
    decreases |a|
  {
    if |a| > 0 {
      assert a[1..] + [] == a[1..];
      SplitFree(a[1..], c);
      assert [a[0]] + a[1..] == a;
    }
  }

  lemma {:induction false} SplitAtFirst(a: string, c: char, b: string)
    requires c !in a
    ensures Split(a + [c] + b, c) == [a] + Split(b, c)
    decreases |a|
  {
    var s := a + [c] + b;
    if |a| == 0 {
      assert s[0] == c && s[1..] == b;
    } else {
      assert s[0] == a[0];
      assert s[1..] == a[1..] + [c] + b;
      SplitAtFirst(a[1..], c, b);
      assert [a[0]] + a[1..] == a;
    }
  }

  /** Splitting lines joined with a separator that none of them contains gives the lines back. */
  lemma {:induction false} SplitJoin(parts: seq<string>, c: char)
    requires |parts| >= 1
    requires forall i :: 0 <= i < |parts| ==> c !in parts[i]
    ensures Split(Join(parts, [c]), c) == parts
    decreases |parts|
  {
    if |parts| == 1 {
      SplitFree(parts[0], c);
    } else {
      SplitJoin(parts[1..], c);
      SplitAtFirst(parts[0], c, Join(parts[1..], [c]));
      assert [parts[0]] + parts[1..] == parts;
    }
  }

  /** `${x}` in a template literal: an undefined value prints as "undefined". */
  function Interpolate(x: Option<string>): string
  {
    match x
    case Some(s) => s
    case None => "undefined"
  }

  /** A JavaScript value that may be `undefined`. */
  datatype Option<+T> = None | Some(value: T)
}
