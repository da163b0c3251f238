/** The string operations the pipeline relies on: Python's `str.strip()`,
    `" ".join(...)`, and the line-by-line layout of the files it writes. */
module Text {

  /** Python's `str.isspace()` for one character: the ASCII whitespace and
      separator controls plus the Unicode space separators and line breaks. */
  predicate IsSpace(c: char)
  {
    var n := c as int;
    || 0x09 <= n <= 0x0D || 0x1C <= n <= 0x20 || n == 0x85 || n == 0xA0 || n == 0x1680
    || 0x2000 <= n <= 0x200A || n == 0x2028 || n == 0x2029 || n == 0x202F || n == 0x205F
    || n == 0x3000
  }

  /** Every character of `s` is whitespace (vacuously true of ""). */
  predicate AllSpace(s: string)
  {
    forall i :: 0 <= i < |s| ==> IsSpace(s[i])
  }

  /** Where the whitespace run starting at `i` ends: the first position at
      or after `i` that does not hold whitespace, or `|s|`. */
  function SkipSpace(s: string, i: nat): (k: nat)
    requires i <= |s|
    ensures i <= k <= |s|
    ensures forall j :: i <= j < k ==> IsSpace(s[j])
    ensures k < |s| ==> !IsSpace(s[k])
    decreases |s| - i
  {
    if i < |s| && IsSpace(s[i]) then SkipSpace(s, i + 1) else i
  }

  /** Where the whitespace run ending at `j` starts, scanning back no further
      than `lo`: the position after the last non-whitespace character of
      `s[lo..j]`, or `lo`. */
  function BackSpace(s: string, lo: nat, j: nat): (k: nat)
    requires lo <= j <= |s|
    ensures lo <= k <= j
    ensures forall m :: k <= m < j ==> IsSpace(s[m])
    ensures k > lo ==> !IsSpace(s[k - 1])
    decreases j - lo
  {
    if j > lo && IsSpace(s[j - 1]) then BackSpace(s, lo, j - 1) else j
  }

  /** `s.strip()`: `s` with leading and trailing whitespace removed. */
  function Strip(s: string): (r: string)
    ensures r == [] || (!IsSpace(r[0]) && !IsSpace(r[|r| - 1]))
  {
    var i := SkipSpace(s, 0);
    s[i..BackSpace(s, i, |s|)]
  }

  /** `Strip(s)` is a contiguous piece of `s` and only whitespace was cut off
      on either side of it. */
  lemma StripIsInfix(s: string)
    ensures exists i :: 0 <= i <= |s| - |Strip(s)|
              && Strip(s) == s[i..i + |Strip(s)|]
              && AllSpace(s[..i]) && AllSpace(s[i + |Strip(s)|..])
  {
    var i := SkipSpace(s, 0);
    var k := BackSpace(s, i, |s|);
    assert Strip(s) == s[i..k];
    assert AllSpace(s[..i]) && AllSpace(s[k..]);
  }

  /** The stripped text is empty exactly when the text is all whitespace:
      the test `if result["text"].strip():` in both directions. */
  lemma StripEmptyIffAllSpace(s: string)
    ensures Strip(s) == [] <==> AllSpace(s)
  {
    var i := SkipSpace(s, 0);
    var k := BackSpace(s, i, |s|);
    if Strip(s) == [] {
      assert k == i;
      forall j | 0 <= j < |s|
        ensures IsSpace(s[j])
      {
        if j >= i {
          assert k <= j;
        }
      }
    }
  }

  /** The whitespace scan stops exactly at `k` when `k` is the first
      non-whitespace position. */
  lemma {:induction false} SkipSpaceAt(s: string, i: nat, k: nat)
    requires i <= k <= |s|
    requires forall j :: i <= j < k ==> IsSpace(s[j])
    requires k < |s| ==> !IsSpace(s[k])
    ensures SkipSpace(s, i) == k
    decreases k - i
  {
    if i < k {
      SkipSpaceAt(s, i + 1, k);
    }
  }

  /** The backward scan stops exactly at `k` when `s[k - 1]` is the last
      non-whitespace character before `j`. */
  lemma {:induction false} BackSpaceAt(s: string, lo: nat, k: nat, j: nat)
    requires lo <= k <= j <= |s|
    requires forall m :: k <= m < j ==> IsSpace(s[m])
    requires k > lo ==> !IsSpace(s[k - 1])
    ensures BackSpace(s, lo, j) == k
    decreases j - k
  {
    if k < j {
      BackSpaceAt(s, lo, k, j - 1);
    }
  }

  /** Conversely, stripping a text that neither starts nor ends with
      whitespace, surrounded by whitespace only, gives back that text: with
      `StripIsInfix` this pins `Strip` down. */
  lemma StripFrame(p: string, t: string, q: string)
    requires AllSpace(p) && AllSpace(q)
    requires t != [] && !IsSpace(t[0]) && !IsSpace(t[|t| - 1])
    ensures Strip(p + t + q) == t
  {
    var s := p + t + q;
    var i := |p|;
    var k := |p| + |t|;
    assert forall j :: 0 <= j < i ==> s[j] == p[j];
    assert forall j :: i <= j < k ==> s[j] == t[j - i];
    assert forall j :: k <= j < |s| ==> s[j] == q[j - k];
    SkipSpaceAt(s, 0, i);
    BackSpaceAt(s, i, k, |s|);
    assert s[i..k] == t;
  }

  /** Stripping twice is stripping once. */
  lemma StripIdempotent(s: string)
    ensures Strip(Strip(s)) == Strip(s)
  {
    var r := Strip(s);
    if r != [] {
      StripFrame([], r, []);
      assert [] + r + [] == r;
    }
  }

  /** Sum of the lengths of the strings in `xs`. */
  function TotalLength(xs: seq<string>): nat
  {
    if |xs| == 0 then 0 else |xs[0]| + TotalLength(xs[1..])
  }

  /** `" ".join(xs)`: the strings in order with one space between neighbours. */
  function Join(xs: seq<string>): (r: string)
    ensures |xs| == 0 ==> r == ""
    ensures |xs| > 0 ==> |r| == TotalLength(xs) + |xs| - 1
  {
    if |xs| == 0 then ""
    else if |xs| == 1 then xs[0]
    else xs[0] + " " + Join(xs[1..])
  }

  /** Where the `i`-th string starts inside `Join(xs)`: everything before it
      plus one separator per earlier string. */
  function Offset(xs: seq<string>, i: nat): nat
    requires i <= |xs|
  {
    TotalLength(xs[..i]) + i
  }

  /** `Join(xs)` holds `xs[i]` at `Offset(xs, i)`, followed by exactly one
      space unless it is the last string. */
  predicate Placed(xs: seq<string>, i: nat)
    requires i < |xs|
  {
    var o := Offset(xs, i);
    && o + |xs[i]| <= |Join(xs)|
    && Join(xs)[o..o + |xs[i]|] == xs[i]
    && (i < |xs| - 1 ==> o + |xs[i]| < |Join(xs)| && Join(xs)[o + |xs[i]|] == ' ')
  }

  /** Every string of `xs` is placed in `Join(xs)`; together with the length
      clause of `Join` this pins the joined text down completely. */
  lemma {:induction false} JoinLayout(xs: seq<string>, i: nat)
    requires i < |xs|
    ensures Placed(xs, i)
    decreases |xs|
  {
    if i == 0 {
      JoinFirst(xs);
    } else {
      JoinLayout(xs[1..], i - 1);
      JoinShift(xs, i);
    }
  }

  /** The first string opens the joined text. */
  lemma JoinFirst(xs: seq<string>)
    requires |xs| > 0
    ensures Placed(xs, 0)
  {
    assert xs[..0] == [];
    if |xs| > 1 {
      assert Join(xs) == xs[0] + (" " + Join(xs[1..]));
      SliceOfAppend(xs[0], " " + Join(xs[1..]), 0);
    }
  }

  /** A string placed in the join of the tail is placed in the join of the
      whole, shifted by the first string and its separator. */
  lemma JoinShift(xs: seq<string>, i: nat)
    requires 0 < i < |xs|
    requires Placed(xs[1..], i - 1)
    ensures Placed(xs, i)
  {
    var tail := xs[1..];
    OffsetStep(xs, i);
    assert xs[i] == tail[i - 1];
    assert Join(xs) == (xs[0] + " ") + Join(tail);
    SliceOfAppend(xs[0] + " ", Join(tail), Offset(tail, i - 1));
  }

  /** One step of `Offset`: the first string and its separator come first. */
  lemma OffsetStep(xs: seq<string>, i: nat)
    requires 0 < i <= |xs|
    ensures Offset(xs, i) == |xs[0]| + 1 + Offset(xs[1..], i - 1)
  {
    assert xs[..i][1..] == xs[1..][..i - 1];
  }

  /** Concatenation is associative. */
  lemma AppendAssoc<T>(a: seq<T>, b: seq<T>, c: seq<T>)
    ensures (a + b) + c == a + (b + c)
  {
  }

  /** Reading inside the second part of a concatenation. */
  lemma SliceOfAppend(p: string, q: string, a: nat)
    requires a <= |q|
    ensures forall b :: a <= b <= |q| ==> (p + q)[|p| + a..|p| + b] == q[a..b]
    ensures a < |q| ==> (p + q)[|p| + a] == q[a]
    ensures (p + q)[..|p|] == p
  {
  }

  /** Joining one more string appends a space and that string. */
  lemma {:induction false} JoinSnoc(xs: seq<string>, x: string)
    requires |xs| > 0
    ensures Join(xs + [x]) == Join(xs) + " " + x
    decreases |xs|
  {
    if |xs| == 1 {
      assert xs + [x] == [xs[0], x];
    } else {
      assert (xs + [x])[1..] == xs[1..] + [x];
      JoinSnoc(xs[1..], x);
    }
  }

  /** `n` copies of `c`: Python's `c * n`. */
  function Repeat(c: char, n: nat): (r: string)
    ensures |r| == n && forall i :: 0 <= i < n ==> r[i] == c
  {
    seq(n, _ => c)
  }

  /** The text of a file written as `f.write(line + "\n")` for each line. */
  function Unlines(lines: seq<string>): (r: string)
    ensures |r| == TotalLength(lines) + |lines|
  {
    if |lines| == 0 then "" else lines[0] + "\n" + Unlines(lines[1..])
  }

  /** The lines of a text: split at every newline; a final newline does not
      start another line. */
  function Lines(s: string): seq<string>
    decreases |s|
  {
    if |s| == 0 then []
    else LinesFrom(s, 0)
  }

  /** Splits `s[from..]` at the first newline and recurses on the rest. */
  function LinesFrom(s: string, from: nat): seq<string>
    requires from < |s|
    decreases |s| - from
  {
    var k := FirstNewline(s, from);
    if k + 1 >= |s| then [s[from..k]] else [s[from..k]] + LinesFrom(s, k + 1)
  }

  /** Index of the first newline at or after `from`, or `|s|` if there is none. */
  function FirstNewline(s: string, from: nat): (k: nat)
    requires from <= |s|
    ensures from <= k <= |s|
    ensures forall j :: from <= j < k ==> s[j] != '\n'
    ensures k < |s| ==> s[k] == '\n'
    decreases |s| - from
  {
    if from == |s| || s[from] == '\n' then from else FirstNewline(s, from + 1)
  }

  /** A line of a written file never contains a newline itself. */
  predicate IsLine(l: string)
  {
    forall i :: 0 <= i < |l| ==> l[i] != '\n'
  }

  /** Writing two groups of lines one after the other writes their texts in turn. */
  lemma {:induction false} UnlinesAppend(a: seq<string>, b: seq<string>)
    ensures Unlines(a + b) == Unlines(a) + Unlines(b)
    decreases |a|
  {
    if |a| == 0 {
      assert a + b == b;
    } else {
      assert (a + b)[1..] == a[1..] + b;
      UnlinesAppend(a[1..], b);
    }
  }

  /** Reading back a file whose lines hold no newline gives those lines. */
  lemma LinesUnlines(lines: seq<string>)
    requires forall i :: 0 <= i < |lines| ==> IsLine(lines[i])
    ensures Lines(Unlines(lines)) == lines
  {
    LinesAfterUnlines(lines, "");
    assert Unlines(lines) + "" == Unlines(lines);
    assert lines + [] == lines;
  }

  /** Reading back a text that starts with lines holding no newline gives
      those lines, followed by the lines of whatever text comes after them,
      however many line breaks that text holds. */
  lemma {:induction false} LinesAfterUnlines(lines: seq<string>, rest: string)
    requires forall i :: 0 <= i < |lines| ==> IsLine(lines[i])
    ensures Lines(Unlines(lines) + rest) == lines + Lines(rest)
    decreases |lines|
  {
    if |lines| == 0 {
      assert Unlines(lines) + rest == rest;
    } else {
      var l, more := lines[0], lines[1..];
      assert Unlines(lines) == l + "\n" + Unlines(more);
      AppendAssoc(l + "\n", Unlines(more), rest);
      LinesCons(l, Unlines(more) + rest);
      assert forall i :: 0 <= i < |more| ==> more[i] == lines[i + 1];
      LinesAfterUnlines(more, rest);
      assert lines == [l] + more;
      AppendAssoc([l], more, Lines(rest));
    }
  }

  /** A first line without a newline, ended by one, is read back first. */
  lemma LinesCons(l: string, tail: string)
    requires IsLine(l)
    ensures Lines(l + "\n" + tail) == [l] + Lines(tail)
  {
    var s := l + "\n" + tail;
    assert forall j :: 0 <= j < |l| ==> s[j] == l[j];
    FirstNewlineAt(s, 0, |l|);
    assert s[0..|l|] == l;
    if |tail| > 0 {
      assert s == (l + "\n") + tail;
      LinesFromShift(l + "\n", tail, 0);
    }
  }

  /** Scanning for a newline after a prefix scans the rest on its own. */
  lemma {:induction false} FirstNewlineShift(pre: string, s: string, i: nat)
    requires i <= |s|
    ensures FirstNewline(pre + s, |pre| + i) == |pre| + FirstNewline(s, i)
    decreases |s| - i
  {
    if i < |s| {
      assert (pre + s)[|pre| + i] == s[i];
      if s[i] != '\n' {
        FirstNewlineShift(pre, s, i + 1);
      }
    }
  }

  /** The lines found after a prefix are the lines of the rest on its own. */
  lemma {:induction false} LinesFromShift(pre: string, s: string, i: nat)
    requires i < |s|
    ensures LinesFrom(pre + s, |pre| + i) == LinesFrom(s, i)
    decreases |s| - i
  {
    var k := FirstNewline(s, i);
    FirstNewlineShift(pre, s, i);
    assert (pre + s)[|pre| + i..|pre| + k] == s[i..k];
    if k + 1 < |s| {
      LinesFromShift(pre, s, k + 1);
    }
  }

  /** The scan from `from` stops exactly at `k` when `k` is the first newline. */
  lemma {:induction false} FirstNewlineAt(s: string, from: nat, k: nat)
    requires from <= k < |s|
    requires forall j :: from <= j < k ==> s[j] != '\n'
    requires s[k] == '\n'
    ensures FirstNewline(s, from) == k
    decreases k - from
  {
    if from < k {
      FirstNewlineAt(s, from + 1, k);
    }
  }
}
