/** The host's text snapshot seen as lines.

    A snapshot is one sequence of characters. Its lines are the maximal runs
    between line breaks: a snapshot with n breaks has n + 1 lines, the last one
    possibly empty, and only the last line has no break. Lines are numbered from
    zero. The splitting functions walk one snapshot by index; `Lines` is the
    reference split and `Join` its inverse; `LineAt` is the span record the host
    hands out for one line (`ITextSnapshotLine`). */
module Snapshot {
  import opened HostText

  /** The index of the first line break at or after `j`, or `|t|` when there is none. */
  function NextBreak(t: Text, j: nat): (i: nat)
    requires j <= |t|
    ensures j <= i <= |t|
    ensures i < |t| ==> t[i] == LF
    ensures forall m :: j <= m < i ==> t[m] != LF
    decreases |t| - j
  {
    if j == |t| || t[j] == LF then j else NextBreak(t, j + 1)
  }

  /** The number of lines from position `j` on. */
  function CountFrom(t: Text, j: nat): (n: nat)
    requires j <= |t|
    ensures n >= 1
    decreases |t| - j
  {
    var i := NextBreak(t, j);
    if i == |t| then 1 else 1 + CountFrom(t, i + 1)
  }

  /** The start of the `k`-th line from position `j` on. */
  function StartFrom(t: Text, j: nat, k: nat): (p: nat)
    requires j <= |t| && k < CountFrom(t, j)
    ensures j <= p <= |t|
    decreases k
  {
    if k == 0 then j else StartFrom(t, NextBreak(t, j) + 1, k - 1)
  }

  /** The texts of the lines from position `j` on, breaks excluded. */
  function LinesFrom(t: Text, j: nat): (ls: seq<Text>)
    requires j <= |t|
    ensures |ls| == CountFrom(t, j)
    decreases |t| - j
  {
    var i := NextBreak(t, j);
    if i == |t| then [t[j..]] else [t[j..i]] + LinesFrom(t, i + 1)
  }

  /** The number of lines of a snapshot (`ITextSnapshot.LineCount`). */
  function LineCount(t: Text): (n: nat)
    ensures n >= 1
  {
    CountFrom(t, 0)
  }

  /** The position where line `k` starts. */
  function LineStart(t: Text, k: nat): (p: nat)
    requires k < LineCount(t)
    ensures p <= |t|
  {
    StartFrom(t, 0, k)
  }

  /** The reference split of a snapshot into the texts of its lines. */
  function Lines(t: Text): (ls: seq<Text>)
    ensures |ls| == LineCount(t)
  {
    LinesFrom(t, 0)
  }

  /** The inverse of `Lines`: the lines joined by single breaks. */
  function Join(ls: seq<Text>): (t: Text)
    requires |ls| >= 1
  {
    if |ls| == 1 then ls[0] else ls[0] + [LF] + Join(ls[1..])
  }

  // ---- Walking one snapshot ----

  /** The lines from the start of the `k`-th line on are the lines from `j` on
      less the first `k`, and a line other than the first starts after a break. */
  lemma {:induction false} FromStart(t: Text, j: nat, k: nat)
    requires j <= |t| && k < CountFrom(t, j)
    ensures var p := StartFrom(t, j, k);
            LinesFrom(t, p) == LinesFrom(t, j)[k..] &&
            CountFrom(t, p) == CountFrom(t, j) - k &&
            (k > 0 ==> j < p && t[p - 1] == LF)
    decreases k
  {
    if k > 0 {
      var i := NextBreak(t, j);
      FromStart(t, i + 1, k - 1);
      var ls := LinesFrom(t, i + 1);
      assert LinesFrom(t, j) == [t[j..i]] + ls;
      DropCons(t[j..i], ls, k);
    }
  }

  /** The line after the `k`-th starts just past the `k`-th line's break. */
  lemma {:induction false} StartNext(t: Text, j: nat, k: nat)
    requires j <= |t| && k + 1 < CountFrom(t, j)
    ensures var p := StartFrom(t, j, k);
            NextBreak(t, p) < |t| && StartFrom(t, j, k + 1) == NextBreak(t, p) + 1
    decreases k
  {
    if k > 0 {
      StartNext(t, NextBreak(t, j) + 1, k - 1);
    }
  }

  /** The first of the lines from `j` on runs up to the next break. */
  lemma FirstFrom(t: Text, j: nat)
    requires j <= |t|
    ensures var i := NextBreak(t, j);
            LinesFrom(t, j)[0] == t[j..i] && (i < |t| <==> CountFrom(t, j) > 1)
  {
    var i := NextBreak(t, j);
    if i == |t| {
      assert t[j..] == t[j..i];
    }
  }

  /** No line contains a break. */
  lemma {:induction false} LinesHaveNoBreak(t: Text, j: nat)
    requires j <= |t|
    ensures forall q :: 0 <= q < |LinesFrom(t, j)| ==> LF !in LinesFrom(t, j)[q]
    decreases |t| - j
  {
    var i := NextBreak(t, j);
    var ls := LinesFrom(t, j);
    assert LF !in ls[0] by { FirstFrom(t, j); }
    if i < |t| {
      LinesHaveNoBreak(t, i + 1);
      assert ls[1..] == LinesFrom(t, i + 1);
    }
  }

  /** Joining the lines from `j` on gives back the text from `j` on. */
  lemma {:induction false} JoinFrom(t: Text, j: nat)
    requires j <= |t|
    ensures Join(LinesFrom(t, j)) == t[j..]
    decreases |t| - j
  {
    var i := NextBreak(t, j);
    if i < |t| {
      var ls := LinesFrom(t, j);
      JoinFrom(t, i + 1);
      assert ls[0] == t[j..i] && ls[1..] == LinesFrom(t, i + 1);
      assert t[j..] == t[j..i] + [LF] + t[i + 1..];
    }
  }

  // ---- Splitting put-together text ----

  /** A text without breaks has no break from any position on. */
  lemma {:induction false} NoBreakFrom(s: Text, j: nat)
    requires j <= |s| && LF !in s
    ensures NextBreak(s, j) == |s|
    decreases |s| - j
  {
    if j < |s| {
      assert s[j] in s;
      NoBreakFrom(s, j + 1);
    }
  }

  /** Searching the right part of `a + b` is searching `b`. */
  lemma {:induction false} NextBreakRight(a: Text, b: Text, j: nat)
    requires |a| <= j <= |a| + |b|
    ensures NextBreak(a + b, j) == |a| + NextBreak(b, j - |a|)
    decreases |a| + |b| - j
  {
    if j < |a| + |b| {
      assert (a + b)[j] == b[j - |a|];
      if b[j - |a|] != LF {
        NextBreakRight(a, b, j + 1);
      }
    }
  }

  /** Searching the left part of `a + [LF] + b` finds a break no later than the
      one that joins the parts. */
  lemma {:induction false} NextBreakLeft(a: Text, b: Text, j: nat)
    requires j <= |a|
    ensures NextBreak(a + [LF] + b, j) == NextBreak(a, j)
    decreases |a| - j
  {
    var c := a + [LF] + b;
    if j < |a| {
      assert c[j] == a[j];
      if a[j] != LF {
        NextBreakLeft(a, b, j + 1);
      }
    } else {
      assert c[j] == LF;
    }
  }

  /** The lines of the right part of `a + b` are the lines of `b`. */
  lemma {:induction false} LinesRight(a: Text, b: Text, j: nat)
    requires |a| <= j <= |a| + |b|
    ensures LinesFrom(a + b, j) == LinesFrom(b, j - |a|)
    decreases |a| + |b| - j
  {
    var c := a + b;
    var i := NextBreak(c, j);
    NextBreakRight(a, b, j);
    var i' := NextBreak(b, j - |a|);
    assert c[j..i] == b[j - |a|..i'];
    if i < |c| {
      LinesRight(a, b, i + 1);
    } else {
      assert c[j..] == b[j - |a|..];
    }
  }

  /** Splitting distributes over a line break, from any position of the left part. */
  lemma {:induction false} LinesJoinedFrom(a: Text, b: Text, j: nat)
    requires j <= |a|
    ensures LinesFrom(a + [LF] + b, j) == LinesFrom(a, j) + LinesFrom(b, 0)
    decreases |a| - j
  {
    var i := NextBreak(a, j);
    if i < |a| {
      LinesJoinedFrom(a, b, i + 1);
      JoinedStep(a, b, j);
    } else {
      JoinedLast(a, b, j);
    }
  }

  lemma JoinedStep(a: Text, b: Text, j: nat)
    requires j <= |a| && NextBreak(a, j) < |a|
    requires var i := NextBreak(a, j);
             LinesFrom(a + [LF] + b, i + 1) == LinesFrom(a, i + 1) + LinesFrom(b, 0)
    ensures LinesFrom(a + [LF] + b, j) == LinesFrom(a, j) + LinesFrom(b, 0)
  {
    var c := a + [LF] + b;
    var i := NextBreak(a, j);
    NextBreakLeft(a, b, j);
    assert c[j..i] == a[j..i];
    var x, y, z := [a[j..i]], LinesFrom(a, i + 1), LinesFrom(b, 0);
    assert LinesFrom(c, j) == x + (y + z);
    assert x + (y + z) == x + y + z;
  }

  lemma JoinedLast(a: Text, b: Text, j: nat)
    requires j <= |a| && NextBreak(a, j) == |a|
    ensures LinesFrom(a + [LF] + b, j) == LinesFrom(a, j) + LinesFrom(b, 0)
  {
    var c := a + [LF] + b;
    NextBreakLeft(a, b, j);
    assert c[j..|a|] == a[j..];
    LinesRight(a + [LF], b, |a| + 1);
    assert LinesFrom(c, j) == [a[j..]] + LinesFrom(c, |a| + 1);
  }

  // ---- Whole snapshots ----

  /** Splitting distributes over a line break. */
  lemma LinesConcat(a: Text, b: Text)
    ensures Lines(a + [LF] + b) == Lines(a) + Lines(b)
  {
    LinesJoinedFrom(a, b, 0);
  }

  /** A text without breaks is one line. */
  lemma LinesOfLine(s: Text)
    requires LF !in s
    ensures Lines(s) == [s]
  {
    NoBreakFrom(s, 0);
    assert s[0..] == s;
  }

  /** `Join` undoes `Lines`. */
  lemma JoinLines(t: Text)
    ensures Join(Lines(t)) == t
  {
    JoinFrom(t, 0);
    assert t[0..] == t;
  }

  /** `Lines` undoes `Join` on lines without breaks. */
  lemma {:induction false} LinesJoin(ls: seq<Text>)
    requires |ls| >= 1
    requires forall q :: 0 <= q < |ls| ==> LF !in ls[q]
    ensures Lines(Join(ls)) == ls
  {
    LinesOfLine(ls[0]);
    if |ls| > 1 {
      LinesJoin(ls[1..]);
      LinesConcat(ls[0], Join(ls[1..]));
    }
  }

  /** The text from the start of line `k` on splits into lines `k` onwards. */
  lemma LinesAtStart(t: Text, k: nat)
    requires k < LineCount(t)
    ensures Lines(t[LineStart(t, k)..]) == Lines(t)[k..]
  {
    var p := LineStart(t, k);
    FromStart(t, 0, k);
    assert t == t[..p] + t[p..];
    LinesRight(t[..p], t[p..], p);
  }

  /** A line other than the first starts just after a break. */
  lemma StartAfterBreak(t: Text, k: nat)
    requires 0 < k < LineCount(t)
    ensures 0 < LineStart(t, k) && t[LineStart(t, k) - 1] == LF
  {
    FromStart(t, 0, k);
  }

  /** The text before the break that precedes line `k` splits into lines `0 .. k - 1`. */
  lemma LinesBeforeStart(t: Text, k: nat)
    requires 0 < k < LineCount(t)
    ensures 0 < LineStart(t, k) && Lines(t[..LineStart(t, k) - 1]) == Lines(t)[..k]
  {
    var p := LineStart(t, k);
    StartAfterBreak(t, k);
    LinesAtStart(t, k);
    var a, b := t[..p - 1], t[p..];
    assert t == a + [LF] + b;
    LinesConcat(a, b);
    PrefixOfConcat(Lines(a), Lines(b), Lines(t), k);
  }

  lemma PrefixOfConcat<T>(x: seq<T>, y: seq<T>, z: seq<T>, k: nat)
    requires z == x + y && k <= |z| && y == z[k..]
    ensures x == z[..k]
  {
  }

  /** Any text placed at the start of line `k` follows lines `0 .. k - 1`. */
  lemma LinesAfterPrefix(t: Text, k: nat, x: Text)
    requires k < LineCount(t)
    ensures Lines(t[..LineStart(t, k)] + x) == Lines(t)[..k] + Lines(x)
  {
    var p := LineStart(t, k);
    if k == 0 {
      assert t[..p] + x == x;
    } else {
      LinesBeforeStart(t, k);
      StartAfterBreak(t, k);
      var a := t[..p - 1];
      assert t[..p] == a + [LF];
      assert t[..p] + x == a + [LF] + x;
      LinesConcat(a, x);
    }
  }

  // ---- Line records ----

  /** The span record of one line (`ITextSnapshotLine`): where it starts, where its
      text ends and where its break ends. */
  datatype SnapshotLine = SnapshotLine(start: nat, end: nat, endIncludingLineBreak: nat)

  /** The record of line `k` (`ITextSnapshot.GetLineFromLineNumber(k)`). */
  function LineAt(t: Text, k: nat): (l: SnapshotLine)
    requires k < LineCount(t)
    ensures l.start == LineStart(t, k)
    ensures l.start <= l.end <= l.endIncludingLineBreak <= |t|
    ensures t[l.start..l.end] == Lines(t)[k]
    ensures (l.end < |t|) == (k + 1 < LineCount(t))
    ensures k + 1 < LineCount(t) ==>
              t[l.end] == LF && l.endIncludingLineBreak == l.end + 1 == LineStart(t, k + 1)
    ensures k + 1 == LineCount(t) ==> l.endIncludingLineBreak == l.end == |t|
  {
    var p := LineStart(t, k);
    var e := NextBreak(t, p);
    LineEnd(t, k);
    SnapshotLine(p, e, if e < |t| then e + 1 else e)
  }

  /** Line `k` runs from its start to the next break, and the next line starts
      after that break. */
  lemma LineEnd(t: Text, k: nat)
    requires k < LineCount(t)
    ensures var p := LineStart(t, k);
            var e := NextBreak(t, p);
            t[p..e] == Lines(t)[k] && (e < |t| <==> k + 1 < LineCount(t)) &&
            (k + 1 < LineCount(t) ==> LineStart(t, k + 1) == e + 1)
  {
    var p := LineStart(t, k);
    FromStart(t, 0, k);
    FirstFrom(t, p);
    if k + 1 < LineCount(t) {
      StartNext(t, 0, k);
    }
  }

  // ---- Edits (`ITextBuffer.Insert`, `Replace`, `Delete`) ----

  /** `ITextBuffer.Insert(pos, s)`. */
  function Insert(t: Text, pos: nat, s: Text): (r: Text)
    requires pos <= |t|
    ensures |r| == |t| + |s|
    ensures r[..pos] == t[..pos] && r[pos..pos + |s|] == s && r[pos + |s|..] == t[pos..]
  {
    t[..pos] + s + t[pos..]
  }

  /** `ITextBuffer.Replace(Span(start, len), s)`. */
  function Replace(t: Text, start: nat, len: nat, s: Text): (r: Text)
    requires start + len <= |t|
    ensures |r| == |t| - len + |s|
    ensures r[..start] == t[..start] && r[start..start + |s|] == s
    ensures r[start + |s|..] == t[start + len..]
  {
    t[..start] + s + t[start + len..]
  }

  /** `ITextBuffer.Delete(Span(start, len))`. */
  function Delete(t: Text, start: nat, len: nat): (r: Text)
    requires start + len <= |t|
    ensures |r| == |t| - len
    ensures r[..start] == t[..start] && r[start..] == t[start + len..]
  {
    t[..start] + t[start + len..]
  }

  /** Line text without a break, followed by what follows line `k`'s text, is line
      `k` of the result followed by the lines after `k`. */
  lemma LineThenRest(t: Text, k: nat, y: Text)
    requires k < LineCount(t) && LF !in y
    ensures Lines(y + t[LineAt(t, k).end..]) == [y] + Lines(t)[k + 1..]
  {
    var e := LineAt(t, k).end;
    LinesOfLine(y);
    if k + 1 < LineCount(t) {
      assert t[e..] == [LF] + t[e + 1..];
      assert y + t[e..] == y + [LF] + t[e + 1..];
      LinesConcat(y, t[e + 1..]);
      LinesAtStart(t, k + 1);
    } else {
      assert y + t[e..] == y;
    }
  }

  /** Putting text without a break in place of the text of line `k` changes that
      line and no other. */
  lemma SetLineText(t: Text, k: nat, y: Text)
    requires k < LineCount(t) && LF !in y
    ensures var l := LineAt(t, k);
            Lines(t[..l.start] + y + t[l.end..]) == Lines(t)[k := y]
  {
    var l := LineAt(t, k);
    var rest := t[l.end..];
    assert t[..l.start] + y + rest == t[..l.start] + (y + rest);
    LinesAfterPrefix(t, k, y + rest);
    LineThenRest(t, k, y);
    SpliceIsUpdate(Lines(t), k, y);
  }

  lemma SpliceIsUpdate<T>(s: seq<T>, k: nat, y: T)
    requires k < |s|
    ensures s[..k] + ([y] + s[k + 1..]) == s[k := y]
  {
  }

  /** A line and a break inserted where line `k` starts become line `k`. */
  lemma InsertLineAt(t: Text, k: nat, s: Text)
    requires k < LineCount(t) && LF !in s
    ensures Lines(Insert(t, LineStart(t, k), s + [LF])) == Lines(t)[..k] + [s] + Lines(t)[k..]
  {
    var p := LineStart(t, k);
    var rest := t[p..];
    assert Insert(t, p, s + [LF]) == t[..p] + (s + [LF] + rest);
    LinesAfterPrefix(t, k, s + [LF] + rest);
    LinesCons(s, rest);
    LinesAtStart(t, k);
    var before, after := Lines(t)[..k], Lines(t)[k..];
    assert before + ([s] + after) == before + [s] + after;
  }

  /** A line and a break inserted at the very end extend the last line, which has
      no break, and leave an empty line after it. */
  lemma InsertAtEnd(t: Text, s: Text)
    requires LF !in s
    ensures var k := LineCount(t) - 1;
            Lines(Insert(t, |t|, s + [LF])) == Lines(t)[k := Lines(t)[k] + s] + [[]]
  {
    var k := LineCount(t) - 1;
    var l := LineAt(t, k);
    var line := t[l.start..];
    assert line == Lines(t)[k];
    assert LF !in line by { LinesHaveNoBreak(t, 0); }
    assert t + s == t[..l.start] + (line + s) + t[l.end..];
    SetLineText(t, k, line + s);
    assert Insert(t, |t|, s + [LF]) == (t + s) + [LF] + [];
    LinesConcat(t + s, []);
    LinesOfLine([]);
  }

  /** A line-free text followed by a break is one line before what follows. */
  lemma LinesCons(s: Text, rest: Text)
    requires LF !in s
    ensures Lines(s + [LF] + rest) == [s] + Lines(rest)
  {
    LinesConcat(s, rest);
    LinesOfLine(s);
  }

  /** What follows line `k` and its break: the lines after it, or one empty line
      when line `k` is the last. */
  lemma LinesAfterLine(t: Text, k: nat)
    requires k < LineCount(t)
    ensures Lines(t[LineAt(t, k).endIncludingLineBreak..]) ==
            if k + 1 < LineCount(t) then Lines(t)[k + 1..] else [[]]
  {
    var e := LineAt(t, k).endIncludingLineBreak;
    if k + 1 < LineCount(t) {
      LinesAtStart(t, k + 1);
    } else {
      assert t[e..] == [];
      LinesOfLine([]);
    }
  }

  /** Replacing the span of line `k`, break included, by a line and a break. */
  lemma ReplaceLineAt(t: Text, k: nat, s: Text)
    requires k < LineCount(t) && LF !in s
    ensures var l := LineAt(t, k);
            Lines(Replace(t, l.start, l.endIncludingLineBreak - l.start, s + [LF])) ==
            Lines(t)[..k] + [s] + (if k + 1 < LineCount(t) then Lines(t)[k + 1..] else [[]])
  {
    var l := LineAt(t, k);
    var e := l.endIncludingLineBreak;
    assert Replace(t, l.start, e - l.start, s + [LF]) == t[..l.start] + (s + [LF] + t[e..]);
    LineBeforeRest(t, k, s, e);
    LinesAfterLine(t, k);
  }

  /** A line and a break placed at the start of line `k`, followed by the text
      from `e` on. */
  lemma LineBeforeRest(t: Text, k: nat, s: Text, e: nat)
    requires k < LineCount(t) && LF !in s && e <= |t|
    ensures Lines(t[..LineStart(t, k)] + (s + [LF] + t[e..])) ==
            Lines(t)[..k] + [s] + Lines(t[e..])
  {
    var rest := t[e..];
    LinesAfterPrefix(t, k, s + [LF] + rest);
    LinesCons(s, rest);
    var before, after := Lines(t)[..k], Lines(rest);
    assert before + ([s] + after) == before + [s] + after;
  }

  /** Deleting the span of line `k`, break included. */
  lemma DeleteLineAt(t: Text, k: nat)
    requires k < LineCount(t)
    ensures var l := LineAt(t, k);
            Lines(Delete(t, l.start, l.endIncludingLineBreak - l.start)) ==
            Lines(t)[..k] + (if k + 1 < LineCount(t) then Lines(t)[k + 1..] else [[]])
  {
    var l := LineAt(t, k);
    var rest := t[l.endIncludingLineBreak..];
    assert Delete(t, l.start, l.endIncludingLineBreak - l.start) == t[..l.start] + rest;
    LinesAfterPrefix(t, k, rest);
    LinesAfterLine(t, k);
  }

  /** Replacing `len` characters at column `c` of line `k`, all within the line's
      text, by text without a break changes that line and no other. */
  lemma EditInLine(t: Text, k: nat, c: nat, len: nat, x: Text)
    requires k < LineCount(t) && c + len <= |Lines(t)[k]| && LF !in x
    ensures var l := LineAt(t, k);
            var line := Lines(t)[k];
            Lines(Replace(t, l.start + c, len, x)) == Lines(t)[k := line[..c] + x + line[c + len..]]
  {
    var l := LineAt(t, k);
    var line := Lines(t)[k];
    var y := line[..c] + x + line[c + len..];
    LinesHaveNoBreak(t, 0);
    NoBreakSplice(line[..c], x, line[c + len..]);
    ReplaceInLineIs(t, l.start, l.end, c, len, x);
    SetLineText(t, k, y);
  }

  lemma NoBreakSplice(a: Text, x: Text, b: Text)
    requires LF !in a && LF !in x && LF !in b
    ensures LF !in a + x + b
  {
  }

  lemma ReplaceInLineIs(t: Text, p: nat, e: nat, c: nat, len: nat, x: Text)
    requires p + c + len <= e <= |t|
    ensures var line := t[p..e];
            Replace(t, p + c, len, x) == t[..p] + (line[..c] + x + line[c + len..]) + t[e..]
  {
    var line := t[p..e];
    assert t[..p + c] == t[..p] + line[..c];
    assert t[p + c + len..] == line[c + len..] + t[e..];
  }

  lemma DropCons<T>(x: T, s: seq<T>, k: nat)
    requires 0 < k <= |s| + 1
    ensures ([x] + s)[k..] == s[k - 1..]
  {
  }
}
