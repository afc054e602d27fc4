/** Printed lists and what the scanners make of them: splitting undoes joining. */
module SqlLists {
  import opened Wrappers
  import opened Text
  import opened SqlScan

  /** strings.Join. */
  function Join(parts: seq<string>, glue: string): string {
    if |parts| == 0 then "" else if |parts| == 1 then parts[0] else parts[0] + glue + Join(parts[1..], glue)
  }

  // ---------- where the splitter cuts ----------

  lemma {:induction false} SplitSkip(sep: Separator, s: string, start: nat, idx: nat, i: nat)
    requires start <= idx <= i <= |s|
    requires forall j :: idx <= j < i ==> !SepAt(sep, s, j)
    ensures SplitFrom(sep, s, start, idx) == SplitFrom(sep, s, start, i)
    decreases i - idx
  {
    if idx < i {
      SplitSkip(sep, s, start, idx + 1, i);
    }
  }

  function CutStart(cuts: seq<nat>, start: nat, k: nat): nat
    requires k <= |cuts|
  {
    if k == 0 then start else cuts[k - 1] + 1
  }

  function CutEnd(s: string, cuts: seq<nat>, k: nat): nat
    requires k <= |cuts|
  {
    if k == |cuts| then |s| else cuts[k]
  }

  /** The positions of the commas outside literals from start on, in order, and none left out. */
  ghost predicate AllCommas(s: string, start: nat, cuts: seq<nat>) {
    forall k: nat :: k <= |cuts| ==>
      && CutStart(cuts, start, k) <= CutEnd(s, cuts, k) <= |s|
      && (k < |cuts| ==> SepAt(Comma, s, cuts[k]))
      && forall j :: CutStart(cuts, start, k) <= j < CutEnd(s, cuts, k) ==> !SepAt(Comma, s, j)
  }

  /**
   * splitCSV cuts at exactly the commas outside literals: the k-th part is the trimmed text between the (k-1)-th
   * and the k-th of them.
   */
  lemma {:induction false} SplitCsvCutsExactly(s: string, start: nat, cuts: seq<nat>, k: nat)
    requires start <= |s| && AllCommas(s, start, cuts) && k <= |cuts|
    ensures |SplitFrom(Comma, s, start, start)| == |cuts| + 1
    ensures SplitFrom(Comma, s, start, start)[k] == Trim(s[CutStart(cuts, start, k)..CutEnd(s, cuts, k)])
    decreases |cuts|
  {
    hide *;
    var end := CutEnd(s, cuts, 0);
    FirstCut(s, start, cuts);
    SplitOff(s, start, end);
    if cuts != [] {
      RestOfCuts(s, start, cuts);
      SplitCsvCutsExactly(s, end + 1, cuts[1..], if k == 0 then 0 else k - 1);
      if k > 0 {
        CutMoves(s, start, cuts, k - 1);
        assert SplitFrom(Comma, s, start, start)[k] == SplitFrom(Comma, s, end + 1, end + 1)[k - 1];
      }
    }
  }

  lemma FirstCut(s: string, start: nat, cuts: seq<nat>)
    requires start <= |s| && AllCommas(s, start, cuts)
    ensures CutStart(cuts, start, 0) == start <= CutEnd(s, cuts, 0) <= |s|
    ensures CutEnd(s, cuts, 0) == if cuts == [] then |s| else cuts[0]
    ensures cuts != [] ==> SepAt(Comma, s, cuts[0]) && cuts[0] < |s|
    ensures forall j :: start <= j < CutEnd(s, cuts, 0) ==> !SepAt(Comma, s, j)
  {
  }

  lemma SplitOff(s: string, start: nat, end: nat)
    requires start <= end <= |s| && forall j :: start <= j < end ==> !SepAt(Comma, s, j)
    requires end < |s| ==> SepAt(Comma, s, end)
    ensures SplitFrom(Comma, s, start, start) ==
      [Trim(s[start..end])] + if end == |s| then [] else SplitFrom(Comma, s, end + 1, end + 1)
  {
    SplitSkip(Comma, s, start, start, end);
    assert s[start..] == s[start..|s|];
  }

  lemma CutMoves(s: string, start: nat, cuts: seq<nat>, m: nat)
    requires m < |cuts|
    ensures CutStart(cuts[1..], cuts[0] + 1, m) == CutStart(cuts, start, m + 1)
    ensures CutEnd(s, cuts[1..], m) == CutEnd(s, cuts, m + 1)
  {
  }

  lemma RestOfCuts(s: string, start: nat, cuts: seq<nat>)
    requires AllCommas(s, start, cuts) && cuts != []
    ensures cuts[0] < |s| && AllCommas(s, cuts[0] + 1, cuts[1..])
  {
    assert CutEnd(s, cuts, 0) == cuts[0];
    forall m: nat | m < |cuts|
      ensures CutStart(cuts[1..], cuts[0] + 1, m) == CutStart(cuts, start, m + 1)
      ensures CutEnd(s, cuts[1..], m) == CutEnd(s, cuts, m + 1)
    {
      CutMoves(s, start, cuts, m);
    }
  }

  lemma {:induction false} SplitShift(sep: Separator, a: string, b: string, start: nat, idx: nat)
    requires !Open(a) && start <= idx <= |b|
    ensures SplitFrom(sep, a + b, |a| + start, |a| + idx) == SplitFrom(sep, b, start, idx)
    decreases |b| - idx
  {
    var s := a + b;
    if idx == |b| {
      assert s[|a| + start..] == b[start..];
    } else {
      SepBehind(sep, a, b, idx);
      if SepAt(sep, b, idx) {
        assert s[|a| + start..|a| + idx] == b[start..idx];
        SplitShift(sep, a, b, idx + sep.Width(), idx + sep.Width());
      } else {
        SplitShift(sep, a, b, start, idx + 1);
      }
    }
  }

  /** White space in front of the list belongs to no part. */
  lemma {:induction false} SplitSkipsBlank(sep: Separator, s: string, start: nat, idx: nat)
    requires start < idx <= |s| && IsSpace(s[start])
    ensures SplitFrom(sep, s, start, idx) == SplitFrom(sep, s, start + 1, idx)
    decreases |s| - idx
  {
    if idx == |s| {
      assert s[start..][1..] == s[start + 1..];
    } else if SepAt(sep, s, idx) {
      assert s[start..idx][1..] == s[start + 1..idx];
    } else {
      SplitSkipsBlank(sep, s, start, idx + 1);
    }
  }

  // ---------- parts that survive printing ----------

  /** A part that holds no separator of its own, also none that would start or end in a neighbouring blank. */
  predicate Clean(sep: Separator, p: string) {
    && !Open(p)
    && match sep {
         case Comma => forall i :: 0 <= i < |p| ==> !SepAt(Comma, p, i)
         case And => forall i :: 0 <= i < |p| + 2 ==> !SepAt(And, " " + p + " ", i)
       }
  }

  lemma BlankIsClosed()
    ensures !Open(" ")
  {
    PlainCloses(" ");
  }

  lemma NoSepInClean(sep: Separator, p: string, rest: string, i: int)
    requires Clean(sep, p) && SepText(sep, rest, 0) && 0 <= i < |p|
    ensures !SepAt(sep, p + rest, i)
  {
    if sep == Comma {
      SepInFront(Comma, p, rest, i);
    } else if SepAt(And, p + rest, i) {
      var padded := " " + p + " ";
      assert " " + (p + rest) == padded + rest[1..];
      BlankIsClosed();
      SepBehind(And, " ", p + rest, i);
      assert (p + rest)[|p|] == ' ';
      SepInFront(And, padded, rest[1..], i + 1);
    }
  }

  /** The first part of a printed list is split off, whatever follows the separator. */
  lemma SplitCutOff(sep: Separator, p: string, word: string, rest: string)
    requires Clean(sep, p) && SepText(sep, word, 0) && |word| == sep.Width()
    ensures Split(sep, p + word + rest) == [Trim(p)] + Split(sep, rest)
  {
    hide Trim, SepText, Clean;
    var s := p + word + rest;
    Regroup(p, word, rest);
    assert !Open(p) && !Open(p + word) by {
      WordIsClosed(sep, word);
      OpenConcat(p, word);
      ClosedWhenClean(sep, p);
    }
    SepBehindClean(sep, p, word, rest);
    SplitSkip(sep, s, 0, 0, |p|);
    SplitShift(sep, p + word, rest, 0, 0);
    assert s[0..|p|] == p;
  }

  lemma ClosedWhenClean(sep: Separator, p: string)
    requires Clean(sep, p)
    ensures !Open(p)
  {
  }

  lemma SepBehindClean(sep: Separator, p: string, word: string, rest: string)
    requires Clean(sep, p) && SepText(sep, word, 0) && |word| == sep.Width()
    ensures var s := p + word + rest;
      SepAt(sep, s, |p|) && forall i :: 0 <= i < |p| ==> !SepAt(sep, s, i)
  {
    var s := p + word + rest;
    Regroup(p, word, rest);
    WordIsClosed(sep, word);
    SepInFront(sep, word, rest, 0);
    SepBehind(sep, p, word + rest, 0);
    SepTextInFront(sep, word, rest);
    forall i | 0 <= i < |p| ensures !SepAt(sep, s, i) {
      NoSepInClean(sep, p, word + rest, i);
    }
  }

  lemma SepTextInFront(sep: Separator, word: string, rest: string)
    requires SepText(sep, word, 0)
    ensures SepText(sep, word + rest, 0)
  {
  }

  lemma WordIsClosed(sep: Separator, word: string)
    requires SepText(sep, word, 0) && |word| == sep.Width()
    ensures !Open(word) && word[0] != '\'' && !OpenAt(word, 0)
  {
    PlainCloses(word);
  }

  lemma SplitOne(sep: Separator, p: string)
    requires Clean(sep, p)
    ensures Split(sep, p) == [Trim(p)]
  {
    forall i | 0 <= i < |p| ensures !SepAt(sep, p, i) {
      if sep == And && SepAt(And, p, i) {
        BlankIsClosed();
        assert " " + p + " " == " " + (p + " ");
        SepInFront(And, p, " ", i);
        SepBehind(And, " ", p + " ", i);
      }
    }
    SplitSkip(sep, p, 0, 0, |p|);
    assert p[0..] == p;
  }

  ghost predicate AllClean(sep: Separator, parts: seq<string>) {
    forall i :: 0 <= i < |parts| ==> Clean(sep, parts[i]) && Trimmed(parts[i])
  }

  function TrimAll(parts: seq<string>): (r: seq<string>)
    ensures |r| == |parts| && forall i :: 0 <= i < |parts| ==> r[i] == Trim(parts[i])
  {
    seq(|parts|, i requires 0 <= i < |parts| => Trim(parts[i]))
  }

  /** Reading back a comma-separated list gives its parts in the same order, without the white space around them. */
  lemma {:induction false} SplitTrimsJoin(parts: seq<string>)
    requires |parts| >= 1 && forall i :: 0 <= i < |parts| ==> Clean(Comma, parts[i])
    ensures Split(Comma, Join(parts, ", ")) == TrimAll(parts)
    decreases |parts|
  {
    if |parts| == 1 {
      SplitOne(Comma, parts[0]);
    } else {
      var rest := Join(parts[1..], ", ");
      assert Join(parts, ", ") == parts[0] + "," + (" " + rest);
      SplitCutOff(Comma, parts[0], ",", " " + rest);
      SplitLeadingBlank(rest);
      SplitTrimsJoin(parts[1..]);
      assert TrimAll(parts) == [Trim(parts[0])] + TrimAll(parts[1..]);
    }
  }

  /** Parts without white space around them come back as they are. */
  lemma SplitUndoesJoin(parts: seq<string>)
    requires |parts| >= 1 && AllClean(Comma, parts)
    ensures Split(Comma, Join(parts, ", ")) == parts
  {
    SplitTrimsJoin(parts);
    TrimAllSame(parts);
  }

  lemma TrimAllSame(parts: seq<string>)
    requires forall i :: 0 <= i < |parts| ==> Trimmed(parts[i])
    ensures TrimAll(parts) == parts
  {
    forall i | 0 <= i < |parts| ensures Trim(parts[i]) == parts[i] {
      TrimFacts(parts[i]);
    }
  }

  lemma SplitLeadingBlank(rest: string)
    ensures Split(Comma, " " + rest) == Split(Comma, rest)
  {
    var s := " " + rest;
    assert !SepAt(Comma, s, 0);
    SplitSkipsBlank(Comma, s, 0, 1);
    BlankIsClosed();
    SplitShift(Comma, " ", rest, 0, 0);
  }

  /** Likewise for conditions joined by `and` in any case; such a text never makes splitAnd panic. */
  lemma {:induction false} SplitAndUndoesJoin(parts: seq<string>, glue: string)
    requires |parts| >= 1 && AllClean(And, parts) && SepText(And, glue, 0) && |glue| == 5
    ensures Split(And, Join(parts, glue)) == parts
    ensures forall i :: !AndAndAt(Join(parts, glue), i)
    decreases |parts|
  {
    var s := Join(parts, glue);
    var p := parts[0];
    TrimFacts(p);
    if |parts| == 1 {
      SplitOne(And, p);
      forall i ensures !SepAt(And, s, i) {
        if 0 <= i < |p| {
          BlankIsClosed();
          assert " " + p + " " == " " + (p + " ");
          if SepAt(And, p, i) {
            SepInFront(And, p, " ", i);
          }
          SepBehind(And, " ", p + " ", i);
        }
      }
    } else {
      var rest := Join(parts[1..], glue);
      SplitCutOff(And, p, glue, rest);
      SplitAndUndoesJoin(parts[1..], glue);
      if |parts| > 2 {
        var more := glue + Join(parts[2..], glue);
        assert rest == parts[1] + more && SepText(And, more, 0);
      }
      forall i ensures !AndAndAt(s, i) {
        NoOverlapInFront(p, glue, parts[1], rest, i);
      }
    }
  }

  /** A clean part never completes a separator that starts in the blank before it. */
  lemma NoAndBehindBlank(front: string, next: string, rest: string)
    requires front != "" && front[|front| - 1] == ' ' && Clean(And, next)
    requires rest == next || exists more :: rest == next + more && SepText(And, more, 0)
    ensures !SepText(And, front + rest, |front| - 1)
  {
    var s := front + rest;
    var padded := " " + next + " ";
    if SepText(And, s, |front| - 1) {
      assert forall k :: 0 <= k < |rest| ==> s[|front| + k] == rest[k];
      assert |next| >= 3 && padded[0] == ' ' && !OpenAt(padded, 0);
      assert forall k :: 0 <= k < |next| ==> padded[1 + k] == next[k] == rest[k];
      if |next| == 3 && rest != next {
        var more :| rest == next + more && SepText(And, more, 0);
      }
      assert SepAt(And, padded, 0);
    }
  }

  lemma NoOverlapInFront(p: string, glue: string, next: string, rest: string, i: int)
    requires Clean(And, p) && Clean(And, next) && SepText(And, glue, 0) && |glue| == 5
    requires rest == next || exists more :: rest == next + more && SepText(And, more, 0)
    requires forall j :: !AndAndAt(rest, j)
    ensures !AndAndAt(p + glue + rest, i)
  {
    var s := p + glue + rest;
    var front := p + glue;
    WordIsClosed(And, glue);
    OpenConcat(p, glue);
    if 0 <= i < |p| {
      assert s == p + (glue + rest);
      NoSepInClean(And, p, glue + rest, i);
    } else if |p| <= i < |p| + 5 && AndAndAt(s, i) {
      assert s[i] == ' ' && s[i + 4] == ' ' && s[|p| + 4] == ' ';
      assert forall k :: 0 <= k < 5 ==> s[|p| + k] == glue[k];
      NoAndBehindBlank(front, next, rest);
    } else if i >= |front| {
      SepBehind(And, front, rest, i - |front|);
      SepBehind(And, front, rest, i - |front| + 4);
      assert !AndAndAt(rest, i - |front|);
    }
  }
}
