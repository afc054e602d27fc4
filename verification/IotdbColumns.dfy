/** Paths and column names of IoTDB: when shortening one twice is shortening it once. */
module IotdbColumns {
  import opened Text
  import opened SqlScan
  import opened SqlParts
  import opened IotdbInsert

  // ---------- paths ----------

  /** Qualifying a path twice adds the prefix once: for every prefix and path. */
  lemma QualifyPathTwice(prefix: string, path: string)
    ensures QualifyPath(prefix, QualifyPath(prefix, path)) == QualifyPath(prefix, path)
    ensures Trimmed(QualifyPath(prefix, path))
  {
    var pre, p := Trim(prefix), Trim(path);
    TrimFacts(prefix);
    TrimFacts(path);
    var q := QualifyPath(prefix, path);
    if q == pre + "." + p {
      assert p == "" ==> q[|q| - 1] == '.';
      assert p != "" ==> q[|q| - 1] == p[|p| - 1];
      assert pre == "" || q[0] == pre[0];
      assert q[..|pre| + 1] == pre + ".";
    }
    TrimFacts(q);
  }

  lemma TrimSubset(s: string, c: char)
    requires c !in s
    ensures c !in Trim(s)
  {
    TrimLeftFacts(s);
    TrimRightFacts(TrimLeft(s));
  }

  lemma QualifiedHasNoParen(prefix: string, path: string)
    requires '(' !in prefix && '(' !in path
    ensures '(' !in QualifyPath(prefix, path)
  {
    TrimSubset(prefix, '(');
    TrimSubset(path, '(');
  }

  // ---------- cutting marks off ----------

  predicate AllIn(s: string, cut: string) {
    forall i :: 0 <= i < |s| ==> s[i] in cut
  }

  /** Neither end is a character to cut. */
  predicate FreeOf(s: string, cut: string) {
    s == "" || (s[0] !in cut && s[|s| - 1] !in cut)
  }

  lemma {:induction false} TrimLeftOfFacts(s: string, cut: string) returns (front: string)
    ensures s == front + TrimLeftOf(s, cut) && AllIn(front, cut)
    ensures TrimLeftOf(s, cut) != "" ==> TrimLeftOf(s, cut)[0] !in cut
    decreases |s|
  {
    if s != "" && s[0] in cut {
      var more := TrimLeftOfFacts(s[1..], cut);
      front := [s[0]] + more;
      OneMoreInFront(s, more, TrimLeftOf(s[1..], cut));
    } else {
      front := "";
    }
  }

  lemma {:induction false} TrimRightOfFacts(s: string, cut: string) returns (back: string)
    ensures s == TrimRightOf(s, cut) + back && AllIn(back, cut)
    ensures TrimRightOf(s, cut) != "" ==> TrimRightOf(s, cut)[|TrimRightOf(s, cut)| - 1] !in cut
    decreases |s|
  {
    if s != "" && s[|s| - 1] in cut {
      var more := TrimRightOfFacts(s[..|s| - 1], cut);
      back := more + [s[|s| - 1]];
      OneMoreBehind(s, TrimRightOf(s[..|s| - 1], cut), more);
    } else {
      back := "";
    }
  }

  lemma CutPart(s: string, cut: string) returns (front: string, back: string)
    ensures s == front + (TrimOf(s, cut) + back) && AllIn(front, cut) && AllIn(back, cut)
    ensures FreeOf(TrimOf(s, cut), cut)
    ensures FreeOf(s, cut) <==> TrimOf(s, cut) == s
  {
    front := TrimLeftOfFacts(s, cut);
    back := TrimRightOfFacts(TrimLeftOf(s, cut), cut);
    hide TrimLeftOf, TrimRightOf;
    CutEnds(s, front, TrimLeftOf(s, cut), TrimOf(s, cut), back, cut);
  }

  lemma CutEnds(s: string, front: string, left: string, core: string, back: string, cut: string)
    requires s == front + left && left == core + back && AllIn(front, cut) && AllIn(back, cut)
    requires left != "" ==> left[0] !in cut
    requires core != "" ==> core[|core| - 1] !in cut
    ensures FreeOf(core, cut) && (FreeOf(s, cut) <==> core == s)
  {
    assert core != "" ==> core[0] == left[0];
    if front == back == "" {
      assert s == core;
    } else {
      assert |core| < |s|;
      EndsAreCut(s, front, left, back, cut);
    }
  }

  lemma EndsAreCut(s: string, front: string, left: string, back: string, cut: string)
    requires s == front + left && |back| <= |left| && left[|left| - |back|..] == back
    requires AllIn(front, cut) && AllIn(back, cut) && !(front == back == "")
    ensures !FreeOf(s, cut)
  {
    if front != "" {
      assert s[0] == front[0];
    } else {
      assert s[|s| - 1] == back[|back| - 1];
    }
  }

  // ---------- the name in a column ----------

  /** What is left of a column without its quoting marks, the white space inside them, and marks inside that. */
  function Inside(column: string): string {
    TrimOf(Trim(TrimOf(column, IDENTIFIER_MARKS)), IDENTIFIER_MARKS)
  }

  predicate IsRootPath(column: string) {
    HasPrefix(Inside(column), "root.")
  }

  /** The name a column comes down to: what follows the last dot of a path from the root, and else all of it. */
  function NameIn(column: string): string {
    if IsRootPath(column) then AfterLastDot(Inside(column)) else Inside(column)
  }

  predicate IsStamp(name: string) {
    EqualFold(name, "time") || EqualFold(name, "timestamp")
  }

  lemma NormalizedIs(column: string)
    ensures NormalizeColumn(column) == if IsStamp(NameIn(column)) then "timestamp" else NameIn(column)
  {
  }

  /** No white space and no quoting mark at either end. */
  predicate Bounded(name: string) {
    Trimmed(name) && FreeOf(name, IDENTIFIER_MARKS)
  }

  /** The name in the column needs no further stripping. */
  predicate Settled(column: string) {
    Bounded(NameIn(column))
  }

  lemma MarksArePlain(s: string)
    requires AllIn(s, IDENTIFIER_MARKS)
    ensures Plain(s) && forall i :: 0 <= i < |s| ==> s[i] != '.'
  {
  }

  /** What is taken off a column is marks and white space. */
  lemma InsidePart(column: string) returns (front: string, back: string)
    ensures column == front + (Inside(column) + back) && Plain(front) && Plain(back)
    ensures FreeOf(Inside(column), IDENTIFIER_MARKS)
    ensures Inside(column) == column <==> Bounded(column)
  {
    var outer := TrimOf(column, IDENTIFIER_MARKS);
    var front1, back1 := CutPart(column, IDENTIFIER_MARKS);
    var front2, back2 := TrimmedPart(outer);
    var front3, back3 := CutPart(Trim(outer), IDENTIFIER_MARKS);
    MarksArePlain(front1);
    MarksArePlain(back1);
    MarksArePlain(front3);
    MarksArePlain(back3);
    front, back := front1 + (front2 + front3), back3 + (back2 + back1);
    ThreeLayers(front1, front2, front3, Inside(column), back3, back2, back1);
    TrimFacts(outer);
    assert |Inside(column)| <= |Trim(outer)| <= |outer| <= |column|;
    if Inside(column) == column {
      assert outer == column && Trim(outer) == outer;
    }
  }

  lemma ThreeLayers(a: string, b: string, c: string, core: string, d: string, e: string, f: string)
    ensures a + ((b + ((c + (core + d)) + e)) + f) == (a + (b + c)) + (core + (d + (e + f)))
  {
  }

  lemma {:induction false} LastDotFacts(s: string)
    ensures var d := AfterLastDot(s); |d| <= |s| && d == s[|s| - |d|..] && '.' !in d
    ensures '.' in s ==> |AfterLastDot(s)| < |s|
    decreases |s|
  {
    if s != "" && s[|s| - 1] != '.' {
      LastDotFacts(s[..|s| - 1]);
      var d := AfterLastDot(s);
      assert s[..|s| - 1][|s| - |d|..] + [s[|s| - 1]] == s[|s| - |d|..];
    }
  }

  lemma RootHasDot(s: string)
    requires HasPrefix(s, "root.")
    ensures '.' in s
  {
    assert s[..5][4] == '.';
  }

  /** A name the rewrite has printed: no path any more, and the timestamp under its one name. */
  predicate Shortened(name: string) {
    !HasPrefix(name, "root.") && (IsStamp(name) ==> name == "timestamp")
  }

  lemma NormalizedIsShortened(column: string)
    ensures Shortened(NormalizeColumn(column))
    ensures Settled(column) <==> Bounded(NormalizeColumn(column))
  {
    NormalizedIs(column);
    LastDotFacts(Inside(column));
    if HasPrefix(NameIn(column), "root.") {
      RootHasDot(NameIn(column));
    }
    if IsStamp(NameIn(column)) {
      StampIsBounded(NameIn(column));
      StampIsBounded("timestamp");
      assert "timestamp"[..5][0] == 't';
    }
  }

  lemma StampIsBounded(name: string)
    requires IsStamp(name)
    ensures Bounded(name)
  {
    var word := if EqualFold(name, "time") then "time" else "timestamp";
    assert Lower(name) == Lower(word);
    forall k | 0 <= k < |name| ensures name[k] !in IDENTIFIER_MARKS && !IsSpace(name[k]) {
      assert Lower(name)[k] == Lower(word)[k];
    }
  }

  /** A printed name is left alone if and only if it has no white space or mark at its ends; so is its trimmed form. */
  lemma ShortenedStaysIff(name: string)
    requires Shortened(name)
    ensures NormalizeColumn(name) == name <==> Bounded(name)
    ensures NormalizeColumn(Trim(name)) == name <==> Bounded(name)
  {
    TrimFacts(name);
    if Bounded(name) {
      var front, back := InsidePart(name);
      NormalizedIs(name);
    } else {
      var front, back := TrimmedPart(name);
      NotBoundedMoves(name, name);
      NotBoundedMoves(Trim(name), name);
    }
  }

  lemma NotBoundedMoves(column: string, name: string)
    requires !Bounded(name) && |column| <= |name| && (|column| == |name| ==> column == name)
    ensures NormalizeColumn(column) != name
  {
    NormalizedIs(column);
    StampIsBounded("timestamp");
    var front, back := InsidePart(column);
    LastDotFacts(Inside(column));
  }

  /**
   * Normalising a column twice is normalising it once, if and only if the name in it has no white space and no quoting
   * mark at its ends.
   */
  lemma NormalizeColumnTwiceIff(column: string)
    ensures NormalizeColumn(NormalizeColumn(column)) == NormalizeColumn(column) <==> Settled(column)
  {
    NormalizedIsShortened(column);
    ShortenedStaysIff(NormalizeColumn(column));
  }

  // ---------- which columns are settled ----------

  lemma {:induction false} TrimLeftOfSkips(front: string, rest: string, cut: string)
    requires AllIn(front, cut) && (rest == "" || rest[0] !in cut)
    ensures TrimLeftOf(front + rest, cut) == rest
    decreases |front|
  {
    if front == "" {
      assert front + rest == rest;
    } else {
      assert (front + rest)[1..] == front[1..] + rest;
      TrimLeftOfSkips(front[1..], rest, cut);
    }
  }

  lemma {:induction false} TrimRightOfSkips(rest: string, back: string, cut: string)
    requires AllIn(back, cut) && (rest == "" || rest[|rest| - 1] !in cut)
    ensures TrimRightOf(rest + back, cut) == rest
    decreases |back|
  {
    if back == "" {
      assert rest + back == rest;
    } else {
      var n := |rest + back| - 1;
      assert (rest + back)[..n] == rest + back[..|back| - 1];
      TrimRightOfSkips(rest, back[..|back| - 1], cut);
    }
  }

  /** Quoting marks around a text without white space or marks at its ends come off whole. */
  lemma InsideMarks(front: string, core: string, back: string)
    requires AllIn(front, IDENTIFIER_MARKS) && AllIn(back, IDENTIFIER_MARKS) && Bounded(core) && core != ""
    ensures Inside(front + (core + back)) == core == Inside(core)
  {
    TrimLeftOfSkips(front, core + back, IDENTIFIER_MARKS);
    TrimRightOfSkips(core, back, IDENTIFIER_MARKS);
    TrimFacts(core);
    var f, b := CutPart(core, IDENTIFIER_MARKS);
  }

  /** A quoted name means what the bare name means, and one rewrite settles it. */
  lemma QuotedNameSettles(front: string, name: string, back: string)
    requires AllIn(front, IDENTIFIER_MARKS) && AllIn(back, IDENTIFIER_MARKS)
    requires Bounded(name) && name != "" && !HasPrefix(name, "root.")
    ensures NormalizeColumn(front + (name + back)) == NormalizeColumn(name) && Settled(front + (name + back))
  {
    InsideMarks(front, name, back);
  }

  lemma {:induction false} AfterDot(path: string, name: string)
    requires '.' !in name
    ensures AfterLastDot(path + "." + name) == name
    decreases |name|
  {
    var s := path + "." + name;
    if name == "" {
      assert s[|s| - 1] == '.';
    } else {
      assert s[..|s| - 1] == path + "." + name[..|name| - 1];
      AfterDot(path, name[..|name| - 1]);
    }
  }

  /**
   * A path from the root, bare, comes down to its last node, and one rewrite settles it exactly when that node is
   * bounded.
   */
  lemma RootPathName(path: string, name: string)
    requires '.' !in name && Trimmed("root." + path + "." + name)
    requires FreeOf("root." + path + "." + name, IDENTIFIER_MARKS)
    ensures NameIn("root." + path + "." + name) == name
    ensures Settled("root." + path + "." + name) <==> Bounded(name)
  {
    var s := "root." + path + "." + name;
    assert s[..5] == "root.";
    InsideMarks("", s, "");
    assert "" + (s + "") == s;
    AfterDot("root." + path, name);
  }

  /**
   * What fails: the last node of a path from the root in quotes. Its closing mark ends the column and comes off, its
   * opening mark stays behind the dot; the next rewrite takes that off too.
   */
  lemma QuotedNodeUnsettled(path: string, name: string)
    requires Bounded(name) && name != "" && '.' !in name
    ensures var column := "root." + path + ".`" + name + "`";
      && NormalizeColumn(column) == "`" + name && !Settled(column)
      && NormalizeColumn("`" + name) == NormalizeColumn(name) != "`" + name
  {
    var node := "`" + name;
    var bare := "root." + path + "." + node;
    assert bare[0] == 'r' && bare[|bare| - 1] == name[|name| - 1] && bare[..5] == "root.";
    assert "root." + path + ".`" + name + "`" == "" + (bare + "`");
    InsideMarks("", bare, "`");
    AfterDot("root." + path, node);
    NotBoundedStamp(node);
    QuotedNodeAlone(name);
  }

  lemma NotBoundedStamp(name: string)
    requires !Bounded(name)
    ensures !IsStamp(name)
  {
    if IsStamp(name) {
      StampIsBounded(name);
    }
  }

  lemma QuotedNodeAlone(name: string)
    requires Bounded(name) && name != "" && '.' !in name
    ensures NormalizeColumn("`" + name) == NormalizeColumn(name) != "`" + name
  {
    if HasPrefix(name, "root.") {
      RootHasDot(name);
    }
    assert "`" + (name + "") == "`" + name;
    QuotedNameSettles("`", name, "");
    NormalizedIs(name);
    InsideMarks("", name, "");
    assert "" + (name + "") == name;
    assert "timestamp"[0] == 't';
  }

  /** The smallest of them: `root.s.b` with its last node in back quotes. */
  lemma QuotedNodeExample()
    ensures NormalizeColumn("root.s.`b`") == "`b" && NormalizeColumn("`b") == "b"
  {
    assert "root." + "s" + ".`" + "b" + "`" == "root.s.`b`";
    assert "`" + "b" == "`b";
    QuotedNodeUnsettled("s", "b");
    NormalizedIs("b");
    InsideMarks("", "b", "");
    assert "" + ("b" + "") == "b";
    assert |Lower("b")| == 1;
  }

  // ---------- names in a printed list ----------

  /**
   * A closed column keeps a closed name: always when nothing is cut at a dot, and for a path when it is free of quotes,
   * commas and parentheses.
   */
  lemma NameIsClosed(column: string)
    requires Closed(column) && (IsRootPath(column) ==> Plain(column))
    ensures Closed(NormalizeColumn(column))
  {
    hide Closed, NormalizeColumn, Inside, IsStamp;
    NormalizedIs(column);
    PlainIsClosed("timestamp");
    var front, back := InsidePart(column);
    if IsRootPath(column) {
      LastDotFacts(Inside(column));
      PlainSlice(front, Inside(column), back, |Inside(column)| - |NameIn(column)|);
      PlainIsClosed(NameIn(column));
    } else {
      CoreIsClosed(front, Inside(column), back);
    }
  }

  lemma PlainSlice(front: string, core: string, back: string, i: nat)
    requires Plain(front + (core + back)) && i <= |core|
    ensures Plain(core[i..])
  {
    forall k | i <= k < |core| ensures PlainChar(core[k]) {
      assert (front + (core + back))[|front| + k] == core[k];
    }
  }
}
