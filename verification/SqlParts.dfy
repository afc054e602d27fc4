/** What a value or a column may look like to stand in a printed list. */
module SqlParts {
  import opened Text
  import opened SqlScan
  import opened SqlLists

  /** Closed literals, paired parentheses, no comma outside a literal. */
  predicate Closed(v: string) {
    Clean(Comma, v) && Nested(v)
  }

  predicate Atomic(v: string) {
    Trimmed(v) && Closed(v)
  }

  lemma AtomicIsClosed(v: string)
    requires Atomic(v)
    ensures Closed(v) && Trimmed(v)
  {
  }

  predicate PlainChar(c: char) {
    c != '\'' && c != '(' && c != ')' && c != ','
  }

  predicate Plain(v: string) {
    forall i :: 0 <= i < |v| ==> PlainChar(v[i])
  }

  lemma {:induction false} FlatDepth(v: string, i: nat)
    requires i <= |v| && forall k :: Visible(v, k) ==> Weight(v[k]) == 0
    ensures DepthAt(v, i) == 0
    decreases i
  {
    if i > 0 {
      FlatDepth(v, i - 1);
      assert Visible(v, i - 1) ==> Weight(v[i - 1]) == 0;
    }
  }

  lemma PlainIsFlat(v: string)
    requires Plain(v)
    ensures !Open(v) && forall i :: 0 <= i <= |v| ==> !OpenAt(v, i) && DepthAt(v, i) == 0
  {
    PlainCloses(v);
    forall i | 0 <= i <= |v| ensures DepthAt(v, i) == 0 {
      FlatDepth(v, i);
    }
  }

  lemma PlainIsClosed(v: string)
    requires Plain(v)
    ensures Closed(v)
  {
    PlainIsFlat(v);
  }

  // ---------- joining and cutting ----------

  lemma NestedConcat(a: string, b: string)
    requires Nested(a) && Nested(b)
    ensures Nested(a + b)
  {
    OpenConcat(a, b);
    forall i | 0 <= i <= |a + b| ensures DepthAt(a + b, i) >= 0 {
      if i <= |a| {
        DepthInFront(a, b, i);
      } else {
        DepthBehind(a, b, i - |a|);
      }
    }
    DepthBehind(a, b, |b|);
  }

  lemma CleanConcat(a: string, b: string)
    requires Clean(Comma, a) && Clean(Comma, b)
    ensures Clean(Comma, a + b)
  {
    OpenConcat(a, b);
    forall i | 0 <= i < |a + b| ensures !SepAt(Comma, a + b, i) {
      if i < |a| {
        SepInFront(Comma, a, b, i);
      } else {
        SepBehind(Comma, a, b, i - |a|);
      }
    }
  }

  lemma {:induction false} JoinIsNested(parts: seq<string>)
    requires forall i :: 0 <= i < |parts| ==> Nested(parts[i])
    ensures Nested(Join(parts, ", "))
    decreases |parts|
  {
    if |parts| == 0 {
      assert !OpenAt("", 0);
    } else if |parts| > 1 {
      JoinIsNested(parts[1..]);
      CommaIsNested();
      NestedConcat(parts[0], ", ");
      NestedConcat(parts[0] + ", ", Join(parts[1..], ", "));
    }
  }

  lemma CommaIsNested()
    ensures Nested(", ")
  {
    PlainCloses(", ");
    forall i | 0 <= i <= 2 ensures DepthAt(", ", i) == 0 {
      FlatDepth(", ", i);
    }
  }

  /** A closed part in parentheses is one too. */
  lemma InParens(body: string)
    requires Closed(body)
    ensures Closed("(" + body + ")")
  {
    var front, t := "(" + body, "(" + body + ")";
    OneParen();
    OpenConcat("(", body);
    PlainCloses("(");
    PlainCloses(")");
    CleanConcat("(", body);
    CleanConcat(front, ")");
    forall i | 0 <= i <= |front| ensures DepthAt(t, i) == if i == 0 then 0 else 1 + DepthAt(body, i - 1) {
      DepthInFront(front, ")", i);
      if i > 0 {
        DepthBehind("(", body, i - 1);
      }
    }
    OpenInFront(front, ")", |front|);
    assert DepthAt(t, |t|) == DepthAt(t, |front|) - 1;
  }

  /** Cutting text without quotes and commas off both ends leaves one part one part. */
  lemma CoreIsClean(front: string, core: string, back: string)
    requires Plain(front) && Plain(back) && Clean(Comma, front + (core + back))
    ensures Clean(Comma, core)
  {
    PlainIsFlat(front);
    PlainIsFlat(back);
    OpenConcat(front, core + back);
    OpenConcat(core, back);
    forall i | 0 <= i < |core| ensures !SepAt(Comma, core, i) {
      SepInFront(Comma, core, back, i);
      SepBehind(Comma, front, core + back, i);
    }
  }

  /** And where there are no parentheses either, a closed part closed. */
  lemma CoreIsClosed(front: string, core: string, back: string)
    requires Plain(front) && Plain(back) && Closed(front + (core + back))
    ensures Closed(core)
  {
    CoreIsClean(front, core, back);
    PlainIsFlat(front);
    PlainIsFlat(back);
    OpenConcat(core, back);
    forall i | 0 <= i <= |core| ensures DepthAt(core, i) >= 0 {
      DepthInFront(core, back, i);
      DepthBehind(front, core + back, i);
    }
    DepthBehind(core, back, |back|);
    DepthBehind(front, core + back, |core| + |back|);
  }

  lemma TrimmedPart(v: string) returns (front: string, back: string)
    ensures v == front + (Trim(v) + back) && IsBlank(front) && IsBlank(back) && Plain(front) && Plain(back)
  {
    front := TrimLeftCuts(v);
    back := TrimRightCuts(TrimLeft(v));
    BlankIsPlain(front);
    BlankIsPlain(back);
  }

  lemma BlankIsPlain(s: string)
    requires IsBlank(s)
    ensures Plain(s)
  {
  }

  lemma {:induction false} TrimLeftCuts(s: string) returns (front: string)
    ensures s == front + TrimLeft(s) && IsBlank(front)
    decreases |s|
  {
    if s != "" && IsSpace(s[0]) {
      var more := TrimLeftCuts(s[1..]);
      front := [s[0]] + more;
      OneMoreInFront(s, more, TrimLeft(s[1..]));
    } else {
      front := "";
    }
  }

  lemma OneMoreInFront(s: string, front: string, rest: string)
    requires s != "" && s[1..] == front + rest
    ensures s == ([s[0]] + front) + rest
  {
    assert s == [s[0]] + s[1..];
  }

  lemma {:induction false} TrimRightCuts(s: string) returns (back: string)
    ensures s == TrimRight(s) + back && IsBlank(back)
    decreases |s|
  {
    if s != "" && IsSpace(s[|s| - 1]) {
      var more := TrimRightCuts(s[..|s| - 1]);
      back := more + [s[|s| - 1]];
      OneMoreBehind(s, TrimRight(s[..|s| - 1]), more);
    } else {
      back := "";
    }
  }

  lemma OneMoreBehind(s: string, rest: string, back: string)
    requires s != "" && s[..|s| - 1] == rest + back
    ensures s == rest + (back + [s[|s| - 1]])
  {
    assert s == s[..|s| - 1] + [s[|s| - 1]];
  }

  lemma TrimIsClean(v: string)
    requires Clean(Comma, v)
    ensures Clean(Comma, Trim(v))
  {
    var front, back := TrimmedPart(v);
    CoreIsClean(front, Trim(v), back);
  }

  /** A closed part is atomic once its white space is off. */
  lemma TrimIsAtomic(v: string)
    requires Closed(v)
    ensures Atomic(Trim(v))
  {
    var front, back := TrimmedPart(v);
    CoreIsClosed(front, Trim(v), back);
    TrimFacts(v);
  }
}
