/**
 * The quote-aware scanners of the IoTDB driver. Each scanner of the source keeps an in-string flag and looks one
 * character ahead to step over a doubled quote. The specifications below know nothing of look-ahead: a position is
 * outside every literal when the number of quotes before it is even.
 */
module SqlScan {
  import opened Wrappers
  import opened Text

  function LowerChar(c: char): char {
    if 'A' <= c <= 'Z' then (c as int + 32) as char else c
  }

  /** strings.ToLower on ASCII text; it keeps every offset. */
  function Lower(s: string): (r: string)
    ensures |r| == |s|
    ensures forall i :: 0 <= i < |s| ==> r[i] == LowerChar(s[i])
  {
    seq(|s|, i requires 0 <= i < |s| => LowerChar(s[i]))
  }

  predicate EqualFold(a: string, b: string) {
    Lower(a) == Lower(b)
  }

  // ---------- quote parity ----------

  /** An odd number of quotes among the first i characters: position i lies inside a literal. */
  predicate OpenAt(s: string, i: int)
    requires 0 <= i <= |s|
    decreases i
  {
    i > 0 && (s[i - 1] == '\'') != OpenAt(s, i - 1)
  }

  predicate Open(s: string) {
    OpenAt(s, |s|)
  }

  /** Position i holds a character outside every literal and is not a quote itself. */
  predicate Visible(s: string, i: int) {
    0 <= i < |s| && s[i] != '\'' && !OpenAt(s, i)
  }

  lemma {:induction false} OpenInFront(a: string, b: string, i: int)
    requires 0 <= i <= |a|
    ensures OpenAt(a + b, i) == OpenAt(a, i)
    decreases i
  {
    if i > 0 {
      OpenInFront(a, b, i - 1);
    }
  }

  lemma {:induction false} OpenBehind(a: string, b: string, j: int)
    requires 0 <= j <= |b|
    ensures OpenAt(a + b, |a| + j) == (Open(a) != OpenAt(b, j))
    decreases j
  {
    if j == 0 {
      OpenInFront(a, b, |a|);
    } else {
      OpenBehind(a, b, j - 1);
    }
  }

  lemma OpenConcat(a: string, b: string)
    ensures Open(a + b) == (Open(a) != Open(b))
  {
    OpenBehind(a, b, |b|);
  }

  lemma VisibleInFront(a: string, b: string, i: int)
    requires 0 <= i < |a|
    ensures Visible(a + b, i) <==> Visible(a, i)
  {
    OpenInFront(a, b, i);
  }

  /** Text behind a closed prefix can be scanned on its own. */
  lemma VisibleBehind(a: string, b: string, j: int)
    requires !Open(a) && 0 <= j
    ensures Visible(a + b, |a| + j) <==> Visible(b, j)
  {
    if j < |b| {
      OpenBehind(a, b, j);
    }
  }

  lemma {:induction false} PlainCloses(s: string)
    requires '\'' !in s
    ensures forall i :: 0 <= i <= |s| ==> !OpenAt(s, i)
  {
    forall i | 0 <= i <= |s| ensures !OpenAt(s, i) {
      PlainPrefixCloses(s, i);
    }
  }

  lemma {:induction false} PlainPrefixCloses(s: string, i: int)
    requires '\'' !in s && 0 <= i <= |s|
    ensures !OpenAt(s, i)
    decreases i
  {
    if i > 0 {
      PlainPrefixCloses(s, i - 1);
    }
  }

  /** Quoting by doubling keeps the parity. */
  lemma {:induction false} DoubledCloses(s: string)
    ensures !Open(Doubled(s, '\''))
    decreases |s|
  {
    if s != "" {
      DoubledCloses(s[1..]);
      if s[0] == '\'' {
        var pair := ['\'', '\''];
        assert OpenAt(pair, 1) && !OpenAt(pair, 2) by {
          assert !OpenAt(pair, 0);
        }
        OpenConcat(pair, Doubled(s[1..], '\''));
      } else {
        PlainCloses([s[0]]);
        OpenConcat([s[0]], Doubled(s[1..], '\''));
      }
    }
  }

  // ---------- matchingParen ----------

  function Weight(c: char): int {
    if c == '(' then 1 else if c == ')' then -1 else 0
  }

  /** Opening minus closing parentheses outside every literal, among the first i characters. */
  function DepthAt(t: string, i: int): int
    requires 0 <= i <= |t|
    decreases i
  {
    if i == 0 then 0
    else DepthAt(t, i - 1) + if OpenAt(t, i - 1) then 0 else Weight(t[i - 1])
  }

  predicate ClosesAt(t: string, i: int) {
    Visible(t, i) && t[i] == ')' && DepthAt(t, i + 1) == 0
  }

  /** The least position, from a given one on, at which a closing parenthesis brings the depth back to zero. */
  function ClosingFrom(t: string, from: nat): (r: Option<nat>)
    requires from <= |t|
    ensures r.Some? ==> from <= r.value < |t|
    decreases |t| - from
  {
    if from == |t| then None else if ClosesAt(t, from) then Some(from) else ClosingFrom(t, from + 1)
  }

  lemma {:induction false} ClosingIs(t: string, from: nat, i: nat)
    requires from <= i && ClosesAt(t, i) && forall j :: from <= j < i ==> !ClosesAt(t, j)
    ensures ClosingFrom(t, from) == Some(i)
    decreases i - from
  {
    if from < i {
      ClosingIs(t, from + 1, i);
    }
  }

  lemma {:induction false} ClosingFacts(t: string, from: nat)
    requires from <= |t|
    ensures var r := ClosingFrom(t, from);
      && (r.Some? ==> ClosesAt(t, r.value))
      && forall j :: from <= j < (if r.Some? then r.value else |t|) ==> !ClosesAt(t, j)
    decreases |t| - from
  {
    if from < |t| && !ClosesAt(t, from) {
      ClosingFacts(t, from + 1);
    }
  }

  function Closing(t: string): (r: Option<nat>)
    ensures r.Some? ==> 0 < r.value < |t|
  {
    assert t != "" ==> DepthAt(t, 0) == 0 && !OpenAt(t, 0) && DepthAt(t, 1) == Weight(t[0]);
    ClosingFrom(t, 0)
  }

  method MatchingParen(input: string, open: nat) returns (r: Option<nat>)
    ensures open > |input| ==> r == None
    ensures open <= |input| && Closing(input[open..]).None? ==> r == None
    ensures open <= |input| && Closing(input[open..]).Some? ==> r == Some(open + Closing(input[open..]).value)
  {
    if open > |input| {
      return None;
    }
    ghost var t := input[open..];
    var inString := false;
    var depth := 0;
    var idx := open;
    while idx < |input|
      invariant open <= idx <= |input|
      invariant inString == OpenAt(t, idx - open) && depth == DepthAt(t, idx - open)
      invariant ClosingFrom(t, idx - open) == Closing(t)
    {
      var ch := input[idx];
      assert t[idx - open] == ch;
      if inString {
        if ch == '\'' {
          if idx + 1 < |input| && input[idx + 1] == '\'' {
            assert !OpenAt(t, idx - open + 1) && t[idx - open + 1] == '\'';
            assert ClosingFrom(t, idx - open + 1) == ClosingFrom(t, idx - open + 2);
            idx := idx + 1;
          } else {
            inString := false;
          }
        }
        idx := idx + 1;
        continue;
      }
      match ch {
        case '\'' => inString := true;
        case '(' => depth := depth + 1;
        case ')' =>
          depth := depth - 1;
          if depth == 0 {
            assert ClosesAt(t, idx - open);
            return Some(idx);
          }
        case _ =>
      }
      idx := idx + 1;
    }
    return None;
  }

  lemma {:induction false} DepthInFront(a: string, b: string, i: int)
    requires 0 <= i <= |a|
    ensures DepthAt(a + b, i) == DepthAt(a, i)
    decreases i
  {
    if i > 0 {
      DepthInFront(a, b, i - 1);
      OpenInFront(a, b, i - 1);
    }
  }

  lemma {:induction false} DepthBehind(a: string, b: string, j: int)
    requires !Open(a) && 0 <= j <= |b|
    ensures DepthAt(a + b, |a| + j) == DepthAt(a, |a|) + DepthAt(b, j)
    decreases j
  {
    if j == 0 {
      DepthInFront(a, b, |a|);
    } else {
      DepthBehind(a, b, j - 1);
      OpenBehind(a, b, j - 1);
    }
  }

  /** Parentheses outside literals pair up: no prefix closes more than it opened, and all are closed at the end. */
  predicate Nested(t: string) {
    !Open(t) && DepthAt(t, |t|) == 0 && forall i :: 0 <= i <= |t| ==> DepthAt(t, i) >= 0
  }

  lemma OneParen()
    ensures !Open("(") && DepthAt("(", 1) == 1
  {
    assert !OpenAt("(", 0);
  }

  /** The scanner finds the parenthesis that closes a nested body, whatever follows it. */
  lemma ClosingFindsEnd(body: string, rest: string)
    requires Nested(body)
    ensures Closing("(" + body + ")" + rest) == Some(|body| + 1)
  {
    var t := "(" + body + ")" + rest;
    var front := "(" + body;
    assert t == front + (")" + rest);
    OneParen();
    OpenConcat("(", body);
    OpenInFront(front, ")" + rest, |front|);
    forall i | 1 <= i <= |front| ensures DepthAt(t, i) == 1 + DepthAt(body, i - 1) {
      DepthInFront(front, ")" + rest, i);
      DepthBehind("(", body, i - 1);
    }
    assert ClosesAt(t, |body| + 1);
    assert !ClosesAt(t, 0);
    ClosingIs(t, 0, |body| + 1);
  }

  lemma {:induction false} DepthStaysPositive(t: string, i: int)
    requires t != "" && t[0] == '(' && 1 <= i <= |t|
    requires forall j :: 0 <= j < i ==> !ClosesAt(t, j)
    ensures DepthAt(t, i) >= 1
    decreases i
  {
    if i == 1 {
      assert !OpenAt(t, 0);
    } else {
      DepthStaysPositive(t, i - 1);
      assert !ClosesAt(t, i - 1);
    }
  }

  /** Conversely, what the scanner returns encloses a nested body. */
  lemma ClosingEncloses(t: string)
    requires t != "" && t[0] == '(' && Closing(t).Some?
    ensures var c := Closing(t).value; c >= 1 && Nested(t[1..c])
  {
    var c := Closing(t).value;
    ClosingFacts(t, 0);
    assert !OpenAt(t, 0);
    var body := t[1..c];
    assert t == "(" + (body + t[c..]) == ("(" + body) + t[c..];
    OneParen();
    forall i | 0 <= i <= |body| ensures DepthAt(body, i) == DepthAt(t, i + 1) - 1 >= 0 {
      DepthBehind("(", body + t[c..], i);
      DepthInFront(body, t[c..], i);
      DepthStaysPositive(t, i + 1);
    }
    OpenInFront("(" + body, t[c..], c);
    OpenConcat("(", body);
  }

  // ---------- splitCSV and splitAnd ----------

  datatype Separator = Comma | And {
    function Width(): nat {
      match this
      case Comma => 1
      case And => 5
    }
  }

  predicate SepText(sep: Separator, s: string, i: int)
    requires 0 <= i
  {
    match sep
    case Comma => i < |s| && s[i] == ','
    case And =>
      && i + 5 <= |s|
      && s[i] == ' ' && LowerChar(s[i + 1]) == 'a' && LowerChar(s[i + 2]) == 'n' && LowerChar(s[i + 3]) == 'd'
      && s[i + 4] == ' '
  }

  predicate SepAt(sep: Separator, s: string, i: int) {
    Visible(s, i) && SepText(sep, s, i)
  }

  /** The trimmed texts between the separators outside every literal; the piece under way began at start. */
  function SplitFrom(sep: Separator, s: string, start: nat, idx: nat): (r: seq<string>)
    requires start <= idx <= |s|
    decreases |s| - idx
  {
    if idx == |s| then [Trim(s[start..])]
    else if SepAt(sep, s, idx) then
      [Trim(s[start..idx])] + SplitFrom(sep, s, idx + sep.Width(), idx + sep.Width())
    else SplitFrom(sep, s, start, idx + 1)
  }

  function Split(sep: Separator, s: string): seq<string> {
    SplitFrom(sep, s, 0, 0)
  }

  lemma SepInFront(sep: Separator, a: string, b: string, i: int)
    requires 0 <= i && i + sep.Width() <= |a|
    ensures SepAt(sep, a + b, i) <==> SepAt(sep, a, i)
  {
    VisibleInFront(a, b, i);
  }

  lemma SepBehind(sep: Separator, a: string, b: string, j: int)
    requires !Open(a) && 0 <= j
    ensures SepAt(sep, a + b, |a| + j) <==> SepAt(sep, b, j)
  {
    VisibleBehind(a, b, j);
  }

  lemma Regrouped<T>(a: seq<T>, x: T, b: seq<T>)
    ensures a + ([x] + b) == (a + [x]) + b
  {
  }

  method SplitCsv(input: string) returns (parts: seq<string>)
    ensures parts == Split(Comma, input)
  {
    parts := [];
    var inString := false;
    var start := 0;
    var idx := 0;
    while idx < |input|
      invariant 0 <= start <= idx <= |input|
      invariant inString == OpenAt(input, idx)
      invariant parts + SplitFrom(Comma, input, start, idx) == Split(Comma, input)
    {
      var ch := input[idx];
      if inString {
        if ch == '\'' {
          if idx + 1 < |input| && input[idx + 1] == '\'' {
            assert !OpenAt(input, idx + 1);
            idx := idx + 1;
          } else {
            inString := false;
          }
        }
        idx := idx + 1;
        continue;
      }
      match ch {
        case '\'' => inString := true;
        case ',' =>
          Regrouped(parts, Trim(input[start..idx]), SplitFrom(Comma, input, idx + 1, idx + 1));
          parts := parts + [Trim(input[start..idx])];
          start := idx + 1;
        case _ =>
      }
      idx := idx + 1;
    }
    parts := parts + [Trim(input[start..])];
  }

  /** Two separators that share a blank: the only way two of them can overlap. */
  ghost predicate Overlap(s: string) {
    exists i :: AndAndAt(s, i)
  }

  predicate AndAndAt(s: string, i: int) {
    SepAt(And, s, i) && SepAt(And, s, i + 4)
  }

  lemma OverlapsByFour(s: string, i: int, j: int)
    requires SepAt(And, s, i) && SepAt(And, s, j) && i < j < i + 5
    ensures j == i + 4
  {
  }

  lemma AndHasNoQuote(s: string, i: int)
    ensures AndAndAt(s, i) ==> forall k :: i <= k <= i + 4 ==> !OpenAt(s, k) && s[k] != '\''
  {
    if AndAndAt(s, i) {
      assert !OpenAt(s, i + 1) && !OpenAt(s, i + 2) && !OpenAt(s, i + 3) && !OpenAt(s, i + 4);
    }
  }

  lemma SpellsAnd(s: string, i: nat)
    requires i + 5 <= |s|
    ensures Lower(s[i..i + 5]) == " and " <==> SepText(And, s, i)
  {
    var w := Lower(s[i..i + 5]);
    assert forall k :: 0 <= k < 5 ==> w[k] == LowerChar(s[i + k]);
    assert w == [w[0], w[1], w[2], w[3], w[4]];
    assert LowerChar(s[i]) == ' ' <==> s[i] == ' ';
    assert LowerChar(s[i + 4]) == ' ' <==> s[i + 4] == ' ';
  }

  method StartsWithAnd(input: string, idx: nat) returns (r: bool)
    ensures r == SepText(And, input, idx)
    ensures r ==> idx + 5 <= |input|
  {
    if idx + 5 <= |input| {
      SpellsAnd(input, idx);
    }
    r := idx + 5 <= |input| && Lower(input[idx..idx + 5]) == " and ";
  }

  /** None stands for the run-time panic of a slice whose start lies behind its end. */
  method SplitAnd(input: string) returns (r: Option<seq<string>>)
    ensures r == None <==> Overlap(input)
    ensures r.Some? ==> r.value == Split(And, input)
  {
    hide Trim, Lower, SepText;
    ghost var hit := if Overlap(input) then var i :| AndAndAt(input, i); i else -1;
    AndHasNoQuote(input, hit);
    var parts := [];
    var inString := false;
    var start := 0;
    var idx := 0;
    while idx < |input|
      invariant 0 <= idx <= |input| && 0 <= start <= |input|
      invariant inString == OpenAt(input, idx)
      invariant start > idx ==> start - 5 < idx && SepAt(And, input, start - 5)
      invariant AndAndAt(input, hit) ==> idx <= hit + 4 && (idx > hit ==> start == hit + 5)
      invariant parts + SplitFrom(And, input, start, if start > idx then start else idx) == Split(And, input)
    {
      var ch := input[idx];
      if inString {
        if ch == '\'' {
          if idx + 1 < |input| && input[idx + 1] == '\'' {
            assert !OpenAt(input, idx + 1);
            idx := idx + 1;
          } else {
            inString := false;
          }
        }
      } else if ch == '\'' {
        inString := true;
      } else {
        var matches := StartsWithAnd(input, idx);
        if matches {
          if start > idx {
            OverlapsByFour(input, start - 5, idx);
            assert AndAndAt(input, start - 5);
            return None;
          }
          Regrouped(parts, Trim(input[start..idx]), SplitFrom(And, input, idx + 5, idx + 5));
          parts := parts + [Trim(input[start..idx])];
          start := idx + 5;
        }
      }
      idx := idx + 1;
    }
    return Some(parts + [Trim(input[start..])]);
  }

  // ---------- findKeywordOutsideString ----------

  predicate IsIdentifierChar(c: char) {
    c == '_' || 'a' <= c <= 'z' || 'A' <= c <= 'Z' || '0' <= c <= '9'
  }

  /** The word stands at i outside every literal, with no identifier character on either side. */
  predicate KeywordAt(s: string, word: string, i: int) {
    && Visible(s, i) && i + |word| <= |s| && Lower(s[i..i + |word|]) == Lower(word)
    && (i == 0 || !IsIdentifierChar(s[i - 1]))
    && (i + |word| == |s| || !IsIdentifierChar(s[i + |word|]))
  }

  function KeywordFrom(s: string, word: string, from: nat): (r: Option<nat>)
    requires from <= |s|
    ensures r.Some? ==> from <= r.value && r.value + |word| <= |s|
    decreases |s| - from
  {
    if from == |s| then None else if KeywordAt(s, word, from) then Some(from) else KeywordFrom(s, word, from + 1)
  }

  /** KeywordFrom finds the first place at which the word stands, and only that. */
  lemma {:induction false} KeywordIs(s: string, word: string, from: nat, i: nat)
    requires from <= i && KeywordAt(s, word, i) && forall j :: from <= j < i ==> !KeywordAt(s, word, j)
    ensures KeywordFrom(s, word, from) == Some(i)
    decreases i - from
  {
    if from < i {
      KeywordIs(s, word, from + 1, i);
    }
  }

  lemma {:induction false} KeywordFacts(s: string, word: string, from: nat)
    requires from <= |s|
    ensures var r := KeywordFrom(s, word, from);
      && (r.Some? ==> KeywordAt(s, word, r.value))
      && forall j :: from <= j < (if r.Some? then r.value else |s|) ==> !KeywordAt(s, word, j)
    decreases |s| - from
  {
    if from < |s| && !KeywordAt(s, word, from) {
      KeywordFacts(s, word, from + 1);
    }
  }

  function FirstKeyword(s: string, word: string): Option<nat> {
    KeywordFrom(s, word, 0)
  }

  method FindKeyword(input: string, word: string) returns (r: Option<nat>)
    ensures r == FirstKeyword(input, word)
  {
    var inString := false;
    var idx := 0;
    while idx < |input|
      invariant 0 <= idx <= |input|
      invariant inString == OpenAt(input, idx)
      invariant KeywordFrom(input, word, idx) == FirstKeyword(input, word)
    {
      var ch := input[idx];
      if inString {
        if ch == '\'' {
          if idx + 1 < |input| && input[idx + 1] == '\'' {
            assert !OpenAt(input, idx + 1);
            idx := idx + 1;
          } else {
            inString := false;
          }
        }
        idx := idx + 1;
        continue;
      }
      if ch == '\'' {
        inString := true;
        idx := idx + 1;
        continue;
      }
      var end := idx + |word|;
      if end <= |input| && Lower(input[idx..end]) == Lower(word)
        && (idx == 0 || !IsIdentifierChar(input[idx - 1]))
        && (end == |input| || !IsIdentifierChar(input[end])) {
        assert KeywordAt(input, word, idx);
        return Some(idx);
      }
      idx := idx + 1;
    }
    return None;
  }
}
