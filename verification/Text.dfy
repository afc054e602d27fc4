/** ASCII text: white space, trimming, and quoting by doubling. */
module Text {
  import opened Wrappers

  predicate IsSpace(c: char) {
    c == ' ' || c == '\t' || c == '\n' || c == '\r' || c as int == 11 || c as int == 12
  }

  predicate IsBlank(s: string) {
    forall i :: 0 <= i < |s| ==> IsSpace(s[i])
  }

  function TrimLeft(s: string): string {
    if s != "" && IsSpace(s[0]) then TrimLeft(s[1..]) else s
  }

  function TrimRight(s: string): string {
    if s != "" && IsSpace(s[|s| - 1]) then TrimRight(s[..|s| - 1]) else s
  }

  lemma {:induction false} TrimLeftFacts(s: string)
    ensures |TrimLeft(s)| <= |s| && TrimLeft(s) == s[|s| - |TrimLeft(s)|..]
    ensures TrimLeft(s) != "" ==> !IsSpace(TrimLeft(s)[0])
    decreases |s|
  {
    if s != "" && IsSpace(s[0]) {
      TrimLeftFacts(s[1..]);
    }
  }

  lemma {:induction false} TrimRightFacts(s: string)
    ensures |TrimRight(s)| <= |s| && TrimRight(s) == s[..|TrimRight(s)|]
    ensures TrimRight(s) != "" ==> !IsSpace(TrimRight(s)[|TrimRight(s)| - 1])
    decreases |s|
  {
    if s != "" && IsSpace(s[|s| - 1]) {
      TrimRightFacts(s[..|s| - 1]);
    }
  }

  function Trim(s: string): string {
    TrimRight(TrimLeft(s))
  }

  /** No white space at either end. */
  predicate Trimmed(s: string) {
    s == "" || (!IsSpace(s[0]) && !IsSpace(s[|s| - 1]))
  }

  lemma TrimFacts(s: string)
    ensures Trimmed(Trim(s))
    ensures Trimmed(s) ==> Trim(s) == s
    ensures Trim(Trim(s)) == Trim(s)
  {
    TrimLeftFacts(s);
    TrimRightFacts(TrimLeft(s));
  }

  lemma {:induction false} TrimLeftSkips(before: string, rest: string)
    requires IsBlank(before) && (rest == "" || !IsSpace(rest[0]))
    ensures TrimLeft(before + rest) == rest
    decreases |before|
  {
    if before == "" {
      assert before + rest == rest;
    } else {
      assert (before + rest)[1..] == before[1..] + rest;
      TrimLeftSkips(before[1..], rest);
    }
  }

  lemma {:induction false} TrimRightSkips(rest: string, after: string)
    requires IsBlank(after) && (rest == "" || !IsSpace(rest[|rest| - 1]))
    ensures TrimRight(rest + after) == rest
    decreases |after|
  {
    if after == "" {
      assert rest + after == rest;
    } else {
      var n := |rest + after| - 1;
      assert (rest + after)[..n] == rest + after[..|after| - 1];
      TrimRightSkips(rest, after[..|after| - 1]);
    }
  }

  lemma {:induction false} TrimBlank(s: string)
    requires IsBlank(s)
    ensures TrimLeft(s) == ""
    decreases |s|
  {
    assert s + "" == s;
    TrimLeftSkips(s, "");
  }

  /** Trimming removes white space around a trimmed core and nothing else. */
  lemma TrimCore(before: string, core: string, after: string)
    requires IsBlank(before) && IsBlank(after) && Trimmed(core)
    ensures Trim(before + core + after) == core
  {
    assert before + core + after == before + (core + after);
    if core == "" {
      assert before + core + after == before + after;
      TrimBlank(before + after);
    } else {
      TrimLeftSkips(before, core + after);
      TrimRightSkips(core, after);
    }
  }

  lemma Regroup(a: string, b: string, c: string)
    ensures (a + b) + c == a + (b + c)
  {
  }

  // ---------- quoting by doubling ----------

  /** Every quote written twice. */
  function Doubled(s: string, quote: char): string {
    if s == "" then ""
    else (if s[0] == quote then [quote, quote] else [s[0]]) + Doubled(s[1..], quote)
  }

  /** A text as a string literal of SQL. */
  function QuoteLiteral(content: string): string {
    "'" + Doubled(content, '\'') + "'"
  }

  /** How a reader goes on inside a quoted token: a doubled quote stands for one, a single quote ends the token. */
  function ReadQuoted(text: string, quote: char): Option<(string, string)>
    decreases |text|
  {
    if text == "" then None
    else if text[0] != quote then
      match ReadQuoted(text[1..], quote) {
        case None => None
        case Some((s, rest)) => Some(([text[0]] + s, rest))
      }
    else if |text| > 1 && text[1] == quote then
      match ReadQuoted(text[2..], quote) {
        case None => None
        case Some((s, rest)) => Some(([quote] + s, rest))
      }
    else Some(("", text[1..]))
  }

  /** Whatever the text contains, the reader gets exactly that back and stops where the quoting stopped. */
  lemma {:induction false} QuotedReadsBack(s: string, quote: char, rest: string)
    requires rest == "" || rest[0] != quote
    ensures ReadQuoted(Doubled(s, quote) + [quote] + rest, quote) == Some((s, rest))
    decreases |s|
  {
    var text := Doubled(s, quote) + [quote] + rest;
    if s == "" {
      assert text == [quote] + rest;
      assert text[1..] == rest;
    } else {
      QuotedReadsBack(s[1..], quote, rest);
      var tail := Doubled(s[1..], quote) + [quote] + rest;
      if s[0] == quote {
        assert text == [quote, quote] + tail;
        assert text[2..] == tail;
      } else {
        assert text == [s[0]] + tail;
        assert text[1..] == tail;
      }
      assert [s[0]] + s[1..] == s;
    }
  }
}
