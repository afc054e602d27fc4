/** Where the key words of a statement stand: a text is free of a word when the scanner finds it nowhere. */
module SqlWords {
  import opened Wrappers
  import opened Text
  import opened SqlScan

  predicate IsWord(word: string) {
    |word| >= 3 && forall k :: 0 <= k < |word| ==> 'a' <= word[k] <= 'z'
  }

  /** The word stands nowhere in the text outside literals. */
  ghost predicate Free(s: string, word: string) {
    forall i :: !KeywordAt(s, word, i)
  }

  lemma Spells(t: string, word: string, i: nat, k: nat)
    requires KeywordAt(t, word, i) && k < |word|
    ensures LowerChar(t[i + k]) == LowerChar(word[k])
  {
    assert Lower(t[i..i + |word|])[k] == Lower(word)[k];
    assert t[i..i + |word|][k] == t[i + k];
  }

  lemma WordChar(s: string, word: string, i: nat, k: nat)
    requires IsWord(word) && KeywordAt(s, word, i) && k < |word|
    ensures IsIdentifierChar(s[i + k])
  {
    Spells(s, word, i, k);
  }

  /** A word that begins in front of a blank ends in front of it. */
  lemma WordAvoidsBlank(s: string, word: string, i: nat, b: nat)
    requires IsWord(word) && KeywordAt(s, word, i) && i <= b < |s| && IsSpace(s[b])
    ensures i + |word| <= b
  {
    if b < i + |word| {
      WordChar(s, word, i, b - i);
    }
  }

  lemma LowerOfWord(word: string)
    requires IsWord(word)
    ensures Lower(word) == word
  {
  }

  // ---------- joining texts ----------

  ghost predicate Boundary(a: string, b: string) {
    a == "" || b == "" || !IsIdentifierChar(a[|a| - 1]) || !IsIdentifierChar(b[0])
  }

  lemma KeywordInFront(a: string, b: string, word: string, i: nat)
    requires IsWord(word) && i + |word| <= |a| && KeywordAt(a + b, word, i)
    ensures KeywordAt(a, word, i)
  {
    VisibleInFront(a, b, i);
    assert (a + b)[i..i + |word|] == a[i..i + |word|];
  }

  lemma KeywordBehind(a: string, b: string, word: string, j: nat)
    requires IsWord(word) && !Open(a) && KeywordAt(a + b, word, |a| + j)
    ensures KeywordAt(b, word, j)
  {
    VisibleBehind(a, b, j);
    assert (a + b)[|a| + j..|a| + j + |word|] == b[j..j + |word|];
    assert j > 0 ==> (a + b)[|a| + j - 1] == b[j - 1];
  }

  lemma KeywordStaysInFront(a: string, b: string, word: string, i: nat)
    requires IsWord(word) && KeywordAt(a, word, i) && Boundary(a, b)
    ensures KeywordAt(a + b, word, i)
  {
    VisibleInFront(a, b, i);
    assert (a + b)[i..i + |word|] == a[i..i + |word|];
    WordChar(a, word, i, |word| - 1);
  }

  lemma KeywordStaysBehind(a: string, b: string, word: string, j: nat)
    requires IsWord(word) && !Open(a) && KeywordAt(b, word, j) && Boundary(a, b)
    ensures KeywordAt(a + b, word, |a| + j)
  {
    VisibleBehind(a, b, j);
    assert (a + b)[|a| + j..|a| + j + |word|] == b[j..j + |word|];
    assert j > 0 ==> (a + b)[|a| + j - 1] == b[j - 1];
    WordChar(b, word, j, 0);
  }

  /** Joining two texts at a place where a word cannot run on brings no word in and takes none out. */
  lemma FreeConcat(a: string, b: string, word: string)
    requires IsWord(word) && !Open(a) && Boundary(a, b)
    ensures Free(a + b, word) <==> Free(a, word) && Free(b, word)
  {
    hide KeywordAt, IsWord, Boundary;
    if Free(a, word) && Free(b, word) {
      forall i ensures !KeywordAt(a + b, word, i) {
        if KeywordAt(a + b, word, i) {
          WordInOne(a, b, word, i);
        }
      }
    }
    if i :| KeywordAt(a, word, i) {
      KeywordPlace(a, word, i);
      KeywordStaysInFront(a, b, word, i);
    }
    if j :| KeywordAt(b, word, j) {
      KeywordPlace(b, word, j);
      KeywordStaysBehind(a, b, word, j);
    }
  }

  lemma KeywordPlace(s: string, word: string, i: int)
    requires KeywordAt(s, word, i)
    ensures 0 <= i < |s|
  {
  }

  lemma WordInOne(a: string, b: string, word: string, i: int)
    requires IsWord(word) && !Open(a) && Boundary(a, b) && KeywordAt(a + b, word, i)
    ensures KeywordAt(a, word, i) || KeywordAt(b, word, i - |a|)
  {
    if i + |word| <= |a| {
      KeywordInFront(a, b, word, i);
    } else if i >= |a| {
      KeywordBehind(a, b, word, i - |a|);
    } else {
      WordChar(a + b, word, i, |a| - 1 - i);
      WordChar(a + b, word, i, |a| - i);
    }
  }

  lemma FreeShort(s: string, word: string)
    requires |s| < |word|
    ensures Free(s, word)
  {
  }

  /** A text without the letter a word begins with is free of the word. */
  lemma FreeWithout(s: string, word: string)
    requires IsWord(word) && forall i :: 0 <= i < |s| ==> LowerChar(s[i]) != word[0]
    ensures Free(s, word)
  {
    forall i ensures !KeywordAt(s, word, i) {
      if KeywordAt(s, word, i) {
        Spells(s, word, i, 0);
      }
    }
  }

  /** A longer name of letters, digits and underscores does not hold the word. */
  lemma LongNameIsFree(s: string, word: string)
    requires IsWord(word) && |s| > |word|
    requires forall i :: 0 <= i < |s| ==>
      'a' <= s[i] <= 'z' || 'A' <= s[i] <= 'Z' || '0' <= s[i] <= '9' || s[i] == '_'
    ensures Free(s, word)
  {
    assert forall k :: 0 <= k < |s| ==> IsIdentifierChar(s[k]);
  }

  /** But a word between other characters is one. */
  lemma WordAlone(a: char, word: string, b: char)
    requires IsWord(word) && a != '\'' && LowerChar(a) != '_' && !('a' <= LowerChar(a) <= 'z') && !('0' <= a <= '9')
    requires b != '_' && !('a' <= LowerChar(b) <= 'z') && !('0' <= b <= '9')
    ensures KeywordAt([a] + (word + [b]), word, 1)
  {
    PlainCloses([a]);
    LowerOfWord(word);
    StandsThere([a], word, [b], word);
  }

  // ---------- the first place of a word ----------

  lemma StandsThere(a: string, written: string, b: string, word: string)
    requires IsWord(word) && Lower(written) == word && !Open(a)
    requires a != "" && !IsIdentifierChar(a[|a| - 1]) && b != "" && !IsIdentifierChar(b[0])
    ensures KeywordAt(a + (written + b), word, |a|)
  {
    var t := a + (written + b);
    LowerOfWord(word);
    VisibleBehind(a, written + b, 0);
    assert LowerChar(written[0]) == Lower(written)[0];
    assert t[|a|..|a| + |word|] == written;
    assert t[|a| + |word|] == b[0] && t[|a| - 1] == a[|a| - 1];
  }

  /** A word is found where it was put, or earlier: there if and only if the text in front is free of it. */
  lemma KeywordFoundIff(a: string, written: string, b: string, word: string)
    requires IsWord(word) && Lower(written) == word && !Open(a)
    requires a != "" && !IsIdentifierChar(a[|a| - 1]) && b != "" && !IsIdentifierChar(b[0])
    ensures var first := FirstKeyword(a + (written + b), word);
      first.Some? && first.value <= |a| && (first.value == |a| <==> Free(a, word))
  {
    var t := a + (written + b);
    StandsThere(a, written, b, word);
    KeywordFacts(t, word, 0);
    var first := FirstKeyword(t, word).value;
    hide KeywordAt, IsWord;
    if i :| KeywordAt(a, word, i) {
      KeywordPlace(a, word, i);
      KeywordStaysInFront(a, written + b, word, i);
    }
    if first < |a| {
      KeywordEndsInFront(a, written + b, word, first);
    }
  }

  lemma KeywordEndsInFront(a: string, b: string, word: string, i: nat)
    requires IsWord(word) && KeywordAt(a + b, word, i) && i < |a| && !IsIdentifierChar(a[|a| - 1])
    ensures KeywordAt(a, word, i)
  {
    if i + |word| <= |a| {
      KeywordInFront(a, b, word, i);
    } else {
      WordChar(a + b, word, i, |a| - 1 - i);
    }
  }
}
