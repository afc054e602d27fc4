/** Reading a column definition back: the type is known, and its clauses stand behind it in a fixed order. */
module AlterDefinitions {
  import opened Wrappers
  import opened AlterTable
  import opened AlterSql

  datatype Key = NoKey | Primary | Unique

  datatype Clauses = Clauses(identity: bool, notNull: bool, defaultValue: Option<string>, key: Key)

  function Took(s: string, word: string): bool {
    Strip(s, word).Some?
  }

  function Behind(s: string, word: string): string {
    if Took(s, word) then Strip(s, word).value else s
  }

  predicate EndsIn(s: string, word: string) {
    |word| <= |s| && s[|s| - |word|..] == word
  }

  /** The key word a definition ends in. */
  function KeyOf(s: string): Key {
    if EndsIn(s, " PRIMARY KEY") then Primary else if EndsIn(s, " UNIQUE") then Unique else NoKey
  }

  function KeyText(key: Key): string {
    match key
    case NoKey => ""
    case Primary => " PRIMARY KEY"
    case Unique => " UNIQUE"
  }

  /** None when something else stands where a clause should. */
  function ReadClauses(s: string): Option<Clauses> {
    var identity := Took(s, " GENERATED BY DEFAULT AS IDENTITY");
    var s1 := Behind(s, " GENERATED BY DEFAULT AS IDENTITY");
    var notNull, s2 := Took(s1, " NOT NULL"), Behind(s1, " NOT NULL");
    var key := KeyOf(s2);
    var s3 := s2[..|s2| - |KeyText(key)|];
    if s3 == "" then Some(Clauses(identity, notNull, None, key))
    else match Strip(s3, " DEFAULT ") {
      case None => None
      case Some(value) => Some(Clauses(identity, notNull, Some(value), key))
    }
  }

  /** A definition of a column of that type. */
  function ReadDefinition(typeStr: string, definition: string): Option<Clauses> {
    match Strip(definition, typeStr)
    case None => None
    case Some(rest) => ReadClauses(rest)
  }

  function DefaultText(defaultValue: Option<string>): string {
    if defaultValue.Some? then " DEFAULT " + defaultValue.value else ""
  }

  /** The default value does not pass for a key word. */
  predicate Unmistakable(c: Clauses) {
    c.key == NoKey ==> KeyOf(DefaultText(c.defaultValue)) == NoKey
  }

  function ClausesText(c: Clauses): string {
    (if c.identity then " GENERATED BY DEFAULT AS IDENTITY" else "")
    + ((if c.notNull then " NOT NULL" else "") + (DefaultText(c.defaultValue) + KeyText(c.key)))
  }

  lemma EndsInOwn(a: string, word: string)
    ensures EndsIn(a + word, word) && (a + word)[..|a|] == a
  {
  }

  lemma LastChar(s: string, word: string)
    requires word != "" && EndsIn(s, word)
    ensures s != "" && s[|s| - 1] == word[|word| - 1]
  {
    assert s[|s| - |word|..][|word| - 1] == s[|s| - 1];
  }

  lemma SecondChar(s: string, word: string)
    requires |word| >= 2 && Took(s, word)
    ensures |s| >= 2 && s[1] == word[1]
  {
    assert s[..|word|][1] == s[1];
  }

  lemma KeyLast(s: string, key: Key)
    ensures KeyOf(s + KeyText(key)) == if key.NoKey? then KeyOf(s) else key
    ensures (s + KeyText(key))[..|s + KeyText(key)| - |KeyText(key)|] == s
  {
    hide EndsIn;
    EndsInOwn(s, KeyText(key));
    if key.NoKey? {
      assert s + "" == s;
    } else if key.Unique? && EndsIn(s + KeyText(key), " PRIMARY KEY") {
      LastChar(s + KeyText(key), " PRIMARY KEY");
      LastChar(s + KeyText(key), " UNIQUE");
    }
  }

  /** What stands behind the first two clauses starts with neither. */
  lemma TailStarts(defaultValue: Option<string>, key: Key)
    ensures var t := DefaultText(defaultValue) + KeyText(key);
      |t| >= 2 ==> t[1] == 'D' || t[1] == 'P' || t[1] == 'U'
  {
    if defaultValue.Some? {
      assert DefaultText(defaultValue)[1] == 'D';
    } else {
      assert DefaultText(defaultValue) + KeyText(key) == KeyText(key);
    }
  }

  lemma TakesClause(present: bool, word: string, rest: string)
    requires |word| >= 2 && (|rest| >= 2 ==> rest[1] != word[1])
    ensures Took((if present then word else "") + rest, word) == present
    ensures Behind((if present then word else "") + rest, word) == rest
  {
    if present {
      StripOwn(word, rest);
    } else {
      assert "" + rest == rest;
      if Took(rest, word) {
        SecondChar(rest, word);
      }
    }
  }

  lemma NotNullStarts(notNull: bool, tail: string)
    requires |tail| >= 2 ==> tail[1] == 'D' || tail[1] == 'P' || tail[1] == 'U'
    ensures var s := (if notNull then " NOT NULL" else "") + tail; |s| >= 2 ==> s[1] != 'G'
  {
    if notNull {
      assert " NOT NULL"[1] == 'N';
    } else {
      assert "" + tail == tail;
    }
  }

  /** The clauses read back exactly when the default value does not pass for a key word at the end. */
  lemma ClausesReadBackIff(c: Clauses)
    ensures ReadClauses(ClausesText(c)) == Some(c) <==> Unmistakable(c)
  {
    hide Took, Behind, Strip, DefaultText, KeyText, KeyOf;
    var tail := DefaultText(c.defaultValue) + KeyText(c.key);
    TailStarts(c.defaultValue, c.key);
    NotNullStarts(c.notNull, tail);
    TakesClause(c.identity, " GENERATED BY DEFAULT AS IDENTITY", (if c.notNull then " NOT NULL" else "") + tail);
    TakesClause(c.notNull, " NOT NULL", tail);
    KeyLast(DefaultText(c.defaultValue), c.key);
    DefaultReads(c.defaultValue);
  }

  lemma DefaultReads(defaultValue: Option<string>)
    ensures DefaultText(defaultValue) == "" <==> defaultValue.None?
    ensures defaultValue.Some? ==> Strip(DefaultText(defaultValue), " DEFAULT ") == Some(defaultValue.value)
  {
    if defaultValue.Some? {
      StripOwn(" DEFAULT ", defaultValue.value);
    }
  }

  /** So does a whole definition. */
  lemma DefinitionReadsBackIff(typeStr: string, c: Clauses)
    ensures ReadDefinition(typeStr, typeStr + ClausesText(c)) == Some(c) <==> Unmistakable(c)
  {
    hide ReadClauses, ClausesText, Unmistakable;
    StripOwn(typeStr, ClausesText(c));
    ClausesReadBackIff(c);
  }
}
