/**
 * The SQL text of the statements the diff compilers emit. Names and comments stand in it quoted by doubling, so that
 * whatever they contain, the text says the one statement it was made from.
 */
module AlterSql {
  import opened Wrappers
  import opened Text
  import opened AlterTable

  function QuoteIdentifier(s: string): string {
    "\"" + (Doubled(s, '\"') + ['\"'])
  }

  /** The text up to and with the first quote; the table's name is already qualified and quoted. */
  function Lead(table: string, s: Statement): string {
    match s
    case RenameColumn(_, _) => "ALTER TABLE " + (table + " RENAME COLUMN \"")
    case AddColumn(_, _) => "ALTER TABLE " + (table + " ADD COLUMN \"")
    case DropColumn(_) => "ALTER TABLE " + (table + " DROP COLUMN \"")
    case CommentOnTable(_) => "COMMENT ON TABLE " + (table + " IS '")
    case CommentOnColumn(_, _) => "COMMENT ON COLUMN " + (table + ".\"")
  }

  /** What stands behind the first quote. */
  function Rest(s: Statement): string {
    match s
    case RenameColumn(o, n) => Doubled(o, '\"') + ['\"'] + (" TO " + QuoteIdentifier(n))
    case AddColumn(n, definition) => Doubled(n, '\"') + ['\"'] + (" " + definition)
    case DropColumn(n) => Doubled(n, '\"') + ['\"'] + ""
    case CommentOnTable(text) => Doubled(text, '\'') + ['\''] + ""
    case CommentOnColumn(n, text) => Doubled(n, '\"') + ['\"'] + (" IS " + QuoteLiteral(text))
  }

  function Sql(table: string, s: Statement): string {
    Lead(table, s) + Rest(s)
  }

  // ---------- reading a statement ----------

  function Strip(s: string, lead: string): Option<string> {
    if |lead| <= |s| && s[..|lead|] == lead then Some(s[|lead|..]) else None
  }

  const KINDS: seq<Statement> :=
    [RenameColumn("", ""), AddColumn("", ""), DropColumn(""), CommentOnTable(""), CommentOnColumn("", "")]

  predicate SameKind(a: Statement, b: Statement) {
    && a.RenameColumn? == b.RenameColumn? && a.AddColumn? == b.AddColumn? && a.DropColumn? == b.DropColumn?
    && a.CommentOnTable? == b.CommentOnTable? && a.CommentOnColumn? == b.CommentOnColumn?
  }

  /** How a statement of each kind must begin, up to and with its first quote: the words of the databases' grammars. */
  function Grammar(table: string, kind: Statement): string {
    match kind
    case RenameColumn(_, _) => "ALTER TABLE " + (table + " RENAME COLUMN \"")
    case AddColumn(_, _) => "ALTER TABLE " + (table + " ADD COLUMN \"")
    case DropColumn(_) => "ALTER TABLE " + (table + " DROP COLUMN \"")
    case CommentOnTable(_) => "COMMENT ON TABLE " + (table + " IS '")
    case CommentOnColumn(_, _) => "COMMENT ON COLUMN " + (table + ".\"")
  }

  /** A whole quoted text and nothing behind it. */
  function ReadLast(s: string, quote: char): Option<string> {
    match ReadQuoted(s, quote)
    case None => None
    case Some((text, rest)) => if rest == "" then Some(text) else None
  }

  function ReadRest(kind: Statement, s: string): Option<Statement> {
    match ReadQuoted(s, if kind.CommentOnTable? then '\'' else '\"')
    case None => None
    case Some((first, rest)) =>
      match kind
      case RenameColumn(_, _) =>
        (match Strip(rest, " TO \"") {
           case None => None
           case Some(more) =>
             match ReadLast(more, '\"') { case None => None case Some(n) => Some(RenameColumn(first, n)) }
         })
      case AddColumn(_, _) =>
        (match Strip(rest, " ") { case None => None case Some(definition) => Some(AddColumn(first, definition)) })
      case DropColumn(_) => if rest == "" then Some(DropColumn(first)) else None
      case CommentOnTable(_) => if rest == "" then Some(CommentOnTable(first)) else None
      case CommentOnColumn(_, _) =>
        (match Strip(rest, " IS '") {
           case None => None
           case Some(more) =>
             match ReadLast(more, '\'') { case None => None case Some(text) => Some(CommentOnColumn(first, text)) }
         })
  }

  /** How a reader who knows the table understands the text: by the first kind of statement it starts like. */
  function ReadSql(table: string, s: string, from: nat): Option<Statement>
    requires from <= |KINDS|
    decreases |KINDS| - from
  {
    if from == |KINDS| then None
    else match Strip(s, Grammar(table, KINDS[from])) {
      case None => ReadSql(table, s, from + 1)
      case Some(rest) => ReadRest(KINDS[from], rest)
    }
  }

  lemma StripOwn(lead: string, rest: string)
    ensures Strip(lead + rest, lead) == Some(rest)
  {
  }

  /** Two different leads differ at a place that both have. */
  lemma LeadsDiffer(table: string, a: Statement, b: Statement, rest: string)
    requires !SameKind(a, b)
    ensures Strip(Lead(table, a) + rest, Grammar(table, b)) == None
  {
    var s := Lead(table, a) + rest;
    var at := if (a.CommentOnTable? || a.CommentOnColumn?) != (b.CommentOnTable? || b.CommentOnColumn?) then 0
              else if a.CommentOnTable? || a.CommentOnColumn? then 11 else 13 + |table|;
    LeadChar(table, a, rest, at);
    LeadChar(table, b, "", at);
    SameLead(table, b, b);
    assert Lead(table, b) + "" == Lead(table, b);
    StripAt(s, Grammar(table, b), at);
  }

  lemma StripAt(s: string, lead: string, at: nat)
    requires at < |lead|
    ensures Strip(s, lead).Some? ==> at < |s| && s[at] == lead[at]
  {
    assert |lead| <= |s| ==> s[..|lead|][at] == s[at];
  }

  lemma LeadChar(table: string, a: Statement, rest: string, at: nat)
    requires at == 0 || (at == 11 && (a.CommentOnTable? || a.CommentOnColumn?))
      || (at == 13 + |table| && !a.CommentOnTable? && !a.CommentOnColumn?)
    ensures at < |Lead(table, a)|
    ensures var c := (Lead(table, a) + rest)[at];
      && (at == 0 ==> c == if a.CommentOnTable? || a.CommentOnColumn? then 'C' else 'A')
      && (at == 11 && (a.CommentOnTable? || a.CommentOnColumn?) ==> c == if a.CommentOnTable? then 'T' else 'C')
      && (at == 13 + |table| && !a.CommentOnTable? && !a.CommentOnColumn? ==>
            c == if a.RenameColumn? then 'R' else if a.AddColumn? then 'A' else 'D')
  {
  }

  lemma QuotedLast(s: string, quote: char)
    ensures ReadLast(Doubled(s, quote) + [quote], quote) == Some(s)
  {
    QuotedReadsBack(s, quote, "");
    assert Doubled(s, quote) + [quote] + "" == Doubled(s, quote) + [quote];
  }

  lemma IdentifierBehind(word: string, s: string)
    ensures Strip(word + QuoteIdentifier(s), word + "\"") == Some(Doubled(s, '\"') + ['\"'])
  {
    var body := Doubled(s, '\"') + ['\"'];
    assert word + ("\"" + body) == (word + "\"") + body;
    StripOwn(word + "\"", body);
  }

  lemma LiteralBehind(word: string, s: string)
    ensures Strip(word + QuoteLiteral(s), word + "'") == Some(Doubled(s, '\'') + ['\''])
  {
    var body := Doubled(s, '\'') + ['\''];
    assert QuoteLiteral(s) == "'" + body;
    assert word + ("'" + body) == (word + "'") + body;
    StripOwn(word + "'", body);
  }

  lemma RestReadsBack(s: Statement, kind: Statement)
    requires SameKind(s, kind)
    ensures ReadRest(kind, Rest(s)) == Some(s)
  {
    hide Doubled, ReadQuoted, Strip, ReadLast, QuoteIdentifier, QuoteLiteral;
    match s
    case RenameColumn(o, n) =>
      FirstChar(" TO ", QuoteIdentifier(n));
      QuotedReadsBack(o, '\"', " TO " + QuoteIdentifier(n));
      IdentifierBehind(" TO ", n);
      assert " TO " + "\"" == " TO \"";
      QuotedLast(n, '\"');
    case AddColumn(n, definition) =>
      FirstChar(" ", definition);
      QuotedReadsBack(n, '\"', " " + definition);
      StripOwn(" ", definition);
    case DropColumn(n) => QuotedReadsBack(n, '\"', "");
    case CommentOnTable(text) => QuotedReadsBack(text, '\'', "");
    case CommentOnColumn(n, text) =>
      FirstChar(" IS ", QuoteLiteral(text));
      QuotedReadsBack(n, '\"', " IS " + QuoteLiteral(text));
      LiteralBehind(" IS ", text);
      assert " IS " + "'" == " IS '";
      QuotedLast(text, '\'');
  }

  lemma FirstChar(word: string, rest: string)
    requires word != ""
    ensures (word + rest)[0] == word[0]
  {
  }

  lemma {:induction false} ReadFrom(table: string, s: Statement, from: nat)
    requires from < |KINDS| && exists k :: from <= k < |KINDS| && SameKind(s, KINDS[k])
    ensures ReadSql(table, Sql(table, s), from) == Some(s)
    decreases |KINDS| - from
  {
    hide Rest, Lead, Grammar, ReadRest, Strip;
    if SameKind(s, KINDS[from]) {
      assert Grammar(table, KINDS[from]) == Lead(table, s) by {
        SameLead(table, s, KINDS[from]);
      }
      StripOwn(Lead(table, s), Rest(s));
      RestReadsBack(s, KINDS[from]);
    } else {
      LeadsDiffer(table, s, KINDS[from], Rest(s));
      ReadFrom(table, s, from + 1);
    }
  }

  lemma SameLead(table: string, a: Statement, b: Statement)
    requires SameKind(a, b)
    ensures Lead(table, a) == Grammar(table, b)
  {
  }

  lemma EveryKind(s: Statement)
    ensures exists k :: 0 <= k < |KINDS| && SameKind(s, KINDS[k])
  {
    var k := match s
      case RenameColumn(_, _) => 0
      case AddColumn(_, _) => 1
      case DropColumn(_) => 2
      case CommentOnTable(_) => 3
      case CommentOnColumn(_, _) => 4;
    assert SameKind(s, KINDS[k]);
  }

  /** Whatever names, definitions and comments contain, the text reads back as the statement it was made from. */
  lemma SqlReadsBack(table: string, s: Statement)
    ensures ReadSql(table, Sql(table, s), 0) == Some(s)
  {
    EveryKind(s);
    ReadFrom(table, s, 0);
  }
}
