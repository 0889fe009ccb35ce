/** The object a DDL statement changes (ParseTarget in internal/ledger/impact.go). */
module Targets {
  import opened Text
  import opened Lexer

  /** The name keeps the quotes of the statement; the column is an identifier's value, "" standing for none. */
  datatype Target = Target(name: string, column: string, action: string)

  /** The cap on the tokens looked at. */
  const MAX_TOKENS := 256

  // ---------------------------------------------------------------- reading tokens

  /** strings.EqualFold. */
  predicate EqualFold(cls: Classes, a: string, b: string) {
    |a| == |b| && forall i :: 0 <= i < |a| ==> cls.fold(a[i]) == cls.fold(b[i])
  }

  /** The token is the unquoted keyword `kw`, in any case. */
  predicate Keyword(cls: Classes, t: Token, kw: string) { !t.quoted && !t.punct && EqualFold(cls, t.raw, kw) }

  predicate At(cls: Classes, toks: seq<Token>, i: nat, kws: seq<string>) {
    i + |kws| <= |toks| && forall k :: 0 <= k < |kws| ==> Keyword(cls, toks[i + k], kws[k])
  }

  function SkipOver(cls: Classes, toks: seq<Token>, i: nat, kws: seq<string>): nat {
    if At(cls, toks, i, kws) then i + |kws| else i
  }

  const OBJECT_TYPES := [["MATERIALIZED", "VIEW"], ["FOREIGN", "TABLE"], ["TABLE"], ["VIEW"], ["INDEX"], ["SEQUENCE"]]

  /** The position after an object type, the first of `types` that is there. */
  function ObjectType(cls: Classes, toks: seq<Token>, i: nat, types: seq<seq<string>>): Option<nat> {
    if types == [] then None
    else if At(cls, toks, i, types[0]) then Some(i + |types[0]|)
    else ObjectType(cls, toks, i, types[1..])
  }

  predicate IsIdent(toks: seq<Token>, i: nat) { i < |toks| && !toks[i].punct }

  predicate IsDot(toks: seq<Token>, i: nat) { i < |toks| && toks[i].punct && toks[i].raw == "." }

  /** How many further name parts follow at `i`, at most `n`. */
  function MoreParts(toks: seq<Token>, i: nat, n: nat): (k: nat)
    ensures k <= n && i + 2 * k <= if k > 0 then |toks| else i
    decreases n
  {
    if n > 0 && IsDot(toks, i) && IsIdent(toks, i + 1) then 1 + MoreParts(toks, i + 2, n - 1) else 0
  }

  /** The identifiers at i, i + 2, ... as written. */
  function Parts(toks: seq<Token>, i: nat, n: nat): (parts: seq<string>)
    requires n > 0 ==> i + 2 * n - 1 <= |toks|
    ensures |parts| == n
    decreases n
  {
    if n == 0 then [] else [toks[i].raw] + Parts(toks, i + 2, n - 1)
  }

  datatype Named = Named(text: string, next: nat)

  /** A possibly schema-qualified identifier: up to three parts. */
  function Name(toks: seq<Token>, i: nat): Option<Named> {
    if !IsIdent(toks, i) then None
    else
      var n := 1 + MoreParts(toks, i + 1, 2);
      Some(Named(Join(Parts(toks, i, n), '.'), i + 2 * n - 1))
  }

  function Column(toks: seq<Token>, i: nat): Option<Named> {
    if IsIdent(toks, i) then Some(Named(toks[i].val, i + 1)) else None
  }

  // ---------------------------------------------------------------- statements

  function NameTarget(toks: seq<Token>, i: nat, action: string): Option<Target> {
    var name := Name(toks, i);
    if name.None? then None else Some(Target(name.value.text, "", action))
  }

  function DropTarget(cls: Classes, toks: seq<Token>): Option<Target> {
    var i := ObjectType(cls, toks, 1, OBJECT_TYPES);
    if i.None? then None
    else
      var j := SkipOver(cls, toks, i.value, ["CONCURRENTLY"]);
      NameTarget(toks, SkipOver(cls, toks, j, ["IF", "EXISTS"]), "drop")
  }

  function TruncateTarget(cls: Classes, toks: seq<Token>): Option<Target> {
    NameTarget(toks, SkipOver(cls, toks, SkipOver(cls, toks, 1, ["TABLE"]), ["ONLY"]), "truncate")
  }

  /** The object types an ALTER ... DROP may be about instead of a column. */
  predicate DropsNoColumn(cls: Classes, toks: seq<Token>, j: nat) {
    At(cls, toks, j, ["CONSTRAINT"]) || At(cls, toks, j, ["DEFAULT"]) || At(cls, toks, j, ["NOT"]) ||
    At(cls, toks, j, ["EXPRESSION"]) || At(cls, toks, j, ["IDENTITY"])
  }

  function ColumnTarget(toks: seq<Token>, k: nat, t: Target, action: string): Target {
    var c := Column(toks, k);
    if c.None? then t else t.(column := c.value.text, action := action)
  }

  function RenameTarget(cls: Classes, toks: seq<Token>, j: nat, t: Target): Target {
    var k := SkipOver(cls, toks, j + 1, ["COLUMN"]);
    if At(cls, toks, k, ["CONSTRAINT"]) then t
    else
      var c := Column(toks, k);
      if c.Some? && At(cls, toks, c.value.next, ["TO"]) then t.(column := c.value.text, action := "rename-column") else t
  }

  function AlterColumnTarget(cls: Classes, toks: seq<Token>, j: nat, t: Target): Target {
    var c := Column(toks, SkipOver(cls, toks, j + 1, ["COLUMN"]));
    if c.None? then t
    else
      t.(column := c.value.text,
         action := if At(cls, toks, c.value.next, ["TYPE"]) || At(cls, toks, c.value.next, ["SET", "DATA", "TYPE"])
                   then "alter-column-type" else "alter-column")
  }

  /** What an ALTER does from position `j` on: the first clause that is recognised decides. */
  function AlterClause(cls: Classes, toks: seq<Token>, j: nat, t: Target): Target
    decreases |toks| - j
  {
    if j >= |toks| then t
    else if At(cls, toks, j, ["RENAME", "TO"]) then t.(action := "rename")
    else if At(cls, toks, j, ["RENAME"]) then RenameTarget(cls, toks, j, t)
    else if At(cls, toks, j, ["DROP", "COLUMN"]) then
      ColumnTarget(toks, SkipOver(cls, toks, j + 2, ["IF", "EXISTS"]), t, "drop-column")
    else if At(cls, toks, j, ["DROP"]) && !DropsNoColumn(cls, toks, j + 1) then
      ColumnTarget(toks, SkipOver(cls, toks, j + 1, ["IF", "EXISTS"]), t, "drop-column")
    else if At(cls, toks, j, ["ALTER"]) then AlterColumnTarget(cls, toks, j, t)
    else AlterClause(cls, toks, j + 1, t)
  }

  function AlterTarget(cls: Classes, toks: seq<Token>): Option<Target> {
    var i := ObjectType(cls, toks, 1, OBJECT_TYPES);
    if i.None? then None
    else
      var j := SkipOver(cls, toks, i.value, ["IF", "EXISTS"]);
      var name := Name(toks, SkipOver(cls, toks, j, ["ONLY"]));
      if name.None? then None
      else Some(AlterClause(cls, toks, name.value.next, Target(name.value.text, "", "alter")))
  }

  /** The position of the keyword at or after `k`; the end if there is none. */
  function Find(cls: Classes, toks: seq<Token>, k: nat, kw: string): (r: nat)
    requires k <= |toks|
    ensures k <= r <= |toks|
    decreases |toks| - k
  {
    if k == |toks| || At(cls, toks, k, [kw]) then k else Find(cls, toks, k + 1, kw)
  }

  predicate NoIndex(cls: Classes, toks: seq<Token>, j: nat) {
    At(cls, toks, j, ["TABLE"]) || At(cls, toks, j, ["VIEW"]) || At(cls, toks, j, ["FUNCTION"]) ||
    At(cls, toks, j, ["PROCEDURE"])
  }

  function CreateTarget(cls: Classes, toks: seq<Token>, j: nat): Option<Target>
    decreases |toks| - j
  {
    if j >= |toks| then None
    else if At(cls, toks, j, ["INDEX"]) then
      var k := Find(cls, toks, j + 1, "ON");
      if k == |toks| then None else NameTarget(toks, SkipOver(cls, toks, k + 1, ["ONLY"]), "create-index")
    else if NoIndex(cls, toks, j) then None
    else CreateTarget(cls, toks, j + 1)
  }

  predicate NoTable(cls: Classes, toks: seq<Token>, k: nat) {
    At(cls, toks, k, ["ALL"]) || At(cls, toks, k, ["SCHEMA"]) || At(cls, toks, k, ["FUNCTION"]) ||
    At(cls, toks, k, ["DATABASE"]) || (At(cls, toks, k, ["SEQUENCE"]) && At(cls, toks, k + 1, ["ALL"]))
  }

  function GrantTarget(cls: Classes, toks: seq<Token>, action: string): Option<Target>
    requires toks != []
  {
    var j := Find(cls, toks, 1, "ON");
    if j == |toks| || NoTable(cls, toks, j + 1) then None
    else NameTarget(toks, SkipOver(cls, toks, SkipOver(cls, toks, j + 1, ["TABLE"]), ["SEQUENCE"]), action)
  }

  /** The target of a token list. */
  function TargetOf(cls: Classes, toks: seq<Token>): Option<Target> {
    if At(cls, toks, 0, ["DROP"]) then DropTarget(cls, toks)
    else if At(cls, toks, 0, ["TRUNCATE"]) then TruncateTarget(cls, toks)
    else if At(cls, toks, 0, ["ALTER"]) then AlterTarget(cls, toks)
    else if At(cls, toks, 0, ["CREATE"]) then CreateTarget(cls, toks, 1)
    else if At(cls, toks, 0, ["GRANT"]) || At(cls, toks, 0, ["REVOKE"]) then
      GrantTarget(cls, toks, Lowered(cls, toks[0].raw))
    else None
  }

  /** The target of a statement. */
  function StatementTarget(cls: Classes, sql: string): Option<Target> { TargetOf(cls, Lex(cls, sql, MAX_TOKENS)) }

  // ---------------------------------------------------------------- the loops

  method ReadObjectType(cls: Classes, toks: seq<Token>, start: nat) returns (r: Option<nat>)
    ensures r == ObjectType(cls, toks, start, OBJECT_TYPES)
  {
    hide At;
    for n := 0 to |OBJECT_TYPES|
      invariant ObjectType(cls, toks, start, OBJECT_TYPES[n..]) == ObjectType(cls, toks, start, OBJECT_TYPES)
    {
      assert OBJECT_TYPES[n..][1..] == OBJECT_TYPES[n + 1..];
      if At(cls, toks, start, OBJECT_TYPES[n]) {
        return Some(start + |OBJECT_TYPES[n]|);
      }
    }
    return None;
  }

  method ReadName(toks: seq<Token>, start: nat) returns (r: Option<Named>)
    ensures r == Name(toks, start)
  {
    hide IsDot; hide Join;
    if start >= |toks| || toks[start].punct {
      return None;
    }
    var parts, i := [toks[start].raw], start + 1;
    ghost var n := 1 + MoreParts(toks, start + 1, 2);
    assert parts == Parts(toks, start, 1);
    while |parts| < 3 && i + 1 < |toks| && IsDot(toks, i) && !toks[i + 1].punct
      invariant 1 <= |parts| <= 3 && i == start + 2 * |parts| - 1 && |parts| <= n && i <= |toks|
      invariant parts == Parts(toks, start, |parts|)
      invariant n == |parts| + MoreParts(toks, i, 3 - |parts|)
      decreases 3 - |parts|
    {
      PartsSnoc(toks, start, |parts|);
      parts := parts + [toks[i + 1].raw];
      i := i + 2;
    }
    return Some(Named(Join(parts, '.'), i));
  }

  lemma {:induction false} PartsSnoc(toks: seq<Token>, i: nat, n: nat)
    requires i + 2 * n < |toks|
    ensures Parts(toks, i, n + 1) == Parts(toks, i, n) + [toks[i + 2 * n].raw]
    decreases n
  {
    if n > 0 {
      PartsSnoc(toks, i + 2, n - 1);
    }
  }

  method ParseAlter(cls: Classes, toks: seq<Token>) returns (r: Option<Target>)
    ensures r == AlterTarget(cls, toks)
  {
    hide At; hide Name; hide ObjectType; hide DropsNoColumn; hide RenameTarget; hide AlterColumnTarget;
    var kind := ReadObjectType(cls, toks, 1);
    if kind.None? {
      return None;
    }
    var i := SkipOver(cls, toks, kind.value, ["IF", "EXISTS"]);
    i := SkipOver(cls, toks, i, ["ONLY"]);
    var name := ReadName(toks, i);
    if name.None? {
      return None;
    }
    var t := Target(name.value.text, "", "alter");
    var j := name.value.next;
    while j < |toks|
      invariant AlterClause(cls, toks, j, t) == AlterClause(cls, toks, name.value.next, t)
    {
      if At(cls, toks, j, ["RENAME", "TO"]) {
        return Some(t.(action := "rename"));
      } else if At(cls, toks, j, ["RENAME"]) {
        return Some(RenameTarget(cls, toks, j, t));
      } else if At(cls, toks, j, ["DROP", "COLUMN"]) {
        return Some(ColumnTarget(toks, SkipOver(cls, toks, j + 2, ["IF", "EXISTS"]), t, "drop-column"));
      } else if At(cls, toks, j, ["DROP"]) && !DropsNoColumn(cls, toks, j + 1) {
        return Some(ColumnTarget(toks, SkipOver(cls, toks, j + 1, ["IF", "EXISTS"]), t, "drop-column"));
      } else if At(cls, toks, j, ["ALTER"]) {
        return Some(AlterColumnTarget(cls, toks, j, t));
      }
      j := j + 1;
    }
    return Some(t);
  }

  method ParseCreate(cls: Classes, toks: seq<Token>) returns (r: Option<Target>)
    ensures r == CreateTarget(cls, toks, 1)
  {
    hide At; hide Name; hide NoIndex;
    var j := 1;
    while j < |toks|
      invariant CreateTarget(cls, toks, j) == CreateTarget(cls, toks, 1)
    {
      if At(cls, toks, j, ["INDEX"]) {
        var k := j + 1;
        while k < |toks|
          invariant j + 1 <= k <= |toks|
          invariant Find(cls, toks, k, "ON") == Find(cls, toks, j + 1, "ON")
        {
          if At(cls, toks, k, ["ON"]) {
            var name := ReadName(toks, SkipOver(cls, toks, k + 1, ["ONLY"]));
            return if name.None? then None else Some(Target(name.value.text, "", "create-index"));
          }
          k := k + 1;
        }
        return None;
      }
      if NoIndex(cls, toks, j) {
        return None;
      }
      j := j + 1;
    }
    return None;
  }

  method ParseGrant(cls: Classes, toks: seq<Token>) returns (r: Option<Target>)
    requires toks != []
    ensures r == GrantTarget(cls, toks, Lowered(cls, toks[0].raw))
  {
    hide At; hide Name; hide NoTable;
    var action := Lowered(cls, toks[0].raw);
    var j := 1;
    while j < |toks|
      invariant 1 <= j <= |toks|
      invariant Find(cls, toks, j, "ON") == Find(cls, toks, 1, "ON")
    {
      if At(cls, toks, j, ["ON"]) {
        if NoTable(cls, toks, j + 1) {
          return None;
        }
        var k := SkipOver(cls, toks, j + 1, ["TABLE"]);
        k := SkipOver(cls, toks, k, ["SEQUENCE"]);
        var name := ReadName(toks, k);
        return if name.None? then None else Some(Target(name.value.text, "", action));
      }
      j := j + 1;
    }
    return None;
  }

  method ParseTarget(cls: Classes, sql: string) returns (r: Option<Target>)
    requires Sound(cls)
    ensures r == StatementTarget(cls, sql)
  {
    hide Name; hide ObjectType; hide AlterTarget; hide CreateTarget; hide GrantTarget; hide Keyword; hide Lex;
    var toks := Tokenize(cls, sql, MAX_TOKENS);
    if At(cls, toks, 0, ["DROP"]) {
      var kind := ReadObjectType(cls, toks, 1);
      if kind.None? {
        return None;
      }
      var i := SkipOver(cls, toks, kind.value, ["CONCURRENTLY"]);
      i := SkipOver(cls, toks, i, ["IF", "EXISTS"]);
      var name := ReadName(toks, i);
      return if name.None? then None else Some(Target(name.value.text, "", "drop"));
    } else if At(cls, toks, 0, ["TRUNCATE"]) {
      var i := SkipOver(cls, toks, 1, ["TABLE"]);
      i := SkipOver(cls, toks, i, ["ONLY"]);
      var name := ReadName(toks, i);
      return if name.None? then None else Some(Target(name.value.text, "", "truncate"));
    } else if At(cls, toks, 0, ["ALTER"]) {
      r := ParseAlter(cls, toks);
    } else if At(cls, toks, 0, ["CREATE"]) {
      r := ParseCreate(cls, toks);
    } else if At(cls, toks, 0, ["GRANT"]) || At(cls, toks, 0, ["REVOKE"]) {
      r := ParseGrant(cls, toks);
    } else {
      r := None;
    }
  }

  // ---------------------------------------------------------------- normal form

  /** The target of a statement does not depend on its layout: with its tokens written out and separated by
      single spaces, comments and everything after the semicolon gone, the statement has the same target. */
  lemma TargetOfNormalForm(cls: Classes, sql: string)
    requires Sound(cls)
    ensures StatementTarget(cls, Spaced(Lex(cls, sql, MAX_TOKENS))) == StatementTarget(cls, sql)
  {
    hide TargetOf;
    LexNormalForm(cls, sql, MAX_TOKENS);
  }

  // ---------------------------------------------------------------- where a target comes from

  /** `name` is the dotted name of `n` parts written at `i`. */
  predicate WrittenAt(toks: seq<Token>, name: string, i: nat, n: nat) {
    1 <= n <= 3 && i + 2 * n - 1 <= |toks| && name == Join(Parts(toks, i, n), '.') &&
    (forall k :: 0 <= k < n ==> IsIdent(toks, i + 2 * k)) && (forall k :: 0 <= k < n - 1 ==> IsDot(toks, i + 2 * k + 1))
  }

  ghost predicate Written(toks: seq<Token>, name: string) { exists i, n :: WrittenAt(toks, name, i, n) }

  ghost predicate ColumnWritten(toks: seq<Token>, column: string) {
    exists k :: 0 <= k < |toks| && !toks[k].punct && toks[k].val == column
  }

  lemma NameIsWritten(toks: seq<Token>, i: nat)
    requires Name(toks, i).Some?
    ensures Written(toks, Name(toks, i).value.text)
  {
    hide Join; hide IsDot;
    var n := 1 + MoreParts(toks, i + 1, 2);
    assert WrittenAt(toks, Name(toks, i).value.text, i, n);
  }

  lemma NameTargetIsWritten(toks: seq<Token>, i: nat, action: string)
    requires NameTarget(toks, i, action).Some?
    ensures var t := NameTarget(toks, i, action).value;
            Written(toks, t.name) && t.column == "" && t.action == action
  {
    hide Name; hide Written;
    NameIsWritten(toks, i);
  }

  /** An ALTER clause changes no more than the column and the action: a column is named exactly for the
      actions on columns, and the statement names it. */
  ghost predicate GoodClause(toks: seq<Token>, t: Target, r: Target) {
    r.name == t.name &&
    if r.action in {"drop-column", "rename-column", "alter-column", "alter-column-type"} then ColumnWritten(toks, r.column)
    else r.column == "" && r.action in {"alter", "rename"}
  }

  lemma ColumnIsWritten(toks: seq<Token>, k: nat)
    requires Column(toks, k).Some?
    ensures ColumnWritten(toks, Column(toks, k).value.text)
  {
    assert toks[k].val == Column(toks, k).value.text;
  }

  lemma {:induction false} ClauseIsGood(cls: Classes, toks: seq<Token>, j: nat, t: Target)
    requires t.column == "" && t.action == "alter"
    ensures GoodClause(toks, t, AlterClause(cls, toks, j, t))
    decreases |toks| - j
  {
    hide At; hide Column; hide ColumnWritten; hide DropsNoColumn;
    forall k | Column(toks, k).Some?
      ensures ColumnWritten(toks, Column(toks, k).value.text)
    {
      ColumnIsWritten(toks, k);
    }
    if j < |toks| {
      ClauseIsGood(cls, toks, j + 1, t);
    }
  }

  lemma {:induction false} CreateIsGood(cls: Classes, toks: seq<Token>, j: nat)
    ensures CreateTarget(cls, toks, j).Some? ==>
              var t := CreateTarget(cls, toks, j).value;
              Written(toks, t.name) && t.column == "" && t.action == "create-index"
    decreases |toks| - j
  {
    hide At; hide NameTarget; hide Written; hide NoIndex; hide Find;
    forall i | NameTarget(toks, i, "create-index").Some?
      ensures var t := NameTarget(toks, i, "create-index").value;
              Written(toks, t.name) && t.column == "" && t.action == "create-index"
    {
      NameTargetIsWritten(toks, i, "create-index");
    }
    if j < |toks| {
      CreateIsGood(cls, toks, j + 1);
    }
  }

  lemma AlterIsGood(cls: Classes, toks: seq<Token>)
    requires AlterTarget(cls, toks).Some?
    ensures exists t: Target :: Written(toks, t.name) && GoodClause(toks, t, AlterTarget(cls, toks).value)
  {
    hide At; hide Name; hide ObjectType; hide AlterClause; hide Written; hide GoodClause;
    var i := ObjectType(cls, toks, 1, OBJECT_TYPES).value;
    var j := SkipOver(cls, toks, SkipOver(cls, toks, i, ["IF", "EXISTS"]), ["ONLY"]);
    NameIsWritten(toks, j);
    var name := Name(toks, j).value;
    var t := Target(name.text, "", "alter");
    ClauseIsGood(cls, toks, name.next, t);
    assert Written(toks, t.name) && GoodClause(toks, t, AlterTarget(cls, toks).value);
  }

  /** Whatever the statement, a target's object is a name of one to three identifiers written in it, as
      written; a column, too, is an identifier of the statement, and only actions on columns have one. */
  lemma TargetIsWritten(cls: Classes, toks: seq<Token>)
    requires TargetOf(cls, toks).Some?
    ensures var t := TargetOf(cls, toks).value;
            Written(toks, t.name) && (t.column != "" ==> ColumnWritten(toks, t.column) && At(cls, toks, 0, ["ALTER"]))
  {
    hide At; hide Written; hide NameTarget; hide AlterTarget; hide CreateTarget; hide ObjectType; hide Find;
    hide NoTable; hide SkipOver; hide ColumnWritten;
    if At(cls, toks, 0, ["DROP"]) || At(cls, toks, 0, ["TRUNCATE"]) || At(cls, toks, 0, ["GRANT"]) || At(cls, toks, 0, ["REVOKE"]) {
      forall i, action | NameTarget(toks, i, action).Some?
        ensures var t := NameTarget(toks, i, action).value;
                Written(toks, t.name) && t.column == "" && t.action == action
      {
        NameTargetIsWritten(toks, i, action);
      }
    }
    if AlterTarget(cls, toks).Some? {
      AlterIsGood(cls, toks);
    }
    CreateIsGood(cls, toks, 1);
  }

  // ---------------------------------------------------------------- printed statements

  /** A printed statement is made of keywords and dotted names of quoted identifiers. */
  datatype Piece = Key(word: string) | Dotted(parts: seq<string>)

  const DOT := Token(".", ".", false, true)

  function KeyToken(cls: Classes, word: string): Token { Token(word, Lowered(cls, word), false, false) }

  function Printed(parts: seq<string>): (r: seq<string>)
    ensures |r| == |parts|
  {
    seq(|parts|, i requires 0 <= i < |parts| => PgIdent(parts[i]))
  }

  function DottedName(parts: seq<string>): string { Join(Printed(parts), '.') }

  function PieceText(p: Piece): string { if p.Key? then p.word else DottedName(p.parts) }

  function DottedTokens(parts: seq<string>): (toks: seq<Token>)
    requires parts != []
    ensures |toks| == 2 * |parts| - 1
  {
    if |parts| == 1 then [IdentToken(parts[0])] else [IdentToken(parts[0]), DOT] + DottedTokens(parts[1..])
  }

  predicate GoodPiece(cls: Classes, p: Piece) {
    match p
    case Key(w) => w != "" && forall i :: 0 <= i < |w| ==> Word(cls, w[i])
    case Dotted(parts) => parts != []
  }

  function PieceTokens(cls: Classes, p: Piece): seq<Token>
    requires GoodPiece(cls, p)
  {
    if p.Key? then [KeyToken(cls, p.word)] else DottedTokens(p.parts)
  }

  function Texts(pieces: seq<Piece>): (r: seq<string>)
    ensures |r| == |pieces|
  {
    seq(|pieces|, i requires 0 <= i < |pieces| => PieceText(pieces[i]))
  }

  /** The statement as printed, with single spaces. */
  function Statement(pieces: seq<Piece>): string { Join(Texts(pieces), ' ') }

  predicate GoodPieces(cls: Classes, pieces: seq<Piece>) { forall p :: p in pieces ==> GoodPiece(cls, p) }

  function StatementTokens(cls: Classes, pieces: seq<Piece>): seq<Token>
    requires GoodPieces(cls, pieces)
  {
    if pieces == [] then [] else PieceTokens(cls, pieces[0]) + StatementTokens(cls, pieces[1..])
  }

  predicate Separated(rest: string) { rest == "" || rest[0] == ' ' }

  lemma {:induction false} WholeWord(cls: Classes, w: string, rest: string)
    requires Sound(cls) && Separated(rest) && forall i :: 0 <= i < |w| ==> Word(cls, w[i])
    ensures WordLen(cls, w + rest) == |w|
  {
    if w == "" {
      assert w + rest == rest;
    } else {
      WholeWord(cls, w[1..], rest);
      assert (w + rest)[1..] == w[1..] + rest;
    }
  }

  lemma LexKey(cls: Classes, w: string, rest: string, max: nat)
    requires Sound(cls) && GoodPiece(cls, Key(w)) && Separated(rest) && max > 0
    ensures Lex(cls, w + rest, max) == [KeyToken(cls, w)] + Lex(cls, rest, max - 1)
  {
    hide WordLen; hide Lowered; hide QuotedLen; hide QuotedVal; hide LineLen; hide BlockLen; hide Lex;
    WholeWord(cls, w, rest);
    var s := w + rest;
    assert s[0] == w[0] && Word(cls, w[0]) && s[..|w|] == w;
    assert First(cls, s) == Take(KeyToken(cls, w), |w|);
    LexCons(cls, KeyToken(cls, w), rest, max);
  }

  lemma LexDot(cls: Classes, rest: string, max: nat)
    requires Sound(cls) && max > 0
    ensures Lex(cls, "." + rest, max) == [DOT] + Lex(cls, rest, max - 1)
  {
    hide WordLen; hide Lowered; hide QuotedLen; hide QuotedVal; hide LineLen; hide BlockLen; hide Lex;
    var s := "." + rest;
    assert s[0] == '.' && s[..1] == ".";
    LexCons(cls, DOT, rest, max);
  }

  lemma {:induction false} LexDotted(cls: Classes, parts: seq<string>, rest: string, max: nat)
    requires Sound(cls) && parts != [] && Separated(rest) && 2 * |parts| - 1 <= max
    ensures Lex(cls, DottedName(parts) + rest, max) == DottedTokens(parts) + Lex(cls, rest, max - (2 * |parts| - 1))
  {
    hide First; hide Lex; hide PgIdent;
    var name := parts[0];
    if |parts| == 1 {
      FirstOfPgIdent(cls, name, rest);
      PgIdentIsNotEmpty(name);
      LexCons(cls, IdentToken(name), rest, max);
      assert DottedName(parts) == PgIdent(name);
    } else {
      var tail := DottedName(parts[1..]) + rest;
      assert Printed(parts)[1..] == Printed(parts[1..]);
      assert DottedName(parts) + rest == PgIdent(name) + ("." + tail) by {
        assert DottedName(parts) == PgIdent(name) + ['.'] + DottedName(parts[1..]);
        assert (PgIdent(name) + ['.'] + DottedName(parts[1..])) + rest == PgIdent(name) + ("." + tail);
      }
      FirstOfPgIdent(cls, name, "." + tail);
      PgIdentIsNotEmpty(name);
      LexCons(cls, IdentToken(name), "." + tail, max);
      LexDot(cls, tail, max - 1);
      LexDotted(cls, parts[1..], rest, max - 2);
      var more := DottedTokens(parts[1..]) + Lex(cls, rest, max - (2 * |parts| - 1));
      assert [IdentToken(name)] + ([DOT] + more)
          == ([IdentToken(name), DOT] + DottedTokens(parts[1..])) + Lex(cls, rest, max - (2 * |parts| - 1));
    }
  }

  lemma PgIdentIsNotEmpty(name: string)
    ensures PgIdent(name) != ""
  {
  }

  lemma LexPiece(cls: Classes, p: Piece, rest: string, max: nat)
    requires Sound(cls) && GoodPiece(cls, p) && Separated(rest) && |PieceTokens(cls, p)| <= max
    ensures Lex(cls, PieceText(p) + rest, max) == PieceTokens(cls, p) + Lex(cls, rest, max - |PieceTokens(cls, p)|)
  {
    hide Lex; hide DottedName;
    if p.Key? {
      LexKey(cls, p.word, rest, max);
    } else {
      LexDotted(cls, p.parts, rest, max);
    }
  }

  /** A printed statement is read back as the tokens of its pieces. */
  lemma {:induction false} LexStatement(cls: Classes, pieces: seq<Piece>, max: nat)
    requires Sound(cls) && GoodPieces(cls, pieces) && |StatementTokens(cls, pieces)| <= max
    ensures Lex(cls, Statement(pieces), max) == StatementTokens(cls, pieces)
  {
    hide PieceText; hide PieceTokens; hide First; hide GoodPiece;
    if pieces != [] {
      var p, tail := pieces[0], pieces[1..];
      var n := |PieceTokens(cls, p)|;
      LexStatement(cls, tail, max - n);
      assert Texts(pieces)[1..] == Texts(tail);
      if tail == [] {
        assert PieceText(p) + "" == PieceText(p) == Statement(pieces);
        LexPiece(cls, p, "", max);
      } else {
        var rest := " " + Statement(tail);
        assert Statement(pieces) == PieceText(p) + rest by {
          assert PieceText(p) + [' '] + Statement(tail) == PieceText(p) + (" " + Statement(tail));
        }
        LexPiece(cls, p, rest, max);
        LexSpace(cls, Statement(tail), max - n);
      }
    }
  }

  /** From `i` on, the tokens are those of a printed name and then `rest`. */
  predicate DottedAt(toks: seq<Token>, i: nat, parts: seq<string>, rest: seq<Token>)
    requires parts != []
  {
    i <= |toks| && toks[i..] == DottedTokens(parts) + rest
  }

  lemma {:induction false} PartsOfDotted(toks: seq<Token>, i: nat, parts: seq<string>, rest: seq<Token>, n: nat)
    requires parts != [] && |parts| <= n + 1 && DottedAt(toks, i, parts, rest)
    requires rest == [] || !rest[0].punct
    ensures MoreParts(toks, i + 1, n) == |parts| - 1 && |toks| == i + 2 * |parts| - 1 + |rest|
    ensures Parts(toks, i, |parts|) == Printed(parts)
    decreases |parts|
  {
    hide PgIdent;
    var d := DottedTokens(parts);
    assert |toks| == i + |d| + |rest|;
    assert toks[i] == toks[i..][0] == IdentToken(parts[0]);
    if |parts| == 1 {
      assert rest != [] ==> toks[i + 1] == toks[i..][1] == rest[0];
    } else {
      var tail := parts[1..];
      var e := DottedTokens(tail);
      assert d[1] == DOT && d[2..] == e;
      assert toks[i + 1] == toks[i..][1] == DOT;
      assert toks[i + 2] == toks[i..][2] == e[0] == IdentToken(tail[0]);
      assert toks[i + 2..] == e + rest by {
        assert toks[i + 2..] == toks[i..][2..] == d[2..] + rest;
      }
      PartsOfDotted(toks, i + 2, tail, rest, n - 1);
      assert Printed(parts) == [PgIdent(parts[0])] + Printed(tail);
    }
  }

  lemma DottedHead(parts: seq<string>)
    requires parts != []
    ensures DottedTokens(parts)[0] == IdentToken(parts[0])
  {
  }

  /** Around a dotted name: its first token is quoted, and `rest` comes after it. */
  lemma AroundDotted(toks: seq<Token>, i: nat, parts: seq<string>, rest: seq<Token>)
    requires parts != [] && DottedAt(toks, i, parts, rest)
    ensures i < |toks| && toks[i].quoted && !toks[i].punct
    ensures i + 2 * |parts| - 1 <= |toks| && toks[i + 2 * |parts| - 1..] == rest
  {
    DottedHead(parts);
    var d := DottedTokens(parts);
    hide DottedTokens; hide PgIdent;
    assert toks[i] == toks[i..][0] == d[0];
    assert toks[i + |d|..] == toks[i..][|d|..] == rest;
  }

  /** A dotted name of one to three parts is read as printed. */
  lemma NameOfDotted(toks: seq<Token>, i: nat, parts: seq<string>, rest: seq<Token>)
    requires 1 <= |parts| <= 3 && DottedAt(toks, i, parts, rest)
    requires rest == [] || !rest[0].punct
    ensures Name(toks, i) == Some(Named(DottedName(parts), i + 2 * |parts| - 1))
  {
    hide PgIdent; hide Join; hide MoreParts; hide Parts; hide DottedTokens; hide Printed; hide DottedAt;
    AroundDotted(toks, i, parts, rest);
    PartsOfDotted(toks, i, parts, rest, 2);
    assert IsIdent(toks, i) && 1 + MoreParts(toks, i + 1, 2) == |parts|;
  }

  // ---------------------------------------------------------------- printed statements read back

  /** `word` is the keyword, in any case. */
  predicate Spells(cls: Classes, word: string, keyword: string) {
    GoodPiece(cls, Key(word)) && EqualFold(cls, word, keyword)
  }

  lemma AtFirst(cls: Classes, toks: seq<Token>, i: nat, kws: seq<string>)
    requires kws != []
    ensures At(cls, toks, i, kws) ==> i < |toks| && Keyword(cls, toks[i], kws[0])
    ensures |kws| == 1 ==> (At(cls, toks, i, kws) <==> i < |toks| && Keyword(cls, toks[i], kws[0]))
  {
    hide Keyword;
    assert i < |toks| ==> toks[i + 0] == toks[i];
    assert At(cls, toks, i, kws) ==> Keyword(cls, toks[i + 0], kws[0]);
  }

  lemma KeyIsAt(cls: Classes, toks: seq<Token>, i: nat, word: string, keyword: string)
    requires i < |toks| && toks[i] == KeyToken(cls, word)
    ensures At(cls, toks, i, [keyword]) == EqualFold(cls, word, keyword)
  {
    hide At; hide EqualFold;
    AtFirst(cls, toks, i, [keyword]);
  }

  lemma OtherKey(cls: Classes, toks: seq<Token>, i: nat, word: string, kws: seq<string>)
    requires i < |toks| && toks[i] == KeyToken(cls, word) && kws != [] && |word| != |kws[0]|
    ensures !At(cls, toks, i, kws)
  {
    hide At;
    AtFirst(cls, toks, i, kws);
  }

  lemma QuotedIsNoKey(cls: Classes, toks: seq<Token>, i: nat, kws: seq<string>)
    requires i < |toks| && toks[i].quoted && kws != []
    ensures !At(cls, toks, i, kws) && SkipOver(cls, toks, i, kws) == i
  {
    hide At;
    AtFirst(cls, toks, i, kws);
  }

  lemma TableIsTheType(cls: Classes, toks: seq<Token>, word: string)
    requires |toks| > 1 && toks[1] == KeyToken(cls, word) && EqualFold(cls, word, "TABLE")
    ensures ObjectType(cls, toks, 1, OBJECT_TYPES) == Some(2)
  {
    hide At; hide KeyToken;
    var one, two := OBJECT_TYPES[1..], OBJECT_TYPES[2..];
    OtherKey(cls, toks, 1, word, ["MATERIALIZED", "VIEW"]);
    OtherKey(cls, toks, 1, word, ["FOREIGN", "TABLE"]);
    KeyIsAt(cls, toks, 1, word, "TABLE");
    assert one[1..] == two && OBJECT_TYPES[0] == ["MATERIALIZED", "VIEW"];
    assert one[0] == ["FOREIGN", "TABLE"] && two[0] == ["TABLE"];
    assert ObjectType(cls, toks, 1, two) == Some(2);
    assert ObjectType(cls, toks, 1, one) == Some(2);
  }

  /** DROP TABLE of a printed name: the target is that name exactly as printed. */
  lemma DropTableRoundTrip(cls: Classes, drop: string, table: string, parts: seq<string>)
    requires Sound(cls) && Spells(cls, drop, "DROP") && Spells(cls, table, "TABLE") && 1 <= |parts| <= 3
    ensures StatementTarget(cls, Statement([Key(drop), Key(table), Dotted(parts)]))
         == Some(Target(DottedName(parts), "", "drop"))
  {
    hide Name; hide ObjectType; hide DottedName; hide Lowered; hide At;
    var toks := ThreePieces(cls, drop, table, parts);
    LexStatement(cls, [Key(drop), Key(table), Dotted(parts)], MAX_TOKENS);
    NameOfDotted(toks, 2, parts, []);
    AroundDotted(toks, 2, parts, []);
    KeyIsAt(cls, toks, 0, drop, "DROP");
    TableIsTheType(cls, toks, table);
    QuotedIsNoKey(cls, toks, 2, ["CONCURRENTLY"]);
    QuotedIsNoKey(cls, toks, 2, ["IF", "EXISTS"]);
  }

  lemma ThreePieces(cls: Classes, a: string, b: string, parts: seq<string>) returns (toks: seq<Token>)
    requires GoodPiece(cls, Key(a)) && GoodPiece(cls, Key(b)) && 1 <= |parts| <= 3
    ensures var pieces := [Key(a), Key(b), Dotted(parts)];
            GoodPieces(cls, pieces) && toks == StatementTokens(cls, pieces)
    ensures 2 < |toks| < 9 && toks[0] == KeyToken(cls, a) && toks[1] == KeyToken(cls, b)
    ensures DottedAt(toks, 2, parts, [])
  {
    var pieces := [Key(a), Key(b), Dotted(parts)];
    hide DottedTokens;
    PiecesCons(cls, Dotted(parts), []);
    PiecesCons(cls, Key(b), [Dotted(parts)]);
    PiecesCons(cls, Key(a), [Key(b), Dotted(parts)]);
    assert [Key(b)] + [Dotted(parts)] == [Key(b), Dotted(parts)] && [Key(a)] + [Key(b), Dotted(parts)] == pieces;
    assert [Dotted(parts)] + [] == [Dotted(parts)];
    toks := StatementTokens(cls, pieces);
    assert toks == [KeyToken(cls, a)] + ([KeyToken(cls, b)] + (DottedTokens(parts) + []));
  }

  lemma PiecesCons(cls: Classes, p: Piece, pieces: seq<Piece>)
    requires GoodPiece(cls, p) && GoodPieces(cls, pieces)
    ensures GoodPieces(cls, [p] + pieces)
    ensures StatementTokens(cls, [p] + pieces) == PieceTokens(cls, p) + StatementTokens(cls, pieces)
  {
    assert ([p] + pieces)[1..] == pieces;
  }

  predicate SingleToken(cls: Classes, p: Piece) { GoodPiece(cls, p) && (p.Dotted? ==> |p.parts| == 1) }

  function TokenOf(cls: Classes, p: Piece): Token
    requires SingleToken(cls, p)
  {
    if p.Key? then KeyToken(cls, p.word) else IdentToken(p.parts[0])
  }

  /** Keywords and single identifiers, then a dotted name. */
  lemma {:induction false} SinglesThenName(cls: Classes, singles: seq<Piece>, parts: seq<string>)
    requires (forall p :: p in singles ==> SingleToken(cls, p)) && parts != []
    ensures GoodPieces(cls, singles + [Dotted(parts)])
    ensures var toks := StatementTokens(cls, singles + [Dotted(parts)]);
            |toks| == |singles| + 2 * |parts| - 1 &&
            (forall i :: 0 <= i < |singles| ==> toks[i] == TokenOf(cls, singles[i])) &&
            DottedAt(toks, |singles|, parts, [])
  {
    var pieces := singles + [Dotted(parts)];
    if singles == [] {
      PiecesCons(cls, Dotted(parts), []);
      assert pieces == [Dotted(parts)] + [];
      assert StatementTokens(cls, []) == [];
    } else {
      assert SingleToken(cls, singles[0]);
      SinglesThenName(cls, singles[1..], parts);
      var tail := singles[1..] + [Dotted(parts)];
      PiecesCons(cls, singles[0], tail);
      assert pieces == [singles[0]] + tail;
      OneMoreSingle(TokenOf(cls, singles[0]), StatementTokens(cls, tail), |singles| - 1, parts);
    }
  }

  lemma OneMoreSingle(t: Token, toks: seq<Token>, n: nat, parts: seq<string>)
    requires parts != [] && DottedAt(toks, n, parts, [])
    ensures DottedAt([t] + toks, n + 1, parts, []) && forall i :: 0 <= i < |toks| ==> ([t] + toks)[i + 1] == toks[i]
  {
    assert ([t] + toks)[n + 1..] == toks[n..];
  }

  /** TRUNCATE TABLE of a printed name. */
  lemma TruncateRoundTrip(cls: Classes, truncate: string, table: string, parts: seq<string>)
    requires Sound(cls) && Spells(cls, truncate, "TRUNCATE") && Spells(cls, table, "TABLE") && 1 <= |parts| <= 3
    ensures StatementTarget(cls, Statement([Key(truncate), Key(table), Dotted(parts)]))
         == Some(Target(DottedName(parts), "", "truncate"))
  {
    hide Name; hide DottedName; hide Lowered; hide At; hide DottedAt; hide StatementTokens;
    var toks := ThreePieces(cls, truncate, table, parts);
    LexStatement(cls, [Key(truncate), Key(table), Dotted(parts)], MAX_TOKENS);
    NameOfDotted(toks, 2, parts, []);
    AroundDotted(toks, 2, parts, []);
    OtherKey(cls, toks, 0, truncate, ["DROP"]);
    KeyIsAt(cls, toks, 0, truncate, "TRUNCATE");
    KeyIsAt(cls, toks, 1, table, "TABLE");
    QuotedIsNoKey(cls, toks, 2, ["ONLY"]);
  }

  /** CREATE INDEX of any name on a printed table: the target is the table. */
  lemma CreateIndexRoundTrip(cls: Classes, create: string, index: string, name: string, on: string, parts: seq<string>)
    requires Sound(cls) && Spells(cls, create, "CREATE") && Spells(cls, index, "INDEX") && Spells(cls, on, "ON")
    requires 1 <= |parts| <= 3
    ensures StatementTarget(cls, Statement([Key(create), Key(index), Dotted([name]), Key(on), Dotted(parts)]))
         == Some(Target(DottedName(parts), "", "create-index"))
  {
    var singles := [Key(create), Key(index), Dotted([name]), Key(on)];
    SinglesThenName(cls, singles, parts);
    var pieces := singles + [Dotted(parts)];
    assert pieces == [Key(create), Key(index), Dotted([name]), Key(on), Dotted(parts)];
    var toks := StatementTokens(cls, pieces);
    assert toks[0] == KeyToken(cls, create) && toks[1] == KeyToken(cls, index) && toks[3] == KeyToken(cls, on);
    assert toks[2] == IdentToken(name);
    hide Name; hide DottedName; hide Lowered; hide At; hide DottedAt; hide StatementTokens; hide Statement; hide GoodPieces;
    hide KeyToken; hide IdentToken; hide TokenOf;
    LexStatement(cls, pieces, MAX_TOKENS);
    IndexTarget(cls, toks, create, index, on, parts);
  }

  lemma IndexTarget(cls: Classes, toks: seq<Token>, create: string, index: string, on: string, parts: seq<string>)
    requires 1 <= |parts| <= 3 && |toks| > 4 && DottedAt(toks, 4, parts, [])
    requires EqualFold(cls, create, "CREATE") && EqualFold(cls, index, "INDEX") && EqualFold(cls, on, "ON")
    requires toks[0] == KeyToken(cls, create) && toks[1] == KeyToken(cls, index) && toks[2].quoted && toks[3] == KeyToken(cls, on)
    ensures TargetOf(cls, toks) == Some(Target(DottedName(parts), "", "create-index"))
  {
    hide Name; hide DottedName; hide At; hide DottedAt; hide KeyToken;
    NameOfDotted(toks, 4, parts, []);
    AroundDotted(toks, 4, parts, []);
    OtherKey(cls, toks, 0, create, ["DROP"]);
    OtherKey(cls, toks, 0, create, ["TRUNCATE"]);
    OtherKey(cls, toks, 0, create, ["ALTER"]);
    KeyIsAt(cls, toks, 0, create, "CREATE");
    KeyIsAt(cls, toks, 1, index, "INDEX");
    QuotedIsNoKey(cls, toks, 2, ["ON"]);
    KeyIsAt(cls, toks, 3, on, "ON");
    QuotedIsNoKey(cls, toks, 4, ["ONLY"]);
    assert Find(cls, toks, 3, "ON") == 3 && Find(cls, toks, 2, "ON") == 3;
  }

  /** GRANT or REVOKE of a privilege on a printed table: the target is the table, the action the command. */
  lemma GrantRoundTrip(cls: Classes, grant: string, privilege: string, on: string, parts: seq<string>)
    requires Sound(cls) && (Spells(cls, grant, "GRANT") || Spells(cls, grant, "REVOKE")) && Spells(cls, on, "ON")
    requires GoodPiece(cls, Key(privilege)) && !EqualFold(cls, privilege, "ON") && 1 <= |parts| <= 3
    requires !EqualFold(cls, "GRANT", "ALTER") && !EqualFold(cls, "REVOKE", "CREATE")
    ensures StatementTarget(cls, Statement([Key(grant), Key(privilege), Key(on), Dotted(parts)]))
         == Some(Target(DottedName(parts), "", Lowered(cls, grant)))
  {
    var singles := [Key(grant), Key(privilege), Key(on)];
    OtherSpelling(cls, grant, "GRANT", "ALTER");
    OtherSpelling(cls, grant, "REVOKE", "CREATE");
    assert |grant| == if EqualFold(cls, grant, "GRANT") then 5 else 6;
    SinglesThenName(cls, singles, parts);
    var pieces := singles + [Dotted(parts)];
    assert pieces == [Key(grant), Key(privilege), Key(on), Dotted(parts)];
    var toks := StatementTokens(cls, pieces);
    assert toks[0] == KeyToken(cls, grant) && toks[1] == KeyToken(cls, privilege) && toks[2] == KeyToken(cls, on);
    hide Name; hide DottedName; hide Lowered; hide At; hide DottedAt; hide StatementTokens; hide Statement; hide GoodPieces;
    hide KeyToken; hide IdentToken; hide TokenOf; hide EqualFold;
    LexStatement(cls, pieces, MAX_TOKENS);
    GrantedTarget(cls, toks, grant, privilege, on, parts);
  }

  lemma OtherSpelling(cls: Classes, word: string, a: string, b: string)
    requires !EqualFold(cls, a, b)
    ensures EqualFold(cls, word, a) ==> !EqualFold(cls, word, b)
  {
    if EqualFold(cls, word, a) && |word| == |b| {
      var i :| 0 <= i < |a| && cls.fold(a[i]) != cls.fold(b[i]);
      assert cls.fold(word[i]) == cls.fold(a[i]);
    }
  }

  lemma GrantedTarget(cls: Classes, toks: seq<Token>, grant: string, privilege: string, on: string, parts: seq<string>)
    requires 1 <= |parts| <= 3 && |toks| > 3 && DottedAt(toks, 3, parts, [])
    requires EqualFold(cls, grant, "GRANT") || EqualFold(cls, grant, "REVOKE")
    requires EqualFold(cls, on, "ON") && !EqualFold(cls, privilege, "ON")
    requires !EqualFold(cls, grant, "ALTER") && !EqualFold(cls, grant, "CREATE")
    requires toks[0] == KeyToken(cls, grant) && toks[1] == KeyToken(cls, privilege) && toks[2] == KeyToken(cls, on)
    ensures TargetOf(cls, toks) == Some(Target(DottedName(parts), "", Lowered(cls, grant)))
  {
    NameOfDotted(toks, 3, parts, []);
    AroundDotted(toks, 3, parts, []);
    assert toks[0].raw == grant;
    hide Name; hide DottedName; hide At; hide DottedAt; hide KeyToken;
    OtherKey(cls, toks, 0, grant, ["DROP"]);
    OtherKey(cls, toks, 0, grant, ["TRUNCATE"]);
    KeyIsAt(cls, toks, 0, grant, "ALTER");
    KeyIsAt(cls, toks, 0, grant, "CREATE");
    KeyIsAt(cls, toks, 0, grant, "GRANT");
    KeyIsAt(cls, toks, 0, grant, "REVOKE");
    KeyIsAt(cls, toks, 1, privilege, "ON");
    KeyIsAt(cls, toks, 2, on, "ON");
    QuotedIsNoKey(cls, toks, 3, ["ALL"]);
    QuotedIsNoKey(cls, toks, 3, ["SCHEMA"]);
    QuotedIsNoKey(cls, toks, 3, ["FUNCTION"]);
    QuotedIsNoKey(cls, toks, 3, ["DATABASE"]);
    QuotedIsNoKey(cls, toks, 3, ["SEQUENCE"]);
    QuotedIsNoKey(cls, toks, 3, ["TABLE"]);
    assert Find(cls, toks, 2, "ON") == 2 && Find(cls, toks, 1, "ON") == 2;
  }

  /** What an ALTER TABLE does, for the clauses that name a column or a new name. */
  datatype Clause = DropColumn(column: string) | RenameColumn(column: string, to: string) | Rename(to: string)
                  | AlterType(column: string, newType: string)

  const KEYWORDS := {"ALTER", "TABLE", "DROP", "COLUMN", "RENAME", "TO", "TYPE"}

  /** `spell` writes every keyword, in any case. */
  ghost predicate Spelling(cls: Classes, spell: string -> string) {
    forall kw :: kw in KEYWORDS ==> Spells(cls, spell(kw), kw)
  }

  function ClausePieces(spell: string -> string, c: Clause): seq<Piece> {
    match c
    case DropColumn(n) => [Key(spell("DROP")), Key(spell("COLUMN")), Dotted([n])]
    case RenameColumn(n, to) => [Key(spell("RENAME")), Key(spell("COLUMN")), Dotted([n]), Key(spell("TO")), Dotted([to])]
    case Rename(to) => [Key(spell("RENAME")), Key(spell("TO")), Dotted([to])]
    case AlterType(n, newType) =>
      [Key(spell("ALTER")), Key(spell("COLUMN")), Dotted([n]), Key(spell("TYPE")), Dotted([newType])]
  }

  function ClauseTokens(cls: Classes, spell: string -> string, c: Clause): seq<Token> {
    match c
    case DropColumn(n) => [KeyToken(cls, spell("DROP")), KeyToken(cls, spell("COLUMN")), IdentToken(n)]
    case RenameColumn(n, to) =>
      [KeyToken(cls, spell("RENAME")), KeyToken(cls, spell("COLUMN")), IdentToken(n), KeyToken(cls, spell("TO")), IdentToken(to)]
    case Rename(to) => [KeyToken(cls, spell("RENAME")), KeyToken(cls, spell("TO")), IdentToken(to)]
    case AlterType(n, newType) =>
      [KeyToken(cls, spell("ALTER")), KeyToken(cls, spell("COLUMN")), IdentToken(n), KeyToken(cls, spell("TYPE")),
       IdentToken(newType)]
  }

  /** The target of an ALTER TABLE on `name` with that clause. */
  function ClauseTarget(name: string, c: Clause): Target {
    match c
    case DropColumn(n) => Target(name, n, "drop-column")
    case RenameColumn(n, _) => Target(name, n, "rename-column")
    case Rename(_) => Target(name, "", "rename")
    case AlterType(n, _) => Target(name, n, "alter-column-type")
  }

  lemma TokensOfPair(cls: Classes, word: string, name: string, rest: seq<Piece>)
    requires GoodPiece(cls, Key(word)) && GoodPieces(cls, rest)
    ensures var pieces := [Key(word), Dotted([name])] + rest;
            GoodPieces(cls, pieces) &&
            StatementTokens(cls, pieces) == [KeyToken(cls, word), IdentToken(name)] + StatementTokens(cls, rest)
  {
    PiecesCons(cls, Dotted([name]), rest);
    PiecesCons(cls, Key(word), [Dotted([name])] + rest);
    assert [Key(word)] + ([Dotted([name])] + rest) == [Key(word), Dotted([name])] + rest;
    assert [KeyToken(cls, word)] + ([IdentToken(name)] + StatementTokens(cls, rest))
        == [KeyToken(cls, word), IdentToken(name)] + StatementTokens(cls, rest);
  }

  lemma TokensOfClause(cls: Classes, spell: string -> string, c: Clause)
    requires Spelling(cls, spell)
    ensures GoodPieces(cls, ClausePieces(spell, c))
    ensures StatementTokens(cls, ClausePieces(spell, c)) == ClauseTokens(cls, spell, c)
  {
    hide StatementTokens; hide KeyToken; hide IdentToken;
    assert forall kw :: kw in KEYWORDS ==> GoodPiece(cls, Key(spell(kw)));
    hide GoodPiece;
    assert StatementTokens(cls, []) == [] by {
      NoPieces(cls);
    }
    match c {
      case DropColumn(n) =>
        TokensOfPair(cls, spell("COLUMN"), n, []);
        PiecesCons(cls, Key(spell("DROP")), [Key(spell("COLUMN")), Dotted([n])] + []);
        assert [Key(spell("DROP"))] + ([Key(spell("COLUMN")), Dotted([n])] + []) == ClausePieces(spell, c);
      case RenameColumn(n, to) =>
        TokensOfPair(cls, spell("TO"), to, []);
        TokensOfPair(cls, spell("COLUMN"), n, [Key(spell("TO")), Dotted([to])] + []);
        var tail := [Key(spell("COLUMN")), Dotted([n])] + ([Key(spell("TO")), Dotted([to])] + []);
        PiecesCons(cls, Key(spell("RENAME")), tail);
        assert [Key(spell("RENAME"))] + tail == ClausePieces(spell, c);
      case Rename(to) =>
        TokensOfPair(cls, spell("TO"), to, []);
        PiecesCons(cls, Key(spell("RENAME")), [Key(spell("TO")), Dotted([to])] + []);
        assert [Key(spell("RENAME"))] + ([Key(spell("TO")), Dotted([to])] + []) == ClausePieces(spell, c);
      case AlterType(n, newType) =>
        TokensOfPair(cls, spell("TYPE"), newType, []);
        TokensOfPair(cls, spell("COLUMN"), n, [Key(spell("TYPE")), Dotted([newType])] + []);
        var tail := [Key(spell("COLUMN")), Dotted([n])] + ([Key(spell("TYPE")), Dotted([newType])] + []);
        PiecesCons(cls, Key(spell("ALTER")), tail);
        assert [Key(spell("ALTER"))] + tail == ClausePieces(spell, c);
    }
  }

  lemma NoPieces(cls: Classes)
    ensures StatementTokens(cls, []) == []
  {
  }

  lemma TwoKeys(cls: Classes, toks: seq<Token>, i: nat, a: string, b: string, x: string, y: string)
    requires i + 1 < |toks| && toks[i] == KeyToken(cls, a) && toks[i + 1] == KeyToken(cls, b)
    ensures At(cls, toks, i, [x, y]) == (EqualFold(cls, a, x) && EqualFold(cls, b, y))
  {
    hide EqualFold;
    var kws := [x, y];
    assert At(cls, toks, i, kws) ==> Keyword(cls, toks[i + 0], kws[0]) && Keyword(cls, toks[i + 1], kws[1]);
    if EqualFold(cls, a, x) && EqualFold(cls, b, y) {
      forall k | 0 <= k < 2
        ensures Keyword(cls, toks[i + k], kws[k])
      {
        assert k == 0 || k == 1;
      }
    }
  }

  lemma DropColumnReads(cls: Classes, spell: string -> string, toks: seq<Token>, j: nat, t: Target, n: string)
    requires Spelling(cls, spell) && j <= |toks| && toks[j..] == ClauseTokens(cls, spell, DropColumn(n))
    ensures AlterClause(cls, toks, j, t) == t.(column := n, action := "drop-column")
  {
    assert |toks| == j + 3;
    assert toks[j] == toks[j..][0] && toks[j + 1] == toks[j..][1] && toks[j + 2] == toks[j..][2];
    assert Spells(cls, spell("DROP"), "DROP") && Spells(cls, spell("COLUMN"), "COLUMN");
    hide At; hide KeyToken; hide ClauseTokens; hide Spelling; hide RenameTarget; hide AlterColumnTarget; hide PgIdent;
    OtherKey(cls, toks, j, spell("DROP"), ["RENAME", "TO"]);
    OtherKey(cls, toks, j, spell("DROP"), ["RENAME"]);
    TwoKeys(cls, toks, j, spell("DROP"), spell("COLUMN"), "DROP", "COLUMN");
    QuotedIsNoKey(cls, toks, j + 2, ["IF", "EXISTS"]);
  }

  lemma RenameColumnReads(cls: Classes, spell: string -> string, toks: seq<Token>, j: nat, t: Target, n: string, to: string)
    requires Spelling(cls, spell) && j <= |toks| && toks[j..] == ClauseTokens(cls, spell, RenameColumn(n, to))
    ensures AlterClause(cls, toks, j, t) == t.(column := n, action := "rename-column")
  {
    assert |toks| == j + 5;
    assert toks[j] == toks[j..][0] && toks[j + 1] == toks[j..][1] && toks[j + 2] == toks[j..][2] && toks[j + 3] == toks[j..][3];
    assert Spells(cls, spell("RENAME"), "RENAME") && Spells(cls, spell("COLUMN"), "COLUMN") && Spells(cls, spell("TO"), "TO");
    hide At; hide KeyToken; hide ClauseTokens; hide Spelling; hide AlterColumnTarget; hide PgIdent; hide DropsNoColumn;
    TwoKeys(cls, toks, j, spell("RENAME"), spell("COLUMN"), "RENAME", "TO");
    KeyIsAt(cls, toks, j, spell("RENAME"), "RENAME");
    KeyIsAt(cls, toks, j + 1, spell("COLUMN"), "COLUMN");
    QuotedIsNoKey(cls, toks, j + 2, ["CONSTRAINT"]);
    KeyIsAt(cls, toks, j + 3, spell("TO"), "TO");
  }

  lemma RenameReads(cls: Classes, spell: string -> string, toks: seq<Token>, j: nat, t: Target, to: string)
    requires Spelling(cls, spell) && j <= |toks| && toks[j..] == ClauseTokens(cls, spell, Rename(to))
    ensures AlterClause(cls, toks, j, t) == t.(action := "rename")
  {
    assert |toks| == j + 3;
    assert toks[j] == toks[j..][0] && toks[j + 1] == toks[j..][1];
    assert Spells(cls, spell("RENAME"), "RENAME") && Spells(cls, spell("TO"), "TO");
    hide At; hide KeyToken; hide ClauseTokens; hide Spelling; hide RenameTarget; hide AlterColumnTarget; hide PgIdent;
    TwoKeys(cls, toks, j, spell("RENAME"), spell("TO"), "RENAME", "TO");
  }

  lemma AlterTypeReads(cls: Classes, spell: string -> string, toks: seq<Token>, j: nat, t: Target, n: string, newType: string)
    requires Spelling(cls, spell) && j <= |toks| && toks[j..] == ClauseTokens(cls, spell, AlterType(n, newType))
    ensures AlterClause(cls, toks, j, t) == t.(column := n, action := "alter-column-type")
  {
    assert |toks| == j + 5;
    assert toks[j] == toks[j..][0] && toks[j + 1] == toks[j..][1] && toks[j + 2] == toks[j..][2] && toks[j + 3] == toks[j..][3];
    assert Spells(cls, spell("ALTER"), "ALTER") && Spells(cls, spell("COLUMN"), "COLUMN") && Spells(cls, spell("TYPE"), "TYPE");
    hide At; hide KeyToken; hide ClauseTokens; hide Spelling; hide RenameTarget; hide PgIdent; hide DropsNoColumn;
    OtherKey(cls, toks, j, spell("ALTER"), ["RENAME", "TO"]);
    OtherKey(cls, toks, j, spell("ALTER"), ["RENAME"]);
    OtherKey(cls, toks, j, spell("ALTER"), ["DROP", "COLUMN"]);
    OtherKey(cls, toks, j, spell("ALTER"), ["DROP"]);
    KeyIsAt(cls, toks, j, spell("ALTER"), "ALTER");
    KeyIsAt(cls, toks, j + 1, spell("COLUMN"), "COLUMN");
    KeyIsAt(cls, toks, j + 3, spell("TYPE"), "TYPE");
  }

  lemma ClauseReads(cls: Classes, spell: string -> string, toks: seq<Token>, j: nat, name: string, c: Clause)
    requires Spelling(cls, spell) && j <= |toks| && toks[j..] == ClauseTokens(cls, spell, c)
    ensures AlterClause(cls, toks, j, Target(name, "", "alter")) == ClauseTarget(name, c)
  {
    match c {
      case DropColumn(n) => DropColumnReads(cls, spell, toks, j, Target(name, "", "alter"), n);
      case RenameColumn(n, to) => RenameColumnReads(cls, spell, toks, j, Target(name, "", "alter"), n, to);
      case Rename(to) => RenameReads(cls, spell, toks, j, Target(name, "", "alter"), to);
      case AlterType(n, newType) => AlterTypeReads(cls, spell, toks, j, Target(name, "", "alter"), n, newType);
    }
  }

  /** The pieces of an ALTER TABLE statement. */
  function AlterPieces(spell: string -> string, parts: seq<string>, c: Clause): seq<Piece> {
    [Key(spell("ALTER")), Key(spell("TABLE")), Dotted(parts)] + ClausePieces(spell, c)
  }

  /** ALTER TABLE of a printed name, with a clause that names columns by printed identifiers: the target is
      the printed name and the column's own name, whatever it contains. */
  lemma AlterTableRoundTrip(cls: Classes, spell: string -> string, parts: seq<string>, c: Clause)
    requires Sound(cls) && Spelling(cls, spell) && 1 <= |parts| <= 3
    ensures StatementTarget(cls, Statement(AlterPieces(spell, parts, c))) == Some(ClauseTarget(DottedName(parts), c))
  {
    hide Spelling; hide AlterPieces; hide ClauseTarget; hide DottedName; hide StatementTarget; hide Statement; hide Sound;
    hide DottedAt; hide GoodPieces; hide StatementTokens; hide KeyToken; hide ClauseTokens;
    var toks := AlterTokens(cls, spell, parts, c);
    LexStatement(cls, AlterPieces(spell, parts, c), MAX_TOKENS);
    AlterTokensTarget(cls, spell, toks, parts, c);
    LexedTarget(cls, Statement(AlterPieces(spell, parts, c)), toks);
  }

  lemma LexedTarget(cls: Classes, sql: string, toks: seq<Token>)
    requires Lex(cls, sql, MAX_TOKENS) == toks
    ensures StatementTarget(cls, sql) == TargetOf(cls, toks)
  {
  }

  lemma AlterWords(cls: Classes, spell: string -> string)
    requires Spelling(cls, spell)
    ensures Spells(cls, spell("ALTER"), "ALTER") && Spells(cls, spell("TABLE"), "TABLE")
  {
    hide EqualFold; hide GoodPiece;
  }

  lemma AlterTokensTarget(cls: Classes, spell: string -> string, toks: seq<Token>, parts: seq<string>, c: Clause)
    requires Spelling(cls, spell) && 1 <= |parts| <= 3 && |toks| > 2
    requires toks[0] == KeyToken(cls, spell("ALTER")) && toks[1] == KeyToken(cls, spell("TABLE"))
    requires DottedAt(toks, 2, parts, ClauseTokens(cls, spell, c))
    ensures TargetOf(cls, toks) == Some(ClauseTarget(DottedName(parts), c))
  {
    hide TargetOf; hide ClauseTokens; hide KeyToken; hide DottedAt; hide ClauseTarget; hide AlterClause; hide Spelling;
    hide DottedName; hide EqualFold; hide GoodPiece;
    AlterWords(cls, spell);
    ClauseStart(cls, spell, c);
    var clause := ClauseTokens(cls, spell, c);
    AlterReachesClause(cls, toks, spell("ALTER"), spell("TABLE"), parts, clause);
    AroundDotted(toks, 2, parts, clause);
    ClauseReads(cls, spell, toks, 2 * |parts| + 1, DottedName(parts), c);
  }

  /** The dispatch: the tokens of ALTER TABLE and a printed name lead to the clause after the name. */
  lemma AlterReachesClause(cls: Classes, toks: seq<Token>, alter: string, table: string, parts: seq<string>, clause: seq<Token>)
    requires 1 <= |parts| <= 3 && |toks| > 2 && DottedAt(toks, 2, parts, clause) && (clause == [] || !clause[0].punct)
    requires toks[0] == KeyToken(cls, alter) && toks[1] == KeyToken(cls, table)
    requires EqualFold(cls, alter, "ALTER") && EqualFold(cls, table, "TABLE")
    ensures TargetOf(cls, toks) ==
              Some(AlterClause(cls, toks, 2 * |parts| + 1, Target(DottedName(parts), "", "alter")))
  {
    hide Name; hide ObjectType; hide DottedName; hide KeyToken; hide At; hide AlterClause; hide DottedAt;
    NameOfDotted(toks, 2, parts, clause);
    AroundDotted(toks, 2, parts, clause);
    OtherKey(cls, toks, 0, alter, ["DROP"]);
    OtherKey(cls, toks, 0, alter, ["TRUNCATE"]);
    KeyIsAt(cls, toks, 0, alter, "ALTER");
    TableIsTheType(cls, toks, table);
    QuotedIsNoKey(cls, toks, 2, ["IF", "EXISTS"]);
    QuotedIsNoKey(cls, toks, 2, ["ONLY"]);
  }

  lemma ClauseStart(cls: Classes, spell: string -> string, c: Clause)
    ensures var toks := ClauseTokens(cls, spell, c);
            0 < |toks| < 6 && !toks[0].punct
  {
  }

  lemma AlterTokens(cls: Classes, spell: string -> string, parts: seq<string>, c: Clause) returns (toks: seq<Token>)
    requires Spelling(cls, spell) && 1 <= |parts| <= 3
    ensures var pieces := AlterPieces(spell, parts, c);
            GoodPieces(cls, pieces) && toks == StatementTokens(cls, pieces)
    ensures 2 < |toks| < 20 && toks[0] == KeyToken(cls, spell("ALTER")) && toks[1] == KeyToken(cls, spell("TABLE"))
    ensures DottedAt(toks, 2, parts, ClauseTokens(cls, spell, c))
  {
    var a, b, tail := Key(spell("ALTER")), Key(spell("TABLE")), ClausePieces(spell, c);
    assert Spells(cls, a.word, "ALTER") && Spells(cls, b.word, "TABLE");
    TokensOfClause(cls, spell, c);
    ClauseStart(cls, spell, c);
    hide DottedTokens; hide ClausePieces; hide ClauseTokens; hide Spelling; hide StatementTokens; hide KeyToken; hide DottedAt;
    PiecesCons(cls, Dotted(parts), tail);
    PiecesCons(cls, b, [Dotted(parts)] + tail);
    PiecesCons(cls, a, [b] + ([Dotted(parts)] + tail));
    assert [a] + ([b] + ([Dotted(parts)] + tail)) == [a, b, Dotted(parts)] + tail;
    toks := StatementTokens(cls, [a, b, Dotted(parts)] + tail);
    AfterTwo(KeyToken(cls, a.word), KeyToken(cls, b.word), parts, ClauseTokens(cls, spell, c));
  }

  lemma AfterTwo(x: Token, y: Token, parts: seq<string>, rest: seq<Token>)
    requires parts != []
    ensures var toks := [x] + ([y] + (DottedTokens(parts) + rest));
            toks[0] == x && toks[1] == y && DottedAt(toks, 2, parts, rest) &&
            |toks| == 2 * |parts| + 1 + |rest|
  {
    hide DottedTokens;
    var toks := [x] + ([y] + (DottedTokens(parts) + rest));
    assert toks[2..] == DottedTokens(parts) + rest;
  }
}
