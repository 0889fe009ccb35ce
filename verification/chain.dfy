/** The hash chain over Blackbox rows: the walk of internal/ledger/integrity.go and the window query
    of internal/branch/branch.go that checks the same thing in SQL. Nothing here depends on how a row's
    hash is computed, so it is a parameter. */
module Chain {
  import opened Text
  import opened Hashing
  import opened Rows

  /** What an integrity report can complain about. Checkpoints are named by their id. */
  datatype Problem =
    | Edited(id: int)
    | LinkBroken(id: int)
    | UnknownFormat(checkpoint: int)
    | NotContinuing(checkpoint: int, previous: int)
    | AnchorChainBroken(checkpoint: int, previous: int)
    | CountMismatch(checkpoint: int, anchored: int, found: int)
    | RootMismatch(checkpoint: int)
    | LastRowDiffers(checkpoint: int)
    | FurtherOmitted

  datatype ChainResult = ChainResult(chained: nat, legacy: nat, firstBroken: int, problems: seq<Problem>)

  /** The stored hash of the last chained row, `prev` if there is none. */
  function LastHash(rows: seq<Row>, prev: string): string {
    if rows == [] then prev
    else if rows[|rows| - 1].rowHash == "" then LastHash(rows[..|rows| - 1], prev)
    else rows[|rows| - 1].rowHash
  }

  /** What is wrong with a chained row that must link to `link`. */
  function RowProblems(hash: Row -> string, r: Row, link: string): seq<Problem> {
    (if hash(r) != r.rowHash then [Edited(r.id)] else []) +
    (if r.prevHash != link then [LinkBroken(r.id)] else [])
  }

  /** One result followed by another. */
  function Sequel(x: ChainResult, y: ChainResult): ChainResult {
    ChainResult(x.chained + y.chained, x.legacy + y.legacy,
                if x.firstBroken != 0 then x.firstBroken else y.firstBroken,
                x.problems + y.problems)
  }

  const NOTHING := ChainResult(0, 0, 0, [])

  function CheckRow(hash: Row -> string, r: Row, link: string): ChainResult {
    if r.rowHash == "" then ChainResult(0, 1, 0, [])
    else
      var bad := RowProblems(hash, r, link);
      ChainResult(1, 0, if bad != [] then r.id else 0, bad)
  }

  /** The result of the chain walk over `rows`, given the hash its first chained row must link to. */
  function Check(hash: Row -> string, rows: seq<Row>, prev: string): ChainResult {
    if rows == [] then NOTHING
    else
      var front := rows[..|rows| - 1];
      Sequel(Check(hash, front, prev), CheckRow(hash, rows[|rows| - 1], LastHash(front, prev)))
  }

  lemma CheckStep(hash: Row -> string, rows: seq<Row>, i: nat, prev: string)
    requires i < |rows|
    ensures var link := LastHash(rows[..i], prev);
            Check(hash, rows[..i + 1], prev) == Sequel(Check(hash, rows[..i], prev), CheckRow(hash, rows[i], link)) &&
            LastHash(rows[..i + 1], prev) == if rows[i].rowHash == "" then link else rows[i].rowHash
  {
    assert rows[..i + 1][..i] == rows[..i];
  }

  /** Recomputes a chained row's hash and compares its link. */
  method CheckLink(hash: Row -> string, r: Row, link: string) returns (ps: seq<Problem>)
    ensures ps == RowProblems(hash, r, link)
  {
    ps := [];
    if hash(r) != r.rowHash {
      ps := ps + [Edited(r.id)];
    }
    if r.prevHash != link {
      ps := ps + [LinkBroken(r.id)];
    }
  }

  /** One round of the walk. */
  method CheckNext(hash: Row -> string, c: ChainResult, r: Row, link: string)
    returns (c': ChainResult, link': string)
    ensures c' == Sequel(c, CheckRow(hash, r, link))
    ensures link' == if r.rowHash == "" then link else r.rowHash
  {
    if r.rowHash == "" {
      c' := c.(legacy := c.legacy + 1);
      return c', link;
    }
    var problems := CheckLink(hash, r, link);
    c' := c.(chained := c.chained + 1, problems := c.problems + problems);
    if problems != [] && c.firstBroken == 0 {
      c' := c'.(firstBroken := r.id);
    }
    link' := r.rowHash;
  }

  method ChainCheck(hash: Row -> string, rows: seq<Row>, prev: string) returns (c: ChainResult)
    ensures c == Check(hash, rows, prev)
  {
    c := NOTHING;
    var link := prev;
    for i := 0 to |rows|
      invariant c == Check(hash, rows[..i], prev)
      invariant link == LastHash(rows[..i], prev)
    {
      CheckStep(hash, rows, i, prev);
      c, link := CheckNext(hash, c, rows[i], link);
    }
    assert rows[..|rows|] == rows;
  }

  /** The first chain problem in `rows` given the last chained row before them, if any. */
  method CheckChain(hash: Row -> string, pred: Option<Row>, rows: seq<Row>) returns (problem: Option<Problem>)
    ensures var prev := if pred.Some? then pred.value.rowHash else "";
            problem == (var ps := Check(hash, rows, prev).problems; if ps == [] then None else Some(ps[0]))
  {
    var prev := "";
    if pred.Some? {
      prev := pred.value.rowHash;
    }
    var c := ChainCheck(hash, rows, prev);
    if |c.problems| > 0 {
      return Some(c.problems[0]);
    }
    return None;
  }

  // ------------------------------------------------- composition

  lemma {:induction false} LastHashComposes(a: seq<Row>, b: seq<Row>, prev: string)
    ensures LastHash(a + b, prev) == LastHash(b, LastHash(a, prev))
  {
    if b == [] {
      assert a + b == a;
    } else {
      assert (a + b)[..|a + b| - 1] == a + b[..|b| - 1];
      LastHashComposes(a, b[..|b| - 1], prev);
    }
  }

  lemma SequelAssociates(x: ChainResult, y: ChainResult, z: ChainResult)
    ensures Sequel(Sequel(x, y), z) == Sequel(x, Sequel(y, z))
    ensures Sequel(x, NOTHING) == x
  {
  }

  /** Checking a history piece by piece, each piece from the hash the one before it ended with, is
      checking it whole. */
  lemma {:induction false} CheckComposes(hash: Row -> string, a: seq<Row>, b: seq<Row>, prev: string)
    ensures Check(hash, a + b, prev) == Sequel(Check(hash, a, prev), Check(hash, b, LastHash(a, prev)))
  {
    if b == [] {
      assert a + b == a;
      SequelAssociates(Check(hash, a, prev), NOTHING, NOTHING);
    } else {
      var front, r := b[..|b| - 1], b[|b| - 1];
      assert (a + b)[..|a + b| - 1] == a + front && (a + b)[|a + b| - 1] == r;
      CheckComposes(hash, a, front, prev);
      LastHashComposes(a, front, prev);
      var link := LastHash(a, prev);
      SequelAssociates(Check(hash, a, prev), Check(hash, front, link), CheckRow(hash, r, LastHash(front, link)));
    }
  }

  lemma {:induction false} RowCounts(hash: Row -> string, rows: seq<Row>, prev: string)
    ensures Check(hash, rows, prev).chained + Check(hash, rows, prev).legacy == |rows|
  {
    if rows != [] {
      RowCounts(hash, rows[..|rows| - 1], prev);
    }
  }

  // ------------------------------------------------- the SQL check

  /** A table row: the two hash columns are nullable. */
  datatype Stored = Stored(body: Row, prevHash: Option<string>, rowHash: Option<string>)

  /** The row as the engine reads it: NULL columns are "". */
  function Decode(s: Stored): Row {
    s.body.(prevHash := if s.prevHash.Some? then s.prevHash.value else "",
            rowHash := if s.rowHash.Some? then s.rowHash.value else "")
  }

  function DecodeAll(t: seq<Stored>): (rows: seq<Row>)
    ensures |rows| == |t|
  {
    seq(|t|, i requires 0 <= i < |t| => Decode(t[i]))
  }

  /** SELECT … WHERE row_hash IS NOT NULL, in id order. */
  function ChainedRows(t: seq<Stored>): (v: seq<Stored>)
    ensures |v| <= |t|
    ensures forall k :: 0 <= k < |v| ==> v[k].rowHash.Some?
  {
    if t == [] then []
    else ChainedRows(t[..|t| - 1]) + if t[|t| - 1].rowHash.Some? then [t[|t| - 1]] else []
  }

  /** coalesce(lag(row_hash) OVER (ORDER BY id), '') */
  function Lag(v: seq<Stored>, k: nat): string
    requires forall j :: 0 <= j < |v| ==> v[j].rowHash.Some?
    requires k <= |v|
  {
    if k == 0 then "" else v[k - 1].rowHash.value
  }

  /** row_hash <> recomputed OR prev_hash IS DISTINCT FROM the lag */
  predicate SqlObjects(hash: Row -> string, s: Stored, lag: string)
    requires s.rowHash.Some?
  {
    s.rowHash.value != hash(Decode(s)) || s.prevHash != Some(lag)
  }

  /** The id, if it is kept. */
  function Keep(kept: bool, id: int): seq<int> {
    if kept then [id] else []
  }

  lemma ConcatAssociates(a: seq<int>, b: seq<int>, c: seq<int>)
    ensures a + b + c == a + (b + c)
    ensures [] + a == a
  {
  }

  /** The ids the FILTER keeps, in order. */
  function SqlBrokenIds(hash: Row -> string, v: seq<Stored>): (ids: seq<int>)
    requires forall j :: 0 <= j < |v| ==> v[j].rowHash.Some?
    ensures forall i :: i in ids ==> exists j :: 0 <= j < |v| && v[j].body.id == i
  {
    if v == [] then []
    else
      SqlBrokenIds(hash, v[..|v| - 1]) + Keep(SqlObjects(hash, v[|v| - 1], Lag(v, |v| - 1)), v[|v| - 1].body.id)
  }

  function Min(ids: seq<int>): int
    requires ids != []
  {
    if |ids| == 1 then ids[0]
    else
      var m := Min(ids[..|ids| - 1]);
      if ids[|ids| - 1] < m then ids[|ids| - 1] else m
  }

  datatype SqlVerdict = SqlVerdict(legacy: nat, chained: nat, broken: nat, firstBroken: Option<int>)

  function SqlVerify(hash: Row -> string, t: seq<Stored>): SqlVerdict
  {
    var ids := SqlBrokenIds(hash, ChainedRows(t));
    SqlVerdict(|t| - |ChainedRows(t)|, |ChainedRows(t)|, |ids|, if ids == [] then None else Some(Min(ids)))
  }

  predicate Breaks(hash: Row -> string, r: Row, link: string) {
    r.rowHash != "" && RowProblems(hash, r, link) != []
  }

  /** The ids the walk finds broken, in order. */
  function BrokenIds(hash: Row -> string, rows: seq<Row>, prev: string): seq<int> {
    if rows == [] then []
    else
      var r := rows[|rows| - 1];
      BrokenIds(hash, rows[..|rows| - 1], prev) + Keep(Breaks(hash, r, LastHash(rows[..|rows| - 1], prev)), r.id)
  }

  /** Both sides of the comparison assume that a stored hash is never the empty string, which the walk
      would take for a legacy row; the row counts agree exactly then. */
  predicate HashesNonEmpty(t: seq<Stored>) {
    forall i :: 0 <= i < |t| ==> t[i].rowHash != Some("")
  }

  /** The one place where the two checks differ: an unedited first chained row whose prev_hash is NULL,
      which the walk reads as "". */
  predicate StartsWithNullLink(hash: Row -> string, v: seq<Stored>) {
    v != [] && v[0].prevHash == None && v[0].rowHash == Some(hash(Decode(v[0])))
  }

  predicate AscendingIds(t: seq<Stored>) {
    (forall i :: 0 <= i < |t| ==> 0 < t[i].body.id) &&
    (forall i, j :: 0 <= i < j < |t| ==> t[i].body.id < t[j].body.id)
  }

  ghost predicate CountsMatch(hash: Row -> string, t: seq<Stored>) {
    var walk := Check(hash, DecodeAll(t), "").chained;
    walk <= |ChainedRows(t)| && (walk == |ChainedRows(t)| <==> HashesNonEmpty(t))
  }

  lemma NoRowsAgree(hash: Row -> string)
    ensures CountsMatch(hash, []) && BrokenIdsMatch(hash, [])
  {
  }

  lemma NextRowCounts(hash: Row -> string, front: seq<Stored>, last: Stored)
    requires CountsMatch(hash, front)
    ensures CountsMatch(hash, front + [last])
  {
    var t := front + [last];
    assert HashesNonEmpty(t) <==> HashesNonEmpty(front) && last.rowHash != Some("") by {
      assert forall i :: 0 <= i < |front| ==> t[i] == front[i];
      assert t[|front|] == last;
    }
    DecodeSnoc(front, last);
    ChainedSnoc(front, last);
    CheckStep(hash, DecodeAll(t), |front|, "");
    assert DecodeAll(t)[..|front|] == DecodeAll(front) && DecodeAll(t)[..|t|] == DecodeAll(t);
    hide ChainedRows; hide DecodeAll; hide HashesNonEmpty; hide Check; hide RowProblems;
  }

  /** The two checks count the same rows as chained exactly when no stored hash is empty. */
  lemma {:induction false} ChainedCounts(hash: Row -> string, t: seq<Stored>)
    ensures CountsMatch(hash, t)
  {
    hide CountsMatch;
    if t == [] {
      NoRowsAgree(hash);
    } else {
      ChainedCounts(hash, t[..|t| - 1]);
      NextRowCounts(hash, t[..|t| - 1], t[|t| - 1]);
      assert t == t[..|t| - 1] + [t[|t| - 1]];
    }
  }

  lemma {:induction false} LagIsLastHash(t: seq<Stored>)
    requires HashesNonEmpty(t)
    ensures Lag(ChainedRows(t), |ChainedRows(t)|) == LastHash(DecodeAll(t), "")
  {
    if t != [] {
      LagIsLastHash(t[..|t| - 1]);
      assert DecodeAll(t)[..|t| - 1] == DecodeAll(t[..|t| - 1]);
    }
  }

  /** A chained row after at least one other is judged alike by both checks. */
  lemma LaterRowAgrees(hash: Row -> string, s: Stored, link: string)
    requires s.rowHash.Some? && s.rowHash.value != "" && link != ""
    ensures SqlObjects(hash, s, link) <==> Breaks(hash, Decode(s), link)
  {
  }

  /** The first chained row, too, unless it starts the chain with a NULL link. */
  lemma FirstRowDiffers(hash: Row -> string, s: Stored)
    requires s.rowHash.Some? && s.rowHash.value != ""
    ensures SqlObjects(hash, s, "") <==> StartsWithNullLink(hash, [s]) || Breaks(hash, Decode(s), "")
    ensures !(StartsWithNullLink(hash, [s]) && Breaks(hash, Decode(s), ""))
  {
  }

  lemma LastSqlBroken(hash: Row -> string, v: seq<Stored>, x: Stored)
    requires x.rowHash.Some? && forall j :: 0 <= j < |v| ==> v[j].rowHash.Some?
    ensures SqlBrokenIds(hash, v + [x]) ==
            SqlBrokenIds(hash, v) + Keep(SqlObjects(hash, x, Lag(v, |v|)), x.body.id)
  {
    assert (v + [x])[..|v|] == v;
  }

  lemma LastBroken(hash: Row -> string, rows: seq<Row>, r: Row)
    ensures BrokenIds(hash, rows + [r], "") ==
            BrokenIds(hash, rows, "") + Keep(Breaks(hash, r, LastHash(rows, "")), r.id)
  {
    assert (rows + [r])[..|rows|] == rows;
  }

  function NullLinkIds(hash: Row -> string, v: seq<Stored>): seq<int> {
    Keep(StartsWithNullLink(hash, v), if v == [] then 0 else v[0].body.id)
  }

  lemma FirstChainedRow(hash: Row -> string, x: Stored)
    requires x.rowHash.Some? && x.rowHash.value != ""
    ensures SqlBrokenIds(hash, [x]) == NullLinkIds(hash, [x]) + Keep(Breaks(hash, Decode(x), ""), x.body.id)
  {
    LastSqlBroken(hash, [], x);
    assert [] + [x] == [x] && SqlBrokenIds(hash, []) == [];
    FirstRowDiffers(hash, x);
  }

  lemma LaterChainedRow(hash: Row -> string, v: seq<Stored>, x: Stored, link: string)
    requires x.rowHash.Some? && x.rowHash.value != "" && v != [] && HashesNonEmpty(v)
    requires forall j :: 0 <= j < |v| ==> v[j].rowHash.Some?
    requires link == Lag(v, |v|)
    ensures SqlBrokenIds(hash, v + [x]) == SqlBrokenIds(hash, v) + Keep(Breaks(hash, Decode(x), link), x.body.id)
    ensures NullLinkIds(hash, v + [x]) == NullLinkIds(hash, v)
  {
    LastSqlBroken(hash, v, x);
    LaterRowAgrees(hash, x, link);
    assert (v + [x])[0] == v[0];
  }

  lemma NextChainedRowAgrees(hash: Row -> string, front: seq<Stored>, last: Stored)
    requires HashesNonEmpty(front) && last.rowHash.Some? && last.rowHash.value != ""
    requires SqlBrokenIds(hash, ChainedRows(front)) ==
             NullLinkIds(hash, ChainedRows(front)) + BrokenIds(hash, DecodeAll(front), "")
    ensures SqlBrokenIds(hash, ChainedRows(front) + [last]) ==
            NullLinkIds(hash, ChainedRows(front) + [last]) + BrokenIds(hash, DecodeAll(front) + [Decode(last)], "")
  {
    var v, rows := ChainedRows(front), DecodeAll(front);
    assert v == [] ==> SqlBrokenIds(hash, v) == [];
    hide ChainedRows; hide BrokenIds; hide SqlBrokenIds; hide NullLinkIds; hide DecodeAll; hide Keep; hide Breaks;
    LastBroken(hash, rows, Decode(last));
    LagIsLastHash(front);
    ChainHashesNonEmpty(front);
    var link := LastHash(rows, "");
    var kept := Keep(Breaks(hash, Decode(last), link), last.body.id);
    if v == [] {
      assert v + [last] == [last];
      FirstChainedRow(hash, last);
      ConcatAssociates(kept, [], []);
    } else {
      LaterChainedRow(hash, v, last, link);
      ConcatAssociates(NullLinkIds(hash, v), BrokenIds(hash, rows, ""), kept);
    }
  }

  lemma DecodeSnoc(front: seq<Stored>, last: Stored)
    ensures DecodeAll(front + [last]) == DecodeAll(front) + [Decode(last)]
  {
  }

  lemma ChainedSnoc(front: seq<Stored>, last: Stored)
    ensures ChainedRows(front + [last]) == if last.rowHash.Some? then ChainedRows(front) + [last] else ChainedRows(front)
  {
    assert (front + [last])[..|front|] == front;
  }

  lemma LegacyRowAgrees(hash: Row -> string, front: seq<Stored>, last: Stored)
    requires last.rowHash.None?
    ensures BrokenIds(hash, DecodeAll(front + [last]), "") == BrokenIds(hash, DecodeAll(front), "")
  {
    DecodeSnoc(front, last);
    hide DecodeAll;
    LastBroken(hash, DecodeAll(front), Decode(last));
  }

  ghost predicate BrokenIdsMatch(hash: Row -> string, t: seq<Stored>) {
    SqlBrokenIds(hash, ChainedRows(t)) == NullLinkIds(hash, ChainedRows(t)) + BrokenIds(hash, DecodeAll(t), "")
  }

  lemma NextRowAgrees(hash: Row -> string, front: seq<Stored>, last: Stored)
    requires HashesNonEmpty(front) && last.rowHash != Some("")
    requires BrokenIdsMatch(hash, front)
    ensures BrokenIdsMatch(hash, front + [last])
  {
    hide ChainedRows; hide BrokenIds; hide SqlBrokenIds; hide NullLinkIds; hide DecodeAll; hide HashesNonEmpty;
    ChainedSnoc(front, last);
    if last.rowHash.Some? {
      DecodeSnoc(front, last);
      NextChainedRowAgrees(hash, front, last);
    } else {
      LegacyRowAgrees(hash, front, last);
    }
  }

  /** Row for row, the query and the walk call the same rows broken, except that only the query
      objects to a NULL link at the very start of the chain. */
  lemma {:induction false} BrokenIdsAgree(hash: Row -> string, t: seq<Stored>)
    requires HashesNonEmpty(t)
    ensures BrokenIdsMatch(hash, t)
  {
    hide BrokenIdsMatch;
    if t == [] {
      NoRowsAgree(hash);
    } else {
      BrokenIdsAgree(hash, t[..|t| - 1]);
      NextRowAgrees(hash, t[..|t| - 1], t[|t| - 1]);
      assert t == t[..|t| - 1] + [t[|t| - 1]];
    }
  }

  lemma {:induction false} ChainHashesNonEmpty(t: seq<Stored>)
    requires HashesNonEmpty(t)
    ensures HashesNonEmpty(ChainedRows(t))
  {
    if t != [] {
      ChainHashesNonEmpty(t[..|t| - 1]);
    }
  }

  lemma {:induction false} MinIsMember(ids: seq<int>)
    requires ids != []
    ensures Min(ids) in ids
  {
    if |ids| > 1 {
      MinIsMember(ids[..|ids| - 1]);
    }
  }

  lemma {:induction false} BrokenIdsWithin(hash: Row -> string, rows: seq<Row>, prev: string, bound: int)
    requires forall i :: 0 <= i < |rows| ==> 0 < rows[i].id < bound
    ensures forall i :: i in BrokenIds(hash, rows, prev) ==> 0 < i < bound
  {
    if rows != [] {
      BrokenIdsWithin(hash, rows[..|rows| - 1], prev, bound);
    }
  }

  lemma MinAppend(ids: seq<int>, x: int)
    requires forall i :: i in ids ==> i < x
    ensures Min(ids + [x]) == if ids == [] then x else Min(ids)
  {
    if ids != [] {
      assert (ids + [x])[..|ids|] == ids;
      MinIsMember(ids);
    }
  }

  /** With ascending positive ids the first broken id is the least one. */
  lemma {:induction false} FirstBrokenIsMin(hash: Row -> string, rows: seq<Row>, prev: string)
    requires forall i :: 0 <= i < |rows| ==> 0 < rows[i].id
    requires forall i, j :: 0 <= i < j < |rows| ==> rows[i].id < rows[j].id
    ensures var ids, walk := BrokenIds(hash, rows, prev), Check(hash, rows, prev);
            walk.firstBroken == (if ids == [] then 0 else Min(ids)) && (walk.problems == [] <==> ids == [])
  {
    if rows != [] {
      var front, r := rows[..|rows| - 1], rows[|rows| - 1];
      FirstBrokenIsMin(hash, front, prev);
      BrokenIdsWithin(hash, front, prev, r.id);
      var before := BrokenIds(hash, front, prev);
      MinAppend(before, r.id);
      if before != [] {
        MinIsMember(before);
      }
      var bad := Breaks(hash, r, LastHash(front, prev));
      assert BrokenIds(hash, rows, prev) == if bad then before + [r.id] else before;
      assert CheckRow(hash, r, LastHash(front, prev)).problems != [] <==> bad;
    }
  }

  lemma FirstBrokenAgrees(hash: Row -> string, t: seq<Stored>)
    requires AscendingIds(t)
    ensures var ids, walk := BrokenIds(hash, DecodeAll(t), ""), Check(hash, DecodeAll(t), "");
            (if ids == [] then None else Some(Min(ids)))
            == (if walk.firstBroken == 0 then None else Some(walk.firstBroken)) &&
            (ids == [] <==> walk.problems == [])
  {
    var rows := DecodeAll(t);
    assert forall i :: 0 <= i < |rows| ==> rows[i].id == t[i].body.id;
    FirstBrokenIsMin(hash, rows, "");
    var ids := BrokenIds(hash, rows, "");
    if ids != [] {
      BrokenIdsWithin(hash, rows, "", rows[|rows| - 1].id + 1);
      MinIsMember(ids);
    }
  }

  /** The two verdicts on one table are the same — row counts, number of broken rows, first broken id —
      exactly when the chain does not start with a NULL link. */
  lemma VerdictsAgree(hash: Row -> string, t: seq<Stored>)
    requires AscendingIds(t) && HashesNonEmpty(t)
    ensures var sql, walk := SqlVerify(hash, t), Check(hash, DecodeAll(t), "");
            sql.legacy == walk.legacy && sql.chained == walk.chained &&
            (sql.broken == |BrokenIds(hash, DecodeAll(t), "")|
             <==> !StartsWithNullLink(hash, ChainedRows(t))) &&
            (!StartsWithNullLink(hash, ChainedRows(t)) ==>
               sql.firstBroken == (if walk.firstBroken == 0 then None else Some(walk.firstBroken)) &&
               (sql.broken == 0 <==> walk.problems == []))
  {
    hide Check; hide BrokenIds; hide SqlBrokenIds; hide ChainedRows; hide DecodeAll;
    hide StartsWithNullLink; hide AscendingIds; hide HashesNonEmpty; hide Min;
    ChainedCounts(hash, t);
    RowCounts(hash, DecodeAll(t), "");
    BrokenIdsAgree(hash, t);
    FirstBrokenAgrees(hash, t);
    var ids := BrokenIds(hash, DecodeAll(t), "");
    assert NullLinkIds(hash, ChainedRows(t)) == [] ==> SqlBrokenIds(hash, ChainedRows(t)) == ids;
  }

  // ------------------------------------------------- where the two checks differ

  function Recomputed(sha: Hasher): Row -> string {
    r => RowHash(sha, r)
  }

  lemma OneNullLink(hash: Row -> string, s: Stored)
    requires s.body.id > 0 && s.prevHash == None && s.rowHash == Some(hash(Decode(s))) && hash(Decode(s)) != ""
    ensures AscendingIds([s]) && HashesNonEmpty([s]) && ChainedRows([s]) == [s] && StartsWithNullLink(hash, [s])
    ensures Check(hash, DecodeAll([s]), "").problems == [] && SqlVerify(hash, [s]).broken == 1
  {
    OneRow(hash, s);
    FirstChainedRow(hash, s);
    assert StartsWithNullLink(hash, [s]) && !Breaks(hash, Decode(s), "");
    hide ChainedRows; hide DecodeAll; hide SqlBrokenIds; hide Check; hide Min; hide Decode;
  }

  /** A table of one row. */
  lemma OneRow(hash: Row -> string, s: Stored)
    ensures DecodeAll([s]) == [Decode(s)] && ChainedRows([s]) == if s.rowHash.Some? then [s] else []
    ensures Check(hash, [Decode(s)], "") == CheckRow(hash, Decode(s), "")
  {
    hide ChainedRows; hide DecodeAll; hide CheckRow; hide Decode;
    DecodeSnoc([], s);
    ChainedSnoc([], s);
    NoTable(hash);
    assert [] + [s] == [s] && [] + [Decode(s)] == [Decode(s)];
    CheckStep(hash, [Decode(s)], 0, "");
    assert [Decode(s)][..1] == [Decode(s)] && [Decode(s)][..0] == [];
    SequelOfNothing(CheckRow(hash, Decode(s), ""));
  }

  lemma NoTable(hash: Row -> string)
    ensures DecodeAll([]) == [] && ChainedRows([]) == [] && Check(hash, [], "") == NOTHING && LastHash([], "") == ""
  {
  }

  lemma SequelOfNothing(c: ChainResult)
    ensures Sequel(NOTHING, c) == c
  {
    assert [] + c.problems == c.problems;
  }

  /** One unedited chained row whose link is NULL: the walk finds nothing, the query counts it as broken. */
  lemma NullLinkDivides(sha: Hasher, r: Row) returns (t: seq<Stored>)
    requires r.id > 0
    ensures AscendingIds(t) && HashesNonEmpty(t) && StartsWithNullLink(Recomputed(sha), ChainedRows(t))
    ensures Check(Recomputed(sha), DecodeAll(t), "").problems == [] && SqlVerify(Recomputed(sha), t).broken == 1
  {
    var first := r.(prevHash := "", rowHash := "");
    var s := Stored(r, None, Some(RowHash(sha, first)));
    SameHash(sha, first, Decode(s));
    t := [s];
    hide RowHash; hide Check; hide SqlVerify; hide ChainedRows; hide DecodeAll; hide StartsWithNullLink;
    OneNullLink(Recomputed(sha), s);
  }

  lemma SameHash(sha: Hasher, x: Row, y: Row)
    requires x == y.(rowHash := "")
    ensures RowHash(sha, x) == RowHash(sha, y) && RowHash(sha, x) != ""
  {
    assert Fields(x) == Fields(y);
  }

  /** One row whose stored hash is the empty string: a legacy row for the walk, a chained one for the query. */
  lemma EmptyHashDivides(hash: Row -> string, r: Row) returns (t: seq<Stored>)
    requires r.id > 0
    ensures AscendingIds(t) && !HashesNonEmpty(t)
    ensures Check(hash, DecodeAll(t), "").chained == 0 && SqlVerify(hash, t).chained == 1
  {
    var s := Stored(r, Some(""), Some(""));
    t := [s];
    OneRow(hash, s);
    assert t[0] == s;
    hide ChainedRows; hide DecodeAll; hide SqlBrokenIds; hide Check; hide Min;
  }
}
