/** Checkpoints as they are taken over a branch's life (internal/branch/checkpoint.go). */
module Checkpoints {
  import opened Text
  import opened Hashing
  import opened Rows
  import opened Chain
  import opened Sorting
  import opened Integrity
  import opened Tampering

  /** A branch's ledger: its rows in id order and its checkpoint table, both in the database, and the
      anchor files kept outside it, both in the order they were written. */
  datatype Ledger = Ledger(rows: seq<Row>, table: seq<Anchor>, files: seq<Anchor>)

  /** What the world answers: does the INSERT succeed, with which id, does the file get written? */
  datatype Io = Io(inserted: bool, id: int, written: bool)

  datatype Outcome =
    | NothingNew
    | Refused(problem: Problem)
    | NotBuilt
    | NotRecorded
    | NotWritten(anchor: Anchor)
    | Anchored(anchor: Anchor)

  /** to_id and merkle_root of the checkpoint with the largest to_id; 0 and "" if there is none. */
  function LastCheckpoint(table: seq<Anchor>): (int, string) {
    if table == [] then (0, "")
    else
      var before, a := LastCheckpoint(table[..|table| - 1]), table[|table| - 1];
      if |table| == 1 || a.toId >= before.0 then (a.toId, a.merkleRoot) else before
  }

  /** How many rows, in id order, come up to `lastTo`. */
  function Cut(rows: seq<Row>, lastTo: int): (k: nat)
    ensures k <= |rows| && (k > 0 ==> rows[k - 1].id <= lastTo)
    ensures forall i :: k <= i < |rows| ==> rows[i].id > lastTo
  {
    if rows == [] then 0
    else if rows[|rows| - 1].id <= lastTo then |rows|
    else Cut(rows[..|rows| - 1], lastTo)
  }

  function LastChained(rows: seq<Row>): Option<Row> {
    if rows == [] then None
    else if rows[|rows| - 1].rowHash != "" then Some(rows[|rows| - 1])
    else LastChained(rows[..|rows| - 1])
  }

  /** The rows the checkpoint query loads: those after `lastTo` and the last chained one up to it. */
  function Loaded(rows: seq<Row>, lastTo: int): seq<Row> {
    var k := Cut(rows, lastTo);
    var pred := LastChained(rows[..k]);
    (if pred.Some? then [pred.value] else []) + rows[k..]
  }

  /** The effect of taking a checkpoint. */
  function Checkpointed(d: Commitments, name: string, s: Ledger, io: Io): (Ledger, Outcome) {
    var last := LastCheckpoint(s.table);
    var k := Cut(s.rows, last.0);
    var added := s.rows[k..];
    if added == [] then (s, NothingNew)
    else
      var problems := Check(d.row, added, LastHash(s.rows[..k], "")).problems;
      if problems != [] then (s, Refused(problems[0]))
      else
        var built := BuildAnchor(d, name, last.0 + 1, last.1, added);
        if !built.Built? then (s, NotBuilt)
        else if !io.inserted then (s, NotRecorded)
        else
          var a := built.anchor.(checkpointId := io.id);
          var recorded := s.(table := s.table + [a]);
          if !io.written || exists i :: 0 <= i < |s.files| && s.files[i].toId == a.toId
          then (recorded, NotWritten(a))
          else (recorded.(files := s.files + [a]), Anchored(a))
  }

  lemma {:induction false} LastChainedHash(rows: seq<Row>)
    ensures LastHash(rows, "") == (var p := LastChained(rows); if p.Some? then p.value.rowHash else "")
  {
    if rows != [] && rows[|rows| - 1].rowHash == "" {
      LastChainedHash(rows[..|rows| - 1]);
    }
  }

  lemma {:induction false} LastChainedIsOneOf(rows: seq<Row>)
    ensures LastChained(rows).Some? ==> LastChained(rows).value in rows
  {
    if rows != [] && rows[|rows| - 1].rowHash == "" {
      LastChainedIsOneOf(rows[..|rows| - 1]);
    }
  }

  predicate InIdOrder(rows: seq<Row>) {
    forall i, j :: 0 <= i < j < |rows| ==> rows[i].id < rows[j].id
  }

  lemma PredecessorComesEarlier(rows: seq<Row>, lastTo: int)
    requires InIdOrder(rows)
    ensures var pred := LastChained(rows[..Cut(rows, lastTo)]); pred.Some? ==> pred.value.id <= lastTo
  {
    var k := Cut(rows, lastTo);
    LastChainedIsOneOf(rows[..k]);
    hide LastChained; hide Cut;
    assert forall i :: 0 <= i < k ==> rows[..k][i].id <= rows[k - 1].id;
  }

  /** Splits loaded rows into the predecessor, if it is there, and the rows added since. */
  method SplitRows(loaded: seq<Row>, lastTo: int, ghost before: Option<Row>, ghost tail: seq<Row>)
    returns (pred: Option<Row>, added: seq<Row>)
    requires loaded == (if before.Some? then [before.value] else []) + tail
    requires before.Some? ==> before.value.id <= lastTo
    requires forall i :: 0 <= i < |tail| ==> tail[i].id > lastTo
    ensures pred == before && added == tail
  {
    ghost var skip := if before.Some? then 1 else 0;
    pred, added := None, [];
    for i := 0 to |loaded|
      invariant i <= skip ==> added == []
      invariant i >= skip ==> added == tail[..i - skip]
      invariant pred == if i >= skip then before else None
    {
      if loaded[i].id <= lastTo {
        pred := Some(loaded[i]);
      } else {
        added := added + [loaded[i]];
      }
    }
  }

  class BranchLedger {
    const name: string
    var rows: seq<Row>
    var table: seq<Anchor>
    var files: seq<Anchor>

    function Value(): Ledger
      reads this
    {
      Ledger(rows, table, files)
    }

    constructor (name: string, s: Ledger)
      ensures this.name == name && Value() == s
    {
      this.name := name;
      rows, table, files := s.rows, s.table, s.files;
    }

    /** Loads and splits the rows a checkpoint looks at. */
    method Load(lastTo: int) returns (pred: Option<Row>, added: seq<Row>)
      requires InIdOrder(rows)
      ensures added == rows[Cut(rows, lastTo)..]
      ensures LastHash(rows[..Cut(rows, lastTo)], "") == if pred.Some? then pred.value.rowHash else ""
    {
      ghost var k := Cut(rows, lastTo);
      PredecessorComesEarlier(rows, lastTo);
      LastChainedHash(rows[..k]);
      hide InIdOrder; hide Cut; hide LastChained; hide LastHash;
      pred, added := SplitRows(Loaded(rows, lastTo), lastTo, LastChained(rows[..k]), rows[k..]);
    }

    /** Anchors the rows added since the last checkpoint. */
    method Checkpoint(sha: Hasher, io: Io) returns (outcome: Outcome)
      requires InIdOrder(rows)
      modifies this`table, this`files
      ensures (Value(), outcome) == Checkpointed(Committing(sha), name, old(Value()), io)
    {
      hide Committing; hide Check; hide LastCheckpoint; hide LastHash; hide BuildAnchor; hide Cut;
      var last := LastCheckpoint(table);
      var pred, added := Load(last.0);
      if |added| == 0 {
        return NothingNew;
      }
      var problem := CheckChain(Committing(sha).row, pred, added);
      if problem.Some? {
        return Refused(problem.value);
      }
      var built := BuildAnchor(Committing(sha), name, last.0 + 1, last.1, added);
      if !built.Built? {
        return NotBuilt;
      }
      if !io.inserted {
        return NotRecorded;
      }
      var a := built.anchor.(checkpointId := io.id);
      table := table + [a];
      if !io.written || exists i :: 0 <= i < |files| && files[i].toId == a.toId {
        return NotWritten(a);
      }
      files := files + [a];
      return Anchored(a);
    }
  }

  // ---------------------------------------------------------------- which anchor files suffice

  /** `files` are the checkpoints at these positions of the table, in order. */
  ghost predicate Selection(table: seq<Anchor>, files: seq<Anchor>, at: seq<nat>) {
    |at| == |files| &&
    (forall i :: 0 <= i < |at| ==> at[i] < |table| && files[i] == table[at[i]]) &&
    (forall i, j :: 0 <= i < j < |at| ==> at[i] < at[j])
  }

  /** No checkpoint is missing between two that are there. */
  ghost predicate Contiguous(at: seq<nat>) {
    forall i :: 0 <= i < |at| ==> Adjoins(at, i)
  }

  lemma {:induction false} TableAscends(table: seq<Anchor>, i: nat, j: nat)
    requires i <= j < |table|
    requires AllWellFormed(table) && Linked(table)
    ensures table[i].toId <= table[j].toId && (i < j ==> table[i].toId < table[j].fromId)
  {
    if i < j {
      TableAscends(table, i, j - 1);
      assert FollowsAt(table, j);
    }
  }

  /** Of two checkpoints of one table, only direct neighbours fit together. */
  lemma OnlyNeighboursFollow(table: seq<Anchor>, i: nat, j: nat)
    requires i < j < |table|
    requires AllWellFormed(table) && Linked(table)
    ensures j == i + 1 ==> Follows(table[i], table[j])
    ensures j > i + 1 ==> table[j].fromId != table[i].toId + 1
  {
    assert FollowsAt(table, j);
    if j > i + 1 {
      TableAscends(table, i, j - 1);
      assert FollowsAt(table, j) && WellFormed(table[j - 1]);
      TableAscends(table, i, j - 2);
      assert FollowsAt(table, j - 1);
    }
  }

  /** The checkpoint before this file's is the file before it. */
  predicate Adjoins(at: seq<nat>, i: nat)
    requires i < |at|
  {
    i == 0 || at[i] == at[i - 1] + 1
  }

  lemma SelectionWellFormed(table: seq<Anchor>, files: seq<Anchor>, at: seq<nat>)
    requires AllWellFormed(table) && Selection(table, files, at)
    ensures AllWellFormed(files) && |at| == |files|
  {
    forall k | 0 <= k < |files|
      ensures WellFormed(files[k])
    {
      assert WellFormed(table[at[k]]);
    }
  }

  lemma FileHolds(d: Commitments, s: Ledger, at: seq<nat>, i: nat)
    requires Successive(d, s.rows, s.table) && Selection(s.table, s.files, at) && i < |s.files|
    requires AllWellFormed(s.files)
    ensures AnchorHolds(d, s.rows, s.files, i) <==> Adjoins(at, i)
  {
    SuccessiveWellFormed(d, s.rows, s.table);
    hide Range; hide BuildAnchor;
    BuiltCommits(d, s.rows, s.table[at[i]]);
    if i > 0 {
      OnlyNeighboursFollow(s.table, at[i - 1], at[i]);
    }
  }

  /** Whichever anchor files are there — after failed writes, removals, or on a clone that has none of its
      parent's — verification of an untouched ledger is intact exactly when the files are a gapless
      stretch of the checkpoints taken. Removing an interior file is always reported. */
  lemma IntactIffNoInteriorFileMissing(d: Commitments, s: Ledger, at: seq<nat>)
    requires Successive(d, s.rows, s.table) && Selection(s.table, s.files, at)
    requires Check(d.row, s.rows, "").problems == []
    ensures AllWellFormed(s.files)
    ensures Examine(d, s.rows, s.files).intact <==> Contiguous(at)
  {
    SuccessiveWellFormed(d, s.rows, s.table);
    SelectionWellFormed(s.table, s.files, at);
    hide Check; hide AnchorHolds; hide Successive; hide Selection; hide Examine; hide AllWellFormed;
    forall i | 0 <= i < |at|
      ensures AnchorHolds(d, s.rows, s.files, i) <==> Adjoins(at, i)
    {
      FileHolds(d, s, at, i);
    }
    IntactMeansAllChecksPass(d, s.rows, s.files);
  }
}
