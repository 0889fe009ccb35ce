/** Every run of appends, checkpoints and clones (internal/branch/checkpoint.go and the row trigger of
    internal/ledger/ledger.sql): what has been recorded always verifies. */
module LedgerRuns {
  import opened Text
  import opened Hashing
  import opened Rows
  import opened Chain
  import opened Integrity
  import opened Tampering
  import opened Checkpoints

  type World = map<string, Ledger>

  datatype Event =
    | Append(branch: string, row: Row)
    | TakeCheckpoint(branch: string, io: Io)
    | Clone(parent: string, name: string)

  /** What the insert trigger makes of a new row: a larger id (gaps are fine), a link to the newest row's
      hash ("" for a legacy row), and its own hash. */
  predicate Appendable(d: Commitments, rows: seq<Row>, r: Row) {
    r.id > (if rows == [] then 0 else rows[|rows| - 1].id) &&
    r.prevHash == (if rows == [] then "" else rows[|rows| - 1].rowHash) &&
    r.rowHash == d.row(r)
  }

  predicate Next(d: Commitments, w: World, e: Event, w': World) {
    match e
    case Append(b, r) =>
      b in w && Appendable(d, w[b].rows, r) && w' == w[b := w[b].(rows := w[b].rows + [r])]
    case TakeCheckpoint(b, io) =>
      b in w && w' == w[b := Checkpointed(d, b, w[b], io).0]
    case Clone(p, n) =>
      // The clone's database is its parent's; its anchor directory starts empty.
      p in w && n !in w && w' == w[n := w[p].(files := [])]
  }

  ghost predicate Run(d: Commitments, ws: seq<World>, es: seq<Event>) {
    |ws| == |es| + 1 && forall i :: 0 <= i < |es| ==> Next(d, ws[i], es[i], ws[i + 1])
  }

  /** One branch whose rows, if any, predate hash chaining; nothing checkpointed. */
  predicate Initial(w: World) {
    w.Keys == {"main"} && w["main"].table == [] && w["main"].files == [] &&
    InIdOrder(w["main"].rows) &&
    forall i :: 0 <= i < |w["main"].rows| ==> w["main"].rows[i].id > 0 && w["main"].rows[i].rowHash == ""
  }

  // ---------------------------------------------------------------- the invariant of one branch

  ghost predicate RowsSound(d: Commitments, rows: seq<Row>) {
    InIdOrder(rows) && (forall i :: 0 <= i < |rows| ==> rows[i].id > 0) &&
    (rows != [] ==> LastHash(rows, "") == rows[|rows| - 1].rowHash) &&
    Check(d.row, rows, "").problems == []
  }

  ghost predicate TableSound(d: Commitments, s: Ledger) {
    Successive(d, s.rows, s.table) &&
    (s.table != [] ==> s.rows != [] && s.table[|s.table| - 1].toId <= s.rows[|s.rows| - 1].id) &&
    LastCheckpoint(s.table) == (if s.table == [] then (0, "")
                                else (s.table[|s.table| - 1].toId, s.table[|s.table| - 1].merkleRoot))
  }

  ghost predicate FilesSound(s: Ledger) {
    exists at :: Selection(s.table, s.files, at)
  }

  ghost predicate Sound(d: Commitments, s: Ledger) {
    RowsSound(d, s.rows) && TableSound(d, s) && FilesSound(s)
  }

  lemma AppendKeepsOrder(d: Commitments, rows: seq<Row>, r: Row)
    requires InIdOrder(rows) && Appendable(d, rows, r)
    ensures InIdOrder(rows + [r])
  {
  }

  lemma OneRowUnbroken(d: Commitments, r: Row, link: string)
    requires r.rowHash == d.row(r) != "" && r.prevHash == link
    ensures Check(d.row, [r], link).problems == [] && LastHash([r], link) == r.rowHash
  {
    assert [r][..0] == [];
  }

  lemma AppendKeepsChain(d: Commitments, rows: seq<Row>, r: Row)
    requires RowsSound(d, rows) && Appendable(d, rows, r) && r.rowHash != ""
    ensures Check(d.row, rows + [r], "").problems == [] && LastHash(rows + [r], "") == r.rowHash
  {
    assert rows == [] ==> LastHash(rows, "") == "";
    hide Check; hide LastHash; hide InIdOrder;
    OneRowUnbroken(d, r, LastHash(rows, ""));
    CheckComposes(d.row, rows, [r], "");
    LastHashComposes(rows, [r], "");
  }

  lemma AppendKeepsRows(d: Commitments, rows: seq<Row>, r: Row)
    requires RowsSound(d, rows) && Appendable(d, rows, r) && r.rowHash != ""
    ensures RowsSound(d, rows + [r])
  {
    hide Check; hide LastHash; hide InIdOrder;
    AppendKeepsOrder(d, rows, r);
    AppendKeepsChain(d, rows, r);
    assert forall i :: 0 <= i < |rows| ==> (rows + [r])[i] == rows[i];
  }

  lemma AppendKeepsBuilt(d: Commitments, rows: seq<Row>, r: Row, a: Anchor)
    requires BuiltOver(d, rows, a) && a.toId < r.id
    ensures BuiltOver(d, rows + [r], a)
  {
    RangeConcat(rows, [r], a.fromId, a.toId);
    RangeNone([r], a.fromId, a.toId);
    hide Range; hide BuildAnchor;
    assert Range(rows, a.fromId, a.toId) + [] == Range(rows, a.fromId, a.toId);
  }

  lemma AppendKeepsTable(d: Commitments, s: Ledger, r: Row)
    requires RowsSound(d, s.rows) && TableSound(d, s) && Appendable(d, s.rows, r)
    ensures TableSound(d, s.(rows := s.rows + [r]))
  {
    hide BuiltOver; hide LastCheckpoint; hide Check;
    SuccessiveWellFormed(d, s.rows, s.table);
    forall i | 0 <= i < |s.table|
      ensures BuiltOver(d, s.rows + [r], s.table[i])
    {
      TableAscends(s.table, i, |s.table| - 1);
      AppendKeepsBuilt(d, s.rows, r, s.table[i]);
    }
  }

  lemma AppendKeepsSound(d: Commitments, s: Ledger, r: Row)
    requires Sound(d, s) && Appendable(d, s.rows, r) && r.rowHash != ""
    ensures Sound(d, s.(rows := s.rows + [r]))
  {
    AppendKeepsRows(d, s.rows, r);
    AppendKeepsTable(d, s, r);
    hide RowsSound; hide TableSound; hide Selection;
    var at :| Selection(s.table, s.files, at);
    assert Selection(s.(rows := s.rows + [r]).table, s.(rows := s.rows + [r]).files, at);
  }

  // ---------------------------------------------------------------- checkpoints of a sound ledger

  lemma CutSplits(rows: seq<Row>, lastTo: int)
    requires InIdOrder(rows)
    ensures var k := Cut(rows, lastTo);
            rows == rows[..k] + rows[k..] &&
            (forall i :: 0 <= i < |rows[..k]| ==> rows[..k][i].id <= lastTo) &&
            (forall i :: 0 <= i < |rows[k..]| ==> rows[k..][i].id > lastTo)
  {
    var k := Cut(rows, lastTo);
    hide Cut;
    assert forall i :: 0 <= i < k ==> rows[i].id <= rows[k - 1].id;
  }

  /** The part after the last checkpoint of an unbroken chain is unbroken. */
  lemma AddedRowsUnbroken(d: Commitments, rows: seq<Row>, k: nat)
    requires k <= |rows| && Check(d.row, rows, "").problems == []
    ensures Check(d.row, rows[k..], LastHash(rows[..k], "")).problems == []
  {
    hide Check; hide LastHash;
    CheckComposes(d.row, rows[..k], rows[k..], "");
    assert rows == rows[..k] + rows[k..];
  }

  lemma PieceInOrder(rows: seq<Row>, k: nat, fromId: int)
    requires InIdOrder(rows) && k <= |rows| && forall i :: k <= i < |rows| ==> rows[i].id >= fromId
    ensures AscendingFrom(rows[k..], fromId)
  {
  }

  lemma NoneBefore(rows: seq<Row>, lastTo: int, hi: int)
    requires InIdOrder(rows)
    ensures Range(rows[..Cut(rows, lastTo)], lastTo + 1, hi) == []
  {
    hide Cut; hide Range; hide InIdOrder;
    CutSplits(rows, lastTo);
    RangeNone(rows[..Cut(rows, lastTo)], lastTo + 1, hi);
  }

  lemma AllAfter(rows: seq<Row>, lastTo: int)
    requires InIdOrder(rows) && Cut(rows, lastTo) < |rows|
    ensures var added := rows[Cut(rows, lastTo)..]; Range(added, lastTo + 1, rows[|rows| - 1].id) == added
  {
    var k := Cut(rows, lastTo);
    hide Cut; hide Range;
    assert forall i :: k <= i < |rows| ==> lastTo < rows[i].id <= rows[|rows| - 1].id;
    hide InIdOrder;
    RangeAll(rows[k..], lastTo + 1, rows[|rows| - 1].id);
  }

  lemma AddedRowsAreARange(rows: seq<Row>, lastTo: int)
    requires InIdOrder(rows) && Cut(rows, lastTo) < |rows|
    ensures var added := rows[Cut(rows, lastTo)..];
            Range(rows, lastTo + 1, rows[|rows| - 1].id) == added && AscendingFrom(added, lastTo + 1)
  {
    hide Cut; hide Range; hide InIdOrder; hide AscendingFrom;
    var k, hi := Cut(rows, lastTo), rows[|rows| - 1].id;
    PieceInOrder(rows, k, lastTo + 1);
    NoneBefore(rows, lastTo, hi);
    AllAfter(rows, lastTo);
    RangeConcat(rows[..k], rows[k..], lastTo + 1, hi);
    assert rows == rows[..k] + rows[k..];
  }

  lemma BuiltContinues(d: Commitments, name: string, rows: seq<Row>, added: seq<Row>, lastTo: int, prevRoot: string, id: int)
    requires rows != [] && added != [] && AscendingFrom(added, lastTo + 1)
    requires added[|added| - 1] == rows[|rows| - 1]
    requires Range(rows, lastTo + 1, rows[|rows| - 1].id) == added
    ensures var built := BuildAnchor(d, name, lastTo + 1, prevRoot, added);
            built.Built? && Continues(d, rows, lastTo, prevRoot, built.anchor.(checkpointId := id))
  {
    hide Range; hide AscendingFrom;
  }

  lemma AddedRowsBuild(d: Commitments, name: string, rows: seq<Row>, lastTo: int, prevRoot: string, id: int)
    requires InIdOrder(rows) && Cut(rows, lastTo) < |rows|
    ensures var built := BuildAnchor(d, name, lastTo + 1, prevRoot, rows[Cut(rows, lastTo)..]);
            built.Built? && Continues(d, rows, lastTo, prevRoot, built.anchor.(checkpointId := id))
  {
    hide Cut; hide Range; hide InIdOrder; hide AscendingFrom; hide BuildAnchor; hide Continues;
    AddedRowsAreARange(rows, lastTo);
    BuiltContinues(d, name, rows, rows[Cut(rows, lastTo)..], lastTo, prevRoot, id);
  }

  /** `a` anchors exactly the rows after `lastTo` and continues the checkpoint that ended there. */
  ghost predicate Continues(d: Commitments, rows: seq<Row>, lastTo: int, lastRoot: string, a: Anchor) {
    rows != [] && BuiltOver(d, rows, a) &&
    a.toId == rows[|rows| - 1].id > lastTo && a.fromId == lastTo + 1 && a.prevRoot == lastRoot
  }

  /** What a checkpoint does to a sound ledger: it is never refused, it records the rows added since the
      last one, and the anchor file is missing only if it could not be written. */
  ghost predicate CheckpointEffect(d: Commitments, s: Ledger, io: Io, a: Anchor, s': Ledger, outcome: Outcome) {
    var last := LastCheckpoint(s.table);
    if Cut(s.rows, last.0) == |s.rows| then s' == s && outcome == NothingNew
    else if !io.inserted then s' == s && outcome == NotRecorded
    else
      Continues(d, s.rows, last.0, last.1, a) &&
      s' == Ledger(s.rows, s.table + [a], if io.written then s.files + [a] else s.files) &&
      outcome == (if io.written then Anchored(a) else NotWritten(a))
  }

  lemma FilesComeEarlier(d: Commitments, s: Ledger, i: nat)
    requires Sound(d, s) && i < |s.files|
    ensures s.files[i].toId <= LastCheckpoint(s.table).0
  {
    SuccessiveWellFormed(d, s.rows, s.table);
    hide BuiltOver; hide Check; hide LastCheckpoint;
    var at :| Selection(s.table, s.files, at);
    TableAscends(s.table, at[i], |s.table| - 1);
  }

  /** The checkpoint step when its chain check and its build succeed and no file is in the way. */
  lemma CleanCheckpoint(d: Commitments, name: string, s: Ledger, io: Io, a: Anchor)
    requires var last := LastCheckpoint(s.table);
             var k := Cut(s.rows, last.0);
             k < |s.rows| && Check(d.row, s.rows[k..], LastHash(s.rows[..k], "")).problems == [] &&
             BuildAnchor(d, name, last.0 + 1, last.1, s.rows[k..]) == Built(a.(checkpointId := 0)) &&
             a.checkpointId == io.id && Continues(d, s.rows, last.0, last.1, a)
    requires forall i :: 0 <= i < |s.files| ==> s.files[i].toId != a.toId
    ensures var (s', outcome) := Checkpointed(d, name, s, io); CheckpointEffect(d, s, io, a, s', outcome)
  {
    hide LastCheckpoint; hide Check; hide BuildAnchor; hide LastHash; hide Cut; hide Continues;
  }

  lemma IdleCheckpoint(d: Commitments, name: string, s: Ledger, io: Io, a: Anchor)
    requires Cut(s.rows, LastCheckpoint(s.table).0) == |s.rows|
    ensures var (s', outcome) := Checkpointed(d, name, s, io); CheckpointEffect(d, s, io, a, s', outcome)
  {
    hide LastCheckpoint; hide Cut;
  }

  lemma FilesDoNotCollide(d: Commitments, s: Ledger, to: int)
    requires Sound(d, s) && to > LastCheckpoint(s.table).0
    ensures forall i :: 0 <= i < |s.files| ==> s.files[i].toId != to
  {
    forall i | 0 <= i < |s.files|
      ensures s.files[i].toId != to
    {
      FilesComeEarlier(d, s, i);
    }
  }

  /** The anchor a checkpoint builds from the rows after the last one. */
  function NewAnchor(d: Commitments, name: string, s: Ledger, id: int): Anchor {
    var last := LastCheckpoint(s.table);
    var built := BuildAnchor(d, name, last.0 + 1, last.1, s.rows[Cut(s.rows, last.0)..]);
    if built.Built? then built.anchor.(checkpointId := id) else Anchor("", "", "", id, 0, 0, 0, "", "", "")
  }

  lemma NewAnchorContinues(d: Commitments, name: string, s: Ledger, id: int)
    requires InIdOrder(s.rows) && Cut(s.rows, LastCheckpoint(s.table).0) < |s.rows|
    ensures var last, a := LastCheckpoint(s.table), NewAnchor(d, name, s, id);
            Continues(d, s.rows, last.0, last.1, a) && a.toId > last.0 && a.checkpointId == id &&
            BuildAnchor(d, name, last.0 + 1, last.1, s.rows[Cut(s.rows, last.0)..]) == Built(a.(checkpointId := 0))
  {
    hide LastCheckpoint; hide Cut; hide InIdOrder; hide Range; hide AscendingFrom; hide BuiltOver;
    var last := LastCheckpoint(s.table);
    AddedRowsBuild(d, name, s.rows, last.0, last.1, id);
  }

  lemma SoundRows(d: Commitments, s: Ledger)
    requires Sound(d, s)
    ensures InIdOrder(s.rows) && Check(d.row, s.rows, "").problems == []
  {
    hide Check;
  }

  lemma CheckpointOfSound(d: Commitments, name: string, s: Ledger, io: Io)
    requires Sound(d, s)
    ensures var (s', outcome) := Checkpointed(d, name, s, io);
            CheckpointEffect(d, s, io, NewAnchor(d, name, s, io.id), s', outcome)
  {
    hide *;
    SoundRows(d, s);
    var last := LastCheckpoint(s.table);
    var k := Cut(s.rows, last.0);
    var a := NewAnchor(d, name, s, io.id);
    if k == |s.rows| {
      IdleCheckpoint(d, name, s, io, a);
    } else {
      NewAnchorContinues(d, name, s, io.id);
      FilesDoNotCollide(d, s, a.toId);
      AddedRowsUnbroken(d, s.rows, k);
      CleanCheckpoint(d, name, s, io, a);
    }
  }

  lemma RecordKeepsTable(d: Commitments, s: Ledger, a: Anchor)
    requires RowsSound(d, s.rows) && TableSound(d, s)
    requires Continues(d, s.rows, LastCheckpoint(s.table).0, LastCheckpoint(s.table).1, a)
    ensures TableSound(d, s.(table := s.table + [a]))
  {
    hide BuiltOver; hide Check; hide LastHash; hide InIdOrder;
    var table := s.table + [a];
    assert table[..|s.table|] == s.table;
    forall i | 0 <= i < |table|
      ensures FollowsAt(table, i)
    {
      if i < |s.table| {
        assert FollowsAt(s.table, i);
      }
    }
  }

  lemma SelectionGrows(table: seq<Anchor>, files: seq<Anchor>, at: seq<nat>, a: Anchor)
    requires Selection(table, files, at)
    ensures Selection(table + [a], files, at)
    ensures Selection(table + [a], files + [a], at + [|table|])
  {
  }

  lemma RecordKeepsSound(d: Commitments, s: Ledger, a: Anchor, written: bool)
    requires Sound(d, s) && Continues(d, s.rows, LastCheckpoint(s.table).0, LastCheckpoint(s.table).1, a)
    ensures Sound(d, Ledger(s.rows, s.table + [a], if written then s.files + [a] else s.files))
  {
    hide RowsSound; hide TableSound; hide Selection; hide LastCheckpoint; hide Continues;
    RecordKeepsTable(d, s, a);
    TableIgnoresFiles(d, s.(table := s.table + [a]), Ledger(s.rows, s.table + [a], if written then s.files + [a] else s.files));
    var at :| Selection(s.table, s.files, at);
    SelectionGrows(s.table, s.files, at, a);
  }

  lemma CheckpointKeepsSound(d: Commitments, name: string, s: Ledger, io: Io)
    requires Sound(d, s)
    ensures Sound(d, Checkpointed(d, name, s, io).0)
  {
    hide Checkpointed; hide Sound; hide LastCheckpoint; hide Continues; hide Cut;
    CheckpointOfSound(d, name, s, io);
    if Checkpointed(d, name, s, io).0 != s {
      RecordKeepsSound(d, s, NewAnchor(d, name, s, io.id), io.written);
    }
  }

  lemma TableIgnoresFiles(d: Commitments, s: Ledger, t: Ledger)
    requires TableSound(d, s) && t.rows == s.rows && t.table == s.table
    ensures TableSound(d, t)
  {
    hide Successive; hide LastCheckpoint;
  }

  lemma CloneKeepsSound(d: Commitments, s: Ledger)
    requires Sound(d, s)
    ensures Sound(d, s.(files := []))
  {
    TableIgnoresFiles(d, s, s.(files := []));
    assert Selection(s.table, [], []);
    hide RowsSound; hide TableSound; hide Selection;
  }

  // ---------------------------------------------------------------- whole runs

  ghost predicate AllSound(d: Commitments, w: World) {
    forall b :: b in w ==> Sound(d, w[b])
  }

  /** No row hash is empty. */
  ghost predicate HashesRows(d: Commitments) {
    forall r :: d.row(r) != ""
  }

  lemma CommittingHashesRows(sha: Hasher)
    ensures HashesRows(Committing(sha))
  {
    hide Hex; hide Preimage;
    forall r
      ensures Committing(sha).row(r) != ""
    {
      assert |RowHash(sha, r)| == 64;
    }
  }

  lemma NextKeepsSound(d: Commitments, w: World, e: Event, w': World)
    requires HashesRows(d) && AllSound(d, w) && Next(d, w, e, w')
    ensures AllSound(d, w')
  {
    hide Sound; hide Checkpointed;
    match e {
      case Append(b, r) => AppendKeepsSound(d, w[b], r);
      case TakeCheckpoint(b, io) => CheckpointKeepsSound(d, b, w[b], io);
      case Clone(p, n) => CloneKeepsSound(d, w[p]);
    }
  }

  lemma {:induction false} LegacyRowsUnbroken(d: Commitments, rows: seq<Row>)
    requires forall i :: 0 <= i < |rows| ==> rows[i].rowHash == ""
    ensures Check(d.row, rows, "").problems == [] && LastHash(rows, "") == ""
  {
    if rows != [] {
      LegacyRowsUnbroken(d, rows[..|rows| - 1]);
    }
  }

  lemma InitialSound(d: Commitments, w: World)
    requires Initial(w)
    ensures AllSound(d, w)
  {
    var s := w["main"];
    LegacyRowsUnbroken(d, s.rows);
    assert Selection(s.table, s.files, []);
    assert RowsSound(d, s.rows) by { hide Check; hide LastHash; }
    assert TableSound(d, s);
  }

  lemma {:induction false} RunKeepsSound(d: Commitments, ws: seq<World>, es: seq<Event>, i: nat)
    requires HashesRows(d) && Run(d, ws, es) && Initial(ws[0]) && i < |ws|
    ensures AllSound(d, ws[i])
  {
    hide Next; hide AllSound; hide Initial;
    if i == 0 {
      InitialSound(d, ws[0]);
    } else {
      RunKeepsSound(d, ws, es, i - 1);
      NextKeepsSound(d, ws[i - 1], es[i - 1], ws[i]);
    }
  }

  /** Checkpointing is complete. At every moment of every run, every branch verifies intact against its own
      anchor files exactly when no file between two of them was lost. */
  lemma RecordedHistoryVerifies(sha: Hasher, ws: seq<World>, es: seq<Event>, i: nat, b: string)
    requires Run(Committing(sha), ws, es) && Initial(ws[0]) && i < |ws| && b in ws[i]
    ensures AllWellFormed(ws[i][b].files)
    ensures exists at :: Selection(ws[i][b].table, ws[i][b].files, at) &&
              (Examine(Committing(sha), ws[i][b].rows, ws[i][b].files).intact <==> Contiguous(at))
  {
    hide Committing; hide Examine; hide Run; hide Selection; hide Contiguous; hide AllWellFormed;
    var d := Committing(sha);
    CommittingHashesRows(sha);
    RunKeepsSound(d, ws, es, i);
    var s := ws[i][b];
    assert Sound(d, s);
    var at :| Selection(s.table, s.files, at);
    IntactIffNoInteriorFileMissing(d, s, at);
  }

  // ---------------------------------------------------------------- runs in which every anchor is written

  predicate AllWritten(es: seq<Event>) {
    forall i :: 0 <= i < |es| && es[i].TakeCheckpoint? ==> es[i].io.written
  }

  /** The files are the newest checkpoints of the table. */
  predicate FilesAreSuffix(s: Ledger) {
    |s.files| <= |s.table| && s.files == s.table[|s.table| - |s.files|..]
  }

  lemma CheckpointKeepsSuffix(d: Commitments, name: string, s: Ledger, io: Io)
    requires Sound(d, s) && FilesAreSuffix(s) && io.written
    ensures FilesAreSuffix(Checkpointed(d, name, s, io).0)
  {
    hide Checkpointed; hide Sound; hide Continues; hide Cut; hide LastCheckpoint;
    CheckpointOfSound(d, name, s, io);
  }

  lemma NextKeepsSuffix(d: Commitments, w: World, e: Event, w': World)
    requires AllSound(d, w) && Next(d, w, e, w') && (e.TakeCheckpoint? ==> e.io.written)
    requires forall b :: b in w ==> FilesAreSuffix(w[b])
    ensures forall b :: b in w' ==> FilesAreSuffix(w'[b])
  {
    hide Sound; hide Checkpointed;
    if e.TakeCheckpoint? {
      CheckpointKeepsSuffix(d, e.branch, w[e.branch], e.io);
    }
  }

  lemma {:induction false} RunKeepsSuffix(d: Commitments, ws: seq<World>, es: seq<Event>, i: nat)
    requires HashesRows(d) && Run(d, ws, es) && Initial(ws[0]) && AllWritten(es) && i < |ws|
    ensures forall b :: b in ws[i] ==> FilesAreSuffix(ws[i][b])
  {
    hide Next; hide FilesAreSuffix; hide AllSound;
    if i == 0 {
      SuffixOfNothing(ws[0]);
    } else {
      RunKeepsSuffix(d, ws, es, i - 1);
      RunKeepsSound(d, ws, es, i - 1);
      NextKeepsSuffix(d, ws[i - 1], es[i - 1], ws[i]);
    }
  }

  lemma SuffixOfNothing(w: World)
    requires Initial(w)
    ensures forall b :: b in w ==> FilesAreSuffix(w[b])
  {
  }

  lemma SuffixIsContiguous(s: Ledger) returns (at: seq<nat>)
    requires FilesAreSuffix(s)
    ensures Selection(s.table, s.files, at) && Contiguous(at)
  {
    var gap := |s.table| - |s.files|;
    at := seq(|s.files|, i => gap + i);
  }

  /** If every anchor file could be written, every branch verifies intact at every moment: on main, and on
      clones that inherit the checkpoint table but start without files. */
  lemma WrittenHistoryIsIntact(sha: Hasher, ws: seq<World>, es: seq<Event>, i: nat, b: string)
    requires Run(Committing(sha), ws, es) && Initial(ws[0]) && AllWritten(es) && i < |ws| && b in ws[i]
    ensures AllWellFormed(ws[i][b].files)
    ensures Examine(Committing(sha), ws[i][b].rows, ws[i][b].files).intact
  {
    hide Committing; hide Examine; hide Run; hide Selection; hide Contiguous; hide AllWellFormed; hide FilesAreSuffix;
    var d := Committing(sha);
    CommittingHashesRows(sha);
    RunKeepsSound(d, ws, es, i);
    RunKeepsSuffix(d, ws, es, i);
    var s := ws[i][b];
    assert Sound(d, s);
    var at := SuffixIsContiguous(s);
    IntactIffNoInteriorFileMissing(d, s, at);
  }
}
