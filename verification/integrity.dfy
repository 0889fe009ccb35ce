/** Anchors and their verification (internal/ledger/integrity.go). */
module Integrity {
  import opened Text
  import opened Hashing
  import opened Rows
  import opened Chain
  import opened Sorting
  import Merkle

  const ANCHOR_FORMAT := "oxyndb-ledger-anchor/1"
  const MERKLE_ALGORITHM := "sha256-merkle-v1"
  const MAX_PROBLEMS := 25

  /** One checkpoint as written outside the database. The creation time is not part of the model. */
  datatype Anchor = Anchor(
    format: string, algorithm: string, branch: string, checkpointId: int,
    fromId: int, toId: int, entryCount: int, lastRowHash: string, merkleRoot: string, prevRoot: string)

  /** The two commitments to row contents an anchor makes: a hash for a row, a root for a row list. */
  datatype Commitments = Commitments(row: Row -> string, root: seq<Row> -> string)

  function RowLeaf(sha: Hasher, r: Row): Digest {
    Merkle.LeafHash(sha, RowHash(sha, r), r.extHash)
  }

  function RowLeaves(sha: Hasher, rows: seq<Row>): (leaves: seq<Digest>)
    ensures |leaves| == |rows|
  {
    seq(|rows|, i requires 0 <= i < |rows| => RowLeaf(sha, rows[i]))
  }

  function RootOf(sha: Hasher, rows: seq<Row>): string {
    Merkle.Root(sha, RowLeaves(sha, rows))
  }

  function Committing(sha: Hasher): Commitments {
    Commitments(r => RowHash(sha, r), rows => RootOf(sha, rows))
  }

  method RootOfRows(sha: Hasher, rows: seq<Row>) returns (root: string)
    ensures root == RootOf(sha, rows)
  {
    var leaves: seq<Digest> := [];
    for i := 0 to |rows|
      invariant |leaves| == i
      invariant forall k :: 0 <= k < i ==> leaves[k] == RowLeaf(sha, rows[k])
    {
      leaves := leaves + [RowLeaf(sha, rows[i])];
    }
    assert leaves == RowLeaves(sha, rows);
    root := Merkle.MerkleRoot(sha, leaves);
  }

  // ---------------------------------------------------------------- building

  datatype BuildResult = Built(anchor: Anchor) | NoRows | NotAscending(id: int)

  /** The row does not start before `fromId` and comes after the row before it. */
  predicate InOrderAt(rows: seq<Row>, fromId: int, i: nat)
    requires i < |rows|
  {
    fromId <= rows[i].id && (i > 0 ==> rows[i - 1].id < rows[i].id)
  }

  predicate AscendingFrom(rows: seq<Row>, fromId: int) {
    forall i :: 0 <= i < |rows| ==> InOrderAt(rows, fromId, i)
  }

  /** The id of the first row that breaks the ascending order from `fromId`. */
  function FirstOutOfOrder(rows: seq<Row>, fromId: int, i: nat): (id: Option<int>)
    requires i <= |rows|
    ensures id.None? <==>
            forall k :: i <= k < |rows| ==> InOrderAt(rows, fromId, k)
    decreases |rows| - i
  {
    if i == |rows| then None
    else if !InOrderAt(rows, fromId, i) then Some(rows[i].id)
    else FirstOutOfOrder(rows, fromId, i + 1)
  }

  function BuildAnchor(d: Commitments, branch: string, fromId: int, prevRoot: string, rows: seq<Row>): (r: BuildResult)
    ensures r.Built? <==> rows != [] && AscendingFrom(rows, fromId)
    ensures r.Built? ==> WellFormed(r.anchor) && r.anchor.toId == rows[|rows| - 1].id
  {
    if rows == [] then NoRows
    else
      var bad := FirstOutOfOrder(rows, fromId, 0);
      if bad.Some? then NotAscending(bad.value)
      else
        var last := rows[|rows| - 1];
        assert InOrderAt(rows, fromId, |rows| - 1);
        Built(Anchor(ANCHOR_FORMAT, MERKLE_ALGORITHM, branch, 0, fromId, last.id, |rows|,
                     d.row(last), d.root(rows), prevRoot))
  }

  /** What every built anchor satisfies. */
  predicate WellFormed(a: Anchor) {
    a.entryCount >= 1 && a.fromId <= a.toId
  }

  // ---------------------------------------------------------------- what verification finds

  datatype Note = ContinuesOlder(checkpoint: int, fromId: int)

  datatype Findings = Findings(
    intact: bool, rows: nat, chainedRows: nat, legacyRows: nat, checkpoints: nat,
    anchoredRows: nat, unanchoredRows: nat, firstBrokenId: int, problems: seq<Problem>, notes: seq<Note>)

  /** The listed problems: at most 25, then a marker. */
  function Cap(all: seq<Problem>): seq<Problem> {
    if |all| <= MAX_PROBLEMS then all else all[..MAX_PROBLEMS] + [FurtherOmitted]
  }

  function AddCapped(listed: seq<Problem>, p: Problem): seq<Problem> {
    if |listed| < MAX_PROBLEMS then listed + [p]
    else if |listed| == MAX_PROBLEMS then listed + [FurtherOmitted]
    else listed
  }

  lemma CapStep(all: seq<Problem>, p: Problem)
    ensures Cap(all + [p]) == AddCapped(Cap(all), p)
  {
    if |all| >= MAX_PROBLEMS {
      assert (all + [p])[..MAX_PROBLEMS] == all[..MAX_PROBLEMS];
    }
  }

  /** The rows with an id from `lo` to `hi`, in order. */
  function Range(rows: seq<Row>, lo: int, hi: int): (s: seq<Row>)
    ensures |s| <= |rows|
    ensures forall k :: 0 <= k < |s| ==> s[k] in rows && lo <= s[k].id <= hi
  {
    if rows == [] then []
    else
      var r := rows[|rows| - 1];
      Range(rows[..|rows| - 1], lo, hi) + if lo <= r.id <= hi then [r] else []
  }

  /** What is wrong between an anchor and the one before it. */
  function SequenceProblems(p: Anchor, a: Anchor): seq<Problem> {
    (if a.fromId != p.toId + 1 then [NotContinuing(a.checkpointId, p.checkpointId)] else []) +
    (if a.prevRoot != p.merkleRoot then [AnchorChainBroken(a.checkpointId, p.checkpointId)] else [])
  }

  /** What is wrong between an anchor and the rows now in its range. */
  function ContentProblems(d: Commitments, a: Anchor, found: seq<Row>): seq<Problem> {
    if |found| != a.entryCount then [CountMismatch(a.checkpointId, a.entryCount, |found|)]
    else if d.root(found) != a.merkleRoot then [RootMismatch(a.checkpointId)]
    else if found == [] then []  // verification fails here: see Panics
    else if d.row(found[|found| - 1]) != a.lastRowHash then [LastRowDiffers(a.checkpointId)]
    else []
  }

  predicate AllWellFormed(anchors: seq<Anchor>) {
    forall i :: 0 <= i < |anchors| ==> WellFormed(anchors[i])
  }

  function AnchorProblems(d: Commitments, rows: seq<Row>, anchors: seq<Anchor>, i: nat): seq<Problem>
    requires i < |anchors|
  {
    var a := anchors[i];
    if a.format != ANCHOR_FORMAT then [UnknownFormat(a.checkpointId)]
    else
      (if i > 0 then SequenceProblems(anchors[i - 1], a) else []) +
      ContentProblems(d, a, Range(rows, a.fromId, a.toId))
  }

  /** The problems of the first `n` anchors. */
  function ProblemsUpTo(d: Commitments, rows: seq<Row>, anchors: seq<Anchor>, n: nat): seq<Problem>
    requires n <= |anchors|
  {
    if n == 0 then [] else ProblemsUpTo(d, rows, anchors, n - 1) + AnchorProblems(d, rows, anchors, n - 1)
  }

  /** The rows counted as anchored by the first `n` anchors. */
  function AnchoredUpTo(rows: seq<Row>, anchors: seq<Anchor>, n: nat): nat
    requires n <= |anchors|
  {
    if n == 0 then 0
    else
      var a := anchors[n - 1];
      AnchoredUpTo(rows, anchors, n - 1) +
      if a.format == ANCHOR_FORMAT then |Range(rows, a.fromId, a.toId)| else 0
  }

  function Outside(rows: seq<Row>, first: int, last: int): nat {
    if rows == [] then 0
    else
      var r := rows[|rows| - 1];
      Outside(rows[..|rows| - 1], first, last) + if r.id < first || r.id > last then 1 else 0
  }

  function Unanchored(rows: seq<Row>, anchors: seq<Anchor>): nat {
    if anchors == [] then |rows| else Outside(rows, anchors[0].fromId, anchors[|anchors| - 1].toId)
  }

  function Notes(anchors: seq<Anchor>): seq<Note> {
    if anchors != [] && anchors[0].format == ANCHOR_FORMAT && anchors[0].prevRoot != ""
    then [ContinuesOlder(anchors[0].checkpointId, anchors[0].fromId)] else []
  }

  function AllProblems(d: Commitments, rows: seq<Row>, anchors: seq<Anchor>): seq<Problem> {
    Check(d.row, rows, "").problems + ProblemsUpTo(d, rows, anchors, |anchors|)
  }

  /** The findings over rows in id order and anchors in to_id order. */
  function Examine(d: Commitments, rows: seq<Row>, anchors: seq<Anchor>): Findings {
    var c := Check(d.row, rows, "");
    var problems := Cap(AllProblems(d, rows, anchors));
    Findings(problems == [], |rows|, c.chained, c.legacy, |anchors|,
             AnchoredUpTo(rows, anchors, |anchors|), Unanchored(rows, anchors), c.firstBroken, problems, Notes(anchors))
  }

  // ---------------------------------------------------------------- anchors that were never built

  /** The two searches for a range cross: a row lies strictly between its reversed ends. */
  predicate Crosses(rows: seq<Row>, fromId: int, toId: int) {
    exists k :: 0 <= k < |rows| && toId < rows[k].id < fromId
  }

  /** An anchor of no entries, whose root is that of no rows, and no row in its range. */
  predicate NoLastRow(d: Commitments, rows: seq<Row>, a: Anchor) {
    Range(rows, a.fromId, a.toId) == [] && a.entryCount == 0 && a.merkleRoot == d.root([])
  }

  /** Verification fails on this anchor: it slices the rows backwards, or takes the last row of none. */
  predicate Panics(d: Commitments, rows: seq<Row>, a: Anchor) {
    a.format == ANCHOR_FORMAT && (Crosses(rows, a.fromId, a.toId) || NoLastRow(d, rows, a))
  }

  /** An anchor is safe to verify against every ledger exactly when its format is unknown, or it neither has room
      between its reversed ends nor stands for no rows. Built anchors are (WellFormed). */
  lemma NeverPanicsIff(d: Commitments, a: Anchor)
    ensures (forall rows :: !Panics(d, rows, a)) <==>
              a.format != ANCHOR_FORMAT || (a.fromId <= a.toId + 1 && !(a.entryCount == 0 && a.merkleRoot == d.root([])))
    ensures WellFormed(a) ==> forall rows :: !Panics(d, rows, a)
  {
    if a.format == ANCHOR_FORMAT && a.fromId > a.toId + 1 {
      var r := Row(a.toId + 1, Timestamp(0, 1, 1, 0, 0, 0, 0), "", "", "", "", "", "", "", "", "", "", "", "", "", "");
      assert [r][0] == r && Crosses([r], a.fromId, a.toId) && Panics(d, [r], a);
    }
    if a.format == ANCHOR_FORMAT && a.entryCount == 0 && a.merkleRoot == d.root([]) {
      assert Range([], a.fromId, a.toId) == [] && Panics(d, [], a);
    }
  }

  // ---------------------------------------------------------------- the algorithm

  class Report {
    var intact: bool
    var rows: nat
    var chainedRows: nat
    var legacyRows: nat
    var checkpoints: nat
    var anchoredRows: nat
    var unanchoredRows: nat
    var firstBrokenId: int
    var problems: seq<Problem>
    var notes: seq<Note>

    constructor ()
      ensures Value() == Findings(false, 0, 0, 0, 0, 0, 0, 0, [], [])
    {
      intact, rows, chainedRows, legacyRows, checkpoints := false, 0, 0, 0, 0;
      anchoredRows, unanchoredRows, firstBrokenId, problems, notes := 0, 0, 0, [], [];
    }

    function Value(): Findings
      reads this
    {
      Findings(intact, rows, chainedRows, legacyRows, checkpoints,
               anchoredRows, unanchoredRows, firstBrokenId, problems, notes)
    }

    /** Lists a problem, or the marker in place of the 26th. */
    method Problem(p: Problem, ghost all: seq<Problem>)
      requires problems == Cap(all)
      modifies this`problems
      ensures problems == Cap(all + [p])
    {
      CapStep(all, p);
      if |problems| < MAX_PROBLEMS {
        problems := problems + [p];
      } else if |problems| == MAX_PROBLEMS {
        problems := problems + [FurtherOmitted];
      }
    }

    method ProblemsAll(ps: seq<Problem>, ghost all: seq<Problem>)
      requires problems == Cap(all)
      modifies this`problems
      ensures problems == Cap(all + ps)
    {
      assert all + ps[..0] == all;
      for i := 0 to |ps|
        invariant problems == Cap(all + ps[..i])
      {
        assert all + ps[..i + 1] == all + ps[..i] + [ps[i]];
        Problem(ps[i], all + ps[..i]);
      }
      assert ps[..|ps|] == ps;
    }
  }

  function RowId(): Row -> int {
    (r: Row) => r.id
  }

  function ToId(): Anchor -> int {
    (a: Anchor) => a.toId
  }

  /** sort.Search: the least index from which a monotone condition holds. */
  method Search(n: nat, cond: nat -> bool) returns (k: nat)
    requires forall i, j :: 0 <= i < j < n && cond(i) ==> cond(j)
    ensures k <= n
    ensures forall i :: 0 <= i < k ==> !cond(i)
    ensures forall i :: k <= i < n ==> cond(i)
  {
    var lo, hi := 0, n;
    while lo < hi
      invariant 0 <= lo <= hi <= n
      invariant forall i :: 0 <= i < lo ==> !cond(i)
      invariant forall i :: hi <= i < n ==> cond(i)
    {
      var mid := (lo + hi) / 2;
      if cond(mid) {
        hi := mid;
      } else {
        lo := mid + 1;
      }
    }
    k := lo;
  }

  lemma {:induction false} RangeConcat(a: seq<Row>, b: seq<Row>, lo: int, hi: int)
    ensures Range(a + b, lo, hi) == Range(a, lo, hi) + Range(b, lo, hi)
  {
    if b == [] {
      assert a + b == a;
    } else {
      assert (a + b)[..|a + b| - 1] == a + b[..|b| - 1];
      RangeConcat(a, b[..|b| - 1], lo, hi);
    }
  }

  lemma {:induction false} RangeAll(a: seq<Row>, lo: int, hi: int)
    requires forall k :: 0 <= k < |a| ==> lo <= a[k].id <= hi
    ensures Range(a, lo, hi) == a
  {
    if a != [] {
      RangeAll(a[..|a| - 1], lo, hi);
    }
  }

  lemma {:induction false} RangeNone(a: seq<Row>, lo: int, hi: int)
    requires forall k :: 0 <= k < |a| ==> a[k].id < lo || hi < a[k].id
    ensures Range(a, lo, hi) == []
  {
    if a != [] {
      RangeNone(a[..|a| - 1], lo, hi);
    }
  }

  lemma SliceIsRange(rows: seq<Row>, lo: int, hi: int, i: nat, j: nat)
    requires i <= j <= |rows|
    requires forall k :: 0 <= k < i ==> rows[k].id < lo
    requires forall k :: i <= k < j ==> lo <= rows[k].id <= hi
    requires forall k :: j <= k < |rows| ==> hi < rows[k].id
    ensures rows[i..j] == Range(rows, lo, hi)
  {
    hide Range;
    var a, b, c := rows[..i], rows[i..j], rows[j..];
    assert rows == a + (b + c);
    RangeConcat(a, b + c, lo, hi);
    RangeConcat(b, c, lo, hi);
    RangeNone(a, lo, hi);
    RangeAll(b, lo, hi);
    RangeNone(c, lo, hi);
  }

  /** The rows in a range of ids, found by two binary searches; nothing when these cross. */
  method FindRange(rows: seq<Row>, fromId: int, toId: int) returns (found: Option<seq<Row>>)
    requires Ascending(rows, RowId())
    ensures found == if Crosses(rows, fromId, toId) then None else Some(Range(rows, fromId, toId))
  {
    assert forall i, j :: 0 <= i < j < |rows| ==> RowId()(rows[i]) <= RowId()(rows[j]);
    var atLeast := (k: nat) => k < |rows| && rows[k].id >= fromId;
    var beyond := (k: nat) => k < |rows| && rows[k].id > toId;
    var lo := Search(|rows|, atLeast);
    var hi := Search(|rows|, beyond);
    assert forall k :: 0 <= k < |rows| ==> (atLeast(k) <==> rows[k].id >= fromId);
    assert forall k :: 0 <= k < |rows| ==> (beyond(k) <==> rows[k].id > toId);
    if hi < lo {
      assert beyond(hi) && !atLeast(hi);
      return None;
    }
    assert forall k :: 0 <= k < |rows| ==> k < lo || hi <= k || fromId <= rows[k].id <= toId;
    SliceIsRange(rows, fromId, toId, lo, hi);
    found := Some(rows[lo..hi]);
  }

  /** Compares the rows found in an anchor's range with the anchor; nothing when there is no last row. */
  method CheckContent(sha: Hasher, a: Anchor, found: seq<Row>) returns (r: Option<seq<Problem>>)
    ensures r == if found == [] && a.entryCount == 0 && a.merkleRoot == RootOf(sha, []) then None
                 else Some(ContentProblems(Committing(sha), a, found))
  {
    if |found| != a.entryCount {
      return Some([CountMismatch(a.checkpointId, a.entryCount, |found|)]);
    }
    var root := RootOfRows(sha, found);
    if root != a.merkleRoot {
      return Some([RootMismatch(a.checkpointId)]);
    }
    if |found| == 0 {
      return None;
    }
    if RowHash(sha, found[|found| - 1]) != a.lastRowHash {
      return Some([LastRowDiffers(a.checkpointId)]);
    }
    return Some([]);
  }

  /** Compares an anchor with the one before it. */
  method CheckSequence(p: Anchor, a: Anchor) returns (ps: seq<Problem>)
    ensures ps == SequenceProblems(p, a)
  {
    ps := [];
    if a.fromId != p.toId + 1 {
      ps := ps + [NotContinuing(a.checkpointId, p.checkpointId)];
    }
    if a.prevRoot != p.merkleRoot {
      ps := ps + [AnchorChainBroken(a.checkpointId, p.checkpointId)];
    }
  }

  /** Checks one anchor, adding its problems to the report, unless it fails on it. */
  method CheckAnchor(sha: Hasher, rows: seq<Row>, anchors: seq<Anchor>, i: nat, rep: Report, ghost all: seq<Problem>)
    returns (ok: bool)
    requires Ascending(rows, RowId()) && i < |anchors|
    requires rep.problems == Cap(all)
    modifies rep`problems, rep`anchoredRows, rep`notes
    ensures ok == !Panics(Committing(sha), rows, anchors[i])
    ensures ok ==> rep.problems == Cap(all + AnchorProblems(Committing(sha), rows, anchors, i))
    ensures ok ==> (rep.anchoredRows == old(rep.anchoredRows) +
                      if anchors[i].format == ANCHOR_FORMAT then |Range(rows, anchors[i].fromId, anchors[i].toId)| else 0)
    ensures ok ==> rep.notes == old(rep.notes) + if i == 0 then Notes(anchors) else []
  {
    hide Cap; hide Range; hide Committing; hide ContentProblems; hide SequenceProblems; hide Crosses;
    CommittedRoot(sha);
    var a := anchors[i];
    if a.format != ANCHOR_FORMAT {
      rep.Problem(UnknownFormat(a.checkpointId), all);
      return true;
    }
    var sequence: seq<Problem> := [];
    if i > 0 {
      sequence := CheckSequence(anchors[i - 1], a);
    } else if a.prevRoot != "" {
      rep.notes := rep.notes + [ContinuesOlder(a.checkpointId, a.fromId)];
    }
    rep.ProblemsAll(sequence, all);
    var found := FindRange(rows, a.fromId, a.toId);
    if found.None? {
      return false;
    }
    rep.anchoredRows := rep.anchoredRows + |found.value|;
    var content := CheckContent(sha, a, found.value);
    if content.None? {
      return false;
    }
    rep.ProblemsAll(content.value, all + sequence);
    assert all + sequence + content.value == all + (sequence + content.value);
    return true;
  }

  lemma CommittedRoot(sha: Hasher)
    ensures Committing(sha).root([]) == RootOf(sha, [])
  {
  }

  method CountUnanchored(rows: seq<Row>, anchors: seq<Anchor>) returns (n: nat)
    ensures n == Unanchored(rows, anchors)
  {
    if |anchors| == 0 {
      return |rows|;
    }
    var first, last := anchors[0].fromId, anchors[|anchors| - 1].toId;
    n := 0;
    for i := 0 to |rows|
      invariant n == Outside(rows[..i], first, last)
    {
      assert rows[..i + 1][..i] == rows[..i];
      if rows[i].id < first || rows[i].id > last {
        n := n + 1;
      }
    }
    assert rows[..|rows|] == rows;
  }

  method CheckAnchors(sha: Hasher, rows: seq<Row>, anchors: seq<Anchor>, rep: Report, ghost chain: seq<Problem>)
    returns (ok: bool)
    requires Ascending(rows, RowId())
    requires rep.problems == Cap(chain) && rep.anchoredRows == 0 && rep.notes == []
    modifies rep`problems, rep`anchoredRows, rep`notes
    ensures ok == !AnyPanics(Committing(sha), rows, anchors)
    ensures ok ==> rep.problems == Cap(chain + ProblemsUpTo(Committing(sha), rows, anchors, |anchors|))
    ensures ok ==> rep.anchoredRows == AnchoredUpTo(rows, anchors, |anchors|) && rep.notes == Notes(anchors)
  {
    hide Committing; hide Cap; hide AnchorProblems; hide Check; hide Range; hide Outside; hide Panics;
    ghost var d := Committing(sha);
    assert chain + ProblemsUpTo(d, rows, anchors, 0) == chain;
    for i := 0 to |anchors|
      invariant forall k :: 0 <= k < i ==> !Panics(d, rows, anchors[k])
      invariant rep.problems == Cap(chain + ProblemsUpTo(d, rows, anchors, i))
      invariant rep.anchoredRows == AnchoredUpTo(rows, anchors, i)
      invariant rep.notes == if i == 0 then [] else Notes(anchors)
    {
      ghost var before := ProblemsUpTo(d, rows, anchors, i);
      ok := CheckAnchor(sha, rows, anchors, i, rep, chain + before);
      if !ok {
        return;
      }
      assert chain + before + AnchorProblems(d, rows, anchors, i) ==
             chain + (before + AnchorProblems(d, rows, anchors, i));
    }
    return true;
  }

  /** Verification fails on one of the anchors. */
  predicate AnyPanics(d: Commitments, rows: seq<Row>, anchors: seq<Anchor>) {
    exists i :: 0 <= i < |anchors| && Panics(d, rows, anchors[i])
  }

  /** Everything verification does once rows and anchors are sorted. */
  method VerifySorted(sha: Hasher, rows: seq<Row>, anchors: seq<Anchor>) returns (rep: Report, ok: bool)
    requires Ascending(rows, RowId())
    ensures fresh(rep) && ok == !AnyPanics(Committing(sha), rows, anchors)
    ensures ok ==> rep.Value() == Examine(Committing(sha), rows, anchors)
  {
    hide Committing; hide ProblemsUpTo; hide Check; hide Range; hide Outside; hide AnyPanics; hide Cap; hide AnchoredUpTo;
    hide Unanchored; hide Notes;
    rep := new Report();
    var c := ChainCheck(Committing(sha).row, rows, "");
    assert [] == Cap([]) by {
      CapOfNothing();
    }
    rep.ProblemsAll(c.problems, []);
    assert [] + c.problems == c.problems;
    ok := CheckAnchors(sha, rows, anchors, rep, c.problems);
    if !ok {
      return;
    }
    rep.rows, rep.checkpoints := |rows|, |anchors|;
    rep.chainedRows, rep.legacyRows, rep.firstBrokenId := c.chained, c.legacy, c.firstBroken;
    rep.unanchoredRows := CountUnanchored(rows, anchors);
    rep.intact := |rep.problems| == 0;
  }

  lemma CapOfNothing()
    ensures Cap([]) == []
  {
  }

  /** Checks a whole ledger against its anchors; neither needs to be in order. The check itself fails exactly
      when one of the anchors makes it fail. */
  method Verify(sha: Hasher, ledger: seq<Row>, files: seq<Anchor>) returns (rep: Report, ok: bool)
    ensures fresh(rep) && ok == !AnyPanics(Committing(sha), ledger, files)
    ensures ok ==> exists rows, anchors ::
              SortedCopy(ledger, RowId(), rows) && SortedCopy(files, ToId(), anchors) &&
              rep.Value() == Examine(Committing(sha), rows, anchors)
  {
    var rows := SortBy(ledger, RowId());
    var anchors := SortBy(files, ToId());
    SortingKeepsPanics(Committing(sha), ledger, files, rows, anchors);
    hide Committing; hide AnyPanics; hide Examine;
    rep, ok := VerifySorted(sha, rows, anchors);
  }

  lemma SortingKeepsPanics(d: Commitments, ledger: seq<Row>, files: seq<Anchor>, rows: seq<Row>, anchors: seq<Anchor>)
    requires multiset(rows) == multiset(ledger) && multiset(anchors) == multiset(files)
    ensures AnyPanics(d, rows, anchors) == AnyPanics(d, ledger, files)
  {
    hide Panics;
    SameElements(rows, ledger);
    SameElements(anchors, files);
    forall a: Anchor
      ensures Panics(d, rows, a) == Panics(d, ledger, a)
    {
      PanicsByElements(d, rows, ledger, a);
    }
    forall i | 0 <= i < |anchors|
      ensures anchors[i] in files
    {
      assert anchors[i] in anchors;
    }
    forall i | 0 <= i < |files|
      ensures files[i] in anchors
    {
      assert files[i] in files;
    }
  }

  lemma SameElements<T>(a: seq<T>, b: seq<T>)
    requires multiset(a) == multiset(b)
    ensures forall x :: x in a <==> x in b
  {
    assert forall x :: x in a <==> x in multiset(a);
    assert forall x :: x in b <==> x in multiset(b);
  }

  lemma PanicsByElements(d: Commitments, a: seq<Row>, b: seq<Row>, x: Anchor)
    requires forall r :: r in a <==> r in b
    ensures Panics(d, a, x) == Panics(d, b, x)
  {
    EmptyRange(a, x.fromId, x.toId);
    EmptyRange(b, x.fromId, x.toId);
    assert Crosses(a, x.fromId, x.toId) <==> exists r :: r in a && x.toId < r.id < x.fromId;
    assert Crosses(b, x.fromId, x.toId) <==> exists r :: r in b && x.toId < r.id < x.fromId;
  }

  lemma {:induction false} EmptyRange(rows: seq<Row>, lo: int, hi: int)
    ensures Range(rows, lo, hi) == [] <==> forall r :: r in rows ==> r.id < lo || hi < r.id
  {
    if rows != [] {
      var n := |rows| - 1;
      EmptyRange(rows[..n], lo, hi);
      assert rows == rows[..n] + [rows[n]];
    }
  }
}
