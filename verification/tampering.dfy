/** What an intact report proves (internal/ledger/integrity.go). */
module Tampering {
  import opened Text
  import opened Hashing
  import opened Rows
  import opened Chain
  import opened Sorting
  import opened Integrity
  import Merkle

  // ---------------------------------------------------------------- intact means every check passed

  /** Everything verification asks of one anchor. */
  ghost predicate AnchorHolds(d: Commitments, rows: seq<Row>, anchors: seq<Anchor>, i: nat)
    requires AllWellFormed(anchors) && i < |anchors|
  {
    var a := anchors[i];
    var found := Range(rows, a.fromId, a.toId);
    a.format == ANCHOR_FORMAT &&
    (i > 0 ==> a.fromId == anchors[i - 1].toId + 1 && a.prevRoot == anchors[i - 1].merkleRoot) &&
    |found| == a.entryCount && d.root(found) == a.merkleRoot && d.row(found[|found| - 1]) == a.lastRowHash
  }

  lemma NoAnchorProblems(d: Commitments, rows: seq<Row>, anchors: seq<Anchor>, i: nat)
    requires AllWellFormed(anchors) && i < |anchors|
    ensures AnchorProblems(d, rows, anchors, i) == [] <==> AnchorHolds(d, rows, anchors, i)
  {
    hide Range;
  }

  lemma {:induction false} NoProblemsUpTo(d: Commitments, rows: seq<Row>, anchors: seq<Anchor>, n: nat)
    requires AllWellFormed(anchors) && n <= |anchors|
    ensures ProblemsUpTo(d, rows, anchors, n) == [] <==> forall i :: 0 <= i < n ==> AnchorHolds(d, rows, anchors, i)
  {
    hide AnchorHolds; hide AnchorProblems;
    if n > 0 {
      NoProblemsUpTo(d, rows, anchors, n - 1);
      NoAnchorProblems(d, rows, anchors, n - 1);
    }
  }

  /** Although only 25 problems are listed, a report is intact exactly when the chain is unbroken and
      every anchor holds. */
  lemma IntactMeansAllChecksPass(d: Commitments, rows: seq<Row>, anchors: seq<Anchor>)
    requires AllWellFormed(anchors)
    ensures Examine(d, rows, anchors).intact <==>
            Check(d.row, rows, "").problems == [] &&
            forall i :: 0 <= i < |anchors| ==> AnchorHolds(d, rows, anchors, i)
  {
    hide AnchorHolds; hide Check; hide ProblemsUpTo; hide AnchoredUpTo; hide Unanchored;
    NoProblemsUpTo(d, rows, anchors, |anchors|);
  }

  // ---------------------------------------------------------------- accounting

  lemma {:induction false} RangesAdjoin(rows: seq<Row>, a: int, b: int, c: int)
    requires a <= b + 1 && b <= c
    ensures |Range(rows, a, b)| + |Range(rows, b + 1, c)| == |Range(rows, a, c)|
  {
    if rows != [] {
      RangesAdjoin(rows[..|rows| - 1], a, b, c);
    }
  }

  lemma {:induction false} InsideOrOutside(rows: seq<Row>, lo: int, hi: int)
    ensures |Range(rows, lo, hi)| + Outside(rows, lo, hi) == |rows|
  {
    if rows != [] {
      InsideOrOutside(rows[..|rows| - 1], lo, hi);
    }
  }

  lemma {:induction false} AnchoredIsOneRange(d: Commitments, rows: seq<Row>, anchors: seq<Anchor>, n: nat)
    requires AllWellFormed(anchors) && 0 < n <= |anchors|
    requires forall i :: 0 <= i < n ==> AnchorHolds(d, rows, anchors, i)
    ensures anchors[0].fromId <= anchors[n - 1].toId
    ensures AnchoredUpTo(rows, anchors, n) == |Range(rows, anchors[0].fromId, anchors[n - 1].toId)|
  {
    hide Range; hide AnchoredUpTo;
    NextAnchored(d, rows, anchors, n - 1);
    hide AnchorHolds; hide AllWellFormed;
    if n == 1 {
      NoneAnchored(rows, anchors);
    } else {
      AnchoredIsOneRange(d, rows, anchors, n - 1);
      RangesAdjoin(rows, anchors[0].fromId, anchors[n - 2].toId, anchors[n - 1].toId);
    }
  }

  lemma NextAnchored(d: Commitments, rows: seq<Row>, anchors: seq<Anchor>, i: nat)
    requires AllWellFormed(anchors) && i < |anchors| && AnchorHolds(d, rows, anchors, i)
    ensures anchors[i].fromId <= anchors[i].toId && (i > 0 ==> anchors[i].fromId == anchors[i - 1].toId + 1)
    ensures AnchoredUpTo(rows, anchors, i + 1) ==
            AnchoredUpTo(rows, anchors, i) + |Range(rows, anchors[i].fromId, anchors[i].toId)|
  {
    hide Range;
    assert WellFormed(anchors[i]);
  }

  lemma NoneAnchored(rows: seq<Row>, anchors: seq<Anchor>)
    ensures AnchoredUpTo(rows, anchors, 0) == 0
  {
  }

  lemma FirstToLast(rows: seq<Row>, anchors: seq<Anchor>)
    requires anchors != [] && anchors[0].fromId <= anchors[|anchors| - 1].toId
    ensures |Range(rows, anchors[0].fromId, anchors[|anchors| - 1].toId)| + Unanchored(rows, anchors) == |rows|
  {
    hide Range; hide Outside;
    InsideOrOutside(rows, anchors[0].fromId, anchors[|anchors| - 1].toId);
  }

  lemma AnchoredOrNot(d: Commitments, rows: seq<Row>, anchors: seq<Anchor>)
    requires AllWellFormed(anchors)
    requires forall i :: 0 <= i < |anchors| ==> AnchorHolds(d, rows, anchors, i)
    ensures AnchoredUpTo(rows, anchors, |anchors|) + Unanchored(rows, anchors) == |rows|
  {
    hide AnchorHolds; hide Range; hide AllWellFormed;
    if anchors != [] {
      hide AnchoredUpTo; hide Unanchored;
      AnchoredIsOneRange(d, rows, anchors, |anchors|);
      FirstToLast(rows, anchors);
    }
  }

  /** Every row of an intact ledger is counted once, as anchored or as not anchored. */
  lemma IntactAccountsForEveryRow(d: Commitments, rows: seq<Row>, anchors: seq<Anchor>)
    requires AllWellFormed(anchors)
    ensures var f := Examine(d, rows, anchors);
            f.intact ==> f.anchoredRows + f.unanchoredRows == f.rows && f.chainedRows + f.legacyRows == f.rows
  {
    hide AnchorHolds; hide Check; hide AllProblems; hide AnchoredUpTo; hide Unanchored; hide Cap; hide Notes;
    RowCounts(d.row, rows, "");
    IntactMeansAllChecksPass(d, rows, anchors);
    if Examine(d, rows, anchors).intact {
      AnchoredOrNot(d, rows, anchors);
    }
  }

  // ---------------------------------------------------------------- order of the input

  /** The findings `Verify` may report: those over some sorting of its inputs. */
  ghost predicate Reports(sha: Hasher, ledger: seq<Row>, files: seq<Anchor>, f: Findings) {
    exists rows, anchors ::
      SortedCopy(ledger, RowId(), rows) && SortedCopy(files, ToId(), anchors) &&
      f == Examine(Committing(sha), rows, anchors)
  }

  /** Findings depend on which rows and anchors there are, not on the order they were read in. */
  lemma OrderDoesNotMatter(sha: Hasher, ledger: seq<Row>, ledger': seq<Row>, files: seq<Anchor>, files': seq<Anchor>,
                           f: Findings, f': Findings)
    requires multiset(ledger) == multiset(ledger') && multiset(files) == multiset(files')
    requires DistinctKeys(multiset(ledger), RowId()) && DistinctKeys(multiset(files), ToId())
    requires Reports(sha, ledger, files, f) && Reports(sha, ledger', files', f')
    ensures f == f'
  {
    hide Examine; hide Committing; hide SortedCopy; hide DistinctKeys; hide AllWellFormed;
    var rows, anchors :| SortedCopy(ledger, RowId(), rows) && SortedCopy(files, ToId(), anchors) &&
                         f == Examine(Committing(sha), rows, anchors);
    var rows', anchors' :| SortedCopy(ledger', RowId(), rows') && SortedCopy(files', ToId(), anchors') &&
                           f' == Examine(Committing(sha), rows', anchors');
    SortedCopyUnique(ledger, ledger', RowId(), rows, rows');
    SortedCopyUnique(files, files', ToId(), anchors, anchors');
  }

  // ---------------------------------------------------------------- tamper evidence

  /** Row for row the same hashed text and the same capture hash. */
  ghost predicate SameRecords(a: seq<Row>, b: seq<Row>) {
    |a| == |b| &&
    forall k :: 0 <= k < |a| ==> Preimage(a[k]) == Preimage(b[k]) && a[k].extHash == b[k].extHash
  }

  /** The finitely many strings hashed to compute the root over `rows`. */
  ghost function HashedStrings(sha: Hasher, rows: seq<Row>): set<string> {
    (set r | r in rows :: Preimage(r)) +
    (set r | r in rows :: Merkle.LeafInput(RowHash(sha, r), r.extHash)) +
    if rows == [] then {} else Merkle.NodeInputs(sha, Merkle.TreeOf(RowLeaves(sha, rows)))
  }

  lemma LeafInputInjective(h: string, x: string, h': string, x': string)
    requires |h| == |h'| && Merkle.LeafInput(h, x) == Merkle.LeafInput(h', x')
    ensures h == h' && x == x'
  {
    var s, s' := Merkle.LeafInput(h, x), Merkle.LeafInput(h', x');
    assert s[1..1 + |h|] == h && s'[1..1 + |h|] == h';
    assert s[2 + |h|..] == x && s'[2 + |h|..] == x';
  }

  lemma LeafBindsRecord(sha: Hasher, inputs: set<string>, r: Row, s: Row)
    requires NoCollisions(sha, inputs)
    requires Preimage(r) in inputs && Preimage(s) in inputs
    requires Merkle.LeafInput(RowHash(sha, r), r.extHash) in inputs
    requires Merkle.LeafInput(RowHash(sha, s), s.extHash) in inputs
    requires RowLeaf(sha, r) == RowLeaf(sha, s)
    ensures Preimage(r) == Preimage(s) && r.extHash == s.extHash
  {
    hide Preimage; hide Hex;
    LeafInputInjective(RowHash(sha, r), r.extHash, RowHash(sha, s), s.extHash);
    HexInjective(sha(Preimage(r)), sha(Preimage(s)));
  }

  lemma SameRecordsSameRoot(sha: Hasher, a: seq<Row>, b: seq<Row>)
    requires SameRecords(a, b)
    ensures RootOf(sha, a) == RootOf(sha, b)
    ensures a != [] ==> RowHash(sha, a[|a| - 1]) == RowHash(sha, b[|b| - 1])
  {
    hide Preimage; hide Hex; hide Merkle.LeafInput; hide Merkle.Root;
    assert RowLeaves(sha, a) == RowLeaves(sha, b);
  }

  /** The Merkle root over rows of a known number commits to every one of them. */
  lemma RootBindsRows(sha: Hasher, inputs: set<string>, a: seq<Row>, b: seq<Row>)
    requires |a| == |b| > 0
    requires NoCollisions(sha, inputs) && HashedStrings(sha, a) <= inputs && HashedStrings(sha, b) <= inputs
    ensures RootOf(sha, a) == RootOf(sha, b) <==> SameRecords(a, b)
  {
    hide Preimage; hide Merkle.LeafInput; hide Hex; hide Merkle.Root; hide Merkle.TreeOf; hide Merkle.NodeInputs;
    if RootOf(sha, a) == RootOf(sha, b) {
      var x, y := RowLeaves(sha, a), RowLeaves(sha, b);
      Merkle.RootBindsEqualLengths(sha, x, y);
      forall k | 0 <= k < |a|
        ensures Preimage(a[k]) == Preimage(b[k]) && a[k].extHash == b[k].extHash
      {
        assert x[k] == y[k];
        assert a[k] in a && b[k] in b;
        LeafBindsRecord(sha, inputs, a[k], b[k]);
      }
    } else if SameRecords(a, b) {
      SameRecordsSameRoot(sha, a, b);
      assert false;
    }
  }

  /** `a` is what BuildAnchor makes of the honest rows in its range (its database id aside). */
  ghost predicate BuiltOver(d: Commitments, honest: seq<Row>, a: Anchor) {
    BuildAnchor(d, a.branch, a.fromId, a.prevRoot, Range(honest, a.fromId, a.toId)) == Built(a.(checkpointId := 0))
  }

  predicate Follows(p: Anchor, a: Anchor) {
    a.fromId == p.toId + 1 && a.prevRoot == p.merkleRoot
  }

  predicate FollowsAt(anchors: seq<Anchor>, i: nat)
    requires i < |anchors|
  {
    i > 0 ==> Follows(anchors[i - 1], anchors[i])
  }

  predicate Linked(anchors: seq<Anchor>) {
    forall i :: 0 <= i < |anchors| ==> FollowsAt(anchors, i)
  }

  /** `anchors` is what checkpointing `honest` one stretch after the other produced, from some earlier
      checkpoint on. */
  ghost predicate Successive(d: Commitments, honest: seq<Row>, anchors: seq<Anchor>) {
    (forall i :: 0 <= i < |anchors| ==> BuiltOver(d, honest, anchors[i])) &&
    Linked(anchors)
  }

  /** The anchor commits to these rows. */
  ghost predicate CommitsTo(d: Commitments, a: Anchor, rows: seq<Row>) {
    a.format == ANCHOR_FORMAT && |rows| == a.entryCount > 0 &&
    a.merkleRoot == d.root(rows) && a.lastRowHash == d.row(rows[|rows| - 1])
  }

  lemma BuiltCommits(d: Commitments, honest: seq<Row>, a: Anchor)
    requires BuiltOver(d, honest, a)
    ensures WellFormed(a) && CommitsTo(d, a, Range(honest, a.fromId, a.toId))
  {
    hide Range;
    var r := BuildAnchor(d, a.branch, a.fromId, a.prevRoot, Range(honest, a.fromId, a.toId));
    assert r.anchor == a.(checkpointId := 0);
  }

  lemma SuccessiveWellFormed(d: Commitments, honest: seq<Row>, anchors: seq<Anchor>)
    requires Successive(d, honest, anchors)
    ensures AllWellFormed(anchors)
  {
    hide BuiltOver;
    forall i | 0 <= i < |anchors|
      ensures WellFormed(anchors[i])
    {
      BuiltCommits(d, honest, anchors[i]);
    }
  }

  /** All strings hashed when the ranges of `anchors` were anchored or verified. */
  ghost predicate Covers(sha: Hasher, inputs: set<string>, rows: seq<Row>, anchors: seq<Anchor>) {
    forall i :: 0 <= i < |anchors| ==>
      HashedStrings(sha, Range(rows, anchors[i].fromId, anchors[i].toId)) <= inputs
  }

  lemma AnchorHoldsIffSameRecords(sha: Hasher, inputs: set<string>, honest: seq<Row>,
                                  anchors: seq<Anchor>, other: seq<Row>, i: nat)
    requires NoCollisions(sha, inputs) && i < |anchors|
    requires Successive(Committing(sha), honest, anchors)
    requires Covers(sha, inputs, honest, anchors) && Covers(sha, inputs, other, anchors)
    ensures AllWellFormed(anchors)
    ensures AnchorHolds(Committing(sha), other, anchors, i) <==>
            SameRecords(Range(honest, anchors[i].fromId, anchors[i].toId),
                        Range(other, anchors[i].fromId, anchors[i].toId))
  {
    hide Range; hide RootOf; hide RowHash; hide HashedStrings; hide BuildAnchor; hide SameRecords; hide NoCollisions;
    SuccessiveWellFormed(Committing(sha), honest, anchors);
    var a := anchors[i];
    assert FollowsAt(anchors, i);
    BuiltCommits(Committing(sha), honest, a);
    var mine, theirs := Range(honest, a.fromId, a.toId), Range(other, a.fromId, a.toId);
    if |theirs| == |mine| {
      RootBindsRows(sha, inputs, mine, theirs);
      if SameRecords(mine, theirs) {
        SameRecordsSameRoot(sha, mine, theirs);
      }
    } else {
      DifferentLengths(mine, theirs);
    }
  }

  lemma DifferentLengths(a: seq<Row>, b: seq<Row>)
    requires |a| != |b|
    ensures !SameRecords(a, b)
  {
  }

  /** Tamper evidence. Whatever rows are presented, and however their hash chain was recomputed, they are
      reported intact exactly when their chain is consistent and every anchored range of ids holds, row
      for row, the hashed text and capture hash that was anchored. */
  lemma IntactIffHistoryIsTheAnchoredHistory(sha: Hasher, inputs: set<string>, honest: seq<Row>,
                                             anchors: seq<Anchor>, other: seq<Row>)
    requires NoCollisions(sha, inputs)
    requires Successive(Committing(sha), honest, anchors)
    requires Covers(sha, inputs, honest, anchors) && Covers(sha, inputs, other, anchors)
    ensures AllWellFormed(anchors)
    ensures Examine(Committing(sha), other, anchors).intact <==>
            Check(Committing(sha).row, other, "").problems == [] &&
            forall i :: 0 <= i < |anchors| ==>
              SameRecords(Range(honest, anchors[i].fromId, anchors[i].toId),
                          Range(other, anchors[i].fromId, anchors[i].toId))
  {
    hide Range; hide Covers; hide SameRecords; hide NoCollisions; hide AnchorHolds; hide Check; hide Committing; hide Examine;
    SuccessiveWellFormed(Committing(sha), honest, anchors);
    IntactMeansAllChecksPass(Committing(sha), other, anchors);
    hide Successive;
    forall i | 0 <= i < |anchors|
      ensures AnchorHolds(Committing(sha), other, anchors, i) <==>
              SameRecords(Range(honest, anchors[i].fromId, anchors[i].toId),
                          Range(other, anchors[i].fromId, anchors[i].toId))
    {
      AnchorHoldsIffSameRecords(sha, inputs, honest, anchors, other, i);
    }
  }

  lemma SuccessiveIsSorted(d: Commitments, honest: seq<Row>, anchors: seq<Anchor>)
    requires Successive(d, honest, anchors)
    ensures StrictlyAscending(anchors, ToId())
  {
    SuccessiveWellFormed(d, honest, anchors);
    hide BuiltOver;
    assert forall i :: 0 <= i < |anchors| ==> WellFormed(anchors[i]);
    AscendsStepByStep(anchors, |anchors|);
  }

  lemma {:induction false} AscendsStepByStep(anchors: seq<Anchor>, n: nat)
    requires n <= |anchors| && forall i :: 0 <= i < |anchors| ==> WellFormed(anchors[i])
    requires Linked(anchors)
    ensures forall i, j :: 0 <= i < j < n ==> anchors[i].toId < anchors[j].toId
  {
    if n > 1 {
      AscendsStepByStep(anchors, n - 1);
      assert FollowsAt(anchors, n - 1) && WellFormed(anchors[n - 1]);
    }
  }

  /** The same for `Verify` itself, whatever order rows and anchor files are read in: a ledger it accepts
      holds the anchored history. */
  lemma AcceptedLedgerHoldsAnchoredHistory(sha: Hasher, inputs: set<string>, honest: seq<Row>,
                                           anchors: seq<Anchor>, ledger: seq<Row>, files: seq<Anchor>, f: Findings)
    requires NoCollisions(sha, inputs)
    requires Successive(Committing(sha), honest, anchors) && multiset(files) == multiset(anchors)
    requires Covers(sha, inputs, honest, anchors)
    requires forall rows :: SortedCopy(ledger, RowId(), rows) ==> Covers(sha, inputs, rows, anchors)
    requires Reports(sha, ledger, files, f) && f.intact
    ensures exists rows :: SortedCopy(ledger, RowId(), rows) &&
              forall i :: 0 <= i < |anchors| ==>
                SameRecords(Range(honest, anchors[i].fromId, anchors[i].toId),
                            Range(rows, anchors[i].fromId, anchors[i].toId))
  {
    hide Range; hide Covers; hide SameRecords; hide NoCollisions; hide Check; hide Committing; hide Examine;
    var rows, sorted :| SortedCopy(ledger, RowId(), rows) && SortedCopy(files, ToId(), sorted) &&
                        f == Examine(Committing(sha), rows, sorted);
    SuccessiveIsSorted(Committing(sha), honest, anchors);
    assert SortedCopy(anchors, ToId(), sorted) && SortedCopy(anchors, ToId(), anchors);
    StrictOrderUnique(anchors, sorted, ToId());
    IntactIffHistoryIsTheAnchoredHistory(sha, inputs, honest, anchors, rows);
  }

  /** The same records mean the same contents when '|' occurs in statements only. */
  lemma SameRecordsSameContents(a: seq<Row>, b: seq<Row>, k: nat)
    requires SameRecords(a, b) && k < |a|
    requires a[k].at.Valid() && b[k].at.Valid() && BarOnlyInStatement(a[k]) && BarOnlyInStatement(b[k])
    ensures SameHashedFields(a[k], b[k]) && a[k].extHash == b[k].extHash
  {
    hide Preimage; hide SameHashedFields;
    PreimageInjective(a[k], b[k]);
  }
}
