/** The comparison of two branches' histories (buildDiff in internal/branch/diff.go). */
module Diff {
  import opened Text
  import opened Hashing
  import opened Rows
  import Integrity
  import LedgerRuns
  import Checkpoints

  datatype DiffEntry = DiffEntry(id: int, at: string, actor: string, commandTag: string, identity: string, status: string)

  /** An object changed on both sides, with the ids of the changes. */
  datatype Overlap = Overlap(identity: string, aEntries: seq<int>, bEntries: seq<int>)

  datatype LedgerDiff = LedgerDiff(
    a: string, b: string, commonEntries: nat,
    forkAfterId: int,     // 0: no shared history
    forkAfterAt: string,  // "": no shared history
    aOnly: seq<DiffEntry>, bOnly: seq<DiffEntry>, bothTouched: seq<Overlap>)

  /** time.RFC3339 of a UTC time. */
  function Rfc3339(t: Timestamp): string {
    Year(t.year) + "-" + Padded(t.month, 2) + "-" + Padded(t.day, 2) + "T" +
    Padded(t.hour, 2) + ":" + Padded(t.minute, 2) + ":" + Padded(t.second, 2) + "Z"
  }

  function Entry(r: Row): DiffEntry {
    DiffEntry(r.id, Rfc3339(r.at), r.actor, r.commandTag, r.objectIdentity, r.status)
  }

  function Entries(rows: seq<Row>): (es: seq<DiffEntry>)
    ensures |es| == |rows|
  {
    seq(|rows|, i requires 0 <= i < |rows| => Entry(rows[i]))
  }

  predicate Same(hash: Row -> string, x: Row, y: Row) { x.id == y.id && hash(x) == hash(y) }

  /** The first `n` entries are shared. */
  predicate Shared(hash: Row -> string, a: seq<Row>, b: seq<Row>, n: nat) {
    n <= |a| && n <= |b| && forall i :: 0 <= i < n ==> Same(hash, a[i], b[i])
  }

  /** `n` is where the histories stop being identical. */
  predicate ForkAt(hash: Row -> string, a: seq<Row>, b: seq<Row>, n: nat) {
    Shared(hash, a, b, n) && (n < |a| && n < |b| ==> !Same(hash, a[n], b[n]))
  }

  /** A blocked change did not happen. */
  predicate Touches(r: Row, identity: string) { r.objectIdentity == identity && r.status != "BLOCKED" }

  /** The ids of the changes of one object, in order. */
  function TouchedIds(rows: seq<Row>, identity: string): seq<int> {
    if rows == [] then []
    else
      var n := |rows| - 1;
      TouchedIds(rows[..n], identity) + if Touches(rows[n], identity) then [rows[n].id] else []
  }

  predicate SortedOverlaps(os: seq<Overlap>) {
    forall i, j :: 0 <= i < j < |os| ==> Less(os[i].identity, os[j].identity)
  }

  predicate ChangedOnBoth(a: seq<Row>, b: seq<Row>, identity: string) {
    identity != "" && TouchedIds(a, identity) != [] && TouchedIds(b, identity) != []
  }

  function OverlapOf(a: seq<Row>, b: seq<Row>, identity: string): Overlap {
    Overlap(identity, TouchedIds(a, identity), TouchedIds(b, identity))
  }

  /** The objects changed on both sides, each once, with all the ids, sorted by name. */
  ghost predicate Overlaps(a: seq<Row>, b: seq<Row>, os: seq<Overlap>) {
    SortedOverlaps(os) && (forall o :: o in os <==> ChangedOnBoth(a, b, o.identity) && o == OverlapOf(a, b, o.identity))
  }

  /** What a diff says. */
  ghost predicate Compares(hash: Row -> string, d: LedgerDiff, a: seq<Row>, b: seq<Row>) {
    var n := d.commonEntries;
    ForkAt(hash, a, b, n) &&
    d.forkAfterId == (if n > 0 then a[n - 1].id else 0) &&
    d.forkAfterAt == (if n > 0 then Rfc3339(a[n - 1].at) else "") &&
    d.aOnly == Entries(a[n..]) && d.bOnly == Entries(b[n..]) &&
    Overlaps(a[n..], b[n..], d.bothTouched)
  }

  // ---------------------------------------------------------------- the loops

  ghost predicate Records(m: map<string, seq<int>>, rows: seq<Row>) {
    forall x :: (x in m <==> x != "" && TouchedIds(rows, x) != []) && (x in m ==> m[x] == TouchedIds(rows, x))
  }

  method Touched(rows: seq<Row>) returns (m: map<string, seq<int>>)
    ensures Records(m, rows)
  {
    m := map[];
    for i := 0 to |rows|
      invariant Records(m, rows[..i])
    {
      var r := rows[i];
      assert rows[..i + 1][..i] == rows[..i];
      if r.objectIdentity != "" && r.status != "BLOCKED" {
        m := m[r.objectIdentity := (if r.objectIdentity in m then m[r.objectIdentity] else []) + [r.id]];
      }
    }
    assert rows[..|rows|] == rows;
  }

  lemma EntriesConcat(a: seq<Row>, b: seq<Row>)
    ensures Entries(a + b) == Entries(a) + Entries(b)
    ensures |b| == 1 ==> Entries(b) == [Entry(b[0])]
  {
    hide Entry;
  }

  method CollectEntries(rows: seq<Row>) returns (es: seq<DiffEntry>)
    ensures es == Entries(rows)
  {
    hide Entry;
    es := [];
    for i := 0 to |rows|
      invariant es == Entries(rows[..i])
    {
      assert rows[..i + 1] == rows[..i] + [rows[i]];
      EntriesConcat(rows[..i], [rows[i]]);
      es := es + [Entry(rows[i])];
    }
    assert rows[..|rows|] == rows;
  }

  predicate Distinct(os: seq<Overlap>) {
    forall i, j :: 0 <= i < j < |os| ==> os[i].identity != os[j].identity
  }

  /** sort.Slice by object, for distinct objects. */
  method SortByObject(os: seq<Overlap>) returns (r: seq<Overlap>)
    requires Distinct(os)
    ensures SortedOverlaps(r) && forall o :: o in r <==> o in os
  {
    hide Less;
    r := [];
    for i := 0 to |os|
      invariant SortedOverlaps(r) && forall o :: o in r <==> o in os[..i]
    {
      var o := os[i];
      assert os[..i + 1] == os[..i] + [o];
      assert forall x :: x in r ==> x.identity != o.identity;
      r := Insert(r, o);
    }
    assert os[..|os|] == os;
  }

  method Insert(os: seq<Overlap>, o: Overlap) returns (r: seq<Overlap>)
    requires SortedOverlaps(os) && forall x :: x in os ==> x.identity != o.identity
    ensures SortedOverlaps(r) && forall x :: x in r <==> x in os || x == o
  {
    hide Less;
    var p := |os|;
    while p > 0 && Less(o.identity, os[p - 1].identity)
      invariant 0 <= p <= |os|
      invariant forall i :: p <= i < |os| ==> Less(o.identity, os[i].identity)
    {
      p := p - 1;
    }
    forall i | 0 <= i < p
      ensures Less(os[i].identity, o.identity)
    {
      LessTotal(o.identity, os[p - 1].identity);
      assert os[p - 1] in os;
      if i < p - 1 {
        LessTransitive(os[i].identity, os[p - 1].identity, o.identity);
      }
    }
    r := os[..p] + [o] + os[p..];
    forall x
      ensures x in r <==> x in os || x == o
    {
      assert os == os[..p] + os[p..];
    }
  }

  /** The objects in both maps, in whatever order the map gives them. */
  method CollectOverlaps(ta: map<string, seq<int>>, tb: map<string, seq<int>>) returns (os: seq<Overlap>)
    ensures Distinct(os)
    ensures forall o :: o in os <==> o.identity in ta && o.identity in tb && o == Overlap(o.identity, ta[o.identity], tb[o.identity])
  {
    os := [];
    var left := ta.Keys;
    while left != {}
      invariant left <= ta.Keys && Distinct(os)
      invariant forall o :: o in os <==> o.identity in ta && o.identity !in left && o.identity in tb &&
                                         o == Overlap(o.identity, ta[o.identity], tb[o.identity])
      decreases |left|
    {
      var identity :| identity in left;
      left := left - {identity};
      if identity in tb {
        os := os + [Overlap(identity, ta[identity], tb[identity])];
      }
    }
  }

  method BuildDiff(hash: Row -> string, aName: string, bName: string, a: seq<Row>, b: seq<Row>) returns (d: LedgerDiff)
    ensures d.a == aName && d.b == bName && Compares(hash, d, a, b)
  {
    hide TouchedIds; hide SortedOverlaps; hide Distinct; hide Entry; hide Rfc3339;
    var n := 0;
    while n < |a| && n < |b| && a[n].id == b[n].id && hash(a[n]) == hash(b[n])
      invariant Shared(hash, a, b, n)
    {
      n := n + 1;
    }
    var forkAfterId, forkAfterAt := 0, "";
    if n > 0 {
      forkAfterId, forkAfterAt := a[n - 1].id, Rfc3339(a[n - 1].at);
    }
    var aOnly := CollectEntries(a[n..]);
    var bOnly := CollectEntries(b[n..]);
    var ta := Touched(a[n..]);
    var tb := Touched(b[n..]);
    var os := CollectOverlaps(ta, tb);
    os := SortByObject(os);
    d := LedgerDiff(aName, bName, n, forkAfterId, forkAfterAt, aOnly, bOnly, os);
  }

  // ---------------------------------------------------------------- exactness

  /** The fork is the longest shared beginning. */
  lemma ForkIsLongest(hash: Row -> string, a: seq<Row>, b: seq<Row>, n: nat)
    requires Shared(hash, a, b, n)
    ensures ForkAt(hash, a, b, n) <==> forall m: nat :: Shared(hash, a, b, m) ==> m <= n
  {
    assert forall m: nat :: Shared(hash, a, b, m) && m > n ==> Same(hash, a[n], b[n]);
    if !ForkAt(hash, a, b, n) {
      assert Shared(hash, a, b, n + 1);
    }
  }

  lemma ForkIsUnique(hash: Row -> string, a: seq<Row>, b: seq<Row>, m: nat, n: nat)
    requires ForkAt(hash, a, b, m) && ForkAt(hash, a, b, n)
    ensures m == n
  {
    ForkIsLongest(hash, a, b, m);
    ForkIsLongest(hash, a, b, n);
  }

  /** A sorted list of overlaps is determined by its members. */
  lemma {:induction false} SortedIsUnique(x: seq<Overlap>, y: seq<Overlap>)
    requires SortedOverlaps(x) && SortedOverlaps(y) && forall o :: o in x <==> o in y
    ensures x == y
  {
    SameMembersEmpty(x, y);
    if x != [] {
      SmallestIsFirst(x, y);
      SameTail(x, y);
      SortedIsUnique(x[1..], y[1..]);
      assert x == [x[0]] + x[1..] && y == [y[0]] + y[1..];
    }
  }

  lemma SameMembersEmpty(x: seq<Overlap>, y: seq<Overlap>)
    requires forall o :: o in x <==> o in y
    ensures x == [] <==> y == []
  {
    if x != [] {
      assert x[0] in y;
    }
    if y != [] {
      assert y[0] in x;
    }
  }

  lemma SmallestIsFirst(x: seq<Overlap>, y: seq<Overlap>)
    requires SortedOverlaps(x) && SortedOverlaps(y) && x != [] && y != []
    requires x[0] in y && y[0] in x
    ensures x[0] == y[0]
  {
    hide Less;
    var i :| 0 <= i < |y| && y[i] == x[0];
    var j :| 0 <= j < |x| && x[j] == y[0];
    LessTotal(x[0].identity, y[0].identity);
  }

  lemma SameTail(x: seq<Overlap>, y: seq<Overlap>)
    requires SortedOverlaps(x) && SortedOverlaps(y) && x != [] && y != [] && x[0] == y[0]
    requires forall o :: o in x <==> o in y
    ensures SortedOverlaps(x[1..]) && SortedOverlaps(y[1..])
    ensures forall o :: o in x[1..] <==> o in y[1..]
  {
    hide Less;
    FirstOnlyOnce(x);
    FirstOnlyOnce(y);
    assert forall o :: o in x <==> o == x[0] || o in x[1..];
    assert forall o :: o in y <==> o == y[0] || o in y[1..];
  }

  lemma FirstOnlyOnce(x: seq<Overlap>)
    requires SortedOverlaps(x) && x != []
    ensures x[0] !in x[1..]
  {
    LessTotal(x[0].identity, x[0].identity);
    hide Less;
    assert forall i :: 0 < i < |x| ==> x[i] != x[0];
  }

  /** The comparison has one result, although the objects are collected in map order. */
  lemma DiffIsUnique(hash: Row -> string, d: LedgerDiff, e: LedgerDiff, a: seq<Row>, b: seq<Row>)
    requires Compares(hash, d, a, b) && Compares(hash, e, a, b) && d.a == e.a && d.b == e.b
    ensures d == e
  {
    hide ForkAt; hide SortedOverlaps; hide ChangedOnBoth; hide OverlapOf; hide Rfc3339;
    ForkIsUnique(hash, a, b, d.commonEntries, e.commonEntries);
    SortedIsUnique(d.bothTouched, e.bothTouched);
  }

  /** The shared entries and those of one side make up that side's history. */
  lemma DiffRebuilds(hash: Row -> string, d: LedgerDiff, a: seq<Row>, b: seq<Row>)
    requires Compares(hash, d, a, b)
    ensures Shared(hash, a, b, d.commonEntries)
    ensures Entries(a) == Entries(a[..d.commonEntries]) + d.aOnly
    ensures Entries(b) == Entries(b[..d.commonEntries]) + d.bOnly
  {
    hide Entries; hide Overlaps; hide Rfc3339;
    var n := d.commonEntries;
    EntriesConcat(a[..n], a[n..]);
    EntriesConcat(b[..n], b[n..]);
    assert a[..n] + a[n..] == a && b[..n] + b[n..] == b;
  }

  // ---------------------------------------------------------------- the other way round

  function SwappedOverlap(o: Overlap): Overlap { Overlap(o.identity, o.bEntries, o.aEntries) }

  function SwappedOverlaps(os: seq<Overlap>): (r: seq<Overlap>)
    ensures |r| == |os|
  {
    seq(|os|, i requires 0 <= i < |os| => SwappedOverlap(os[i]))
  }

  function Swapped(d: LedgerDiff): LedgerDiff {
    d.(a := d.b, b := d.a, aOnly := d.bOnly, bOnly := d.aOnly, bothTouched := SwappedOverlaps(d.bothTouched))
  }

  lemma SwappedMembers(os: seq<Overlap>)
    ensures forall o :: o in SwappedOverlaps(os) <==> SwappedOverlap(o) in os
  {
    forall o
      ensures o in SwappedOverlaps(os) <==> SwappedOverlap(o) in os
    {
      if o in SwappedOverlaps(os) {
        var i :| 0 <= i < |os| && SwappedOverlaps(os)[i] == o;
        assert os[i] == SwappedOverlap(o);
      }
      if SwappedOverlap(o) in os {
        var i :| 0 <= i < |os| && os[i] == SwappedOverlap(o);
        assert SwappedOverlaps(os)[i] == o;
      }
    }
  }

  lemma OverlapsSwap(a: seq<Row>, b: seq<Row>, os: seq<Overlap>)
    requires Overlaps(a, b, os)
    ensures Overlaps(b, a, SwappedOverlaps(os))
  {
    hide TouchedIds; hide Less;
    SwappedMembers(os);
  }

  /** Comparing the other way round gives the same result with the sides swapped, except that the time of
      the fork is taken from the other side: the result is the same exactly when the two times read alike. */
  lemma DiffSwaps(hash: Row -> string, d: LedgerDiff, e: LedgerDiff, a: seq<Row>, b: seq<Row>)
    requires Compares(hash, d, a, b) && Compares(hash, e, b, a) && e.a == d.b && e.b == d.a
    ensures e.commonEntries == d.commonEntries && e.(forkAfterAt := d.forkAfterAt) == Swapped(d)
    ensures var n := d.commonEntries;
            e == Swapped(d) <==> (n == 0 || Rfc3339(a[n - 1].at) == Rfc3339(b[n - 1].at))
  {
    hide Overlaps; hide Rfc3339; hide Entries; hide SwappedOverlaps;
    var n := d.commonEntries;
    assert ForkAt(hash, b, a, n);
    ForkIsUnique(hash, b, a, n, e.commonEntries);
    OverlapsSwap(a[n..], b[n..], d.bothTouched);
    OverlapsAreUnique(b[n..], a[n..], e.bothTouched, SwappedOverlaps(d.bothTouched));
    assert n > 0 ==> Same(hash, a[n - 1], b[n - 1]);
  }

  lemma OverlapsAreUnique(a: seq<Row>, b: seq<Row>, x: seq<Overlap>, y: seq<Overlap>)
    requires Overlaps(a, b, x) && Overlaps(a, b, y)
    ensures x == y
  {
    hide SortedOverlaps; hide ChangedOnBoth; hide OverlapOf;
    SortedIsUnique(x, y);
  }

  /** The first three hashed fields, cut off the preimage. */
  lemma PreimageStart(r: Row)
    ensures Preimage(r) == r.prevHash + ['|'] + (FormatInt(r.id) + ['|'] + (FormatAt(r.at) + ['|'] + Join(Fields(r)[3..], '|')))
  {
    var f := Fields(r);
    assert f[1..][1..] == f[2..] && f[2..][1..] == f[3..];
    hide FormatInt; hide FormatAt;
    JoinSplit([f[0]], f[1..], '|');
    JoinSplit([f[1]], f[2..], '|');
    JoinSplit([f[2]], f[3..], '|');
    assert [f[0]] + f[1..] == f && [f[1]] + f[2..] == f[1..] && [f[2]] + f[3..] == f[2..];
  }

  /** The times do read alike when the shared entries' hashes stand for their preimages. */
  lemma SharedTimesReadAlike(sha: Hasher, x: Row, y: Row)
    requires RowHash(sha, x) == RowHash(sha, y) && NoCollisions(sha, {Preimage(x), Preimage(y)})
    requires x.at.Valid() && y.at.Valid() && '|' !in x.prevHash && '|' !in y.prevHash
    ensures Rfc3339(x.at) == Rfc3339(y.at)
  {
    hide FormatInt; hide FormatAt; hide Preimage; hide Join; hide Hex;
    HexInjective(sha(Preimage(x)), sha(Preimage(y)));
    assert Preimage(x) == Preimage(y);
    PreimageStart(x);
    PreimageStart(y);
    var u, v := FormatAt(x.at) + ['|'] + Join(Fields(x)[3..], '|'), FormatAt(y.at) + ['|'] + Join(Fields(y)[3..], '|');
    FirstCut(x.prevHash, FormatInt(x.id) + ['|'] + u, y.prevHash, FormatInt(y.id) + ['|'] + v, '|');
    FormatIntHasNoBar(x.id);
    FormatIntHasNoBar(y.id);
    FirstCut(FormatInt(x.id), u, FormatInt(y.id), v, '|');
    FormatAtHasNoBar(x.at);
    FormatAtHasNoBar(y.at);
    FirstCut(FormatAt(x.at), Join(Fields(x)[3..], '|'), FormatAt(y.at), Join(Fields(y)[3..], '|'), '|');
    FormatAtInjective(x.at, y.at);
    SameToTheSecond(x.at, y.at);
  }

  /** The links of all rows are free of '|' and their times valid, and no two of the texts hashed for them collide. */
  ghost predicate PlainLinks(sha: Hasher, rows: seq<Row>) {
    (forall r :: r in rows ==> r.at.Valid() && '|' !in r.prevHash) && NoCollisions(sha, set r | r in rows :: Preimage(r))
  }

  /** For histories hashed with SHA-256, comparing the other way round just swaps the two sides. */
  lemma DiffOfPlainLinksSwaps(sha: Hasher, d: LedgerDiff, e: LedgerDiff, a: seq<Row>, b: seq<Row>)
    requires PlainLinks(sha, a + b) && e.a == d.b && e.b == d.a
    requires Compares(Integrity.Committing(sha).row, d, a, b) && Compares(Integrity.Committing(sha).row, e, b, a)
    ensures e == Swapped(d)
  {
    var n := d.commonEntries;
    hide Overlaps; hide Entries; hide Swapped; hide Rfc3339; hide RowHash; hide Preimage;
    DiffSwaps(Integrity.Committing(sha).row, d, e, a, b);
    if n > 0 {
      assert Same(Integrity.Committing(sha).row, a[n - 1], b[n - 1]);
      assert a[n - 1] in a + b && b[n - 1] in a + b;
      SharedTimesReadAlike(sha, a[n - 1], b[n - 1]);
    }
  }

  lemma FormatIntHasNoBar(n: int)
    ensures '|' !in FormatInt(n)
  {
    assert DigitValue('|') == 16;
    FormatIntHasNo(n, '|');
  }

  lemma SameToTheSecond(a: Timestamp, b: Timestamp)
    requires a.Truncated() == b.Truncated()
    ensures Rfc3339(a) == Rfc3339(b)
  {
  }

  // ---------------------------------------------------------------- clones

  /** Two histories that continue a common one fork where their continuations do; the inherited part is
      never reported as a difference. */
  lemma ForkOfContinuations(hash: Row -> string, h: seq<Row>, x: seq<Row>, y: seq<Row>, n: nat)
    ensures ForkAt(hash, x, y, n) <==> ForkAt(hash, h + x, h + y, |h| + n)
  {
    var a, b := h + x, h + y;
    if ForkAt(hash, x, y, n) {
      forall i | 0 <= i < |h| + n
        ensures Same(hash, a[i], b[i])
      {
        assert i >= |h| ==> Same(hash, x[i - |h|], y[i - |h|]);
      }
    }
    if ForkAt(hash, a, b, |h| + n) {
      forall i | 0 <= i < n
        ensures Same(hash, x[i], y[i])
      {
        assert Same(hash, a[|h| + i], b[|h| + i]);
      }
    }
  }

  lemma ForkExists(hash: Row -> string, a: seq<Row>, b: seq<Row>) returns (n: nat)
    ensures ForkAt(hash, a, b, n)
  {
    n := 0;
    while n < |a| && n < |b| && Same(hash, a[n], b[n])
      invariant Shared(hash, a, b, n)
    {
      n := n + 1;
    }
  }

  lemma ContinuationsShareHistory(hash: Row -> string, h: seq<Row>, x: seq<Row>, y: seq<Row>, d: LedgerDiff)
    requires Compares(hash, d, h + x, h + y)
    ensures d.commonEntries >= |h|
    ensures d.aOnly == Entries(x[d.commonEntries - |h|..]) && d.bOnly == Entries(y[d.commonEntries - |h|..])
  {
    hide Overlaps; hide Rfc3339;
    var n := ForkExists(hash, x, y);
    ForkOfContinuations(hash, h, x, y, n);
    ForkIsUnique(hash, h + x, h + y, |h| + n, d.commonEntries);
    hide ForkAt;
    assert (h + x)[|h| + n..] == x[n..] && (h + y)[|h| + n..] == y[n..];
  }

  lemma CheckpointKeepsRows(d: Integrity.Commitments, name: string, s: Checkpoints.Ledger, io: Checkpoints.Io)
    ensures Checkpoints.Checkpointed(d, name, s, io).0.rows == s.rows
  {
  }

  lemma {:induction false} RowsOnlyGrow(d: Integrity.Commitments, ws: seq<LedgerRuns.World>, es: seq<LedgerRuns.Event>,
                                        i: nat, j: nat, b: string)
    requires LedgerRuns.Run(d, ws, es) && i <= j < |ws| && b in ws[i]
    ensures b in ws[j] && ws[i][b].rows <= ws[j][b].rows
  {
    if i < j {
      RowsOnlyGrow(d, ws, es, i, j - 1, b);
      var e := es[j - 1];
      assert LedgerRuns.Next(d, ws[j - 1], e, ws[j - 1 + 1]);
      if e.TakeCheckpoint? {
        CheckpointKeepsRows(d, e.branch, ws[j - 1][e.branch], e.io);
      }
    }
  }

  /** Over every run: from the moment a branch is cloned, its comparison with its parent counts at least the
      whole inherited history as shared, whatever either side appends and checkpoints. */
  lemma CloneSharesHistory(d: Integrity.Commitments, ws: seq<LedgerRuns.World>, es: seq<LedgerRuns.Event>,
                           i: nat, j: nat, parent: string, name: string, r: LedgerDiff)
    requires LedgerRuns.Run(d, ws, es) && i < j < |ws| && es[i] == LedgerRuns.Clone(parent, name)
    requires parent in ws[j] && name in ws[j] && Compares(d.row, r, ws[j][parent].rows, ws[j][name].rows)
    ensures parent in ws[i] && r.commonEntries >= |ws[i][parent].rows|
  {
    hide Compares;
    assert LedgerRuns.Next(d, ws[i], es[i], ws[i + 1]);
    var h := ws[i][parent].rows;
    RowsOnlyGrow(d, ws, es, i + 1, j, parent);
    RowsOnlyGrow(d, ws, es, i + 1, j, name);
    var x, y := ws[j][parent].rows[|h|..], ws[j][name].rows[|h|..];
    assert h + x == ws[j][parent].rows && h + y == ws[j][name].rows;
    ContinuationsShareHistory(d.row, h, x, y, r);
  }
}
