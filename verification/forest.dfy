/** Branches as ZFS clones (zfsStorage in internal/branch/storage.go; Create, Delete and Reset in
    internal/branch/branch.go): datasets, the snapshots they were cloned from, and commands that may fail. */
module Forest {
  import opened Text

  const DATASET_BASE := "oxyndb/branches"

  function DatasetName(branch: string): string { DATASET_BASE + "/" + branch }

  /** A snapshot of a branch's dataset. */
  datatype Snapshot = Snapshot(parent: string, tag: string)

  function Printed(s: Snapshot): string { DatasetName(s.parent) + "@" + s.tag }

  /** The snapshot made to clone `name` from `parent`. */
  function SnapFor(parent: string, name: string): Snapshot { Snapshot(parent, "for-" + name) }

  // ---------------------------------------------------------------- snapshot names

  predicate HasPrefix(s: string, prefix: string) { prefix <= s }

  predicate HasSuffix(s: string, suffix: string) { |suffix| <= |s| && s[|s| - |suffix|..] == suffix }

  function TrimSuffix(s: string, suffix: string): string {
    if HasSuffix(s, suffix) then s[..|s| - |suffix|] else s
  }

  /** The only snapshots destroying a branch may remove. */
  predicate IsOriginSnapshotFor(snapshot: string, branch: string) {
    HasPrefix(snapshot, DATASET_BASE + "/") && HasSuffix(snapshot, "@for-" + branch) &&
    '@' !in TrimSuffix(snapshot, "@for-" + branch)
  }

  /** `snapshot` was made to clone `branch` from `parent`. */
  predicate IsForClone(snapshot: string, parent: string, branch: string) {
    '@' !in parent && snapshot == DatasetName(parent) + "@for-" + branch
  }

  lemma BetweenAffixes(s: string, prefix: string, suffix: string)
    requires '@' !in prefix && suffix != "" && suffix[0] == '@'
    requires HasPrefix(s, prefix) && HasSuffix(s, suffix) && '@' !in TrimSuffix(s, suffix)
    ensures |prefix| + |suffix| <= |s| && s == prefix + s[|prefix|..|s| - |suffix|] + suffix
    ensures '@' !in s[|prefix|..|s| - |suffix|]
  {
    var n := |s| - |suffix|;
    assert s[n] == s[n..][0] == '@';
    assert forall i :: 0 <= i < |prefix| ==> s[i] == prefix[i] && prefix[i] != '@';
    assert forall c :: c in s[|prefix|..n] ==> c in s[..n];
  }

  lemma AffixesAround(prefix: string, middle: string, suffix: string)
    requires '@' !in prefix && '@' !in middle
    ensures var s := prefix + middle + suffix;
            HasPrefix(s, prefix) && HasSuffix(s, suffix) && '@' !in TrimSuffix(s, suffix)
  {
    assert TrimSuffix(prefix + middle + suffix, suffix) == prefix + middle;
  }

  /** The check accepts exactly the snapshots made of some branch to clone this one. */
  lemma OriginSnapshotIff(snapshot: string, branch: string)
    ensures IsOriginSnapshotFor(snapshot, branch) <==> exists parent :: IsForClone(snapshot, parent, branch)
  {
    hide HasPrefix; hide HasSuffix; hide TrimSuffix;
    var prefix, suffix := DATASET_BASE + "/", "@for-" + branch;
    assert '@' !in prefix;
    if IsOriginSnapshotFor(snapshot, branch) {
      BetweenAffixes(snapshot, prefix, suffix);
      var parent := snapshot[|prefix|..|snapshot| - |suffix|];
      assert prefix + parent + suffix == DatasetName(parent) + "@for-" + branch;
      assert IsForClone(snapshot, parent, branch);
    }
    if parent :| IsForClone(snapshot, parent, branch) {
      AffixesAround(prefix, parent, suffix);
      assert prefix + parent + suffix == DatasetName(parent) + "@for-" + branch;
    }
  }

  /** A snapshot of a branch passes the check of the branch it was made for, and of no other. */
  lemma PrintedOrigin(s: Snapshot, branch: string)
    requires '@' !in s.parent && '@' !in s.tag
    ensures IsOriginSnapshotFor(Printed(s), branch) <==> s.tag == "for-" + branch
  {
    hide IsOriginSnapshotFor;
    OriginSnapshotIff(Printed(s), branch);
    if s.tag == "for-" + branch {
      PrintedIsForClone(s, branch);
    }
    if parent :| IsForClone(Printed(s), parent, branch) {
      CutAtSign(s, parent, branch);
    }
  }

  lemma PrintedIsForClone(s: Snapshot, branch: string)
    requires '@' !in s.parent && s.tag == "for-" + branch
    ensures IsForClone(Printed(s), s.parent, branch)
  {
    assert DatasetName(s.parent) + "@" + ("for-" + branch) == DatasetName(s.parent) + "@for-" + branch;
  }

  lemma CutAtSign(s: Snapshot, parent: string, branch: string)
    requires '@' !in s.parent && IsForClone(Printed(s), parent, branch)
    ensures s.tag == "for-" + branch
  {
    assert '@' !in DATASET_BASE + "/";
    var x, y := DatasetName(s.parent), DatasetName(parent);
    assert y + "@for-" + branch == y + ['@'] + ("for-" + branch);
    FirstCut(x, s.tag, y, "for-" + branch, '@');
  }

  // ---------------------------------------------------------------- the pool

  /** What a dataset holds, when it was made, and the snapshot it is a clone of. */
  datatype Dataset = Dataset(content: string, born: nat, origin: Option<Snapshot>)

  datatype Pool = Pool(datasets: map<string, Dataset>, snapshots: map<Snapshot, string>, clock: nat)

  /** Names ZFS takes for a dataset directly under the base. */
  predicate ValidName(name: string) { name != "" && '@' !in name && '/' !in name }

  predicate HasDependents(p: Pool, s: Snapshot) {
    exists x :: x in p.datasets && p.datasets[x].origin == Some(s)
  }

  /** zfs snapshot, zfs destroy (of a snapshot), zfs clone, zfs create -p: None where ZFS refuses. */
  function Snapshotted(p: Pool, s: Snapshot): Option<Pool> {
    if s.parent !in p.datasets || s in p.snapshots || '@' in s.tag then None
    else Some(p.(snapshots := p.snapshots[s := p.datasets[s.parent].content]))
  }

  function Unsnapshotted(p: Pool, s: Snapshot): Option<Pool> {
    if s !in p.snapshots || HasDependents(p, s) then None
    else Some(p.(snapshots := p.snapshots - {s}))
  }

  function Cloned(p: Pool, s: Snapshot, name: string): Option<Pool> {
    if s !in p.snapshots || name in p.datasets || !ValidName(name) then None
    else Some(p.(datasets := p.datasets[name := Dataset(p.snapshots[s], p.clock, Some(s))], clock := p.clock + 1))
  }

  function Created(p: Pool, name: string): Option<Pool> {
    if !ValidName(name) then None
    else if name in p.datasets then Some(p)
    else Some(p.(datasets := p.datasets[name := Dataset("", p.clock, None)], clock := p.clock + 1))
  }

  /** `x` is `b`, or a clone of a snapshot of something that depends on `b`. */
  predicate DependsOn(p: Pool, x: string, b: string)
    decreases if x in p.datasets then p.datasets[x].born else 0
  {
    x == b ||
    (x in p.datasets && p.datasets[x].origin.Some? &&
     var parent := p.datasets[x].origin.value.parent;
     parent in p.datasets && p.datasets[parent].born < p.datasets[x].born && DependsOn(p, parent, b))
  }

  /** Everything that depends on one of `roots`. */
  function Dependents(p: Pool, roots: set<string>): set<string> {
    set x | x in p.datasets && exists r :: r in roots && DependsOn(p, x, r)
  }

  /** zfs destroy -R: the datasets go with their snapshots. */
  function Without(p: Pool, gone: set<string>): Pool {
    p.(datasets := p.datasets - gone, snapshots := map s | s in p.snapshots && s.parent !in gone :: p.snapshots[s])
  }

  /** How a command turns out. `removed` are clones a failed destruction got rid of before it failed. */
  datatype Fate = Fate(fails: bool, removed: set<string>)

  // ---------------------------------------------------------------- the invariant

  /** The origin of `x` is a snapshot made for it of an older branch, and it exists. */
  predicate GoodOrigin(p: Pool, x: string)
    requires x in p.datasets
  {
    p.datasets[x].origin.Some? ==>
      var s := p.datasets[x].origin.value;
      s in p.snapshots && s == SnapFor(s.parent, x) && s.parent in p.datasets &&
      p.datasets[s.parent].born < p.datasets[x].born && x != "main"
  }

  /** main comes first and stays. */
  predicate HasMain(p: Pool) { p.datasets != map[] ==> "main" in p.datasets }

  ghost predicate Sound(p: Pool) {
    HasMain(p) && (forall x :: x in p.datasets ==> ValidName(x) && p.datasets[x].born < p.clock && GoodOrigin(p, x)) &&
    (forall s :: s in p.snapshots ==> s.parent in p.datasets && '@' !in s.tag)
  }

  /** No snapshot has a dependent other than the branch it was made for. */
  lemma OnlyOneDependent(p: Pool, s: Snapshot, x: string, y: string)
    requires Sound(p) && x in p.datasets && y in p.datasets
    requires p.datasets[x].origin == Some(s) && p.datasets[y].origin == Some(s)
    ensures x == y && s == SnapFor(s.parent, x) && s in p.snapshots
  {
    assert ("for-" + x)[4..] == x && ("for-" + y)[4..] == y;
  }

  /** A leftover snapshot for a branch that does not exist has no dependents. */
  lemma LeftoverIsFree(p: Pool, parent: string, name: string)
    requires Sound(p) && name !in p.datasets
    ensures !HasDependents(p, SnapFor(parent, name))
  {
    var s := SnapFor(parent, name);
    assert ("for-" + name)[4..] == name;
    forall x | x in p.datasets
      ensures p.datasets[x].origin != Some(s)
    {
      assert GoodOrigin(p, x) && ("for-" + x)[4..] == x;
    }
  }

  lemma SnapshottedKeepsSound(p: Pool, s: Snapshot)
    requires Sound(p) && Snapshotted(p, s).Some?
    ensures Sound(Snapshotted(p, s).value)
  {
  }

  lemma UnsnapshottedKeepsSound(p: Pool, s: Snapshot)
    requires Sound(p) && Unsnapshotted(p, s).Some?
    ensures Sound(Unsnapshotted(p, s).value)
  {
    var q := Unsnapshotted(p, s).value;
    forall x | x in q.datasets
      ensures GoodOrigin(q, x)
    {
      assert GoodOrigin(p, x);
    }
  }

  lemma ClonedKeepsSound(p: Pool, parent: string, name: string)
    requires Sound(p) && Cloned(p, SnapFor(parent, name), name).Some?
    ensures Sound(Cloned(p, SnapFor(parent, name), name).value)
  {
    var q := Cloned(p, SnapFor(parent, name), name).value;
    forall x | x in q.datasets
      ensures GoodOrigin(q, x)
    {
      assert x != name ==> GoodOrigin(p, x);
    }
  }

  lemma CreatedKeepsSound(p: Pool, name: string)
    requires Sound(p) && Created(p, name).Some? && (name == "main" || "main" in p.datasets)
    ensures Sound(Created(p, name).value)
  {
    var q := Created(p, name).value;
    forall x | x in q.datasets
      ensures GoodOrigin(q, x)
    {
      assert x != name ==> GoodOrigin(p, x);
    }
  }

  /** A clone of something that goes, goes. */
  lemma ChildrenDepend(p: Pool, roots: set<string>, x: string)
    requires Sound(p) && x in p.datasets && p.datasets[x].origin.Some?
    requires p.datasets[x].origin.value.parent in Dependents(p, roots)
    ensures x in Dependents(p, roots)
  {
    var parent := p.datasets[x].origin.value.parent;
    var r :| r in roots && DependsOn(p, parent, r);
    assert GoodOrigin(p, x);
    assert DependsOn(p, x, r);
  }

  lemma WithoutKeepsSound(p: Pool, roots: set<string>)
    requires Sound(p) && "main" !in roots
    ensures Sound(Without(p, Dependents(p, roots)))
  {
    var q := Without(p, Dependents(p, roots));
    MainStays(p, roots);
    forall x | x in q.datasets
      ensures GoodOrigin(q, x)
    {
      assert GoodOrigin(p, x);
      if p.datasets[x].origin.Some? && p.datasets[x].origin.value.parent in Dependents(p, roots) {
        ChildrenDepend(p, roots, x);
      }
    }
  }

  /** main depends on nothing else. */
  lemma MainStays(p: Pool, roots: set<string>)
    requires Sound(p) && "main" !in roots
    ensures "main" !in Dependents(p, roots)
  {
    assert "main" in p.datasets ==> GoodOrigin(p, "main");
  }

  // ---------------------------------------------------------------- the driver

  predicate NoneFails(fates: seq<Fate>) { forall f :: f in fates ==> !f.fails }

  class Storage {
    var pool: Pool
    var fates: seq<Fate>

    ghost predicate Valid()
      reads this
    {
      Sound(pool)
    }

    constructor (fates: seq<Fate>)
      ensures Valid() && pool == Pool(map[], map[], 0) && this.fates == fates
    {
      pool, this.fates := Pool(map[], map[], 0), fates;
    }

    /** How the next command turns out. */
    method NextFate() returns (f: Fate)
      modifies this`fates
      ensures NoneFails(old(fates)) ==> !f.fails && NoneFails(fates)
    {
      f := Fate(false, {});
      if fates != [] {
        f := fates[0];
        fates := fates[1..];
      }
    }

    /** zfs list; a failing command looks like a missing branch. */
    method Exists(name: string) returns (r: bool)
      modifies this`fates
      ensures r ==> name in pool.datasets
      ensures NoneFails(old(fates)) ==> NoneFails(fates) && r == (name in pool.datasets)
    {
      var f := NextFate();
      r := name in pool.datasets && !f.fails;
    }

    method TakeSnapshot(s: Snapshot) returns (ok: bool)
      requires Valid()
      modifies this
      ensures Valid() && (NoneFails(old(fates)) ==> NoneFails(fates) && ok == Snapshotted(old(pool), s).Some?)
      ensures if ok then Snapshotted(old(pool), s) == Some(pool) else pool == old(pool)
    {
      var f := NextFate();
      var r := Snapshotted(pool, s);
      ok := r.Some? && !f.fails;
      if ok {
        SnapshottedKeepsSound(pool, s);
        pool := r.value;
      }
    }

    method DestroySnapshot(s: Snapshot) returns (ok: bool)
      requires Valid()
      modifies this
      ensures Valid() && (NoneFails(old(fates)) ==> NoneFails(fates) && ok == Unsnapshotted(old(pool), s).Some?)
      ensures if ok then Unsnapshotted(old(pool), s) == Some(pool) else pool == old(pool)
    {
      var f := NextFate();
      var r := Unsnapshotted(pool, s);
      ok := r.Some? && !f.fails;
      if ok {
        UnsnapshottedKeepsSound(pool, s);
        pool := r.value;
      }
    }

    method CloneSnapshot(parent: string, name: string) returns (ok: bool)
      requires Valid()
      modifies this
      ensures Valid()
      ensures NoneFails(old(fates)) ==> NoneFails(fates) && ok == Cloned(old(pool), SnapFor(parent, name), name).Some?
      ensures if ok then Cloned(old(pool), SnapFor(parent, name), name) == Some(pool) else pool == old(pool)
    {
      var f := NextFate();
      var r := Cloned(pool, SnapFor(parent, name), name);
      ok := r.Some? && !f.fails;
      if ok {
        ClonedKeepsSound(pool, parent, name);
        pool := r.value;
      }
    }

    /** zfs create -p. */
    method CreateEmpty(name: string) returns (ok: bool)
      requires Valid() && (name == "main" || "main" in pool.datasets)
      modifies this
      ensures Valid()
      ensures if ok then Created(old(pool), name) == Some(pool) else pool == old(pool)
    {
      var f := NextFate();
      var r := Created(pool, name);
      ok := r.Some? && !f.fails;
      if ok {
        CreatedKeepsSound(pool, name);
        pool := r.value;
      }
    }

    /** zfs destroy -R; where it fails, some of the clones may be gone already. */
    method DestroyRecursively(branch: string) returns (ok: bool)
      requires Valid() && branch != "main"
      modifies this
      ensures Valid() && (NoneFails(old(fates)) ==> NoneFails(fates) && ok == (branch in old(pool).datasets))
      ensures ok ==> branch in old(pool).datasets && pool == Without(old(pool), Dependents(old(pool), {branch}))
      ensures !ok ==> exists roots :: roots <= Dependents(old(pool), {branch}) - {branch} &&
                                      pool == Without(old(pool), Dependents(old(pool), roots))
    {
      var f := NextFate();
      ok := branch in pool.datasets && !f.fails;
      var roots := if ok then {branch}
                   else if branch in pool.datasets then f.removed * Dependents(pool, {branch}) - {branch} else {};
      WithoutKeepsSound(pool, roots);
      pool := Without(pool, Dependents(pool, roots));
    }

    /** Writes to a branch's data. */
    method WriteContent(name: string, content: string)
      requires Valid() && name in pool.datasets
      modifies this`pool
      ensures Valid() && pool == old(pool).(datasets := old(pool).datasets[name := old(pool).datasets[name].(content := content)])
    {
      ghost var before := pool;
      pool := pool.(datasets := pool.datasets[name := pool.datasets[name].(content := content)]);
      forall x | x in pool.datasets
        ensures GoodOrigin(pool, x)
      {
        assert GoodOrigin(before, x);
      }
    }

    /** Makes `dst` a copy of `src`. It either adds the branch, with what `src` holds now, or no branch. */
    method Clone(src: string, dst: string) returns (ok: bool)
      requires Valid()
      modifies this
      ensures Valid()
      ensures Added(old(pool), pool, src, dst) || pool.datasets == old(pool).datasets
      ensures ok ==> Added(old(pool), pool, src, dst)
      ensures OtherSnapshotsKept(old(pool), pool, SnapFor(src, dst))
      ensures NoneFails(old(fates)) ==> NoneFails(fates)
      ensures NoneFails(old(fates)) && src in old(pool).datasets && dst !in old(pool).datasets && ValidName(dst) ==> ok
    {
      hide Sound; hide Snapshotted; hide Unsnapshotted; hide Cloned; hide Added; hide OtherSnapshotsKept;
      var snap := SnapFor(src, dst);
      ghost var p := pool;
      var _ := DestroySnapshot(snap);
      ghost var q := pool;
      ok := TakeSnapshot(snap);
      MadeWay(p, q, src, dst);
      ghost var r := pool;
      if !ok {
        return;
      }
      FreshSnapshot(p, q, r, src, dst);
      ok := CloneSnapshot(src, dst);
      if !ok {
        return;
      }
      ClonedIsAdded(p, r, pool, src, dst);
      // The quota is set once the clone exists.
      var f := NextFate();
      ok := !f.fails;
    }

    /** The origin of a branch, as far as it can be read. */
    method Origin(branch: string) returns (origin: Option<Snapshot>)
      modifies this`fates
      ensures origin.Some? ==> branch in pool.datasets && pool.datasets[branch].origin == origin
      ensures NoneFails(old(fates)) ==> NoneFails(fates)
      ensures NoneFails(old(fates)) ==> origin == (if branch in pool.datasets then pool.datasets[branch].origin else None)
    {
      var f := NextFate();
      origin := if f.fails || branch !in pool.datasets then None else pool.datasets[branch].origin;
    }

    /** Removes a branch, everything cloned from it, and the snapshot it was cloned from. */
    method Destroy(branch: string) returns (ok: bool)
      requires Valid() && branch != "main"
      modifies this
      ensures Valid()
      ensures ok ==> branch in old(pool).datasets && pool.datasets == old(pool).datasets - Dependents(old(pool), {branch})
      ensures !ok ==> exists roots :: roots <= Dependents(old(pool), {branch}) - {branch} &&
                                      pool == Without(old(pool), Dependents(old(pool), roots))
      ensures forall s :: s in pool.snapshots ==> s in old(pool).snapshots && pool.snapshots[s] == old(pool).snapshots[s]
      ensures ok ==> forall s :: s in old(pool).snapshots && s.parent in pool.datasets && s.tag != "for-" + branch ==> s in pool.snapshots
      ensures NoneFails(old(fates)) ==> NoneFails(fates) && ok == (branch in old(pool).datasets)
      ensures NoneFails(old(fates)) && ok && old(pool).datasets[branch].origin.Some? ==>
                old(pool).datasets[branch].origin.value !in pool.snapshots
    {
      hide Sound; hide Unsnapshotted; hide Dependents; hide Without; hide OnlyTagRemoved; hide IsOriginSnapshotFor;
      var origin := Origin(branch);
      if origin.Some? {
        OriginPasses(pool, branch);
      }
      ok := DestroyRecursively(branch);
      WithoutTakesAway(old(pool), Dependents(old(pool), {branch}));
      if !ok {
        ghost var roots :| roots <= Dependents(old(pool), {branch}) - {branch} &&
                           pool == Without(old(pool), Dependents(old(pool), roots));
        WithoutTakesAway(old(pool), Dependents(old(pool), roots));
        return;
      }
      ghost var p := pool;
      NothingRemoved(p, "for-" + branch);
      if origin.Some? && IsOriginSnapshotFor(Printed(origin.value), branch) {
        ghost var q := pool;
        var gone := DestroySnapshot(origin.value);
        TagRemoved(p, q, pool, origin.value, gone);
        if NoneFails(old(fates)) {
          OriginGone(old(pool), q, pool, branch, gone);
        }
      }
      ghost var q := pool;
      var gone := DestroySnapshot(SnapFor("main", branch));
      TagRemoved(p, q, pool, SnapFor("main", branch), gone);
      RemovedOnly(p, pool, "for-" + branch);
    }

    /** Create: a branch of `parent`, unless it exists already. Whatever fails, at most this one branch is
        added, and then it holds what the parent holds. */
    method Create(name: string, parent: string) returns (ok: bool)
      requires Valid()
      modifies this
      ensures Valid()
      ensures var from := ParentOf(parent);
              (Added(old(pool), pool, from, name) || pool.datasets == old(pool).datasets) &&
              (ok ==> Added(old(pool), pool, from, name)) && OtherSnapshotsKept(old(pool), pool, SnapFor(from, name))
      ensures NoneFails(old(fates)) ==> NoneFails(fates) && ok == Creatable(old(pool), name, parent)
    {
      hide Sound; hide Added; hide ValidName;
      var from := ParentOf(parent);
      var found := Exists(from);
      if !found {
        return false;
      }
      found := Exists(name);
      if found {
        return false;
      }
      ok := Clone(from, name);
      AddedMeans(old(pool), pool, from, name);
      if !ok {
        return;
      }
      // Ownership, the container, and waiting for it.
      var f := NextFate();
      ok := !f.fails;
    }

    /** Delete refuses main. */
    method Delete(name: string) returns (ok: bool)
      requires Valid()
      modifies this
      ensures Valid() && (name == "main" ==> !ok && pool == old(pool))
      ensures ok ==> name in old(pool).datasets && pool.datasets == old(pool).datasets - Dependents(old(pool), {name})
      ensures pool.datasets.Keys <= old(pool).datasets.Keys
      ensures "main" in old(pool).datasets ==> "main" in pool.datasets
      ensures NoneFails(old(fates)) ==> NoneFails(fates) && ok == (name != "main" && name in old(pool).datasets)
    {
      if name == "main" {
        return false;
      }
      MainStays(pool, {name});
      hide Dependents;
      ok := Destroy(name);
      if !ok {
        ghost var roots :| roots <= Dependents(old(pool), {name}) - {name} &&
                           pool == Without(old(pool), Dependents(old(pool), roots));
        MainStays(old(pool), roots);
        WithoutTakesAway(old(pool), Dependents(old(pool), roots));
      }
    }

    /** Reset destroys a branch and makes it again from `parent`. With no command failing this works exactly
        when branch and parent exist and the parent is neither the branch itself nor cloned from it. */
    method Reset(name: string, parent: string) returns (ok: bool)
      requires Valid()
      modifies this
      ensures Valid() && (name == "main" ==> !ok && pool == old(pool))
      ensures "main" in old(pool).datasets ==> "main" in pool.datasets
      ensures var from := ParentOf(parent);
              ok ==> Added(Without(old(pool), Dependents(old(pool), {name})), pool, from, name)
      ensures NoneFails(old(fates)) ==> NoneFails(fates) && ok == Resettable(old(pool), name, parent)
      ensures NoneFails(old(fates)) && !ok && name != "main" ==> name !in pool.datasets
    {
      hide Added; hide Sound; hide Dependents; hide OtherSnapshotsKept; hide Creatable; hide Resettable;
      if name == "main" {
        RefusesMain(pool, parent);
        return false;
      }
      ghost var p := pool;
      ok := Delete(name);
      if !ok {
        NotResettable(p, name, parent);
        return;
      }
      ghost var q := pool;
      ok := Create(name, parent);
      AfterDelete(p, q, pool, name, parent);
    }

    method Perform(op: Operation)
      requires Valid()
      modifies this
      ensures Valid() && ("main" in old(pool).datasets ==> "main" in pool.datasets)
    {
      var ok;
      match op {
        case CreateBranch(name, parent) =>
          ok := Create(name, parent);
        case DeleteBranch(name) =>
          ok := Delete(name);
        case ResetBranch(name, parent) =>
          ok := Reset(name, parent);
        case NewEmpty(name) =>
          if name == "main" || "main" in pool.datasets {
            ok := CreateEmpty(name);
          }
        case Write(name, content) =>
          if name in pool.datasets {
            WriteContent(name, content);
          }
      }
    }

    /** Over every run, whatever fails: every clone keeps its origin snapshot, no snapshot has a dependent
        other than the branch it was made for, a leftover snapshot is free to go, and main stays. */
    method PerformAll(ops: seq<Operation>)
      requires Valid()
      modifies this
      ensures Valid() && ("main" in old(pool).datasets ==> "main" in pool.datasets)
      ensures forall x :: x in pool.datasets && pool.datasets[x].origin.Some? ==>
                GoodOrigin(pool, x) && forall y :: y in pool.datasets && pool.datasets[y].origin == pool.datasets[x].origin ==> y == x
      ensures forall parent, name :: name !in pool.datasets ==> !HasDependents(pool, SnapFor(parent, name))
    {
      hide Sound;
      for i := 0 to |ops|
        invariant Valid() && ("main" in old(pool).datasets ==> "main" in pool.datasets)
      {
        Perform(ops[i]);
      }
      SoundMeans(pool);
    }
  }

  /** `dst` was added as a clone of what `src` holds, and no other branch was touched. */
  ghost predicate Added(p: Pool, q: Pool, src: string, dst: string) {
    src in p.datasets && dst !in p.datasets && dst in q.datasets && q.datasets == p.datasets[dst := q.datasets[dst]] &&
    q.datasets[dst].content == p.datasets[src].content && q.datasets[dst].origin == Some(SnapFor(src, dst))
  }

  ghost predicate OtherSnapshotsKept(p: Pool, q: Pool, s: Snapshot) {
    p.snapshots - {s} == q.snapshots - {s}
  }

  // ---------------------------------------------------------------- cloning step by step

  /** Removing a leftover snapshot touches nothing else, and it is gone unless a command failed or the branch
      exists. */
  lemma MadeWay(p: Pool, q: Pool, src: string, dst: string)
    requires Sound(p) && (q == p || Unsnapshotted(p, SnapFor(src, dst)) == Some(q))
    ensures q.datasets == p.datasets && OtherSnapshotsKept(p, q, SnapFor(src, dst))
    ensures dst !in p.datasets ==>
              (Unsnapshotted(p, SnapFor(src, dst)).Some? <==> SnapFor(src, dst) in p.snapshots)
    ensures ValidName(dst) && src in p.datasets && SnapFor(src, dst) !in q.snapshots ==>
              Snapshotted(q, SnapFor(src, dst)).Some?
    ensures Unsnapshotted(p, SnapFor(src, dst)) == Some(q) ==> SnapFor(src, dst) !in q.snapshots
  {
    if dst !in p.datasets {
      LeftoverIsFree(p, src, dst);
    }
  }

  lemma FreshSnapshot(p: Pool, q: Pool, r: Pool, src: string, dst: string)
    requires q.datasets == p.datasets && OtherSnapshotsKept(p, q, SnapFor(src, dst))
    requires Snapshotted(q, SnapFor(src, dst)) == Some(r)
    ensures src in p.datasets && r.datasets == p.datasets && OtherSnapshotsKept(p, r, SnapFor(src, dst))
    ensures SnapFor(src, dst) in r.snapshots && r.snapshots[SnapFor(src, dst)] == p.datasets[src].content
    ensures Cloned(r, SnapFor(src, dst), dst).Some? <==> dst !in p.datasets && ValidName(dst)
  {
    assert r.snapshots - {SnapFor(src, dst)} == q.snapshots - {SnapFor(src, dst)};
  }

  lemma ClonedIsAdded(p: Pool, r: Pool, t: Pool, src: string, dst: string)
    requires src in p.datasets && r.datasets == p.datasets && OtherSnapshotsKept(p, r, SnapFor(src, dst))
    requires SnapFor(src, dst) in r.snapshots && r.snapshots[SnapFor(src, dst)] == p.datasets[src].content
    requires Cloned(r, SnapFor(src, dst), dst) == Some(t)
    ensures Added(p, t, src, dst) && OtherSnapshotsKept(p, t, SnapFor(src, dst))
  {
  }

  // ---------------------------------------------------------------- destroying step by step

  /** Only snapshots with this tag went. */
  ghost predicate OnlyTagRemoved(p: Pool, q: Pool, tag: string) {
    q.datasets == p.datasets && q.clock == p.clock &&
    (forall s :: s in q.snapshots ==> s in p.snapshots && q.snapshots[s] == p.snapshots[s]) &&
    forall s :: s in p.snapshots && s.tag != tag ==> s in q.snapshots
  }

  lemma NothingRemoved(p: Pool, tag: string)
    ensures OnlyTagRemoved(p, p, tag)
  {
  }

  lemma TagRemoved(p: Pool, q: Pool, r: Pool, s: Snapshot, gone: bool)
    requires OnlyTagRemoved(p, q, s.tag) && if gone then Unsnapshotted(q, s) == Some(r) else r == q
    ensures OnlyTagRemoved(p, r, s.tag) && forall x :: x in r.snapshots ==> x in q.snapshots
  {
  }

  lemma RemovedOnly(p: Pool, q: Pool, tag: string)
    requires OnlyTagRemoved(p, q, tag)
    ensures q.datasets == p.datasets
    ensures forall s :: s in q.snapshots ==> s in p.snapshots && q.snapshots[s] == p.snapshots[s]
    ensures forall s :: s in p.snapshots && s.tag != tag ==> s in q.snapshots
  {
  }

  lemma WithoutTakesAway(p: Pool, gone: set<string>)
    ensures var q := Without(p, gone);
            q.datasets == p.datasets - gone &&
            (forall s :: s in q.snapshots ==> s in p.snapshots && q.snapshots[s] == p.snapshots[s]) &&
            forall s :: s in p.snapshots && s.parent !in gone ==> s in q.snapshots
  {
  }

  lemma OriginPasses(p: Pool, branch: string)
    requires Sound(p) && branch in p.datasets && p.datasets[branch].origin.Some?
    ensures IsOriginSnapshotFor(Printed(p.datasets[branch].origin.value), branch)
    ensures p.datasets[branch].origin.value.tag == "for-" + branch
  {
    assert GoodOrigin(p, branch);
    var s := p.datasets[branch].origin.value;
    assert ValidName(s.parent) && '@' !in s.tag;
    PrintedOrigin(s, branch);
  }

  /** Once a branch is gone its origin snapshot can go. */
  lemma OriginGone(p: Pool, q: Pool, r: Pool, branch: string, gone: bool)
    requires Sound(p) && branch in p.datasets && p.datasets[branch].origin.Some?
    requires q == Without(p, Dependents(p, {branch})) && gone == Unsnapshotted(q, p.datasets[branch].origin.value).Some?
    requires if gone then Unsnapshotted(q, p.datasets[branch].origin.value) == Some(r) else r == q
    ensures p.datasets[branch].origin.value !in r.snapshots
  {
    var s := p.datasets[branch].origin.value;
    assert DependsOn(p, branch, branch) && branch in Dependents(p, {branch});
    forall x | x in q.datasets
      ensures q.datasets[x].origin != Some(s)
    {
      if p.datasets[x].origin == Some(s) {
        OnlyOneDependent(p, s, x, branch);
      }
    }
  }

  // ---------------------------------------------------------------- the commands of the engine

  datatype Operation =
    | CreateBranch(name: string, parent: string)
    | DeleteBranch(name: string)
    | ResetBranch(name: string, parent: string)
    | NewEmpty(name: string)
    | Write(name: string, content: string)

  function ParentOf(parent: string): string { if parent == "" then "main" else parent }

  predicate Creatable(p: Pool, name: string, parent: string) {
    ParentOf(parent) in p.datasets && name !in p.datasets && ValidName(name)
  }

  predicate Resettable(p: Pool, name: string, parent: string) {
    name != "main" && name in p.datasets && ParentOf(parent) in p.datasets && !DependsOn(p, ParentOf(parent), name)
  }

  lemma AddedMeans(p: Pool, q: Pool, src: string, dst: string)
    ensures Added(p, q, src, dst) ==> src in p.datasets && dst !in p.datasets && dst in q.datasets &&
                                      q.datasets == p.datasets[dst := q.datasets[dst]]
    ensures Added(p, q, src, dst) && Sound(q) ==> ValidName(dst)
  {
  }

  lemma RefusesMain(p: Pool, parent: string)
    ensures !Resettable(p, "main", parent)
  {
  }

  lemma NotResettable(p: Pool, name: string, parent: string)
    ensures name !in p.datasets ==> !Resettable(p, name, parent)
  {
  }

  lemma AfterDelete(p: Pool, q: Pool, r: Pool, name: string, parent: string)
    requires Sound(p) && name in p.datasets && name != "main"
    requires q.datasets == p.datasets - Dependents(p, {name})
    ensures Creatable(q, name, parent) <==> Resettable(p, name, parent)
    ensures Added(q, r, ParentOf(parent), name) ==> Added(Without(p, Dependents(p, {name})), r, ParentOf(parent), name)
    ensures name !in q.datasets
    ensures Added(q, r, ParentOf(parent), name) && Sound(r) ==> Creatable(q, name, parent)
  {
    assert DependsOn(p, name, name);
    assert forall x :: x in p.datasets ==> (x in Dependents(p, {name}) <==> DependsOn(p, x, name));
  }

  lemma SoundMeans(p: Pool)
    requires Sound(p)
    ensures forall x :: x in p.datasets && p.datasets[x].origin.Some? ==>
              GoodOrigin(p, x) && forall y :: y in p.datasets && p.datasets[y].origin == p.datasets[x].origin ==> y == x
    ensures forall parent, name :: name !in p.datasets ==> !HasDependents(p, SnapFor(parent, name))
  {
    forall x, y | x in p.datasets && y in p.datasets && p.datasets[x].origin.Some? && p.datasets[y].origin == p.datasets[x].origin
      ensures x == y
    {
      OnlyOneDependent(p, p.datasets[x].origin.value, x, y);
    }
    forall parent, name | name !in p.datasets
      ensures !HasDependents(p, SnapFor(parent, name))
    {
      LeftoverIsFree(p, parent, name);
    }
  }

  // ---------------------------------------------------------------- a reset that loses its branch

  function CloneOf(parent: string, name: string, born: nat): Dataset { Dataset("", born, Some(SnapFor(parent, name))) }

  /** A pool with main, a branch of it, and a branch of that. Resetting the first branch to itself, or to the
      second, destroys it and cannot make it again, although the parent exists. */
  lemma ResetCanLoseTheBranch() returns (p: Pool)
    ensures Sound(p) && "b" in p.datasets && "c" in p.datasets && DependsOn(p, "c", "b")
    ensures !Resettable(p, "b", "b") && !Resettable(p, "b", "c") && Resettable(p, "b", "main")
  {
    p := Pool(map["main" := Dataset("", 0, None), "b" := CloneOf("main", "b", 1), "c" := CloneOf("b", "c", 2)],
              map[SnapFor("main", "b") := "", SnapFor("b", "c") := ""], 3);
    assert DependsOn(p, "b", "b");
    assert !DependsOn(p, "main", "b");
  }
}
