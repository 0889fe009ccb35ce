/** Which release an update installs (internal/update/select.go). Fetching and parsing a checksum file is a
    parameter: its URL gives the checksums, or nothing. */
module Releases {
  import opened Text
  import opened Versions

  /** The host's system and CPU, and the CPU of the machine the engine runs in. */
  datatype Platform = Platform(os: string, hostArch: string, guestArch: string)

  const IMAGE_CONTEXT_ASSET := "oxyndb-docker-context.tar.gz"
  const SUMS_ASSET := "SHA256SUMS"

  function EngineAsset(t: Platform): string {
    if t.os == "windows" then "odb-linux-amd64"
    else if t.os == "darwin" && t.guestArch != "" then "odb-linux-" + t.guestArch
    else "odb-linux-" + t.hostArch
  }

  function HostAsset(t: Platform): string {
    if t.os == "darwin" then "odb-darwin-" + t.hostArch
    else if t.os == "windows" then "odb-windows-amd64.exe"
    else ""
  }

  function RequiredAssets(t: Platform): seq<string> {
    (if HostAsset(t) == "" then [] else [HostAsset(t)]) + [EngineAsset(t)] +
    if t.os == "windows" then [IMAGE_CONTEXT_ASSET] else []
  }

  datatype Asset = Asset(name: string, url: string)

  datatype Release = Release(tag: string, draft: bool, prerelease: bool, assets: seq<Asset>)

  type Checksums = map<string, string>

  datatype Offer = Offer(release: Release, version: Version, sums: Checksums, required: seq<string>)

  datatype Failure = BadPin | NotNewer(tag: string) | Incomplete(tag: string, missing: seq<string>) | NoSuchRelease
                   | NoChecksums(tag: string) | NotListed(tag: string, names: seq<string>)

  datatype Result<T> = Ok(value: T) | Err(failure: Failure)

  /** What updating depends on besides the list of releases. */
  datatype Setting = Setting(space: char -> bool, current: Version, platform: Platform,
                             sums: string -> Option<Checksums>)

  function FindAsset(assets: seq<Asset>, name: string): Option<Asset> {
    if assets == [] then None else if assets[0].name == name then Some(assets[0]) else FindAsset(assets[1..], name)
  }

  predicate Has(r: Release, name: string) { FindAsset(r.assets, name).Some? }

  function Needed(required: seq<string>): seq<string> { [SUMS_ASSET] + required }

  predicate Complete(r: Release, required: seq<string>) { forall name :: name in Needed(required) ==> Has(r, name) }

  function VersionOfTag(s: Setting, r: Release): Option<Version> { Parse(s.space, r.tag) }

  predicate Newer(s: Setting, r: Release) {
    VersionOfTag(s, r).Some? && Compare(VersionOfTag(s, r).value, s.current) > 0
  }

  /** A release an update may install: published, newer, and with every file. */
  predicate Usable(s: Setting, r: Release) {
    !r.draft && !r.prerelease && Newer(s, r) && Complete(r, RequiredAssets(s.platform))
  }

  /** Its checksum file can be read and lists every file. */
  predicate Listed(s: Setting, r: Release) {
    var a := FindAsset(r.assets, SUMS_ASSET);
    a.Some? && s.sums(a.value.url).Some? &&
    forall name :: name in RequiredAssets(s.platform) ==> name in s.sums(a.value.url).value
  }

  predicate Installable(s: Setting, r: Release) { Usable(s, r) && Listed(s, r) }

  /** The release at `i` goes before the one at `j`: newer, or listed first. */
  predicate Before(s: Setting, rels: seq<Release>, i: nat, j: nat) {
    i < |rels| && j < |rels| && VersionOfTag(s, rels[i]).Some? && VersionOfTag(s, rels[j]).Some? &&
    var c := Compare(VersionOfTag(s, rels[i]).value, VersionOfTag(s, rels[j]).value);
    c > 0 || (c == 0 && i < j)
  }

  /** The release at `k` is the one to install. */
  ghost predicate Best(s: Setting, rels: seq<Release>, k: nat) {
    k < |rels| && Installable(s, rels[k]) &&
    forall j :: 0 <= j < |rels| && j != k && Installable(s, rels[j]) ==> Before(s, rels, k, j)
  }

  // ---------------------------------------------------------------- candidates

  method MissingAssets(r: Release, required: seq<string>) returns (missing: seq<string>)
    ensures missing == [] <==> Complete(r, required)
    ensures forall name :: name in missing <==> name in Needed(required) && !Has(r, name)
  {
    hide Has;
    missing := [];
    var names := Needed(required);
    for i := 0 to |names|
      invariant forall name :: name in missing <==> name in names[..i] && !Has(r, name)
    {
      assert names[..i + 1] == names[..i] + [names[i]];
      if !Has(r, names[i]) {
        missing := missing + [names[i]];
      }
    }
    assert names[..|names|] == names;
    assert missing != [] ==> missing[0] in missing;
  }

  /** A usable release, its version, and where it is listed. */
  datatype Candidate = Candidate(release: Release, version: Version, position: nat)

  predicate FromList(s: Setting, rels: seq<Release>, c: Candidate) {
    c.position < |rels| && c.release == rels[c.position] && VersionOfTag(s, c.release) == Some(c.version)
  }

  /** Candidates of the list, newest first and otherwise in the order listed. */
  ghost predicate NewestFirst(s: Setting, rels: seq<Release>, cs: seq<Candidate>) {
    (forall c :: c in cs ==> FromList(s, rels, c)) &&
    forall i, j :: 0 <= i < j < |cs| ==> Before(s, rels, cs[i].position, cs[j].position)
  }

  ghost predicate Collected(s: Setting, rels: seq<Release>, cs: seq<Candidate>, n: nat) {
    n <= |rels| && (forall c :: c in cs ==> FromList(s, rels, c) && c.position < n && Usable(s, c.release)) &&
    forall i :: 0 <= i < n && Usable(s, rels[i]) ==> exists c :: c in cs && c.position == i
  }

  lemma BeforeTransitive(s: Setting, rels: seq<Release>, i: nat, j: nat, k: nat)
    requires Before(s, rels, i, j) && Before(s, rels, j, k)
    ensures Before(s, rels, i, k)
  {
    hide Compare; hide Parse;
    CompareIsTotalOrder(VersionOfTag(s, rels[k]).value, VersionOfTag(s, rels[j]).value, VersionOfTag(s, rels[i]).value);
    CompareIsTotalOrder(VersionOfTag(s, rels[i]).value, VersionOfTag(s, rels[j]).value, VersionOfTag(s, rels[k]).value);
    CompareIsTotalOrder(VersionOfTag(s, rels[i]).value, VersionOfTag(s, rels[k]).value, VersionOfTag(s, rels[i]).value);
  }

  /** sort.SliceStable by descending version, one candidate at a time. */
  method InsertStable(s: Setting, rels: seq<Release>, cs: seq<Candidate>, c: Candidate) returns (r: seq<Candidate>)
    requires NewestFirst(s, rels, cs) && FromList(s, rels, c) && forall x :: x in cs ==> x.position < c.position
    ensures NewestFirst(s, rels, r) && forall x :: x in r <==> x in cs || x == c
  {
    hide Compare; hide Parse;
    var p := |cs|;
    while p > 0 && Compare(c.version, cs[p - 1].version) > 0
      invariant 0 <= p <= |cs|
      invariant forall i :: p <= i < |cs| ==> Before(s, rels, c.position, cs[i].position)
    {
      assert cs[p - 1] in cs;
      p := p - 1;
    }
    if p > 0 {
      assert cs[p - 1] in cs;
      CompareIsTotalOrder(c.version, cs[p - 1].version, c.version);
    }
    Inserted(s, rels, cs, c, p);
    r := cs[..p] + [c] + cs[p..];
  }

  lemma Inserted(s: Setting, rels: seq<Release>, cs: seq<Candidate>, c: Candidate, p: nat)
    requires NewestFirst(s, rels, cs) && FromList(s, rels, c) && p <= |cs|
    requires p > 0 ==> Before(s, rels, cs[p - 1].position, c.position)
    requires forall i :: p <= i < |cs| ==> Before(s, rels, c.position, cs[i].position)
    ensures var r := cs[..p] + [c] + cs[p..];
            NewestFirst(s, rels, r) && forall x :: x in r <==> x in cs || x == c
  {
    hide Before; hide FromList;
    forall i | 0 <= i < p - 1
      ensures Before(s, rels, cs[i].position, c.position)
    {
      BeforeTransitive(s, rels, cs[i].position, cs[p - 1].position, c.position);
    }
    assert cs == cs[..p] + cs[p..];
  }

  /** The releases to choose from when no version is asked for, newest first. */
  method Candidates(s: Setting, rels: seq<Release>) returns (out: seq<Release>, ghost cs: seq<Candidate>)
    ensures NewestFirst(s, rels, cs) && Collected(s, rels, cs, |rels|)
    ensures |out| == |cs| && forall i :: 0 <= i < |cs| ==> out[i] == cs[i].release
    ensures forall r :: r in out <==> r in rels && Usable(s, r)
  {
    hide Compare; hide Parse; hide Complete; hide NewestFirst;
    var required := RequiredAssets(s.platform);
    var found: seq<Candidate> := [];
    assert NewestFirst(s, rels, found) by {
      NoCandidates(s, rels);
    }
    for i := 0 to |rels|
      invariant NewestFirst(s, rels, found) && Collected(s, rels, found, i)
    {
      var r := rels[i];
      if r.draft || r.prerelease {
        continue;
      }
      var v := ParseVersion(s.space, r.tag);
      if v.None? || Compare(v.value, s.current) <= 0 {
        continue;
      }
      var missing := MissingAssets(r, required);
      if |missing| > 0 {
        continue;
      }
      ghost var before := found;
      found := InsertStable(s, rels, found, Candidate(r, v.value, i));
      assert forall k :: 0 <= k < i && Usable(s, rels[k]) ==> exists c :: c in before && c.position == k;
      assert Candidate(r, v.value, i) in found;
    }
    out := [];
    for i := 0 to |found|
      invariant |out| == i && forall k :: 0 <= k < i ==> out[k] == found[k].release
    {
      out := out + [found[i].release];
    }
    cs := found;
    ExactlyTheUsable(s, rels, cs, out);
  }

  lemma ExactlyTheUsable(s: Setting, rels: seq<Release>, cs: seq<Candidate>, out: seq<Release>)
    requires Collected(s, rels, cs, |rels|) && |out| == |cs| && forall i :: 0 <= i < |cs| ==> out[i] == cs[i].release
    ensures forall r :: r in out <==> r in rels && Usable(s, r)
  {
    hide Usable;
    forall r
      ensures r in out <==> r in rels && Usable(s, r)
    {
      if r in out {
        var k :| 0 <= k < |out| && out[k] == r;
        assert cs[k] in cs;
      }
      if r in rels && Usable(s, r) {
        var i :| 0 <= i < |rels| && rels[i] == r;
        var c :| c in cs && c.position == i;
        var k :| 0 <= k < |cs| && cs[k] == c;
        assert out[k] == r;
      }
    }
  }

  lemma NoCandidates(s: Setting, rels: seq<Release>)
    ensures NewestFirst(s, rels, [])
  {
  }

  // ---------------------------------------------------------------- resolving

  /** What installing a release takes: its version, its checksums and the files needed. */
  ghost predicate Offers(s: Setting, r: Release, offer: Offer) {
    VersionOfTag(s, r).Some? && Has(r, SUMS_ASSET) && Listed(s, r) &&
    offer == Offer(r, VersionOfTag(s, r).value, s.sums(FindAsset(r.assets, SUMS_ASSET).value.url).value,
                   RequiredAssets(s.platform))
  }

  /** The offer of a release whose checksum file lists everything, or why there is none. */
  method CheckSums(s: Setting, r: Release) returns (res: Result<Offer>)
    requires Has(r, SUMS_ASSET) && VersionOfTag(s, r).Some?
    ensures res.Ok? <==> Listed(s, r)
    ensures res.Ok? ==> Offers(s, r, res.value)
  {
    hide RequiredAssets; hide Parse; hide FindAsset;
    var required := RequiredAssets(s.platform);
    var sums := s.sums(FindAsset(r.assets, SUMS_ASSET).value.url);
    if sums.None? {
      return Err(NoChecksums(r.tag));
    }
    var unlisted: seq<string> := [];
    for i := 0 to |required|
      invariant forall name :: name in unlisted <==> name in required[..i] && name !in sums.value
    {
      assert required[..i + 1] == required[..i] + [required[i]];
      if required[i] !in sums.value {
        unlisted := unlisted + [required[i]];
      }
    }
    assert required[..|required|] == required;
    if |unlisted| > 0 {
      assert unlisted[0] in unlisted;
      return Err(NotListed(r.tag, unlisted));
    }
    var v := ParseVersion(s.space, r.tag);
    return Ok(Offer(r, v.value, sums.value, required));
  }

  ghost predicate OffersBest(s: Setting, rels: seq<Release>, offer: Offer) {
    exists k: nat :: Best(s, rels, k) && Offers(s, rels[k], offer)
  }

  /** Resolve without a pin: the newest installable release, the first listed among equal versions; nothing
      exactly when there is none. */
  method Resolve(s: Setting, rels: seq<Release>) returns (offer: Option<Offer>)
    ensures offer.None? <==> forall j :: 0 <= j < |rels| ==> !Installable(s, rels[j])
    ensures offer.Some? ==> OffersBest(s, rels, offer.value)
  {
    hide Listed; hide Before; hide Parse; hide RequiredAssets;
    var out;
    ghost var cs;
    out, cs := Candidates(s, rels);
    for i := 0 to |out|
      invariant forall k :: 0 <= k < i ==> !Listed(s, cs[k].release)
    {
      assert cs[i] in cs;
      CompleteHasSums(out[i], RequiredAssets(s.platform));
      var res := CheckSums(s, out[i]);
      if res.Ok? {
        FirstListedIsBest(s, rels, cs, i);
        return Some(res.value);
      }
    }
    forall j | 0 <= j < |rels|
      ensures !Installable(s, rels[j])
    {
      if Usable(s, rels[j]) {
        var c :| c in cs && c.position == j;
      }
    }
    return None;
  }

  lemma CompleteHasSums(r: Release, required: seq<string>)
    requires Complete(r, required)
    ensures Has(r, SUMS_ASSET)
  {
    assert SUMS_ASSET in Needed(required);
  }

  lemma FirstListedIsBest(s: Setting, rels: seq<Release>, cs: seq<Candidate>, i: nat)
    requires NewestFirst(s, rels, cs) && Collected(s, rels, cs, |rels|) && i < |cs|
    requires Listed(s, cs[i].release) && forall k :: 0 <= k < i ==> !Listed(s, cs[k].release)
    ensures Best(s, rels, cs[i].position)
  {
    hide Usable; hide Listed; hide Before;
    assert cs[i] in cs;
    forall j | 0 <= j < |rels| && j != cs[i].position && Installable(s, rels[j])
      ensures Before(s, rels, cs[i].position, j)
    {
      var c :| c in cs && c.position == j;
      var k :| 0 <= k < |cs| && cs[k] == c;
      assert k > i;
    }
  }

  /** The release at `k` is the published one asked for. */
  predicate Pinned(s: Setting, rels: seq<Release>, want: Version, k: nat) {
    k < |rels| && !rels[k].draft && VersionOfTag(s, rels[k]) == Some(want) &&
    forall j :: 0 <= j < k ==> rels[j].draft || VersionOfTag(s, rels[j]) != Some(want)
  }

  predicate PinnedAndGood(s: Setting, rels: seq<Release>, pin: string, k: nat) {
    Parse(s.space, pin).Some? && Pinned(s, rels, Parse(s.space, pin).value, k) &&
    Newer(s, rels[k]) && Complete(rels[k], RequiredAssets(s.platform)) && Listed(s, rels[k])
  }

  /** Resolve with a pin: the first published release of that version, and it must be newer, complete and
      listed; it may be a prerelease. */
  method ResolvePinned(s: Setting, rels: seq<Release>, pin: string) returns (r: Result<Offer>)
    ensures r.Ok? <==> exists k: nat :: PinnedAndGood(s, rels, pin, k)
    ensures r.Ok? ==> exists k: nat :: PinnedAndGood(s, rels, pin, k) && Offers(s, rels[k], r.value)
  {
    hide Listed; hide Parse; hide RequiredAssets; hide Complete; hide Offers; hide Has;
    var want := ParseVersion(s.space, pin);
    if want.None? {
      return Err(BadPin);
    }
    for i := 0 to |rels|
      invariant forall j :: 0 <= j < i ==> rels[j].draft || VersionOfTag(s, rels[j]) != want
    {
      var v := ParseVersion(s.space, rels[i].tag);
      if v.Some? {
        CompareIsTotalOrder(v.value, want.value, v.value);
      }
      hide Compare;
      if v.None? || Compare(v.value, want.value) != 0 || rels[i].draft {
        continue;
      }
      assert Pinned(s, rels, want.value, i);
      assert forall k: nat :: Pinned(s, rels, want.value, k) ==> k == i;
      if Compare(v.value, s.current) <= 0 {
        return Err(NotNewer(rels[i].tag));
      }
      var missing := MissingAssets(rels[i], RequiredAssets(s.platform));
      if |missing| > 0 {
        return Err(Incomplete(rels[i].tag, missing));
      }
      CompleteHasSums(rels[i], RequiredAssets(s.platform));
      r := CheckSums(s, rels[i]);
      assert PinnedAndGood(s, rels, pin, i) <==> r.Ok?;
      return;
    }
    return Err(NoSuchRelease);
  }

  // ---------------------------------------------------------------- consequences

  /** There is at most one release to install. */
  lemma BestIsUnique(s: Setting, rels: seq<Release>, i: nat, j: nat)
    requires Best(s, rels, i) && Best(s, rels, j)
    ensures i == j
  {
    hide Installable; hide Compare; hide Parse;
    if i != j {
      assert Before(s, rels, i, j) && Before(s, rels, j, i);
      CompareIsTotalOrder(VersionOfTag(s, rels[i]).value, VersionOfTag(s, rels[j]).value, VersionOfTag(s, rels[i]).value);
    }
  }

  /** Updating settles: once the offered release is installed, the same list offers nothing more. */
  lemma ResolveSettles(s: Setting, rels: seq<Release>, k: nat)
    requires Best(s, rels, k)
    ensures var s' := s.(current := VersionOfTag(s, rels[k]).value);
            forall j :: 0 <= j < |rels| ==> !Installable(s', rels[j])
  {
    hide Compare; hide Parse; hide Complete; hide RequiredAssets;
    var vk := VersionOfTag(s, rels[k]).value;
    var s' := s.(current := vk);
    forall j | 0 <= j < |rels|
      ensures !Installable(s', rels[j])
    {
      CompareIsTotalOrder(vk, vk, vk);
      if Newer(s', rels[j]) {
        var vj := VersionOfTag(s, rels[j]).value;
        CompareIsTotalOrder(s.current, vk, vj);
        CompareIsTotalOrder(s.current, vj, vk);
        CompareIsTotalOrder(vk, s.current, vj);
        CompareIsTotalOrder(vk, vj, s.current);
        assert !Before(s, rels, k, j);
      }
    }
  }
}
