/** Release versions (internal/update/version.go). */
module Versions {
  import opened Text

  /** Three numbers and a suffix, which is empty for a release. */
  datatype Version = Version(major: nat, minor: nat, patch: nat, pre: string)

  /** The largest Go int. */
  const MAX_INT := 0x7FFF_FFFF_FFFF_FFFF

  // ---------------------------------------------------------------- text

  function TrimLeft(space: char -> bool, s: string): (r: string)
    ensures |r| <= |s|
    ensures r != "" ==> !space(r[0])
    ensures s != "" && !space(s[0]) ==> r == s
    ensures s != "" && !space(s[|s| - 1]) ==> r != "" && r[|r| - 1] == s[|s| - 1]
  {
    if s != "" && space(s[0]) then TrimLeft(space, s[1..]) else s
  }

  function TrimRight(space: char -> bool, s: string): (r: string)
    ensures r <= s
    ensures r != "" ==> !space(r[|r| - 1])
    ensures s != "" && !space(s[|s| - 1]) ==> r == s
  {
    if s != "" && space(s[|s| - 1]) then TrimRight(space, s[..|s| - 1]) else s
  }

  /** strings.TrimSpace; `space` is unicode.IsSpace. */
  function TrimSpace(space: char -> bool, s: string): string { TrimRight(space, TrimLeft(space, s)) }

  function TrimPrefix(s: string, c: char): string { if s != "" && s[0] == c then s[1..] else s }

  // ---------------------------------------------------------------- reading and printing

  predicate IsNumber(p: string) { p != "" && IsNumeral(p, 10) && NumeralValue(p, 10) <= MAX_INT }

  function Component(parts: seq<string>, i: nat): nat { if i < |parts| then NumeralValue(parts[i], 10) else 0 }

  /** The version number `base` and the suffix `pre` stand for. */
  function VersionOf(base: string, pre: string): Option<Version> {
    var parts := Split(base, '.');
    if base == "" || |parts| > 3 || exists p :: p in parts && !IsNumber(p) then None
    else Some(Version(Component(parts, 0), Component(parts, 1), Component(parts, 2), pre))
  }

  function Parse(space: char -> bool, s: string): Option<Version> {
    var t := TrimPrefix(TrimPrefix(TrimSpace(space, s), 'v'), 'V');
    var i := FirstOf(t, '-');
    if i == |t| then VersionOf(t, "")
    else if i + 1 == |t| then None
    else VersionOf(t[..i], t[i + 1..])
  }

  method ParseVersion(space: char -> bool, s: string) returns (r: Option<Version>)
    ensures r == Parse(space, s)
  {
    hide Split; hide TrimSpace; hide IsNumber;
    var t := TrimPrefix(TrimPrefix(TrimSpace(space, s), 'v'), 'V');
    var pre := "";
    var i := FirstOf(t, '-');
    if i < |t| {
      pre := t[i + 1..];
      t := t[..i];
      if pre == "" {
        return None;
      }
    }
    var parts := Split(t, '.');
    if t == "" || |parts| > 3 {
      return None;
    }
    var nums := [0, 0, 0];
    for k := 0 to |parts|
      invariant |nums| == 3 && forall j :: 0 <= j < k ==> IsNumber(parts[j])
      invariant forall j :: 0 <= j < 3 ==> nums[j] == Component(parts[..k], j)
    {
      var p := parts[k];
      if !IsNumber(p) {
        return None;
      }
      nums := nums[k := NumeralValue(p, 10)];
    }
    assert parts[..|parts|] == parts;
    return Some(Version(nums[0], nums[1], nums[2], pre));
  }

  function Base(v: Version): string { Join([Numeral(v.major, 10), Numeral(v.minor, 10), Numeral(v.patch, 10)], '.') }

  function Suffixed(base: string, pre: string): string { base + if pre == "" then "" else "-" + pre }

  /** Version.String. */
  function Print(v: Version): string { Suffixed(Base(v), v.pre) }

  /** A version that some text stands for. */
  predicate Readable(space: char -> bool, v: Version) {
    v.major <= MAX_INT && v.minor <= MAX_INT && v.patch <= MAX_INT && (v.pre == "" || !space(v.pre[|v.pre| - 1]))
  }

  /** The digits are not white space. */
  ghost predicate DigitsVisible(space: char -> bool) { forall c :: '0' <= c <= '9' ==> !space(c) }

  lemma ParsedIsReadable(space: char -> bool, s: string)
    requires Parse(space, s).Some?
    ensures Readable(space, Parse(space, s).value)
  {
    hide Split; hide TrimLeft; hide TrimRight; hide NumeralValue; hide IsNumeral;
    var u := TrimSpace(space, s);
    var t := TrimPrefix(TrimPrefix(u, 'v'), 'V');
    assert t != "" ==> t[|t| - 1] == u[|u| - 1];
    var i := FirstOf(t, '-');
    ComponentsFit(Split(if i == |t| then t else t[..i], '.'));
  }

  lemma ComponentsFit(parts: seq<string>)
    requires forall p :: p in parts ==> IsNumber(p)
    ensures forall i: nat :: Component(parts, i) <= MAX_INT
  {
    hide IsNumeral; hide NumeralValue;
    forall i: nat
      ensures Component(parts, i) <= MAX_INT
    {
      assert i < |parts| ==> IsNumber(parts[i]);
    }
  }

  /** A numeral has only digits. */
  lemma NumeralHasNo(n: nat, c: char)
    requires DigitValue(c) >= 10
    ensures c !in Numeral(n, 10)
  {
  }

  lemma JoinThree(x: string, y: string, z: string)
    ensures Join([x, y, z], '.') == x + "." + (y + "." + z)
  {
    assert [x, y, z][1..] == [y, z];
    JoinPair(y, z, '.');
  }

  lemma PrintedBase(v: Version)
    ensures var parts := [Numeral(v.major, 10), Numeral(v.minor, 10), Numeral(v.patch, 10)];
            Split(Base(v), '.') == parts
    ensures '-' !in Base(v) && Base(v) != ""
    ensures DigitValue(Base(v)[0]) < 10 && DigitValue(Base(v)[|Base(v)| - 1]) < 10
  {
    hide Numeral; hide Split; hide Join;
    var x, y, z := Numeral(v.major, 10), Numeral(v.minor, 10), Numeral(v.patch, 10);
    NumeralHasNo(v.major, '.');
    NumeralHasNo(v.minor, '.');
    NumeralHasNo(v.patch, '.');
    SplitOfJoin([x, y, z], '.');
    NumeralHasNo(v.major, '-');
    NumeralHasNo(v.minor, '-');
    NumeralHasNo(v.patch, '-');
    JoinThree(x, y, z);
  }

  lemma TrimNothing(space: char -> bool, s: string)
    requires s != "" && !space(s[0]) && !space(s[|s| - 1])
    ensures TrimSpace(space, s) == s
  {
  }

  /** A printed text needs no trimming, and is cut where the suffix starts. */
  lemma SuffixIsCut(space: char -> bool, base: string, pre: string)
    requires DigitsVisible(space) && (pre == "" || !space(pre[|pre| - 1]))
    requires '-' !in base && base != "" && DigitValue(base[0]) < 10 && DigitValue(base[|base| - 1]) < 10
    ensures var s := Suffixed(base, pre);
            TrimPrefix(TrimPrefix(TrimSpace(space, s), 'v'), 'V') == s &&
            FirstOf(s, '-') == |base| && s[..|base|] == base && (pre != "" ==> s[|base| + 1..] == pre)
    ensures |Suffixed(base, pre)| == |base| + if pre == "" then 0 else 1 + |pre|
  {
    hide TrimSpace;
    var s := Suffixed(base, pre);
    assert s[0] == base[0];
    assert s[|s| - 1] == if pre == "" then base[|base| - 1] else pre[|pre| - 1];
    TrimNothing(space, s);
    CutAtDash(base, pre);
    assert base + "" == base;
  }

  lemma CutAtDash(base: string, pre: string)
    requires '-' !in base
    ensures FirstOf(base, '-') == |base| && FirstOf(base + ("-" + pre), '-') == |base|
  {
    var s := base + ("-" + pre);
    var i := FirstOf(s, '-');
    assert s[|base|] == '-';
    hide FirstOf;
    CutAt(s, i);
    assert s == base + ['-'] + pre;
    FirstCut(base, pre, s[..i], s[i + 1..], '-');
  }

  lemma NumeralIsNumber(n: nat)
    requires n <= MAX_INT
    ensures IsNumber(Numeral(n, 10)) && NumeralValue(Numeral(n, 10), 10) == n
  {
    NumeralRoundTrip(n, 10);
  }

  /** Printing round trip: a printed version is read back as itself exactly when some text stands for it;
      by ParsedIsReadable that is so for every version that was read. */
  lemma PrintRoundTrip(space: char -> bool, v: Version)
    requires DigitsVisible(space)
    ensures Parse(space, Print(v)) == Some(v) <==> Readable(space, v)
  {
    hide Parse; hide Print; hide Readable;
    if Readable(space, v) {
      PrintedIsRead(space, v);
    } else if Parse(space, Print(v)) == Some(v) {
      ParsedIsReadable(space, Print(v));
    }
  }

  lemma PrintedIsRead(space: char -> bool, v: Version)
    requires DigitsVisible(space) && Readable(space, v)
    ensures Parse(space, Print(v)) == Some(v)
  {
    hide Base; hide Parse; hide VersionOf; hide DigitsVisible; hide Split; hide Numeral; hide Suffixed;
    PrintedBase(v);
    BaseIsRead(v);
    SuffixedIsRead(space, Base(v), v.pre);
  }

  lemma SuffixedIsRead(space: char -> bool, base: string, pre: string)
    requires DigitsVisible(space) && (pre == "" || !space(pre[|pre| - 1]))
    requires '-' !in base && base != "" && DigitValue(base[0]) < 10 && DigitValue(base[|base| - 1]) < 10
    ensures Parse(space, Suffixed(base, pre)) == VersionOf(base, pre)
  {
    hide Suffixed; hide TrimSpace; hide TrimPrefix; hide VersionOf; hide FirstOf; hide DigitsVisible;
    SuffixIsCut(space, base, pre);
    var s := Suffixed(base, pre);
    assert pre == "" ==> s == s[..|base|];
  }

  lemma BaseIsRead(v: Version)
    requires v.major <= MAX_INT && v.minor <= MAX_INT && v.patch <= MAX_INT
    ensures VersionOf(Base(v), v.pre) == Some(v)
  {
    PrintedBase(v);
    NumeralIsNumber(v.major);
    NumeralIsNumber(v.minor);
    NumeralIsNumber(v.patch);
    hide Numeral; hide Split; hide Base; hide IsNumber; hide NumeralValue;
  }

  // ---------------------------------------------------------------- order

  function Sign(a: nat, b: nat): int { if a == b then 0 else if a < b then -1 else 1 }

  /** The sign of the difference: the numbers decide, then no suffix comes after every suffix. */
  function Compare(v: Version, o: Version): int {
    if v.major != o.major then Sign(v.major, o.major)
    else if v.minor != o.minor then Sign(v.minor, o.minor)
    else if v.patch != o.patch then Sign(v.patch, o.patch)
    else if v.pre == o.pre then 0
    else if v.pre == "" then 1
    else if o.pre == "" then -1
    else if Less(v.pre, o.pre) then -1
    else 1
  }

  /** Versions are totally ordered, and only equal ones compare as equal. */
  lemma CompareIsTotalOrder(a: Version, b: Version, c: Version)
    ensures Compare(a, b) in {-1, 0, 1}
    ensures Compare(a, b) == 0 <==> a == b
    ensures Compare(b, a) == -Compare(a, b)
    ensures Compare(a, b) <= 0 && Compare(b, c) <= 0 ==> Compare(a, c) <= 0
  {
    hide Less;
    LessTotal(a.pre, b.pre);
    LessTotal(b.pre, c.pre);
    LessTotal(a.pre, c.pre);
    if Less(a.pre, b.pre) && Less(b.pre, c.pre) {
      LessTransitive(a.pre, b.pre, c.pre);
    }
  }
}
