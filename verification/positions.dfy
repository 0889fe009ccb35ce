/** WAL positions and segment names (parseLSN and lsnAtLeast in internal/branch/ha.go, walArchived in
    internal/branch/branch_before.go). */
module Positions {
  import opened Text
  import Versions

  const UINT32 := 0x1_0000_0000
  const UINT64 := 0x1_0000_0000_0000_0000

  /** strconv.ParseUint(s, 16, 32). */
  function ParseHex(s: string): Option<nat> {
    if s == "" || !IsNumeral(s, 16) || NumeralValue(s, 16) >= UINT32 then None else Some(NumeralValue(s, 16))
  }

  /** parseLSN; the shift and the or of two 32-bit halves. */
  function ParseLsn(space: char -> bool, s: string): Option<nat> {
    var t := Versions.TrimSpace(space, s);
    var i := FirstOf(t, '/');
    if i == |t| then None
    else
      var h, l := ParseHex(t[..i]), ParseHex(t[i + 1..]);
      if h.None? || l.None? then None else Some(UINT32 * h.value + l.value)
  }

  /** lsnAtLeast: false where a position cannot be read. */
  predicate LsnAtLeast(space: char -> bool, a: string, b: string) {
    var x, y := ParseLsn(space, a), ParseLsn(space, b);
    x.Some? && y.Some? && x.value >= y.value
  }

  /** The way PostgreSQL prints a position: "%X/%X" of its halves. */
  function PrintLsn(n: nat): string { Numeral(n / UINT32, 16) + "/" + Numeral(n % UINT32, 16) }

  /** Hexadecimal digits are not white space. */
  ghost predicate HexVisible(space: char -> bool) { forall c :: DigitValue(c) < 16 ==> !space(c) }

  lemma ReadPrintedHalves(space: char -> bool, h: string, l: string)
    requires HexVisible(space) && h != "" && l != "" && IsNumeral(h, 16) && IsNumeral(l, 16)
    ensures var s := h + "/" + l;
            Versions.TrimSpace(space, s) == s && FirstOf(s, '/') == |h| && s[..|h|] == h && s[|h| + 1..] == l
  {
    hide NumeralValue;
    var s := h + "/" + l;
    assert s[0] == h[0] && s[|s| - 1] == l[|l| - 1];
    Versions.TrimNothing(space, s);
    assert DigitValue('/') == 16;
    var i := FirstOf(s, '/');
    assert s[|h|] == '/';
    assert s == s[..i] + ['/'] + s[i + 1..];
    FirstCut(h, l, s[..i], s[i + 1..], '/');
  }

  /** Reading inverts printing exactly for the 64-bit positions. */
  lemma LsnRoundTrip(space: char -> bool, n: nat)
    requires HexVisible(space)
    ensures ParseLsn(space, PrintLsn(n)) == Some(n) <==> n < UINT64
  {
    var h, l := Numeral(n / UINT32, 16), Numeral(n % UINT32, 16);
    ReadPrintedHalves(space, h, l);
    NumeralRoundTrip(n / UINT32, 16);
    NumeralRoundTrip(n % UINT32, 16);
    hide Numeral; hide NumeralValue; hide Versions.TrimSpace; hide IsNumeral; hide HexVisible;
    assert ParseHex(l) == Some(n % UINT32);
    assert ParseHex(h) == if n < UINT64 then Some(n / UINT32) else None;
  }

  /** On printed positions the comparison is numeric; anything unreadable is not at least anything. */
  lemma LsnAtLeastIsNumeric(space: char -> bool, m: nat, n: nat, junk: string)
    requires HexVisible(space) && m < UINT64 && n < UINT64 && ParseLsn(space, junk).None?
    ensures LsnAtLeast(space, PrintLsn(m), PrintLsn(n)) <==> m >= n
    ensures !LsnAtLeast(space, junk, PrintLsn(n)) && !LsnAtLeast(space, PrintLsn(m), junk)
  {
    hide ParseLsn; hide PrintLsn;
    LsnRoundTrip(space, m);
    LsnRoundTrip(space, n);
  }

  // ---------------------------------------------------------------- WAL segments

  const SEGMENT_NAME := 24

  /** walArchived: only the segment part of a file name is compared, and a shorter name is no segment. */
  predicate WalArchived(lastArchived: string, segment: string) {
    |lastArchived| >= SEGMENT_NAME && |segment| >= SEGMENT_NAME && !Less(lastArchived[..SEGMENT_NAME], segment[..SEGMENT_NAME])
  }

  /** Upper-case hexadecimal. */
  predicate UpperHex(s: string) { forall i :: 0 <= i < |s| ==> '0' <= s[i] <= '9' || 'A' <= s[i] <= 'F' }

  lemma {:induction false} LessSnoc(a: string, b: string, x: char, y: char)
    requires |a| == |b|
    ensures Less(a + [x], b + [y]) <==> Less(a, b) || (a == b && x < y)
  {
    if a == [] {
      assert a + [x] == [x] && b + [y] == [y];
    } else {
      LessSnoc(a[1..], b[1..], x, y);
      assert (a + [x])[1..] == a[1..] + [x] && (b + [y])[1..] == b[1..] + [y];
      assert a == [a[0]] + a[1..] && b == [b[0]] + b[1..];
    }
  }

  lemma UpperDigits(x: char, y: char)
    requires UpperHex([x]) && UpperHex([y])
    ensures DigitValue(x) < 16 && DigitValue(y) < 16 && (x < y <==> DigitValue(x) < DigitValue(y))
  {
    assert [x][0] == x && [y][0] == y;
  }

  /** Between numbers of one length in upper-case hexadecimal, byte order is numeric order. */
  lemma {:induction false} ByteOrderIsNumeric(a: string, b: string)
    requires |a| == |b| && UpperHex(a) && UpperHex(b)
    ensures Less(a, b) <==> NumeralValue(a, 16) < NumeralValue(b, 16)
    ensures a == b <==> NumeralValue(a, 16) == NumeralValue(b, 16)
  {
    if a == "" {
      NothingIsLess();
    } else {
      var n := |a| - 1;
      ByteOrderIsNumeric(a[..n], b[..n]);
      LastDigitDecides(a[..n], b[..n], a[n], b[n]);
      assert a == a[..n] + [a[n]] && b == b[..n] + [b[n]];
    }
  }

  lemma NothingIsLess()
    ensures !Less("", "")
  {
  }

  lemma LastDigitDecides(p: string, q: string, x: char, y: char)
    requires |p| == |q| && UpperHex([x]) && UpperHex([y])
    requires Less(p, q) <==> NumeralValue(p, 16) < NumeralValue(q, 16)
    requires p == q <==> NumeralValue(p, 16) == NumeralValue(q, 16)
    ensures Less(p + [x], q + [y]) <==> NumeralValue(p + [x], 16) < NumeralValue(q + [y], 16)
    ensures p + [x] == q + [y] <==> NumeralValue(p + [x], 16) == NumeralValue(q + [y], 16)
  {
    hide Less; hide NumeralValue; hide DigitValue; hide UpperHex;
    LessSnoc(p, q, x, y);
    UpperDigits(x, y);
    UpperDigits(y, x);
    NumeralValueSnoc(p, x, 16);
    NumeralValueSnoc(q, y, 16);
    Horner(NumeralValue(p, 16), NumeralValue(q, 16), DigitValue(x), DigitValue(y));
    SameSnoc(p, q, x, y);
  }

  lemma Horner(v: nat, w: nat, d: nat, e: nat)
    requires d < 16 && e < 16
    ensures 16 * v + d < 16 * w + e <==> v < w || (v == w && d < e)
    ensures 16 * v + d == 16 * w + e <==> v == w && d == e
  {
  }

  lemma SameSnoc(p: string, q: string, x: char, y: char)
    requires |p| == |q|
    ensures p + [x] == q + [y] <==> p == q && x == y
  {
    assert (p + [x])[..|p|] == p && (q + [y])[..|q|] == q && (p + [x])[|p|] == x && (q + [y])[|q|] == y;
  }

  /** On segment names the comparison is numeric, whatever follows them. */
  lemma WalArchivedIsNumeric(lastArchived: string, segment: string)
    requires |lastArchived| >= SEGMENT_NAME && |segment| >= SEGMENT_NAME
    requires UpperHex(lastArchived[..SEGMENT_NAME]) && UpperHex(segment[..SEGMENT_NAME])
    ensures WalArchived(lastArchived, segment) <==>
              NumeralValue(lastArchived[..SEGMENT_NAME], 16) >= NumeralValue(segment[..SEGMENT_NAME], 16)
  {
    hide Less; hide NumeralValue;
    ByteOrderIsNumeric(lastArchived[..SEGMENT_NAME], segment[..SEGMENT_NAME]);
  }

  /** "%08X". */
  function Hex(n: nat, width: nat): (s: string)
    ensures |s| == width && UpperHex(s)
  {
    if width == 0 then "" else Hex(n / 16, width - 1) + [DigitChar(n % 16)]
  }

  /** A segment's name: timeline, high and low part of its number. */
  function SegmentName(timeline: nat, high: nat, low: nat): (s: string)
    ensures |s| == SEGMENT_NAME && UpperHex(s)
  {
    Hex(timeline, 8) + Hex(high, 8) + Hex(low, 8)
  }

  function Pow16(e: nat): (p: nat)
    ensures p > 0
  {
    if e == 0 then 1 else 16 * Pow16(e - 1)
  }

  lemma {:induction false} HexValue(n: nat, width: nat)
    requires n < Pow16(width)
    ensures NumeralValue(Hex(n, width), 16) == n
  {
    if width > 0 {
      HexValue(n / 16, width - 1);
      NumeralValueSnoc(Hex(n / 16, width - 1), DigitChar(n % 16), 16);
      DigitRoundTrip(n % 16);
    }
  }

  lemma {:induction false} LessOfPair(a: string, b: string, x: string, y: string)
    requires |a| == |b|
    ensures Less(a + x, b + y) <==> Less(a, b) || (a == b && Less(x, y))
  {
    if a == [] {
      assert a + x == x && b + y == y;
      assert !Less(a, b);
    } else {
      LessOfPair(a[1..], b[1..], x, y);
      assert (a + x)[1..] == a[1..] + x && (b + y)[1..] == b[1..] + y;
      assert a == [a[0]] + a[1..] && b == [b[0]] + b[1..];
    }
  }

  lemma HexOrder(m: nat, n: nat)
    requires m < UINT32 && n < UINT32
    ensures Less(Hex(m, 8), Hex(n, 8)) <==> m < n
    ensures Hex(m, 8) == Hex(n, 8) <==> m == n
  {
    assert Pow16(8) == UINT32 by {
      assert Pow16(4) == 0x1_0000;
    }
    hide Less; hide Hex; hide NumeralValue; hide Pow16;
    HexValue(m, 8);
    HexValue(n, 8);
    ByteOrderIsNumeric(Hex(m, 8), Hex(n, 8));
  }

  /** The segment before (timeline, high, low) in that order of significance. */
  predicate Earlier(t: nat, h: nat, l: nat, t': nat, h': nat, l': nat) {
    t < t' || (t == t' && (h < h' || (h == h' && l < l')))
  }

  /** A segment counts as archived once the last archived file is that segment or a later one, with any
      suffix. */
  lemma SegmentArchivedIff(t: nat, h: nat, l: nat, t': nat, h': nat, l': nat, suffix: string)
    requires t < UINT32 && h < UINT32 && l < UINT32 && t' < UINT32 && h' < UINT32 && l' < UINT32
    ensures WalArchived(SegmentName(t, h, l) + suffix, SegmentName(t', h', l')) <==> !Earlier(t, h, l, t', h', l')
  {
    hide Less; hide Hex;
    var a, b := SegmentName(t, h, l), SegmentName(t', h', l');
    assert (a + suffix)[..SEGMENT_NAME] == a && b[..SEGMENT_NAME] == b;
    LessOfPair(Hex(t, 8) + Hex(h, 8), Hex(t', 8) + Hex(h', 8), Hex(l, 8), Hex(l', 8));
    LessOfPair(Hex(t, 8), Hex(t', 8), Hex(h, 8), Hex(h', 8));
    SamePair(Hex(t, 8), Hex(h, 8), Hex(t', 8), Hex(h', 8));
    HexOrder(t, t');
    HexOrder(h, h');
    HexOrder(l, l');
  }

  lemma SamePair(a: string, b: string, c: string, d: string)
    requires |a| == |c|
    ensures a + b == c + d <==> a == c && b == d
  {
    if a + b == c + d {
      assert (a + b)[..|a|] == a && (c + d)[..|a|] == c && (a + b)[|a|..] == b && (c + d)[|a|..] == d;
    }
  }
}
