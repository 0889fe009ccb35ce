/** Text helpers shared by the models: numerals, joining with a separator, byte order. */
module Text {

  datatype Option<+T> = None | Some(value: T)

  // ---------------------------------------------------------------- numerals

  /** The digit character of `d` in base 10 or (upper-case) base 16. */
  function DigitChar(d: nat): char
    requires d < 16
  {
    if d < 10 then '0' + d as char else 'A' + (d - 10) as char
  }

  /** What a digit stands for, in either case; 16 when the character is no digit. */
  function DigitValue(c: char): (d: nat)
    ensures d <= 16
  {
    if '0' <= c <= '9' then (c - '0') as nat
    else if 'A' <= c <= 'F' then (c - 'A') as nat + 10
    else if 'a' <= c <= 'f' then (c - 'a') as nat + 10
    else 16
  }

  /** The two bases numbers are printed in. */
  type Base = b: nat | b == 10 || b == 16 witness 10

  function Quotient(n: nat, base: Base): nat {
    if base == 10 then n / 10 else n / 16
  }

  function Remainder(n: nat, base: Base): (d: nat)
    ensures d < base
  {
    if base == 10 then n % 10 else n % 16
  }

  predicate IsNumeral(s: string, base: Base) {
    forall i :: 0 <= i < |s| ==> DigitValue(s[i]) < base
  }

  /** `n` in the given base without leading zeros. */
  function Numeral(n: nat, base: Base): (s: string)
    ensures |s| > 0 && IsNumeral(s, base)
  {
    if n < base then [DigitChar(n)]
    else Numeral(Quotient(n, base), base) + [DigitChar(Remainder(n, base))]
  }

  /** The number a digit string denotes. */
  function NumeralValue(s: string, base: Base): nat {
    if s == "" then 0
    else (if base == 10 then 10 else 16) * NumeralValue(s[..|s| - 1], base) + DigitValue(s[|s| - 1])
  }

  lemma DigitRoundTrip(d: nat)
    requires d < 16
    ensures DigitValue(DigitChar(d)) == d
  {
  }

  lemma NumeralValueSnoc(s: string, c: char, base: Base)
    ensures NumeralValue(s + [c], base) == (if base == 10 then 10 else 16) * NumeralValue(s, base) + DigitValue(c)
  {
    assert (s + [c])[..|s|] == s;
  }

  /** Printing then reading a number gives the number back. */
  lemma {:induction false} NumeralRoundTrip(n: nat, base: Base)
    ensures NumeralValue(Numeral(n, base), base) == n
  {
    if n < base {
      NumeralValueSnoc("", DigitChar(n), base);
      assert Numeral(n, base) == "" + [DigitChar(n)];
      DigitRoundTrip(n);
    } else {
      NumeralRoundTrip(Quotient(n, base), base);
      NumeralValueSnoc(Numeral(Quotient(n, base), base), DigitChar(Remainder(n, base)), base);
      DigitRoundTrip(Remainder(n, base));
    }
  }

  /** A positive number never prints with a leading zero. */
  lemma {:induction false} NumeralHead(n: nat, base: Base)
    ensures n > 0 ==> Numeral(n, base)[0] != '0'
  {
    if n >= base {
      NumeralHead(Quotient(n, base), base);
    }
  }

  /** Go's zero-padded "%0*d" for numbers that fit the width. */
  function Padded(n: nat, width: nat): (s: string)
    ensures |s| == width && IsNumeral(s, 10)
  {
    if width == 0 then "" else Padded(n / 10, width - 1) + [DigitChar(n % 10)]
  }

  function Pow10(e: nat): (p: nat)
    ensures p > 0
  {
    if e == 0 then 1 else 10 * Pow10(e - 1)
  }

  lemma {:induction false} PaddedRoundTrip(n: nat, width: nat)
    requires n < Pow10(width)
    ensures NumeralValue(Padded(n, width), 10) == n
  {
    if width > 0 {
      var s := Padded(n, width);
      PaddedRoundTrip(n / 10, width - 1);
      DigitRoundTrip(n % 10);
      assert s[..|s| - 1] == Padded(n / 10, width - 1);
    }
  }

  /** Padded numbers of one width are equal only for equal numbers. */
  lemma PaddedInjective(a: nat, b: nat, width: nat)
    requires a < Pow10(width) && b < Pow10(width)
    requires Padded(a, width) == Padded(b, width)
    ensures a == b
  {
    PaddedRoundTrip(a, width);
    PaddedRoundTrip(b, width);
  }

  /** strconv.FormatInt(n, 10). */
  function FormatInt(n: int): (s: string)
    ensures |s| > 0
  {
    if n < 0 then "-" + Numeral(-n, 10) else Numeral(n, 10)
  }

  lemma FormatIntInjective(a: int, b: int)
    requires FormatInt(a) == FormatInt(b)
    ensures a == b
  {
    NumeralRoundTrip(if a < 0 then -a else a, 10);
    NumeralRoundTrip(if b < 0 then -b else b, 10);
    assert DigitValue('-') == 16;
    if a < 0 {
      assert FormatInt(a)[0] == '-';
      assert FormatInt(a)[1..] == Numeral(-a, 10);
    }
    if b < 0 {
      assert FormatInt(b)[0] == '-';
      assert FormatInt(b)[1..] == Numeral(-b, 10);
    }
  }

  lemma FormatIntHasNo(n: int, c: char)
    requires c != '-' && DigitValue(c) == 16
    ensures c !in FormatInt(n)
  {
  }

  // ---------------------------------------------------------------- joining

  /** strings.Join(parts, sep) for a one-character separator. */
  function Join(parts: seq<string>, sep: char): string {
    if |parts| == 0 then ""
    else if |parts| == 1 then parts[0]
    else parts[0] + [sep] + Join(parts[1..], sep)
  }

  /** Two texts cut at their first separator agree on both sides of it. */
  lemma FirstCut(a: string, x: string, b: string, y: string, sep: char)
    requires sep !in a && sep !in b
    requires a + [sep] + x == b + [sep] + y
    ensures a == b && x == y
  {
    var s := a + [sep] + x;
    assert s[|a|] == sep && s[|b|] == sep;
    assert forall i :: 0 <= i < |a| ==> s[i] == a[i] && s[i] != sep;
    assert forall i :: 0 <= i < |b| ==> s[i] == b[i] && s[i] != sep;
    assert |a| == |b|;
    assert s[..|a|] == a && s[..|b|] == b;
    assert s[|a| + 1..] == x && s[|b| + 1..] == y;
  }

  /** Two texts cut at their last separator agree on both sides of it. */
  lemma LastCut(x: string, a: string, y: string, b: string, sep: char)
    requires sep !in a && sep !in b
    requires x + [sep] + a == y + [sep] + b
    ensures a == b && x == y
  {
    var s := x + [sep] + a;
    assert s[|x|] == sep && s[|y|] == sep;
    assert forall i :: |x| < i < |s| ==> s[i] == a[i - |x| - 1] && s[i] != sep;
    assert forall i :: |y| < i < |s| ==> s[i] == b[i - |y| - 1] && s[i] != sep;
    assert |x| == |y|;
    assert s[..|x|] == x && s[..|y|] == y;
    assert s[|x| + 1..] == a && s[|y| + 1..] == b;
  }

  lemma {:induction false} JoinSnoc(parts: seq<string>, last: string, sep: char)
    requires |parts| > 0
    ensures Join(parts + [last], sep) == Join(parts, sep) + [sep] + last
  {
    if |parts| == 1 {
      assert (parts + [last])[1..] == [last];
    } else {
      JoinSnoc(parts[1..], last, sep);
      assert (parts + [last])[1..] == parts[1..] + [last];
    }
  }

  /** Joining is injective when only the part at `hole` may contain the separator:
      the parts before it are read from the left, those after it from the right. */
  lemma {:induction false} JoinInjective(a: seq<string>, b: seq<string>, hole: nat, sep: char)
    requires |a| == |b| && hole < |a|
    requires forall i :: 0 <= i < |a| && i != hole ==> sep !in a[i] && sep !in b[i]
    requires Join(a, sep) == Join(b, sep)
    ensures a == b
    decreases |a|
  {
    if |a| == 1 {
    } else if hole > 0 {
      FirstCut(a[0], Join(a[1..], sep), b[0], Join(b[1..], sep), sep);
      JoinInjective(a[1..], b[1..], hole - 1, sep);
      assert a == [a[0]] + a[1..] && b == [b[0]] + b[1..];
    } else {
      var n := |a| - 1;
      assert a == a[..n] + [a[n]] && b == b[..n] + [b[n]];
      JoinSnoc(a[..n], a[n], sep);
      JoinSnoc(b[..n], b[n], sep);
      LastCut(Join(a[..n], sep), a[n], Join(b[..n], sep), b[n], sep);
      JoinInjective(a[..n], b[..n], hole, sep);
    }
  }

  lemma JoinPair(x: string, y: string, sep: char)
    ensures Join([x, y], sep) == x + [sep] + y
  {
    assert [x, y][1..] == [y];
  }

  lemma {:induction false} JoinSplit(a: seq<string>, b: seq<string>, sep: char)
    requires |a| > 0 && |b| > 0
    ensures Join(a + b, sep) == Join(a, sep) + [sep] + Join(b, sep)
  {
    if |a| == 1 {
      assert (a + b)[1..] == b;
    } else {
      JoinSplit(a[1..], b, sep);
      assert (a + b)[1..] == a[1..] + b;
    }
  }

  /** Replacing a middle stretch by one that joins to the same text changes nothing. */
  lemma JoinCongruence(head: seq<string>, p: seq<string>, q: seq<string>, rest: seq<string>, sep: char)
    requires |head| > 0 && |rest| > 0 && |p| > 0 && |q| > 0
    requires Join(p, sep) == Join(q, sep)
    ensures Join(head + (p + rest), sep) == Join(head + (q + rest), sep)
  {
    JoinSplit(head, p + rest, sep);
    JoinSplit(head, q + rest, sep);
    JoinSplit(p, rest, sep);
    JoinSplit(q, rest, sep);
  }

  /** Where the separator moves between two neighbours, the joined text does not change. */
  lemma JoinRegroup(x: string, y: string, z: string, sep: char)
    ensures Join([x + [sep] + y, z], sep) == Join([x, y + [sep] + z], sep)
  {
    JoinPair(x + [sep] + y, z, sep);
    JoinPair(x, y + [sep] + z, sep);
    assert (x + [sep] + y) + [sep] + z == x + [sep] + (y + [sep] + z);
  }

  // ---------------------------------------------------------------- splitting

  /** The position of the first `c`, the length if there is none. */
  function FirstOf(s: string, c: char): (i: nat)
    ensures i <= |s| && c !in s[..i] && (i < |s| ==> s[i] == c)
  {
    if s == "" || s[0] == c then 0
    else
      var i := FirstOf(s[1..], c);
      assert s[..i + 1] == [s[0]] + s[1..][..i];
      i + 1
  }

  /** strings.Split. */
  function Split(s: string, c: char): (parts: seq<string>)
    ensures |parts| > 0
    decreases |s|
  {
    var i := FirstOf(s, c);
    if i == |s| then [s] else [s[..i]] + Split(s[i + 1..], c)
  }

  lemma SplitAt(s: string, c: char)
    ensures var i := FirstOf(s, c);
            Split(s, c) == if i == |s| then [s] else [s[..i]] + Split(s[i + 1..], c)
  {
    hide FirstOf;
  }

  lemma CutAt(s: string, i: nat)
    requires i < |s|
    ensures s == s[..i] + [s[i]] + s[i + 1..]
  {
  }

  lemma {:induction false} SplitOfJoin(parts: seq<string>, c: char)
    requires parts != [] && forall p :: p in parts ==> c !in p
    ensures Split(Join(parts, c), c) == parts
  {
    var s := Join(parts, c);
    var i := FirstOf(s, c);
    assert parts[0] in parts;
    if |parts| == 1 {
      assert c !in s;
    } else {
      var rest := Join(parts[1..], c);
      assert s[|parts[0]|] == c;
      assert s == s[..i] + [c] + s[i + 1..];
      FirstCut(parts[0], rest, s[..i], s[i + 1..], c);
      SplitOfJoin(parts[1..], c);
      assert parts == [parts[0]] + parts[1..];
    }
  }

  lemma {:induction false} JoinOfSplit(s: string, c: char)
    ensures Join(Split(s, c), c) == s && forall p :: p in Split(s, c) ==> c !in p
    decreases |s|
  {
    hide Split; hide FirstOf;
    SplitAt(s, c);
    var i := FirstOf(s, c);
    if i < |s| {
      CutAt(s, i);
      JoinOfSplit(s[i + 1..], c);
      JoinSplit([s[..i]], Split(s[i + 1..], c), c);
    }
  }

  /** Splitting gives the one list of texts without the separator that joins to the whole. */
  lemma SplitIff(s: string, parts: seq<string>, c: char)
    requires parts != []
    ensures Join(parts, c) == s && (forall p :: p in parts ==> c !in p) <==> parts == Split(s, c)
  {
    JoinOfSplit(s, c);
    if Join(parts, c) == s && forall p :: p in parts ==> c !in p {
      SplitOfJoin(parts, c);
    }
  }

  // ---------------------------------------------------------------- byte order

  /** Go's `<` on strings: byte-wise lexicographic order. */
  predicate Less(a: string, b: string) {
    |b| > 0 && (|a| == 0 || a[0] < b[0] || (a[0] == b[0] && Less(a[1..], b[1..])))
  }

  lemma {:induction false} LessTotal(a: string, b: string)
    ensures Less(a, b) || a == b || Less(b, a)
    ensures !(Less(a, b) && Less(b, a))
    ensures !Less(a, a)
  {
    if |a| > 0 {
      LessTotal(a[1..], a[1..]);
      if |b| > 0 {
        LessTotal(a[1..], b[1..]);
        if a[0] == b[0] && a[1..] == b[1..] {
          assert a == [a[0]] + a[1..] && b == [b[0]] + b[1..];
        }
      }
    }
  }

  lemma {:induction false} LessTransitive(a: string, b: string, c: string)
    requires Less(a, b) && Less(b, c)
    ensures Less(a, c)
  {
    if |a| > 0 && a[0] == b[0] && b[0] == c[0] {
      LessTransitive(a[1..], b[1..], c[1..]);
    }
  }
}
