/** Blackbox rows and what is hashed of them (internal/ledger/integrity.go). */
module Rows {
  import opened Text
  import opened Hashing

  /** A UTC instant in calendar fields. */
  datatype Timestamp = Timestamp(year: nat, month: nat, day: nat,
                                 hour: nat, minute: nat, second: nat, nanos: nat)
  {
    predicate Valid() {
      year <= 9999 && 1 <= month <= 12 && 1 <= day <= 31 &&
      hour < 24 && minute < 60 && second < 60 && nanos < 1_000_000_000
    }

    /** The instant rounded down to PostgreSQL's microsecond resolution. */
    function Truncated(): Timestamp {
      this.(nanos := nanos / 1000 * 1000)
    }
  }

  datatype Row = Row(
    id: int, at: Timestamp, actor: string, actorKind: string, tool: string, session: string,
    branch: string, commandTag: string, objectType: string, objectIdentity: string,
    statement: string, status: string, risk: string,
    prevHash: string,
    rowHash: string,  // "" when the row is not part of the chain
    extHash: string)  // "" when the row has no capture

  function TrimZeros(s: string): string {
    if s != "" && s[|s| - 1] == '0' then TrimZeros(s[..|s| - 1]) else s
  }

  function Year(y: nat): string {
    if y < 10000 then Padded(y, 4) else Numeral(y, 10)
  }

  function FormatSeconds(t: Timestamp): string {
    Year(t.year) + ("-" + Padded(t.month, 2)) + ("-" + Padded(t.day, 2)) +
    (" " + Padded(t.hour, 2)) + (":" + Padded(t.minute, 2)) + (":" + Padded(t.second, 2))
  }

  function Fraction(t: Timestamp): string {
    var us := t.nanos / 1000;
    if us == 0 then "" else "." + TrimZeros(Padded(us, 6))
  }

  function FormatAt(t: Timestamp): string {
    FormatSeconds(t) + Fraction(t)
  }

  /** The fourteen values that are joined and hashed, in order. */
  function Fields(r: Row): (f: seq<string>)
    ensures |f| == 14
  {
    [r.prevHash, FormatInt(r.id), FormatAt(r.at),
     r.actor, r.actorKind, r.tool, r.session, r.branch, r.commandTag,
     r.objectType, r.objectIdentity, r.statement, r.status, r.risk]
  }

  const STATEMENT := 11  // the position of the statement in Fields

  function Preimage(r: Row): string {
    Join(Fields(r), '|')
  }

  function RowHash(sha: Hasher, r: Row): (h: string)
    ensures |h| == 64
  {
    Hex(sha(Preimage(r)))
  }

  // ---------------------------------------------------------------- timestamps

  function Zeros(n: nat): (s: string)
    ensures |s| == n
  {
    seq(n, _ => '0')
  }

  lemma {:induction false} TrimZerosRestores(s: string)
    ensures |TrimZeros(s)| <= |s| && s == TrimZeros(s) + Zeros(|s| - |TrimZeros(s)|)
  {
    if s != "" && s[|s| - 1] == '0' {
      TrimZerosRestores(s[..|s| - 1]);
      assert s == s[..|s| - 1] + [s[|s| - 1]];
    }
  }

  /** Trimming zeros loses nothing between texts of one length. */
  lemma TrimZerosInjective(a: string, b: string)
    requires |a| == |b| && TrimZeros(a) == TrimZeros(b)
    ensures a == b
  {
    TrimZerosRestores(a);
    TrimZerosRestores(b);
  }

  /** Splits equal texts whose last pieces have one length. */
  lemma PeelBack(x: string, a: string, y: string, b: string)
    requires |a| == |b| && x + a == y + b
    ensures a == b && x == y
  {
    assert (x + a)[|x|..] == a && (y + b)[|y|..] == b;
    assert (x + a)[..|x|] == x && (y + b)[..|y|] == y;
  }

  lemma PaddedPiece(x: string, c: char, m: nat, y: string, n: nat)
    requires m < 100 && n < 100
    requires x + ([c] + Padded(m, 2)) == y + ([c] + Padded(n, 2))
    ensures x == y && m == n
  {
    PeelBack(x, [c] + Padded(m, 2), y, [c] + Padded(n, 2));
    PeelBack([c], Padded(m, 2), [c], Padded(n, 2));
    assert Pow10(2) == 100;
    PaddedInjective(m, n, 2);
  }

  lemma FormatSecondsInjective(a: Timestamp, b: Timestamp)
    requires a.Valid() && b.Valid()
    requires FormatSeconds(a) == FormatSeconds(b)
    ensures a.(nanos := b.nanos) == b
  {
    var a1, b1 := Year(a.year) + ("-" + Padded(a.month, 2)), Year(b.year) + ("-" + Padded(b.month, 2));
    var a2, b2 := a1 + ("-" + Padded(a.day, 2)), b1 + ("-" + Padded(b.day, 2));
    var a3, b3 := a2 + (" " + Padded(a.hour, 2)), b2 + (" " + Padded(b.hour, 2));
    var a4, b4 := a3 + (":" + Padded(a.minute, 2)), b3 + (":" + Padded(b.minute, 2));
    PaddedPiece(a4, ':', a.second, b4, b.second);
    PaddedPiece(a3, ':', a.minute, b3, b.minute);
    PaddedPiece(a2, ' ', a.hour, b2, b.hour);
    PaddedPiece(a1, '-', a.day, b1, b.day);
    PaddedPiece(Year(a.year), '-', a.month, Year(b.year), b.month);
    assert Pow10(4) == 10000;
    PaddedInjective(a.year, b.year, 4);
  }

  /** Between the years 0 and 9999 the rendered text determines the instant to the microsecond,
      although trailing zeros of the fraction are dropped. */
  lemma FormatAtInjective(a: Timestamp, b: Timestamp)
    requires a.Valid() && b.Valid()
    ensures FormatAt(a) == FormatAt(b) <==> a.Truncated() == b.Truncated()
  {
    if FormatAt(a) == FormatAt(b) {
      assert |FormatSeconds(a)| == 19 == |FormatSeconds(b)|;
      assert FormatAt(a)[..19] == FormatSeconds(a) && FormatAt(b)[..19] == FormatSeconds(b);
      assert FormatAt(a)[19..] == Fraction(a) && FormatAt(b)[19..] == Fraction(b);
      FormatSecondsInjective(a, b);
      var x, y := a.nanos / 1000, b.nanos / 1000;
      if x != 0 && y != 0 {
        assert Fraction(a)[1..] == TrimZeros(Padded(x, 6));
        assert Fraction(b)[1..] == TrimZeros(Padded(y, 6));
        TrimZerosInjective(Padded(x, 6), Padded(y, 6));
        assert Pow10(6) == 1_000_000 by { assert Pow10(4) == 10000; }
        PaddedInjective(x, y, 6);
      }
    }
  }

  lemma {:induction false} TrimZerosHasNoBar(s: string)
    requires '|' !in s
    ensures '|' !in TrimZeros(s)
  {
    TrimZerosRestores(s);
    assert forall i :: 0 <= i < |TrimZeros(s)| ==> TrimZeros(s)[i] == s[i];
  }

  lemma FormatAtHasNoBar(t: Timestamp)
    ensures '|' !in FormatAt(t)
  {
    hide Padded; hide TrimZeros; hide Numeral;
    assert DigitValue('|') == 16;
    TrimZerosHasNoBar(Padded(t.nanos / 1000, 6));
  }

  // ---------------------------------------------------------------- rows

  /** No hashed field but the statement contains the separator. */
  predicate BarOnlyInStatement(r: Row) {
    '|' !in r.prevHash && '|' !in r.actor && '|' !in r.actorKind && '|' !in r.tool && '|' !in r.session &&
    '|' !in r.branch && '|' !in r.commandTag && '|' !in r.objectType && '|' !in r.objectIdentity &&
    '|' !in r.status && '|' !in r.risk
  }

  /** All hashed fields agree (the time to the microsecond). */
  predicate SameHashedFields(a: Row, b: Row) {
    a.(at := a.at.Truncated(), rowHash := "", extHash := "")
    == b.(at := b.at.Truncated(), rowHash := "", extHash := "")
  }

  /** Rows that keep '|' to their statement hash the same text exactly when all hashed fields agree. */
  lemma PreimageInjective(a: Row, b: Row)
    requires a.at.Valid() && b.at.Valid()
    requires BarOnlyInStatement(a) && BarOnlyInStatement(b)
    ensures Preimage(a) == Preimage(b) <==> SameHashedFields(a, b)
  {
    hide FormatAt; hide FormatInt; hide Join;
    var x, y := Fields(a), Fields(b);
    FormatAtInjective(a.at, b.at);
    if Preimage(a) == Preimage(b) {
      FormatAtHasNoBar(a.at);
      FormatAtHasNoBar(b.at);
      FormatIntHasNo(a.id, '|');
      FormatIntHasNo(b.id, '|');
      JoinInjective(x, y, STATEMENT, '|');
      assert x[0] == y[0] && x[1] == y[1] && x[2] == y[2] && x[3] == y[3] && x[4] == y[4] && x[5] == y[5] && x[6] == y[6];
      assert x[7] == y[7] && x[8] == y[8] && x[9] == y[9] && x[10] == y[10] && x[11] == y[11] && x[12] == y[12] && x[13] == y[13];
      FormatIntInjective(a.id, b.id);
    }
  }

  lemma FieldsAround(r: Row, actor: string, kind: string)
    ensures Fields(r.(actor := actor, actorKind := kind)) == Fields(r)[..3] + ([actor, kind] + Fields(r)[5..])
  {
  }

  /** A '|' elsewhere breaks this: actor `x|y` of kind `z` hashes like actor `x` of kind `y|z`. */
  lemma PreimageAmbiguousWithBars(r: Row, x: string, y: string, z: string)
    ensures var a, b := r.(actor := x + "|" + y, actorKind := z), r.(actor := x, actorKind := y + "|" + z);
            Preimage(a) == Preimage(b) && !SameHashedFields(a, b)
  {
    var head, rest := Fields(r)[..3], Fields(r)[5..];
    FieldsAround(r, x + "|" + y, z);
    FieldsAround(r, x, y + "|" + z);
    JoinRegroup(x, y, z, '|');
    JoinCongruence(head, [x + "|" + y, z], [x, y + "|" + z], rest, '|');
    assert |x + "|" + y| > |x|;
  }
}
