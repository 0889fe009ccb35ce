/** SHA-256 as the ledger uses it. Go strings are byte strings: one char stands for one byte.
    The hash is a parameter of everything below. What is assumed of it is never that it has no
    collisions at all (no 32-byte hash has that), only that no two of the finitely many strings
    one computation hashed collide. */
module Hashing {

  const DIGEST_SIZE := 32

  predicate IsDigest(d: string) {
    |d| == DIGEST_SIZE && forall i :: 0 <= i < |d| ==> d[i] < 256 as char
  }

  const ZERO_DIGEST := seq(DIGEST_SIZE, _ => '\0')

  type Digest = d: string | IsDigest(d) witness ZERO_DIGEST

  type Hasher = string -> Digest

  /** No two different strings of `inputs` have the same digest. */
  ghost predicate NoCollisions(sha: Hasher, inputs: set<string>) {
    forall x, y :: x in inputs && y in inputs && sha(x) == sha(y) ==> x == y
  }

  function HexChar(n: nat): char
    requires n < 16
  {
    if n < 10 then '0' + n as char else 'a' + (n - 10) as char
  }

  /** hex.EncodeToString */
  function Hex(d: Digest): (s: string)
    ensures |s| == 64
    ensures forall i :: 0 <= i < 64 ==> '0' <= s[i] <= '9' || 'a' <= s[i] <= 'f'
  {
    seq(64, i requires 0 <= i < 64 =>
      HexChar(if i % 2 == 0 then d[i / 2] as int / 16 else d[i / 2] as int % 16))
  }

  lemma HexInjective(a: Digest, b: Digest)
    requires Hex(a) == Hex(b)
    ensures a == b
  {
    forall k | 0 <= k < DIGEST_SIZE
      ensures a[k] == b[k]
    {
      assert Hex(a)[2 * k] == Hex(b)[2 * k];
      assert Hex(a)[2 * k + 1] == Hex(b)[2 * k + 1];
    }
  }
}
