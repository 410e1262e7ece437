/** Content hashes. SHA-256 in hex is a parameter `sha`, assumed collision-free. */
module Hashing {
  type Byte = b: int | 0 <= b < 256
  type Bytes = seq<Byte>

  /** The text of a digest; the empty text stands for "no hash recorded". */
  type Hash = Bytes
  type Sha = Bytes -> Hash

  const COMMA: Byte := 44

  /** A digest text is never empty and holds no separator. */
  ghost predicate Digest(h: Hash) {
    h != [] && COMMA !in h
  }

  /** The idealisation of SHA-256 used throughout: distinct bytes, distinct digests. */
  ghost predicate Ideal(sha: Sha) {
    && (forall a, b :: sha(a) == sha(b) ==> a == b)
    && (forall a :: Digest(sha(a)))
  }

  /** The digests of a chunk manifest, separated by commas. */
  function Join(hs: seq<Hash>): Bytes {
    if |hs| == 0 then []
    else if |hs| == 1 then hs[0]
    else hs[0] + [COMMA] + Join(hs[1..])
  }

  /** One hash standing for a whole chunk manifest. */
  function CompositeHash(sha: Sha, hs: seq<Hash>): Hash {
    if |hs| == 0 then sha([]) else sha(Join(hs))
  }

  ghost predicate Digests(hs: seq<Hash>) {
    forall i :: 0 <= i < |hs| ==> Digest(hs[i])
  }

  lemma HeadLengthsDiffer(a: Hash, b: Hash, s: Bytes, t: Bytes)
    requires |a| < |b| && COMMA !in b
    requires s == [] || s[0] == COMMA
    ensures a + s != b + t
  {
    assert (b + t)[|a|] == b[|a|];
    assert s != [] ==> (a + s)[|a|] == COMMA;
  }

  lemma JoinHeadUnique(a: Hash, b: Hash, s: Bytes, t: Bytes)
    requires COMMA !in a && COMMA !in b
    requires s == [] || s[0] == COMMA
    requires t == [] || t[0] == COMMA
    requires a + s == b + t
    ensures a == b && s == t
  {
    assert |a| == |b| by {
      if |a| < |b| { HeadLengthsDiffer(a, b, s, t); }
      if |b| < |a| { HeadLengthsDiffer(b, a, t, s); }
    }
    assert a == (a + s)[..|a|] == (b + t)[..|b|] == b;
    assert s == (a + s)[|a|..] == (b + t)[|b|..] == t;
  }

  /** The comma-joined text determines the list of digests. */
  lemma {:induction false} JoinInjective(a: seq<Hash>, b: seq<Hash>)
    requires Digests(a) && Digests(b)
    requires Join(a) == Join(b)
    ensures a == b
  {
    if |a| == 0 || |b| == 0 {
      assert |a| > 0 ==> |Join(a)| > 0;
      assert |b| > 0 ==> |Join(b)| > 0;
    } else {
      var s := if |a| == 1 then [] else [COMMA] + Join(a[1..]);
      var t := if |b| == 1 then [] else [COMMA] + Join(b[1..]);
      assert Join(a) == a[0] + s;
      assert Join(b) == b[0] + t;
      JoinHeadUnique(a[0], b[0], s, t);
      if |a| > 1 {
        assert s[1..] == Join(a[1..]) && t[1..] == Join(b[1..]);
        JoinInjective(a[1..], b[1..]);
        assert a == [a[0]] + a[1..] && b == [b[0]] + b[1..];
      }
    }
  }

  /** Composite hashes agree exactly when the manifests agree. */
  lemma CompositeInjective(sha: Sha, a: seq<Hash>, b: seq<Hash>)
    requires Ideal(sha) && Digests(a) && Digests(b)
    ensures CompositeHash(sha, a) == CompositeHash(sha, b) <==> a == b
  {
    if CompositeHash(sha, a) == CompositeHash(sha, b) {
      assert Join(a) == Join(b);
      JoinInjective(a, b);
    }
  }
}
