/** Block keys behave like token prefixes: a key pins down everything before it, shared keys count shared
    blocks, and a chain of keys can be resumed from its last key. */
module BlockKeyTheorems {
  import opened Text
  import opened Cbor
  import opened BlockKeys

  /** No two of these byte strings have the same hash. */
  ghost predicate CollisionFree(db: Database, inputs: set<seq<Byte>>) {
    forall x, y {:trigger Collide(db, x, y)} :: x in inputs && y in inputs ==> !Collide(db, x, y)
  }

  predicate Collide(db: Database, x: seq<Byte>, y: seq<Byte>) {
    x != y && db.hash(x) == db.hash(y)
  }

  ghost function BlockInput(db: Database, root: Word, blocks: seq<Tokens>, extras: seq<Extra>, k: nat): seq<Byte>
    requires |extras| == |blocks| && k < |blocks|
  {
    Encode(Payload(Before(root, Chain(db, root, blocks, extras), k), Some(blocks[k]), extras[k]))
  }

  /** Every byte string hashed for the blocks of one chain. */
  ghost function BlockInputs(db: Database, root: Word, blocks: seq<Tokens>, extras: seq<Extra>): set<seq<Byte>>
    requires |extras| == |blocks|
  {
    set k | 0 <= k < |blocks| :: BlockInput(db, root, blocks, extras, k)
  }

  /** Equal keys of two chains come from equal parents, blocks and extras. */
  lemma EqualKeysEqualPayloads(
    db: Database, rootA: Word, a: seq<Tokens>, ea: seq<Extra>, i: nat, rootB: Word, b: seq<Tokens>, eb: seq<Extra>, j: nat)
    requires |ea| == |a| && |eb| == |b| && i < |a| && j < |b|
    requires CollisionFree(db, BlockInputs(db, rootA, a, ea) + BlockInputs(db, rootB, b, eb))
    requires Chain(db, rootA, a, ea)[i] == Chain(db, rootB, b, eb)[j]
    ensures Before(rootA, Chain(db, rootA, a, ea), i) == Before(rootB, Chain(db, rootB, b, eb), j)
    ensures a[i] == b[j] && ea[i] == eb[j]
  {
    ChainLinks(db, rootA, a, ea, i);
    ChainLinks(db, rootB, b, eb, j);
    assert !Collide(db, BlockInput(db, rootA, a, ea, i), BlockInput(db, rootB, b, eb, j)) by {
      assert BlockInput(db, rootA, a, ea, i) in BlockInputs(db, rootA, a, ea);
      assert BlockInput(db, rootB, b, eb, j) in BlockInputs(db, rootB, b, eb);
    }
    EncodeInjective(Payload(Before(rootA, Chain(db, rootA, a, ea), i), Some(a[i]), ea[i]),
      Payload(Before(rootB, Chain(db, rootB, b, eb), j), Some(b[j]), eb[j]));
  }

  // ---------- Keys of requests without a parent key ----------

  datatype Request = Request(model: Bytes, tokens: Tokens, extras: seq<Extra>)

  predicate Valid(db: Database, q: Request) {
    db.blockSize > 0 && |q.extras| == |Blocks(q.tokens, db.blockSize)|
  }

  function Keys(db: Database, q: Request): seq<Word>
    requires Valid(db, q)
  {
    KeysFrom(db, EMPTY_KEY, q.tokens, q.model, q.extras)
  }

  function RootPayload(db: Database, q: Request): Payload {
    Payload(db.initHash, None, ModelName(q.model))
  }

  /** Every byte string hashed for a request: its root and its blocks. */
  ghost function Inputs(db: Database, q: Request): set<seq<Byte>>
    requires Valid(db, q)
  {
    {Encode(RootPayload(db, q))}
    + BlockInputs(db, Root(db, EMPTY_KEY, q.model), Blocks(q.tokens, db.blockSize), q.extras)
  }

  /** The root of one request is never a block key of another: a root payload has no tokens. */
  lemma RootIsNoBlockKey(db: Database, p: Request, q: Request, j: nat)
    requires Valid(db, p) && Valid(db, q) && CollisionFree(db, Inputs(db, p) + Inputs(db, q)) && j < |Keys(db, q)|
    ensures Root(db, EMPTY_KEY, p.model) != Keys(db, q)[j]
  {
    var root, blocks := Root(db, EMPTY_KEY, q.model), Blocks(q.tokens, db.blockSize);
    ChainLinks(db, root, blocks, q.extras, j);
    if Root(db, EMPTY_KEY, p.model) == Keys(db, q)[j] {
      assert BlockInput(db, root, blocks, q.extras, j) in Inputs(db, q);
      assert Encode(RootPayload(db, p)) in Inputs(db, p);
      assert !Collide(db, Encode(RootPayload(db, p)), BlockInput(db, root, blocks, q.extras, j));
      EncodeInjective(RootPayload(db, p), Payload(Before(root, Keys(db, q), j), Some(blocks[j]), q.extras[j]));
      assert false;
    }
  }

  /** Equal keys of two requests: equal blocks and extras, and equal parents. */
  lemma KeyStep(db: Database, p: Request, q: Request, i: nat, j: nat)
    requires Valid(db, p) && Valid(db, q) && CollisionFree(db, Inputs(db, p) + Inputs(db, q))
    requires i < |Keys(db, p)| && j < |Keys(db, q)| && Keys(db, p)[i] == Keys(db, q)[j]
    ensures Before(Root(db, EMPTY_KEY, p.model), Keys(db, p), i) == Before(Root(db, EMPTY_KEY, q.model), Keys(db, q), j)
    ensures i > 0 && j > 0 ==> Keys(db, p)[i - 1] == Keys(db, q)[j - 1]
    ensures Blocks(p.tokens, db.blockSize)[i] == Blocks(q.tokens, db.blockSize)[j] && p.extras[i] == q.extras[j]
  {
    EqualKeysEqualPayloads(db, Root(db, EMPTY_KEY, p.model), Blocks(p.tokens, db.blockSize), p.extras, i,
      Root(db, EMPTY_KEY, q.model), Blocks(q.tokens, db.blockSize), q.extras, j);
  }

  /** Two requests share a root only if they name the same model. */
  lemma RootDeterminesModel(db: Database, p: Request, q: Request)
    requires Valid(db, p) && Valid(db, q) && CollisionFree(db, Inputs(db, p) + Inputs(db, q))
    requires Root(db, EMPTY_KEY, p.model) == Root(db, EMPTY_KEY, q.model)
    ensures p.model == q.model
  {
    assert Encode(RootPayload(db, p)) in Inputs(db, p) && Encode(RootPayload(db, q)) in Inputs(db, q);
    assert !Collide(db, Encode(RootPayload(db, p)), Encode(RootPayload(db, q)));
    EncodeInjective(RootPayload(db, p), RootPayload(db, q));
  }

  lemma ChainFirstIsNoLater(
    db: Database, rootA: Word, a: seq<Tokens>, ea: seq<Extra>, rootB: Word, b: seq<Tokens>, eb: seq<Extra>, j: nat)
    requires |ea| == |a| && |eb| == |b| && 0 < |a| && 0 < j < |b|
    requires CollisionFree(db, BlockInputs(db, rootA, a, ea) + BlockInputs(db, rootB, b, eb))
    requires rootA != Chain(db, rootB, b, eb)[j - 1]
    ensures Chain(db, rootA, a, ea)[0] != Chain(db, rootB, b, eb)[j]
  {
    if Chain(db, rootA, a, ea)[0] == Chain(db, rootB, b, eb)[j] {
      EqualKeysEqualPayloads(db, rootA, a, ea, 0, rootB, b, eb, j);
    }
  }

  lemma BlocksApart(db: Database, p: Request, q: Request)
    requires Valid(db, p) && Valid(db, q) && CollisionFree(db, Inputs(db, p) + Inputs(db, q))
    ensures CollisionFree(db,
              BlockInputs(db, Root(db, EMPTY_KEY, p.model), Blocks(p.tokens, db.blockSize), p.extras)
              + BlockInputs(db, Root(db, EMPTY_KEY, q.model), Blocks(q.tokens, db.blockSize), q.extras))
  {
  }

  /** A first key is no later key. */
  lemma FirstKeyIsNoLaterKey(db: Database, p: Request, q: Request, j: nat)
    requires Valid(db, p) && Valid(db, q) && CollisionFree(db, Inputs(db, p) + Inputs(db, q))
    requires 0 < |Keys(db, p)| && 0 < j < |Keys(db, q)|
    ensures Keys(db, p)[0] != Keys(db, q)[j]
  {
    RootIsNoBlockKey(db, p, q, j - 1);
    BlocksApart(db, p, q);
    ChainFirstIsNoLater(db, Root(db, EMPTY_KEY, p.model), Blocks(p.tokens, db.blockSize), p.extras,
      Root(db, EMPTY_KEY, q.model), Blocks(q.tokens, db.blockSize), q.extras, j);
  }

  lemma EqualFirstKeysShareModel(db: Database, p: Request, q: Request)
    requires Valid(db, p) && Valid(db, q) && CollisionFree(db, Inputs(db, p) + Inputs(db, q))
    requires 0 < |Keys(db, p)| && 0 < |Keys(db, q)| && Keys(db, p)[0] == Keys(db, q)[0]
    ensures p.model == q.model
  {
    KeyStep(db, p, q, 0, 0);
    RootDeterminesModel(db, p, q);
  }

  /** A first key equals only first keys, and only under the same model. */
  lemma FirstKeysMatch(db: Database, p: Request, q: Request, i: nat, j: nat)
    requires Valid(db, p) && Valid(db, q) && CollisionFree(db, Inputs(db, p) + Inputs(db, q))
    requires i < |Keys(db, p)| && j < |Keys(db, q)| && Keys(db, p)[i] == Keys(db, q)[j]
    ensures i == 0 ==> j == 0 && p.model == q.model
  {
    if i == 0 {
      if j > 0 {
        FirstKeyIsNoLaterKey(db, p, q, j);
      } else {
        EqualFirstKeysShareModel(db, p, q);
      }
    }
  }

  lemma FirstKeysMatchBothWays(db: Database, p: Request, q: Request, i: nat, j: nat)
    requires Valid(db, p) && Valid(db, q) && CollisionFree(db, Inputs(db, p) + Inputs(db, q))
    requires i < |Keys(db, p)| && j < |Keys(db, q)| && Keys(db, p)[i] == Keys(db, q)[j]
    ensures i == 0 <==> j == 0
    ensures i == 0 ==> p.model == q.model
  {
    FirstKeysMatch(db, p, q, i, j);
    assert Inputs(db, q) + Inputs(db, p) == Inputs(db, p) + Inputs(db, q);
    FirstKeysMatch(db, q, p, j, i);
  }

  /** Equal entries of the two lists are both first, or follow equal entries. */
  ghost predicate Lockstep(a: seq<Word>, b: seq<Word>) {
    forall i, j :: 0 <= i < |a| && 0 <= j < |b| && a[i] == b[j] ==>
      (i == 0 <==> j == 0) && (i > 0 && j > 0 ==> a[i - 1] == b[j - 1])
  }

  lemma {:induction false} LockstepDepth(a: seq<Word>, b: seq<Word>, i: nat, j: nat)
    requires Lockstep(a, b) && i < |a| && j < |b| && a[i] == b[j]
    ensures i == j && a[0] == b[0]
    decreases i
  {
    if i > 0 {
      LockstepDepth(a, b, i - 1, j - 1);
    }
  }

  lemma KeyDeterminesDepth(db: Database, p: Request, q: Request, i: nat, j: nat)
    requires Valid(db, p) && Valid(db, q) && CollisionFree(db, Inputs(db, p) + Inputs(db, q))
    requires i < |Keys(db, p)| && j < |Keys(db, q)| && Keys(db, p)[i] == Keys(db, q)[j]
    ensures i == j && p.model == q.model
  {
    var a, b := Keys(db, p), Keys(db, q);
    forall k, l | 0 <= k < |a| && 0 <= l < |b| && a[k] == b[l]
      ensures (k == 0 <==> l == 0) && (k > 0 && l > 0 ==> a[k - 1] == b[l - 1])
    {
      FirstKeysMatchBothWays(db, p, q, k, l);
      KeyStep(db, p, q, k, l);
    }
    LockstepDepth(a, b, i, j);
    FirstKeysMatch(db, p, q, 0, 0);
  }

  /** Equal entries of the key lists a and b stand for equal items, and follow equal entries. */
  ghost predicate Backwards<T>(a: seq<Word>, b: seq<Word>, s: seq<T>, t: seq<T>) {
    && |s| == |a| && |t| == |b|
    && forall k :: 0 <= k < |a| && k < |b| && a[k] == b[k] ==> s[k] == t[k] && (k > 0 ==> a[k - 1] == b[k - 1])
  }

  lemma {:induction false} BackwardsPrefix<T>(a: seq<Word>, b: seq<Word>, s: seq<T>, t: seq<T>, i: nat)
    requires Backwards(a, b, s, t) && i < |a| && i < |b| && a[i] == b[i]
    ensures s[..i + 1] == t[..i + 1]
  {
    if i > 0 {
      BackwardsPrefix(a, b, s, t, i - 1);
    }
    ExtendPrefix(s, t, i);
  }

  lemma KeyDeterminesBlocks(db: Database, p: Request, q: Request, i: nat)
    requires Valid(db, p) && Valid(db, q) && CollisionFree(db, Inputs(db, p) + Inputs(db, q))
    requires i < |Keys(db, p)| && i < |Keys(db, q)| && Keys(db, p)[i] == Keys(db, q)[i]
    ensures Blocks(p.tokens, db.blockSize)[..i + 1] == Blocks(q.tokens, db.blockSize)[..i + 1]
    ensures p.extras[..i + 1] == q.extras[..i + 1]
  {
    var a, b := Keys(db, p), Keys(db, q);
    var s, t := Blocks(p.tokens, db.blockSize), Blocks(q.tokens, db.blockSize);
    forall k | 0 <= k < |a| && k < |b| && a[k] == b[k]
      ensures s[k] == t[k] && p.extras[k] == q.extras[k] && (k > 0 ==> a[k - 1] == b[k - 1])
    {
      KeyStep(db, p, q, k, k);
    }
    BackwardsPrefix(a, b, s, t, i);
    BackwardsPrefix(a, b, p.extras, q.extras, i);
  }

  lemma ExtendPrefix<T>(a: seq<T>, b: seq<T>, i: nat)
    requires i < |a| && i < |b| && a[i] == b[i] && a[..i] == b[..i]
    ensures a[..i + 1] == b[..i + 1]
  {
    assert a[..i + 1] == a[..i] + [a[i]] && b[..i + 1] == b[..i] + [b[i]];
  }

  /** Equal leading blocks are equal leading tokens. */
  lemma {:induction false} BlocksPrefix(t: Tokens, u: Tokens, size: nat, n: nat)
    requires size > 0 && n <= |Blocks(t, size)| && n <= |Blocks(u, size)|
    ensures Span(n, size) <= |t| && Span(n, size) <= |u|
    ensures Blocks(t, size)[..n] == Blocks(u, size)[..n] <==> t[..Span(n, size)] == u[..Span(n, size)]
    decreases n
  {
    if n > 0 {
      var k := n - 1;
      BlocksPrefix(t, u, size, k);
      BlockIsWindow(t, size, k);
      BlockIsWindow(u, size, k);
      assert Blocks(t, size)[..n] == Blocks(t, size)[..k] + [Blocks(t, size)[k]];
      assert Blocks(u, size)[..n] == Blocks(u, size)[..k] + [Blocks(u, size)[k]];
      assert t[..Span(n, size)] == t[..Span(k, size)] + t[Span(k, size)..Span(n, size)];
      assert u[..Span(n, size)] == u[..Span(k, size)] + u[Span(k, size)..Span(n, size)];
      SplitEqual(t[..Span(k, size)], t[Span(k, size)..Span(n, size)], u[..Span(k, size)], u[Span(k, size)..Span(n, size)]);
    }
  }

  lemma SplitEqual<T>(a: seq<T>, b: seq<T>, c: seq<T>, d: seq<T>)
    requires |a| == |c|
    ensures a + b == c + d <==> a == c && b == d
  {
    assert a == (a + b)[..|a|] && b == (a + b)[|a|..];
    assert c == (c + d)[..|c|] && d == (c + d)[|c|..];
  }

  /** One key that occurs in the key lists of two requests means the same model, the same depth, the same
      tokens up to and including the block, and the same extras. */
  lemma KeyDeterminesPrefix(db: Database, p: Request, q: Request, i: nat, j: nat)
    requires Valid(db, p) && Valid(db, q) && CollisionFree(db, Inputs(db, p) + Inputs(db, q))
    requires i < |Keys(db, p)| && j < |Keys(db, q)| && Keys(db, p)[i] == Keys(db, q)[j]
    ensures p.model == q.model && i == j
    ensures Span(i + 1, db.blockSize) <= |p.tokens| && Span(i + 1, db.blockSize) <= |q.tokens|
    ensures p.tokens[..Span(i + 1, db.blockSize)] == q.tokens[..Span(i + 1, db.blockSize)]
    ensures p.extras[..i + 1] == q.extras[..i + 1]
  {
    KeyDeterminesDepth(db, p, q, i, j);
    KeyDeterminesBlocks(db, p, q, i);
    PrefixOfBlocks(p.tokens, q.tokens, db.blockSize, i + 1);
  }

  lemma PrefixOfBlocks(t: Tokens, u: Tokens, size: nat, n: nat)
    requires size > 0 && n <= |Blocks(t, size)| && n <= |Blocks(u, size)|
    requires Blocks(t, size)[..n] == Blocks(u, size)[..n]
    ensures Span(n, size) <= |t| && Span(n, size) <= |u| && t[..Span(n, size)] == u[..Span(n, size)]
  {
    BlocksPrefix(t, u, size, n);
  }

  // ---------- Two chains under one root ----------

  lemma ChainPrefix(db: Database, root: Word, blocks: seq<Tokens>, extras: seq<Extra>, n: nat)
    requires |extras| == |blocks| && n <= |blocks|
    ensures Chain(db, root, blocks, extras)[..n] == Chain(db, root, blocks[..n], extras[..n])
  {
    assert blocks == blocks[..n] + blocks[n..] && extras == extras[..n] + extras[n..];
    ChainAppend(db, root, blocks[..n], blocks[n..], extras[..n], extras[n..]);
  }

  lemma {:induction false} SameKeySameBlocks(
    db: Database, root: Word, a: seq<Tokens>, ea: seq<Extra>, b: seq<Tokens>, eb: seq<Extra>, k: nat)
    requires |ea| == |a| && |eb| == |b| && k < |a| && k < |b|
    requires CollisionFree(db, BlockInputs(db, root, a, ea) + BlockInputs(db, root, b, eb))
    requires Chain(db, root, a, ea)[k] == Chain(db, root, b, eb)[k]
    ensures a[..k + 1] == b[..k + 1] && ea[..k + 1] == eb[..k + 1]
    decreases k
  {
    EqualKeysEqualPayloads(db, root, a, ea, k, root, b, eb, k);
    if k > 0 {
      SameKeySameBlocks(db, root, a, ea, b, eb, k - 1);
    }
    ExtendPrefix(a, b, k);
    ExtendPrefix(ea, eb, k);
  }

  /** Equal leading keys come from equal leading blocks and extras. */
  lemma EqualKeysEqualFronts(
    db: Database, root: Word, a: seq<Tokens>, ea: seq<Extra>, b: seq<Tokens>, eb: seq<Extra>, n: nat)
    requires |ea| == |a| && |eb| == |b| && n <= |a| && n <= |b|
    requires CollisionFree(db, BlockInputs(db, root, a, ea) + BlockInputs(db, root, b, eb))
    requires Chain(db, root, a, ea)[..n] == Chain(db, root, b, eb)[..n]
    ensures a[..n] == b[..n] && ea[..n] == eb[..n]
  {
    if n > 0 {
      assert Chain(db, root, a, ea)[n - 1] == Chain(db, root, a, ea)[..n][n - 1];
      assert Chain(db, root, b, eb)[n - 1] == Chain(db, root, b, eb)[..n][n - 1];
      SameKeySameBlocks(db, root, a, ea, b, eb, n - 1);
    }
  }

  lemma EqualFrontsIff(
    db: Database, root: Word, a: seq<Tokens>, ea: seq<Extra>, b: seq<Tokens>, eb: seq<Extra>, n: nat)
    requires |ea| == |a| && |eb| == |b| && n <= |a| && n <= |b|
    requires CollisionFree(db, BlockInputs(db, root, a, ea) + BlockInputs(db, root, b, eb))
    ensures Chain(db, root, a, ea)[..n] == Chain(db, root, b, eb)[..n] <==> a[..n] == b[..n] && ea[..n] == eb[..n]
  {
    ChainPrefix(db, root, a, ea, n);
    ChainPrefix(db, root, b, eb, n);
    if Chain(db, root, a, ea)[..n] == Chain(db, root, b, eb)[..n] {
      EqualKeysEqualFronts(db, root, a, ea, b, eb, n);
    }
  }

  /** Under one root, the first n keys agree exactly when the first n blocks of tokens and extras do. */
  lemma KeysAgreeIff(db: Database, root: Word, t: Tokens, et: seq<Extra>, u: Tokens, eu: seq<Extra>, n: nat)
    requires db.blockSize > 0 && |et| == |Blocks(t, db.blockSize)| && |eu| == |Blocks(u, db.blockSize)|
    requires CollisionFree(db, BlockInputs(db, root, Blocks(t, db.blockSize), et)
                             + BlockInputs(db, root, Blocks(u, db.blockSize), eu))
    requires n <= |et| && n <= |eu|
    ensures Span(n, db.blockSize) <= |t| && Span(n, db.blockSize) <= |u|
    ensures Chain(db, root, Blocks(t, db.blockSize), et)[..n] == Chain(db, root, Blocks(u, db.blockSize), eu)[..n]
            <==> t[..Span(n, db.blockSize)] == u[..Span(n, db.blockSize)] && et[..n] == eu[..n]
  {
    BlocksPrefix(t, u, db.blockSize, n);
    EqualFrontsIff(db, root, Blocks(t, db.blockSize), et, Blocks(u, db.blockSize), eu, n);
  }

  /** The length of the longest common prefix. */
  function CommonPrefix<T(==)>(a: seq<T>, b: seq<T>): nat {
    if a == [] || b == [] || a[0] != b[0] then 0 else 1 + CommonPrefix(a[1..], b[1..])
  }

  lemma {:induction false} CommonPrefixMeaning<T>(a: seq<T>, b: seq<T>, n: nat)
    requires n <= |a| && n <= |b|
    ensures CommonPrefix(a, b) <= |a| && CommonPrefix(a, b) <= |b|
    ensures n <= CommonPrefix(a, b) <==> a[..n] == b[..n]
    decreases n
  {
    CommonPrefixBound(a, b);
    if n > 0 {
      assert a[..n] == [a[0]] + a[1..][..n - 1] && b[..n] == [b[0]] + b[1..][..n - 1];
      if a[0] == b[0] {
        CommonPrefixMeaning(a[1..], b[1..], n - 1);
      } else {
        assert a[..n][0] != b[..n][0];
      }
    }
  }

  lemma {:induction false} CommonPrefixBound<T>(a: seq<T>, b: seq<T>)
    ensures CommonPrefix(a, b) <= |a| && CommonPrefix(a, b) <= |b|
  {
    if a != [] && b != [] {
      CommonPrefixBound(a[1..], b[1..]);
    }
  }

  lemma QuotientAtLeast(c: nat, size: nat, n: nat)
    requires size > 0
    ensures n <= WholeBlocks(c, size) <==> Span(n, size) <= c
  {
    var q := WholeBlocks(c, size);
    DivBound(c, size);
    SpanIsProduct(n, size);
    SpanIsProduct(q, size);
    SpanIsProduct(q + 1, size);
    SpanMono(n, q, size);
    SpanMono(q + 1, n, size);
  }

  lemma {:induction false} SpanMono(a: nat, b: nat, size: nat)
    ensures a <= b ==> Span(a, size) <= Span(b, size)
  {
    if a < b {
      SpanMono(a, b - 1, size);
    }
  }

  lemma SharedAtLeast(db: Database, root: Word, t: Tokens, u: Tokens, n: nat)
    requires db.blockSize > 0
    requires var a, b := Blocks(t, db.blockSize), Blocks(u, db.blockSize);
             CollisionFree(db, BlockInputs(db, root, a, NoExtras(|a|)) + BlockInputs(db, root, b, NoExtras(|b|)))
    requires n <= |Blocks(t, db.blockSize)| && n <= |Blocks(u, db.blockSize)|
    ensures var a, b := Blocks(t, db.blockSize), Blocks(u, db.blockSize);
            n <= CommonPrefix(Chain(db, root, a, NoExtras(|a|)), Chain(db, root, b, NoExtras(|b|)))
            <==> n <= WholeBlocks(CommonPrefix(t, u), db.blockSize)
  {
    var a, b := Blocks(t, db.blockSize), Blocks(u, db.blockSize);
    var ea, eb := NoExtras(|a|), NoExtras(|b|);
    KeysAgreeIff(db, root, t, ea, u, eb, n);
    assert ea[..n] == eb[..n];
    CommonPrefixMeaning(Chain(db, root, a, ea), Chain(db, root, b, eb), n);
    CommonPrefixMeaning(t, u, Span(n, db.blockSize));
    QuotientAtLeast(CommonPrefix(t, u), db.blockSize, n);
  }

  /** For two token lists under one root, the number of shared leading keys is the number of whole blocks
      in their longest common prefix. */
  lemma SharedKeysCountSharedBlocks(db: Database, root: Word, t: Tokens, u: Tokens)
    requires db.blockSize > 0
    requires var a, b := Blocks(t, db.blockSize), Blocks(u, db.blockSize);
             CollisionFree(db, BlockInputs(db, root, a, NoExtras(|a|)) + BlockInputs(db, root, b, NoExtras(|b|)))
    ensures var a, b := Blocks(t, db.blockSize), Blocks(u, db.blockSize);
            CommonPrefix(Chain(db, root, a, NoExtras(|a|)), Chain(db, root, b, NoExtras(|b|)))
            == WholeBlocks(CommonPrefix(t, u), db.blockSize)
  {
    var a, b := Blocks(t, db.blockSize), Blocks(u, db.blockSize);
    var common := CommonPrefix(Chain(db, root, a, NoExtras(|a|)), Chain(db, root, b, NoExtras(|b|)));
    var shared := WholeBlocks(CommonPrefix(t, u), db.blockSize);
    BlockCount(t, db.blockSize);
    BlockCount(u, db.blockSize);
    CommonPrefixBound(Chain(db, root, a, NoExtras(|a|)), Chain(db, root, b, NoExtras(|b|)));
    CommonPrefixBound(t, u);
    QuotientAtLeast(CommonPrefix(t, u), db.blockSize, shared);
    QuotientAtLeast(|t|, db.blockSize, shared);
    QuotientAtLeast(|u|, db.blockSize, shared);
    SharedAtLeast(db, root, t, u, common);
    SharedAtLeast(db, root, t, u, shared);
  }

  // ---------- Resuming ----------

  /** The keys of a longer token list are those of its whole-block front, then those of the rest chained
      from the last key. */
  lemma KeysContinue(
    db: Database, parentKey: Word, a: Tokens, b: Tokens, model: Bytes, ea: seq<Extra>, eb: seq<Extra>)
    requires db.blockSize > 0 && |a| % db.blockSize == 0 && a != [] && |a + b| < TWO_64
    requires |ea| == |Blocks(a, db.blockSize)| && |eb| == |Blocks(b, db.blockSize)|
    ensures |Blocks(a + b, db.blockSize)| == |ea + eb| && |KeysFrom(db, parentKey, a, model, ea)| > 0
    ensures var front := KeysFrom(db, parentKey, a, model, ea);
            KeysFrom(db, parentKey, a + b, model, ea + eb)
            == front + Chain(db, front[|front| - 1], Blocks(b, db.blockSize), eb)
  {
    BlocksAppend(a, b, db.blockSize);
    assert |Blocks(a, db.blockSize)| > 0 by {
      BlockCount(a, db.blockSize);
      assert |a| == (|a| / db.blockSize) * db.blockSize;
    }
    ChainAppend(db, Root(db, parentKey, model), Blocks(a, db.blockSize), Blocks(b, db.blockSize), ea, eb);
  }

  /** Passing the last key as parent resumes the chain exactly when that key is not the empty key, or there
      is no further block, or the model's root is the empty key itself. */
  lemma ResumeIff(
    db: Database, parentKey: Word, a: Tokens, b: Tokens, model: Bytes, ea: seq<Extra>, eb: seq<Extra>)
    requires db.blockSize > 0 && |a| % db.blockSize == 0 && a != [] && |a + b| < TWO_64
    requires |ea| == |Blocks(a, db.blockSize)| && |eb| == |Blocks(b, db.blockSize)|
    requires CollisionFree(db, BlockInputs(db, EMPTY_KEY, Blocks(b, db.blockSize), eb)
                             + BlockInputs(db, Root(db, EMPTY_KEY, model), Blocks(b, db.blockSize), eb))
    ensures |Blocks(a + b, db.blockSize)| == |ea + eb| && |KeysFrom(db, parentKey, a, model, ea)| > 0
    ensures var front := KeysFrom(db, parentKey, a, model, ea);
            var last := front[|front| - 1];
            KeysFrom(db, parentKey, a + b, model, ea + eb) == front + KeysFrom(db, last, b, model, eb)
            <==> last != EMPTY_KEY || |b| < db.blockSize || Root(db, EMPTY_KEY, model) == EMPTY_KEY
  {
    KeysContinue(db, parentKey, a, b, model, ea, eb);
    var front := KeysFrom(db, parentKey, a, model, ea);
    var last, blocks := front[|front| - 1], Blocks(b, db.blockSize);
    var chained, resumed := Chain(db, last, blocks, eb), KeysFrom(db, last, b, model, eb);
    SplitEqual(front, chained, front, resumed);
    if last == EMPTY_KEY && |b| >= db.blockSize && chained == resumed {
      EqualKeysEqualPayloads(db, EMPTY_KEY, blocks, eb, 0, Root(db, EMPTY_KEY, model), blocks, eb, 0);
    }
  }

  // ---------- A chain that cannot be resumed ----------

  /** A hash that tells three payloads apart from each other and from the rest, one of them by the empty key. */
  function ThreeWay(one: Payload, empty: Payload, two: Payload): seq<Byte> -> Word {
    bytes => if bytes == Encode(one) then 1 else if bytes == Encode(empty) then 0 else if bytes == Encode(two) then 2 else 3
  }

  lemma ThreeWayOn(one: Payload, empty: Payload, two: Payload, p: Payload)
    ensures ThreeWay(one, empty, two)(Encode(p)) == if p == one then 1 else if p == empty then 0 else if p == two then 2 else 3
  {
    EncodeEqual(p, one);
    EncodeEqual(p, empty);
    EncodeEqual(p, two);
  }

  lemma EncodeEqual(p: Payload, q: Payload)
    ensures Encode(p) == Encode(q) <==> p == q
  {
    if Encode(p) == Encode(q) {
      EncodeInjective(p, q);
    }
  }

  function SampleDb(model: Bytes, a: Token, b: Token): Database {
    Database(1, 7, ThreeWay(Payload(7, None, ModelName(model)), Payload(1, Some([a]), NoExtra), Payload(0, Some([b]), NoExtra)))
  }

  lemma SampleKey(model: Bytes, a: Token, b: Token, parent: Word, token: Token)
    ensures Digest(SampleDb(model, a, b), parent, Some([token]), NoExtra)
            == if parent == 1 && token == a then 0 else if parent == 0 && token == b then 2 else 3
  {
    ThreeWayOn(Payload(7, None, ModelName(model)), Payload(1, Some([a]), NoExtra), Payload(0, Some([b]), NoExtra),
      Payload(parent, Some([token]), NoExtra));
    assert [token] == [a] <==> token == a by { assert [token][0] == token; }
    assert [token] == [b] <==> token == b by { assert [token][0] == token; }
  }

  lemma SampleRoot(model: Bytes, a: Token, b: Token)
    ensures Root(SampleDb(model, a, b), EMPTY_KEY, model) == 1
  {
    ThreeWayOn(Payload(7, None, ModelName(model)), Payload(1, Some([a]), NoExtra), Payload(0, Some([b]), NoExtra),
      Payload(7, None, ModelName(model)));
  }

  lemma OneTokenKeys(db: Database, parentKey: Word, token: Token, model: Bytes)
    requires db.blockSize == 1
    ensures Blocks([token], 1) == [[token]]
    ensures KeysFrom(db, parentKey, [token], model, [NoExtra])
         == [Digest(db, Root(db, parentKey, model), Some([token]), NoExtra)]
  {
    assert [token][..1] == [token];
  }

  /** A database, with blocks of one token, on which a chain ends in the empty key: passing that key as parent
      starts again from the model's root, so the resumed keys are not those of the whole token list. */
  lemma EmptyLastKeyIsNotResumed(model: Bytes, a: Token, b: Token)
    requires a != b
    ensures |Blocks([a] + [b], 1)| == |[NoExtra] + [NoExtra]| && |Blocks([a], 1)| == |Blocks([b], 1)| == |[NoExtra]|
    ensures var db := SampleDb(model, a, b);
            && KeysFrom(db, EMPTY_KEY, [a], model, [NoExtra]) == [EMPTY_KEY]
            && KeysFrom(db, EMPTY_KEY, [a] + [b], model, [NoExtra] + [NoExtra]) == [EMPTY_KEY, 2]
            && KeysFrom(db, EMPTY_KEY, [b], model, [NoExtra]) == [3]
  {
    var db := SampleDb(model, a, b);
    SampleRoot(model, a, b);
    SampleKey(model, a, b, 1, a);
    SampleKey(model, a, b, 0, b);
    SampleKey(model, a, b, 1, b);
    OneTokenKeys(db, EMPTY_KEY, a, model);
    OneTokenKeys(db, EMPTY_KEY, b, model);
    KeysContinue(db, EMPTY_KEY, [a], [b], model, [NoExtra], [NoExtra]);
    assert Chain(db, EMPTY_KEY, [[b]], [NoExtra]) == [2];
  }
}
