/** Prefix-cache block keys: tokens are cut into blocks and every block's key is the hash of its parent's
    key, its tokens and its extra features. */
module BlockKeys {
  import opened Text
  import opened Cbor

  /** The per-block features of a request; a nil hash list is kept apart from an empty one. */
  datatype Features = Features(mmHashes: Option<Identifiers>)

  /** The processor's configuration; hash is the 64-bit hash of a byte string, left abstract. */
  datatype Database = Database(blockSize: nat, initHash: Word, hash: seq<Byte> -> Word)

  const EMPTY_KEY: Word := 0

  /** What a block's features contribute to the payload: no features and a nil list are both null. */
  function ExtraOf(features: Option<Features>): Extra {
    match features
    case None => NoExtra
    case Some(f) => match f.mmHashes case None => NoExtra case Some(ids) => MMHashes(ids)
  }

  function Digest(db: Database, parent: Word, tokens: Option<Tokens>, extra: Extra): Word {
    db.hash(Encode(Payload(parent, tokens, extra)))
  }

  // ---------- Blocks ----------

  function Blocks(tokens: Tokens, size: nat): seq<Tokens>
    requires size > 0
    decreases |tokens|
  {
    if |tokens| < size then [] else [tokens[..size]] + Blocks(tokens[size..], size)
  }

  /** The number of tokens in a number of blocks. */
  function Span(blocks: nat, size: nat): nat {
    if blocks == 0 then 0 else Span(blocks - 1, size) + size
  }

  /** The number of whole blocks in a number of tokens. */
  function WholeBlocks(length: nat, size: nat): nat
    requires size > 0
  {
    length / size
  }

  lemma {:induction false} SpanIsProduct(blocks: nat, size: nat)
    ensures Span(blocks, size) == blocks * size
  {
    if blocks > 0 {
      SpanIsProduct(blocks - 1, size);
      assert blocks * size == (blocks - 1) * size + size;
    }
  }

  lemma DivUnique(n: nat, size: nat, q: nat, r: nat)
    requires r < size && n == q * size + r
    ensures n / size == q && n % size == r
  {
    var d := n / size - q;
    assert n == (n / size) * size + n % size;
    assert d * size == r - n % size;
    assert d >= 1 ==> d * size >= size;
    assert d <= -1 ==> d * size + size <= 0;
  }

  lemma DivPlus(n: nat, size: nat)
    requires size > 0
    ensures (n + size) / size == n / size + 1 && (n + size) % size == n % size
  {
    assert (n / size + 1) * size == (n / size) * size + size;
    DivUnique(n + size, size, n / size + 1, n % size);
  }

  lemma BlockBounds(length: nat, size: nat, k: nat)
    requires size > 0 && k < WholeBlocks(length, size)
    ensures Span(k + 1, size) <= length && Span(k, size) + size == Span(k + 1, size)
  {
    DivBound(length, size);
    MulMono(k + 1, WholeBlocks(length, size), size);
    SpanIsProduct(k + 1, size);
  }

  lemma DivBound(n: nat, size: nat)
    requires size > 0
    ensures WholeBlocks(n, size) * size <= n < WholeBlocks(n, size) * size + size
  {
  }

  lemma MulMono(a: nat, b: nat, c: nat)
    requires a <= b
    ensures a * c <= b * c
  {
    assert b * c == a * c + (b - a) * c;
  }

  lemma {:induction false} BlockCount(tokens: Tokens, size: nat)
    requires size > 0
    ensures |Blocks(tokens, size)| == WholeBlocks(|tokens|, size)
    decreases |tokens|
  {
    if |tokens| >= size {
      BlockCount(tokens[size..], size);
      DivPlus(|tokens| - size, size);
    }
  }

  lemma DropSlice<T>(s: seq<T>, n: nat, low: nat, high: nat)
    requires low <= high && n + high <= |s|
    ensures s[n..][low..high] == s[n + low..n + high]
  {
  }

  /** Block k is the k-th window of the tokens. */
  lemma {:induction false} BlockIsWindow(tokens: Tokens, size: nat, k: nat)
    requires size > 0 && k < |Blocks(tokens, size)|
    ensures Span(k, size) <= Span(k + 1, size) <= |tokens|
    ensures Blocks(tokens, size)[k] == tokens[Span(k, size)..Span(k + 1, size)]
    decreases k
  {
    BlockCount(tokens, size);
    BlockBounds(|tokens|, size, k);
    if k > 0 {
      var rest, low, high := tokens[size..], Span(k - 1, size), Span(k, size);
      BlockIsWindow(rest, size, k - 1);
      assert high == low + size && Span(k + 1, size) == high + size;
      DropSlice(tokens, size, low, high);
    }
  }

  function Concat(blocks: seq<Tokens>): seq<Token> {
    if blocks == [] then [] else blocks[0] + Concat(blocks[1..])
  }

  /** The blocks, put together again, are the longest block-aligned prefix of the tokens. */
  lemma {:induction false} BlocksSpellPrefix(tokens: Tokens, size: nat)
    requires size > 0
    ensures Span(|Blocks(tokens, size)|, size) <= |tokens| < Span(|Blocks(tokens, size)| + 1, size)
    ensures Concat(Blocks(tokens, size)) == tokens[..Span(|Blocks(tokens, size)|, size)]
    decreases |tokens|
  {
    if |tokens| >= size {
      var rest := tokens[size..];
      BlocksSpellPrefix(rest, size);
      var n := |Blocks(rest, size)|;
      assert Blocks(tokens, size)[1..] == Blocks(rest, size) && Blocks(tokens, size)[0] == tokens[..size];
      assert Span(n + 1, size) == Span(n, size) + size;
      assert tokens[..Span(n, size) + size] == tokens[..size] + rest[..Span(n, size)];
    }
  }

  lemma {:induction false} BlocksAppend(a: Tokens, b: Tokens, size: nat)
    requires size > 0 && |a| % size == 0 && |a + b| < TWO_64
    ensures Blocks(a + b, size) == Blocks(a, size) + Blocks(b, size)
    decreases |a|
  {
    if a == [] {
      assert a + b == b;
    } else {
      assert |a| >= size;
      assert (a + b)[..size] == a[..size] && (a + b)[size..] == a[size..] + b;
      assert |a[size..]| % size == 0 by { assert |a| == |a[size..]| + size; DivPlus(|a[size..]|, size); }
      BlocksAppend(a[size..], b, size);
    }
  }

  // ---------- Chains of keys ----------

  function Chain(db: Database, parent: Word, blocks: seq<Tokens>, extras: seq<Extra>): (keys: seq<Word>)
    requires |extras| == |blocks|
    ensures |keys| == |blocks|
    decreases |blocks|
  {
    if blocks == [] then []
    else
      var key := Digest(db, parent, Some(blocks[0]), extras[0]);
      [key] + Chain(db, key, blocks[1..], extras[1..])
  }

  /** The hash that precedes block k: the root for the first block, else the previous key. */
  function Before(root: Word, keys: seq<Word>, k: nat): Word
    requires k <= |keys|
  {
    if k == 0 then root else keys[k - 1]
  }

  lemma {:induction false} ChainLinks(db: Database, root: Word, blocks: seq<Tokens>, extras: seq<Extra>, k: nat)
    requires |extras| == |blocks| && k < |blocks|
    ensures var keys := Chain(db, root, blocks, extras);
            keys[k] == Digest(db, Before(root, keys, k), Some(blocks[k]), extras[k])
    decreases k
  {
    if k > 0 {
      var key := Digest(db, root, Some(blocks[0]), extras[0]);
      ChainLinks(db, key, blocks[1..], extras[1..], k - 1);
    }
  }

  lemma {:induction false} ChainAppend(
    db: Database, root: Word, a: seq<Tokens>, b: seq<Tokens>, ea: seq<Extra>, eb: seq<Extra>)
    requires |ea| == |a| && |eb| == |b|
    ensures Chain(db, root, a + b, ea + eb)
            == Chain(db, root, a, ea) + Chain(db, Before(root, Chain(db, root, a, ea), |a|), b, eb)
    decreases |a|
  {
    if a == [] {
      assert a + b == b && ea + eb == eb;
    } else {
      var key := Digest(db, root, Some(a[0]), ea[0]);
      var rest := Chain(db, key, a[1..], ea[1..]);
      ChainAppend(db, key, a[1..], b, ea[1..], eb);
      ConcatTail(a, b);
      ConcatTail(ea, eb);
      ConcatAssoc([key], rest, Chain(db, Before(key, rest, |a| - 1), b, eb));
    }
  }

  /** The parent key, or the hash of the model name when there is none. */
  function Root(db: Database, parentKey: Word, model: Bytes): Word {
    if parentKey != EMPTY_KEY then parentKey else Digest(db, db.initHash, None, ModelName(model))
  }

  function KeysFrom(db: Database, parentKey: Word, tokens: Tokens, model: Bytes, extras: seq<Extra>): seq<Word>
    requires db.blockSize > 0 && |extras| == |Blocks(tokens, db.blockSize)|
  {
    Chain(db, Root(db, parentKey, model), Blocks(tokens, db.blockSize), extras)
  }

  function NoExtras(count: nat): seq<Extra> {
    seq(count, _ => NoExtra)
  }

  function ExtrasOf(features: seq<Option<Features>>): (extras: seq<Extra>)
    ensures |extras| == |features|
  {
    seq(|features|, i requires 0 <= i < |features| => ExtraOf(features[i]))
  }

  /** One Extra per block, or an error when the caller's features do not line up with the blocks. */
  function ExtrasFor(features: Option<seq<Option<Features>>>, count: nat): Result<seq<Extra>> {
    match features
    case None => Ok(NoExtras(count))
    case Some(fs) =>
      if |fs| != count then Err("extraFeatures length does not match chunks length")
      else Ok(ExtrasOf(fs))
  }

  /** The keys of a request, or the error its features cause; without a whole block features do not matter. */
  function RequestKeys(
    db: Database, parentKey: Word, tokens: Tokens, model: Bytes, features: Option<seq<Option<Features>>>)
    : Result<seq<Word>>
    requires db.blockSize > 0
  {
    var count := |Blocks(tokens, db.blockSize)|;
    if count == 0 then Ok([])
    else match ExtrasFor(features, count)
      case Err(e) => Err(e)
      case Ok(extras) => Ok(KeysFrom(db, parentKey, tokens, model, extras))
  }

  method ChunkTokens(db: Database, tokens: Tokens) returns (chunks: seq<Tokens>)
    requires db.blockSize > 0
    ensures chunks == Blocks(tokens, db.blockSize)
  {
    chunks := [];
    var i := 0;
    while i < |tokens|
      invariant 0 <= i <= |tokens|
      invariant chunks + Blocks(tokens[i..], db.blockSize) == Blocks(tokens, db.blockSize)
    {
      var end := i + db.blockSize;
      if end > |tokens| {
        break;
      }
      assert tokens[i..][..db.blockSize] == tokens[i..end] && tokens[i..][db.blockSize..] == tokens[end..];
      chunks := chunks + [tokens[i..end]];
      i := end;
    }
  }

  method PrefixHashes(db: Database, parent: Word, chunks: seq<Tokens>, features: seq<Option<Features>>)
    returns (keys: seq<Word>)
    requires |features| == |chunks|
    ensures keys == Chain(db, parent, chunks, ExtrasOf(features))
  {
    var hashes := new Word[|chunks|];
    var prefix := parent;
    ghost var extras := ExtrasOf(features);
    ghost var all := Chain(db, parent, chunks, extras);
    for i := 0 to |chunks|
      invariant hashes[..i] == all[..i] && prefix == Before(parent, all, i)
    {
      ChainLinks(db, parent, chunks, extras, i);
      var extra := NoExtra;
      if features[i].Some? {
        extra := match features[i].value.mmHashes case None => NoExtra case Some(ids) => MMHashes(ids);
      }
      prefix := Digest(db, prefix, Some(chunks[i]), extra);
      hashes[i] := prefix;
    }
    keys := hashes[..];
  }

  method TokensToKVBlockKeys(
    db: Database, parentKey: Word, tokens: Tokens, model: Bytes, features: Option<seq<Option<Features>>>)
    returns (r: Result<seq<Word>>)
    requires db.blockSize > 0
    ensures r == RequestKeys(db, parentKey, tokens, model, features)
  {
    var parent := parentKey;
    if parentKey == EMPTY_KEY {
      parent := Digest(db, db.initHash, None, ModelName(model));
    }
    var chunks := ChunkTokens(db, tokens);
    if |chunks| == 0 {
      return Ok([]);
    }
    var blockFeatures: seq<Option<Features>>;
    if features.None? {
      blockFeatures := seq(|chunks|, _ => None);
    } else if |features.value| != |chunks| {
      return Err("extraFeatures length does not match chunks length");
    } else {
      blockFeatures := features.value;
    }
    var keys := PrefixHashes(db, parent, chunks, blockFeatures);
    ghost var extras := ExtrasOf(blockFeatures);
    assert features.None? ==> extras == NoExtras(|chunks|);
    assert ExtrasFor(features, |chunks|) == Ok(extras);
    return Ok(keys);
  }
}
