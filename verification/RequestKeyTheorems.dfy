/** Block keys as a caller gets them: what every key is the hash of, when a request is refused, and that
    keys tell the images of a block apart as well as its tokens. */
module RequestKeyTheorems {
  import opened Text
  import opened Cbor
  import opened BlockKeys
  import opened BlockKeyTheorems

  /** The multimodal identifiers a caller passes for block k: none without features, without features of the
      block, or with a nil list; an empty list is not none. */
  function Images(features: Option<seq<Option<Features>>>, k: nat): Option<Identifiers>
    requires features.Some? ==> k < |features.value|
  {
    if features.None? || features.value[k].None? then None else features.value[k].value.mmHashes
  }

  /** What the first key is taken over: the caller's parent key, or without one the hash of the model name. */
  function Start(db: Database, parentKey: Word, model: Bytes): Word {
    if parentKey == 0 then db.hash(Encode(Payload(db.initHash, None, ModelName(model)))) else parentKey
  }

  /** The byte string of a block: the key before it, its window of the tokens and its images. */
  function KeyInput(parent: Word, window: Tokens, images: Option<Identifiers>): seq<Byte> {
    Encode(Payload(parent, Some(window), match images case None => NoExtra case Some(ids) => MMHashes(ids)))
  }

  /** Exactly when a request is refused: it has a whole block, and features that are not one per block. */
  lemma RefusedIff(
    db: Database, parentKey: Word, tokens: Tokens, model: Bytes, features: Option<seq<Option<Features>>>)
    requires db.blockSize > 0
    ensures RequestKeys(db, parentKey, tokens, model, features).Err?
            <==> |tokens| >= db.blockSize && features.Some? && |features.value| != WholeBlocks(|tokens|, db.blockSize)
  {
    BlockCount(tokens, db.blockSize);
  }

  /** Every key of an accepted request is the hash of the key before it, its window of the tokens and the
      images the caller passed for the block, for one block after the other. */
  lemma RequestKeysExact(
    db: Database, parentKey: Word, tokens: Tokens, model: Bytes, features: Option<seq<Option<Features>>>, k: nat)
    requires db.blockSize > 0 && k < WholeBlocks(|tokens|, db.blockSize)
    requires RequestKeys(db, parentKey, tokens, model, features).Ok?
    ensures var keys := RequestKeys(db, parentKey, tokens, model, features).value;
            && |keys| == WholeBlocks(|tokens|, db.blockSize)
            && (features.Some? ==> |features.value| == |keys|)
            && Span(k, db.blockSize) <= Span(k + 1, db.blockSize) <= |tokens|
            && keys[k] == db.hash(KeyInput(if k == 0 then Start(db, parentKey, model) else keys[k - 1],
                                    tokens[Span(k, db.blockSize)..Span(k + 1, db.blockSize)], Images(features, k)))
  {
    var size := db.blockSize;
    BlockCount(tokens, size);
    BlockIsWindow(tokens, size, k);
    var extras := ExtrasFor(features, |Blocks(tokens, size)|).value;
    ChainLinks(db, Root(db, parentKey, model), Blocks(tokens, size), extras, k);
  }

  /** Without a collision between the two inputs, equal first keys come from equal parents (parent keys, or
      roots without one), equal windows and equal images. */
  lemma FirstKeyDeterminesStart(
    db: Database, parentA: Word, a: Tokens, modelA: Bytes, f: Option<seq<Option<Features>>>,
    parentB: Word, b: Tokens, modelB: Bytes, g: Option<seq<Option<Features>>>)
    requires 0 < db.blockSize <= |a| && db.blockSize <= |b|
    requires RequestKeys(db, parentA, a, modelA, f).Ok? && RequestKeys(db, parentB, b, modelB, g).Ok?
    requires f.Some? ==> |f.value| > 0
    requires g.Some? ==> |g.value| > 0
    requires !Collide(db, KeyInput(Start(db, parentA, modelA), a[..db.blockSize], Images(f, 0)),
                      KeyInput(Start(db, parentB, modelB), b[..db.blockSize], Images(g, 0)))
    ensures |RequestKeys(db, parentA, a, modelA, f).value| > 0 && |RequestKeys(db, parentB, b, modelB, g).value| > 0
    ensures RequestKeys(db, parentA, a, modelA, f).value[0] == RequestKeys(db, parentB, b, modelB, g).value[0]
            <==> && Start(db, parentA, modelA) == Start(db, parentB, modelB)
                 && a[..db.blockSize] == b[..db.blockSize] && Images(f, 0) == Images(g, 0)
  {
    var size := db.blockSize;
    OneBlockAtLeast(|a|, size);
    OneBlockAtLeast(|b|, size);
    RequestKeysExact(db, parentA, a, modelA, f, 0);
    RequestKeysExact(db, parentB, b, modelB, g, 0);
    KeyInputInjective(Start(db, parentA, modelA), a[..size], Images(f, 0),
      Start(db, parentB, modelB), b[..size], Images(g, 0));
  }

  lemma OneBlockAtLeast(length: nat, size: nat)
    requires 0 < size <= length
    ensures WholeBlocks(length, size) > 0 && Span(0, size) == 0 && Span(1, size) == size
  {
    assert Span(1, size) == Span(0, size) + size;
  }

  lemma KeyInputInjective(
    parentA: Word, a: Tokens, f: Option<Identifiers>, parentB: Word, b: Tokens, g: Option<Identifiers>)
    ensures KeyInput(parentA, a, f) == KeyInput(parentB, b, g) <==> parentA == parentB && a == b && f == g
  {
    if KeyInput(parentA, a, f) == KeyInput(parentB, b, g) {
      EncodeInjective(Payload(parentA, Some(a), match f case None => NoExtra case Some(ids) => MMHashes(ids)),
        Payload(parentB, Some(b), match g case None => NoExtra case Some(ids) => MMHashes(ids)));
    }
  }

  // ---------- One equal key of two requests ----------

  function AsRequest(db: Database, tokens: Tokens, model: Bytes, features: Option<seq<Option<Features>>>): Request
    requires db.blockSize > 0 && ExtrasFor(features, |Blocks(tokens, db.blockSize)|).Ok?
  {
    Request(model, tokens, ExtrasFor(features, |Blocks(tokens, db.blockSize)|).value)
  }

  lemma AcceptedAsRequest(db: Database, tokens: Tokens, model: Bytes, features: Option<seq<Option<Features>>>)
    requires db.blockSize > 0 && |tokens| >= db.blockSize && RequestKeys(db, 0, tokens, model, features).Ok?
    ensures ExtrasFor(features, |Blocks(tokens, db.blockSize)|).Ok?
    ensures Valid(db, AsRequest(db, tokens, model, features))
    ensures Keys(db, AsRequest(db, tokens, model, features)) == RequestKeys(db, 0, tokens, model, features).value
    ensures features.Some? ==> |features.value| == |Blocks(tokens, db.blockSize)|
  {
    BlockCount(tokens, db.blockSize);
    OneBlockAtLeast(|tokens|, db.blockSize);
  }

  /** The extras of a request tell its images. */
  lemma ExtrasTellImages(f: Option<seq<Option<Features>>>, g: Option<seq<Option<Features>>>, count: nat, k: nat, other: nat)
    requires ExtrasFor(f, count).Ok? && ExtrasFor(g, other).Ok? && k < count && k < other
    requires ExtrasFor(f, count).value[k] == ExtrasFor(g, other).value[k]
    ensures (f.Some? ==> k < |f.value|) && (g.Some? ==> k < |g.value|)
    ensures Images(f, k) == Images(g, k)
  {
  }

  /** Without collisions among the payloads of two accepted requests without parent keys, one key that occurs
      in both lists means the same model, the same depth, the same tokens up to and including the block, and
      on every block up to it the same images, where no features and a nil list are alike and an empty list is
      not. */
  lemma KeyDeterminesRequest(
    db: Database, a: Tokens, modelA: Bytes, f: Option<seq<Option<Features>>>,
    b: Tokens, modelB: Bytes, g: Option<seq<Option<Features>>>, i: nat, j: nat)
    requires db.blockSize > 0 && |a| >= db.blockSize && |b| >= db.blockSize
    requires RequestKeys(db, 0, a, modelA, f).Ok? && RequestKeys(db, 0, b, modelB, g).Ok?
    requires i < |RequestKeys(db, 0, a, modelA, f).value| && j < |RequestKeys(db, 0, b, modelB, g).value|
    requires RequestKeys(db, 0, a, modelA, f).value[i] == RequestKeys(db, 0, b, modelB, g).value[j]
    requires ExtrasFor(f, |Blocks(a, db.blockSize)|).Ok? && ExtrasFor(g, |Blocks(b, db.blockSize)|).Ok?
    requires Valid(db, AsRequest(db, a, modelA, f)) && Valid(db, AsRequest(db, b, modelB, g))
    requires CollisionFree(db, Inputs(db, AsRequest(db, a, modelA, f)) + Inputs(db, AsRequest(db, b, modelB, g)))
    ensures modelA == modelB && i == j
    ensures Span(i + 1, db.blockSize) <= |a| && Span(i + 1, db.blockSize) <= |b|
    ensures a[..Span(i + 1, db.blockSize)] == b[..Span(i + 1, db.blockSize)]
    ensures forall k :: 0 <= k <= i ==>
              && (f.Some? ==> k < |f.value|) && (g.Some? ==> k < |g.value|)
              && Images(f, k) == Images(g, k)
  {
    AcceptedAsRequest(db, a, modelA, f);
    AcceptedAsRequest(db, b, modelB, g);
    var p, q := AsRequest(db, a, modelA, f), AsRequest(db, b, modelB, g);
    KeyDeterminesPrefix(db, p, q, i, j);
    forall k | 0 <= k <= i
      ensures (f.Some? ==> k < |f.value|) && (g.Some? ==> k < |g.value|) && Images(f, k) == Images(g, k)
    {
      assert p.extras[k] == p.extras[..i + 1][k] && q.extras[k] == q.extras[..i + 1][k];
      ExtrasTellImages(f, g, |Blocks(a, db.blockSize)|, k, |Blocks(b, db.blockSize)|);
    }
  }
}
