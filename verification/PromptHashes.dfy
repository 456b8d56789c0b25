/** The prompt hasher of the prefix-cache plugin: bytes instead of tokens, and at most a given number of
    leading blocks. */
module PromptHashes {
  import opened Text
  import opened Cbor
  import opened BlockKeys

  /** hash is the 64-bit hash of a byte string; wordBytes is how a hash is fed back into the next one. */
  datatype Hasher = Hasher(hash: seq<Byte> -> Word, wordBytes: Word -> seq<Byte>)

  /** The hashes of all whole blocks of the input, each taken over the block and the previous hash. */
  function PromptChain(h: Hasher, previous: Word, input: seq<Byte>, size: nat): seq<Word>
    requires size > 0
    decreases |input|
  {
    if |input| < size then []
    else
      var key := h.hash(input[..size] + h.wordBytes(previous));
      [key] + PromptChain(h, key, input[size..], size)
  }

  function Seed(h: Hasher, model: seq<Byte>, salt: seq<Byte>): Word {
    h.hash(model + salt)
  }

  lemma {:induction false} PromptChainLength(h: Hasher, previous: Word, input: seq<Byte>, size: nat)
    requires size > 0
    ensures |PromptChain(h, previous, input, size)| == WholeBlocks(|input|, size)
    decreases |input|
  {
    if |input| >= size {
      PromptChainLength(h, h.hash(input[..size] + h.wordBytes(previous)), input[size..], size);
      DivPlus(|input| - size, size);
    }
  }

  /** Hashing only the first n blocks gives the first n hashes. */
  lemma {:induction false} PromptChainTake(h: Hasher, previous: Word, input: seq<Byte>, size: nat, n: nat)
    requires size > 0 && Span(n, size) <= |input|
    ensures n <= |PromptChain(h, previous, input, size)|
    ensures PromptChain(h, previous, input[..Span(n, size)], size) == PromptChain(h, previous, input, size)[..n]
    decreases n
  {
    if n > 0 {
      var cut := input[..Span(n, size)];
      assert cut[..size] == input[..size];
      assert cut[size..] == input[size..][..Span(n - 1, size)];
      PromptChainTake(h, h.hash(input[..size] + h.wordBytes(previous)), input[size..], size, n - 1);
    }
  }

  method HashBlocks(h: Hasher, first: Word, userInput: seq<Byte>, cacheBlockSize: nat) returns (res: seq<Word>)
    requires cacheBlockSize > 0
    ensures res == PromptChain(h, first, userInput, cacheBlockSize)
  {
    res := [];
    var previous: Word := first;
    var i := 0;
    while i + cacheBlockSize <= |userInput|
      invariant 0 <= i <= |userInput|
      invariant res + PromptChain(h, previous, userInput[i..], cacheBlockSize)
             == PromptChain(h, first, userInput, cacheBlockSize)
    {
      var block := userInput[i..i + cacheBlockSize];
      assert userInput[i..][..cacheBlockSize] == block;
      assert userInput[i..][cacheBlockSize..] == userInput[i + cacheBlockSize..];
      res := res + [h.hash(block + h.wordBytes(previous))];
      previous := res[|res| - 1];
      i := i + cacheBlockSize;
    }
  }

  /** The first maxBlocks hashes of the whole prompt's chain: as many as there are whole blocks, at most
      maxBlocks, and none for a prompt shorter than a block. */
  method HashPrompt(
    h: Hasher, input: seq<Byte>, model: seq<Byte>, salt: seq<Byte>, cacheBlockSize: nat, maxPrefixBlocks: nat)
    returns (res: seq<Word>)
    requires cacheBlockSize > 0
    ensures res <= PromptChain(h, Seed(h, model, salt), input, cacheBlockSize)
    ensures var blocks := WholeBlocks(|input|, cacheBlockSize);
            |res| == if blocks < maxPrefixBlocks then blocks else maxPrefixBlocks
  {
    ghost var seed := Seed(h, model, salt);
    PromptChainLength(h, seed, input, cacheBlockSize);
    PromptLimits(|input|, cacheBlockSize, maxPrefixBlocks);
    if |input| < cacheBlockSize {
      return [];
    }
    var userInput := input;
    if |input| > cacheBlockSize * maxPrefixBlocks {
      userInput := input[..maxPrefixBlocks * cacheBlockSize];
      PromptChainTake(h, seed, input, cacheBlockSize, maxPrefixBlocks);
    }
    assert salt == [] ==> model + salt == model;
    var first: Word := if salt != [] then h.hash(model + salt) else h.hash(model);
    res := HashBlocks(h, first, userInput, cacheBlockSize);
  }

  lemma PromptLimits(length: nat, size: nat, max: nat)
    requires size > 0
    ensures max * size == size * max == Span(max, size)
    ensures length > Span(max, size) ==> WholeBlocks(length, size) >= max
    ensures length <= Span(max, size) ==> WholeBlocks(length, size) <= max
    ensures length < size ==> WholeBlocks(length, size) == 0
  {
    var q := WholeBlocks(length, size);
    DivBound(length, size);
    SpanIsProduct(max, size);
    SpanIsProduct(q, size);
    SpanIsProduct(q + 1, size);
    if q < max {
      MulMono(q + 1, max, size);
    }
    if q > max {
      MulMono(max + 1, q, size);
    }
  }

  // ---------- A hash pins down everything before it ----------

  /** The bytes a request contributes: model name, cache salt and prompt. */
  datatype PromptRequest = PromptRequest(model: seq<Byte>, salt: seq<Byte>, input: seq<Byte>)

  function HashesOf(h: Hasher, q: PromptRequest, size: nat): seq<Word>
    requires size > 0
  {
    PromptChain(h, Seed(h, q.model, q.salt), q.input, size)
  }

  /** Hash k is taken over block k and the hash before it; the first one over the hash of model and salt. */
  lemma {:induction false} PromptLinks(h: Hasher, previous: Word, input: seq<Byte>, size: nat, k: nat)
    requires size > 0 && k < |PromptChain(h, previous, input, size)|
    ensures Span(k, size) <= Span(k + 1, size) <= |input|
    ensures var chain := PromptChain(h, previous, input, size);
            chain[k] == h.hash(input[Span(k, size)..Span(k + 1, size)]
                               + h.wordBytes(if k == 0 then previous else chain[k - 1]))
    decreases k
  {
    if k > 0 {
      var key := h.hash(input[..size] + h.wordBytes(previous));
      PromptLinks(h, key, input[size..], size, k - 1);
      assert Span(k, size) == Span(k - 1, size) + size && Span(k + 1, size) == Span(k, size) + size;
      DropSlice(input, size, Span(k - 1, size), Span(k, size));
      var rest := PromptChain(h, key, input[size..], size);
      assert ([key] + rest)[k] == rest[k - 1];
      assert k > 1 ==> ([key] + rest)[k - 1] == rest[k - 2];
    } else {
      assert Span(1, size) == Span(0, size) + size;
    }
  }

  /** What hash k of a request is taken over, and what its first hash starts from. */
  ghost function HashInput(h: Hasher, q: PromptRequest, size: nat, k: nat): seq<Byte>
    requires size > 0 && k < |HashesOf(h, q, size)|
  {
    PromptLinks(h, Seed(h, q.model, q.salt), q.input, size, k);
    q.input[Span(k, size)..Span(k + 1, size)]
    + h.wordBytes(if k == 0 then Seed(h, q.model, q.salt) else HashesOf(h, q, size)[k - 1])
  }

  ghost function HashInputs(h: Hasher, q: PromptRequest, size: nat): set<seq<Byte>>
    requires size > 0
  {
    {q.model + q.salt} + set k | 0 <= k < |HashesOf(h, q, size)| :: HashInput(h, q, size, k)
  }

  /** No two of these byte strings have the same hash. */
  ghost predicate NoClash(h: Hasher, inputs: set<seq<Byte>>) {
    forall x, y :: x in inputs && y in inputs && h.hash(x) == h.hash(y) ==> x == y
  }

  /** A hash is fed back as 8 bytes that tell which one it is. */
  ghost predicate EightBytes(h: Hasher) {
    forall v, w :: |h.wordBytes(v)| == 8 && (h.wordBytes(v) == h.wordBytes(w) ==> v == w)
  }

  /** Equal hashes: equal blocks behind equal hashes. */
  lemma HashStep(h: Hasher, p: PromptRequest, q: PromptRequest, size: nat, i: nat, j: nat)
    requires size > 0 && EightBytes(h) && NoClash(h, HashInputs(h, p, size) + HashInputs(h, q, size))
    requires i < |HashesOf(h, p, size)| && j < |HashesOf(h, q, size)|
    requires HashesOf(h, p, size)[i] == HashesOf(h, q, size)[j]
    ensures Span(i, size) <= Span(i + 1, size) <= |p.input| && Span(j, size) <= Span(j + 1, size) <= |q.input|
    ensures p.input[Span(i, size)..Span(i + 1, size)] == q.input[Span(j, size)..Span(j + 1, size)]
    ensures (if i == 0 then Seed(h, p.model, p.salt) else HashesOf(h, p, size)[i - 1])
         == (if j == 0 then Seed(h, q.model, q.salt) else HashesOf(h, q, size)[j - 1])
  {
    PromptLinks(h, Seed(h, p.model, p.salt), p.input, size, i);
    PromptLinks(h, Seed(h, q.model, q.salt), q.input, size, j);
    assert HashInput(h, p, size, i) in HashInputs(h, p, size);
    assert HashInput(h, q, size, j) in HashInputs(h, q, size);
    SplitEnds(p.input[Span(i, size)..Span(i + 1, size)],
      h.wordBytes(if i == 0 then Seed(h, p.model, p.salt) else HashesOf(h, p, size)[i - 1]),
      q.input[Span(j, size)..Span(j + 1, size)],
      h.wordBytes(if j == 0 then Seed(h, q.model, q.salt) else HashesOf(h, q, size)[j - 1]));
  }

  lemma SplitEnds(a: seq<Byte>, x: seq<Byte>, b: seq<Byte>, y: seq<Byte>)
    requires a + x == b + y && |x| == |y|
    ensures a == b && x == y
  {
    assert |a| == |b|;
    assert a == (a + x)[..|a|] && b == (b + y)[..|b|];
    assert x == (a + x)[|a|..] && y == (b + y)[|b|..];
  }

  lemma SeedFixesModel(h: Hasher, p: PromptRequest, q: PromptRequest, size: nat)
    requires size > 0 && NoClash(h, HashInputs(h, p, size) + HashInputs(h, q, size))
    requires Seed(h, p.model, p.salt) == Seed(h, q.model, q.salt)
    ensures p.model + p.salt == q.model + q.salt
  {
    assert p.model + p.salt in HashInputs(h, p, size) && q.model + q.salt in HashInputs(h, q, size);
  }

  lemma {:induction false} HashFixesPrefix(h: Hasher, p: PromptRequest, q: PromptRequest, size: nat, i: nat)
    requires size > 0 && EightBytes(h) && NoClash(h, HashInputs(h, p, size) + HashInputs(h, q, size))
    requires i < |HashesOf(h, p, size)| && i < |HashesOf(h, q, size)|
    requires HashesOf(h, p, size)[i] == HashesOf(h, q, size)[i]
    ensures Span(i + 1, size) <= |p.input| && Span(i + 1, size) <= |q.input|
    ensures p.model + p.salt == q.model + q.salt
    ensures p.input[..Span(i + 1, size)] == q.input[..Span(i + 1, size)]
    decreases i
  {
    HashStep(h, p, q, size, i, i);
    if i == 0 {
      SeedFixesModel(h, p, q, size);
    } else {
      HashFixesPrefix(h, p, q, size, i - 1);
      JoinSlices(p.input, Span(i, size), Span(i + 1, size));
      JoinSlices(q.input, Span(i, size), Span(i + 1, size));
    }
  }

  lemma JoinSlices<T>(s: seq<T>, low: nat, high: nat)
    requires low <= high <= |s|
    ensures s[..high] == s[..low] + s[low..high]
  {
  }

  /** Equal model and salt and equal leading blocks give equal hashes, whatever follows. */
  lemma SamePrefixSameHash(h: Hasher, p: PromptRequest, q: PromptRequest, size: nat, i: nat)
    requires size > 0 && i < |HashesOf(h, p, size)| && i < |HashesOf(h, q, size)|
    requires Span(i + 1, size) <= |p.input| && Span(i + 1, size) <= |q.input|
    requires p.model + p.salt == q.model + q.salt && p.input[..Span(i + 1, size)] == q.input[..Span(i + 1, size)]
    ensures HashesOf(h, p, size)[i] == HashesOf(h, q, size)[i]
  {
    PromptChainTake(h, Seed(h, p.model, p.salt), p.input, size, i + 1);
    PromptChainTake(h, Seed(h, q.model, q.salt), q.input, size, i + 1);
    assert HashesOf(h, p, size)[..i + 1][i] == HashesOf(h, p, size)[i];
    assert HashesOf(h, q, size)[..i + 1][i] == HashesOf(h, q, size)[i];
  }

  /** Without collisions, two requests share the hash at one depth exactly when model and salt, written one
      after the other, and all blocks up to that depth are the same. */
  lemma SharedHashIff(h: Hasher, p: PromptRequest, q: PromptRequest, size: nat, i: nat)
    requires size > 0 && EightBytes(h) && NoClash(h, HashInputs(h, p, size) + HashInputs(h, q, size))
    requires i < |HashesOf(h, p, size)| && i < |HashesOf(h, q, size)|
    ensures (i + 1) * size <= |p.input| && (i + 1) * size <= |q.input|
    ensures HashesOf(h, p, size)[i] == HashesOf(h, q, size)[i]
            <==> p.model + p.salt == q.model + q.salt && p.input[..(i + 1) * size] == q.input[..(i + 1) * size]
  {
    SpanIsProduct(i + 1, size);
    PromptLinks(h, Seed(h, p.model, p.salt), p.input, size, i);
    PromptLinks(h, Seed(h, q.model, q.salt), q.input, size, i);
    if HashesOf(h, p, size)[i] == HashesOf(h, q, size)[i] {
      HashFixesPrefix(h, p, q, size, i);
    } else if p.model + p.salt == q.model + q.salt && p.input[..(i + 1) * size] == q.input[..(i + 1) * size] {
      SamePrefixSameHash(h, p, q, size, i);
    }
  }

  /** Hashes at different depths differ, unless a model and salt are as long as a block and a hash. */
  lemma {:induction false} DepthsDiffer(h: Hasher, p: PromptRequest, q: PromptRequest, size: nat, i: nat, j: nat)
    requires size > 0 && EightBytes(h) && NoClash(h, HashInputs(h, p, size) + HashInputs(h, q, size))
    requires i < j && i < |HashesOf(h, p, size)| && j < |HashesOf(h, q, size)|
    requires |p.model + p.salt| != size + 8
    ensures HashesOf(h, p, size)[i] != HashesOf(h, q, size)[j]
    decreases i
  {
    if HashesOf(h, p, size)[i] == HashesOf(h, q, size)[j] {
      HashStep(h, p, q, size, i, j);
      if i > 0 {
        DepthsDiffer(h, p, q, size, i - 1, j - 1);
      } else {
        SeedIsNoHash(h, p, q, size, j - 1);
      }
    }
  }

  lemma SeedIsNoHash(h: Hasher, p: PromptRequest, q: PromptRequest, size: nat, j: nat)
    requires size > 0 && EightBytes(h) && NoClash(h, HashInputs(h, p, size) + HashInputs(h, q, size))
    requires j < |HashesOf(h, q, size)| && |p.model + p.salt| != size + 8
    ensures Seed(h, p.model, p.salt) != HashesOf(h, q, size)[j]
  {
    PromptLinks(h, Seed(h, q.model, q.salt), q.input, size, j);
    assert Span(j + 1, size) == Span(j, size) + size;
    assert HashInput(h, q, size, j) in HashInputs(h, q, size);
    assert p.model + p.salt in HashInputs(h, p, size);
    assert |HashInput(h, q, size, j)| == size + 8;
  }

  /** The exception is real, for every hash: a model name that spells the first block of another request and
      the hash it starts from shares all the later hashes of that request. */
  lemma SpelledModelSharesHashes(h: Hasher, p: PromptRequest, q: PromptRequest, size: nat)
    requires size > 0 && |q.input| >= size
    requires p.model + p.salt == q.input[..size] + h.wordBytes(Seed(h, q.model, q.salt)) && p.input == q.input[size..]
    ensures HashesOf(h, p, size) == HashesOf(h, q, size)[1..]
  {
    var key := h.hash(q.input[..size] + h.wordBytes(Seed(h, q.model, q.salt)));
    ConcatTail([key], PromptChain(h, key, q.input[size..], size));
    assert HashesOf(h, q, size) == [key] + PromptChain(h, key, q.input[size..], size);
  }
}
