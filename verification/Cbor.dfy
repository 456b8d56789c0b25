/** The canonical CBOR form of a block-hash payload, [parent, tokens, extra], and its decoder (section 3.9
    of RFC 7049 fixes the shortest head for every length and number). */
module Cbor {
  import opened Text

  const TWO_64 := 0x1_0000_0000_0000_0000

  type Byte = n: int | 0 <= n < 256

  type Word = n: int | 0 <= n < TWO_64

  type Token = n: int | 0 <= n < 0x1_0000_0000

  type Bytes = s: seq<Byte> | |s| < TWO_64

  type Tokens = s: seq<Token> | |s| < TWO_64

  type Identifiers = s: seq<Bytes> | |s| < TWO_64

  /** The third element: null, a model name, or the multimodal identifiers of the block. */
  datatype Extra = NoExtra | ModelName(text: Bytes) | MMHashes(ids: Identifiers)

  datatype Payload = Payload(parent: Word, tokens: Option<Tokens>, extra: Extra)

  // ---------- Big-endian numbers ----------

  function Power256(width: nat): nat {
    if width == 0 then 1 else 256 * Power256(width - 1)
  }

  function BigEndian(width: nat, n: nat): (b: seq<Byte>)
    ensures |b| == width
  {
    if width == 0 then [] else BigEndian(width - 1, n / 256) + [n % 256]
  }

  function FromBigEndian(b: seq<Byte>): nat {
    if b == [] then 0 else FromBigEndian(b[..|b| - 1]) * 256 + b[|b| - 1]
  }

  lemma {:induction false} BigEndianInverse(width: nat, n: nat)
    requires n < Power256(width)
    ensures FromBigEndian(BigEndian(width, n)) == n
  {
    if width > 0 {
      BigEndianInverse(width - 1, n / 256);
      assert BigEndian(width, n)[..width - 1] == BigEndian(width - 1, n / 256);
    }
  }

  // ---------- Heads ----------

  type Major = m: int | 0 <= m < 8

  /** The number of bytes that follow the initial byte of a head for n. */
  function HeadWidth(n: Word): nat {
    if n < 24 then 0 else if n < 0x100 then 1 else if n < 0x1_0000 then 2
    else if n < 0x1_0000_0000 then 4 else 8
  }

  /** The low five bits of the initial byte. */
  function HeadInfo(n: Word): (i: int)
    ensures 0 <= i < 28
  {
    if n < 24 then n else if n < 0x100 then 24 else if n < 0x1_0000 then 25 else if n < 0x1_0000_0000 then 26 else 27
  }

  function Head(major: Major, n: Word): seq<Byte> {
    [major * 32 + HeadInfo(n)] + BigEndian(HeadWidth(n), n)
  }

  datatype Read<+T> = Read(value: T, rest: seq<Byte>)

  datatype HeadValue = HeadValue(major: Major, n: Word)

  function InfoWidth(info: nat): nat {
    if info == 24 then 1 else if info == 25 then 2 else if info == 26 then 4 else 8
  }

  function ReadHead(b: seq<Byte>): Option<Read<HeadValue>> {
    if b == [] then None
    else
      var major, info := b[0] / 32, b[0] % 32;
      if info < 24 then Some(Read(HeadValue(major, info), b[1..]))
      else if info > 27 || |b| < 1 + InfoWidth(info) then None
      else
        var n := FromBigEndian(b[1..1 + InfoWidth(info)]);
        if n < TWO_64 then Some(Read(HeadValue(major, n), b[1 + InfoWidth(info)..])) else None
  }

  lemma HeadInverse(major: Major, n: Word, rest: seq<Byte>)
    ensures ReadHead(Head(major, n) + rest) == Some(Read(HeadValue(major, n), rest))
  {
    var b, width := Head(major, n) + rest, HeadWidth(n);
    assert b[0] / 32 == major && b[0] % 32 == HeadInfo(n);
    assert b[1..1 + width] == BigEndian(width, n);
    assert b[1 + width..] == rest;
    if n >= 24 {
      assert Power256(1) == 0x100 && Power256(2) == 0x1_0000;
      assert Power256(4) == 0x1_0000_0000;
      assert Power256(8) == Power256(4) * 0x1_0000_0000 by { assert Power256(6) == Power256(4) * 0x1_0000; }
      BigEndianInverse(width, n);
    }
  }

  // ---------- Items ----------

  const NULL: seq<Byte> := [0xf6]

  lemma NullHead(rest: seq<Byte>)
    ensures ReadHead(NULL + rest) == Some(Read(HeadValue(7, 22), rest))
  {
    HeadInverse(7, 22, rest);
    assert Head(7, 22) == NULL;
  }

  function EncodeNumbers(ts: seq<Token>): seq<Byte> {
    if ts == [] then [] else Head(0, ts[0]) + EncodeNumbers(ts[1..])
  }

  function EncodeTokens(tokens: Option<Tokens>): seq<Byte> {
    match tokens
    case None => NULL
    case Some(ts) => Head(4, |ts|) + EncodeNumbers(ts)
  }

  function EncodeText(text: Bytes): seq<Byte> {
    Head(3, |text|) + text
  }

  const HASH_KEY: Bytes := [0x48, 0x61, 0x73, 0x68]

  /** One identifier: a map of one pair, "Hash" to the identifier. */
  function EncodeId(id: Bytes): seq<Byte> {
    Head(5, 1) + (EncodeText(HASH_KEY) + EncodeText(id))
  }

  function EncodeIds(ids: seq<Bytes>): seq<Byte> {
    if ids == [] then [] else EncodeId(ids[0]) + EncodeIds(ids[1..])
  }

  function EncodeExtra(extra: Extra): seq<Byte> {
    match extra
    case NoExtra => NULL
    case ModelName(text) => EncodeText(text)
    case MMHashes(ids) => Head(4, |ids|) + EncodeIds(ids)
  }

  function Encode(p: Payload): seq<Byte> {
    Head(4, 3) + (Head(0, p.parent) + (EncodeTokens(p.tokens) + EncodeExtra(p.extra)))
  }

  // ---------- Decoding ----------

  function ReadNumbers(count: nat, b: seq<Byte>): Option<Read<seq<Token>>> {
    if count == 0 then Some(Read([], b))
    else match ReadHead(b)
      case None => None
      case Some(Read(head, rest)) =>
        if head.major != 0 || head.n >= 0x1_0000_0000 then None
        else match ReadNumbers(count - 1, rest)
          case None => None
          case Some(Read(ts, rest')) => Some(Read([head.n] + ts, rest'))
  }

  function ReadTokens(b: seq<Byte>): Option<Read<Option<Tokens>>> {
    match ReadHead(b)
    case None => None
    case Some(Read(head, rest)) =>
      if head == HeadValue(7, 22) then Some(Read(None, rest))
      else if head.major != 4 then None
      else match ReadNumbers(head.n, rest)
        case None => None
        case Some(Read(ts, rest')) => if |ts| < TWO_64 then Some(Read(Some(ts), rest')) else None
  }

  function ReadText(b: seq<Byte>): Option<Read<Bytes>> {
    match ReadHead(b)
    case None => None
    case Some(Read(head, rest)) =>
      if head.major != 3 || |rest| < head.n then None else Some(Read(rest[..head.n], rest[head.n..]))
  }

  function ReadId(b: seq<Byte>): Option<Read<Bytes>> {
    match ReadHead(b)
    case None => None
    case Some(Read(head, rest)) =>
      if head != HeadValue(5, 1) then None
      else match ReadText(rest)
        case None => None
        case Some(Read(key, rest')) => if key == HASH_KEY then ReadText(rest') else None
  }

  function ReadIds(count: nat, b: seq<Byte>): Option<Read<seq<Bytes>>> {
    if count == 0 then Some(Read([], b))
    else match ReadId(b)
      case None => None
      case Some(Read(id, rest)) =>
        match ReadIds(count - 1, rest)
        case None => None
        case Some(Read(ids, rest')) => Some(Read([id] + ids, rest'))
  }

  function ReadExtra(b: seq<Byte>): Option<Read<Extra>> {
    match ReadHead(b)
    case None => None
    case Some(Read(head, rest)) =>
      if head == HeadValue(7, 22) then Some(Read(NoExtra, rest))
      else if head.major == 3 then
        (match ReadText(b) case None => None case Some(Read(text, rest')) => Some(Read(ModelName(text), rest')))
      else if head.major == 4 then
        (match ReadIds(head.n, rest)
         case None => None
         case Some(Read(ids, rest')) => if |ids| < TWO_64 then Some(Read(MMHashes(ids), rest')) else None)
      else None
  }

  function Decode(b: seq<Byte>): Option<Payload> {
    match ReadHead(b)
    case None => None
    case Some(Read(head, b1)) =>
      if head != HeadValue(4, 3) then None
      else match ReadHead(b1)
        case None => None
        case Some(Read(parent, b2)) =>
          if parent.major != 0 then None
          else match ReadTokens(b2)
            case None => None
            case Some(Read(tokens, b3)) =>
              match ReadExtra(b3)
              case None => None
              case Some(Read(extra, b4)) => if b4 == [] then Some(Payload(parent.n, tokens, extra)) else None
  }

  // ---------- Unique decodability ----------

  lemma {:induction false} NumbersInverse(ts: seq<Token>, rest: seq<Byte>)
    ensures ReadNumbers(|ts|, EncodeNumbers(ts) + rest) == Some(Read(ts, rest))
  {
    if ts == [] {
      assert EncodeNumbers(ts) + rest == rest;
    } else {
      ConcatAssoc(Head(0, ts[0]), EncodeNumbers(ts[1..]), rest);
      HeadInverse(0, ts[0], EncodeNumbers(ts[1..]) + rest);
      NumbersInverse(ts[1..], rest);
      assert ts == [ts[0]] + ts[1..];
    }
  }

  lemma TokensInverse(tokens: Option<Tokens>, rest: seq<Byte>)
    ensures ReadTokens(EncodeTokens(tokens) + rest) == Some(Read(tokens, rest))
  {
    match tokens
    case None => NullHead(rest);
    case Some(ts) =>
      ConcatAssoc(Head(4, |ts|), EncodeNumbers(ts), rest);
      HeadInverse(4, |ts|, EncodeNumbers(ts) + rest);
      NumbersInverse(ts, rest);
  }

  lemma TextInverse(text: Bytes, rest: seq<Byte>)
    ensures ReadText(EncodeText(text) + rest) == Some(Read(text, rest))
  {
    ConcatAssoc(Head(3, |text|), text, rest);
    HeadInverse(3, |text|, text + rest);
    assert (text + rest)[..|text|] == text && (text + rest)[|text|..] == rest;
  }

  lemma IdInverse(id: Bytes, rest: seq<Byte>)
    ensures ReadId(EncodeId(id) + rest) == Some(Read(id, rest))
  {
    var key, value := EncodeText(HASH_KEY), EncodeText(id);
    ConcatAssoc(Head(5, 1), key + value, rest);
    ConcatAssoc(key, value, rest);
    HeadInverse(5, 1, key + value + rest);
    TextInverse(HASH_KEY, value + rest);
    TextInverse(id, rest);
  }

  lemma {:induction false} IdsInverse(ids: seq<Bytes>, rest: seq<Byte>)
    ensures ReadIds(|ids|, EncodeIds(ids) + rest) == Some(Read(ids, rest))
  {
    if ids == [] {
      assert EncodeIds(ids) + rest == rest;
    } else {
      ConcatAssoc(EncodeId(ids[0]), EncodeIds(ids[1..]), rest);
      IdInverse(ids[0], EncodeIds(ids[1..]) + rest);
      IdsInverse(ids[1..], rest);
      assert ids == [ids[0]] + ids[1..];
    }
  }

  lemma ExtraInverse(extra: Extra, rest: seq<Byte>)
    ensures ReadExtra(EncodeExtra(extra) + rest) == Some(Read(extra, rest))
  {
    match extra
    case NoExtra => NullHead(rest);
    case ModelName(text) =>
      ConcatAssoc(Head(3, |text|), text, rest);
      HeadInverse(3, |text|, text + rest);
      TextInverse(text, rest);
    case MMHashes(ids) =>
      ConcatAssoc(Head(4, |ids|), EncodeIds(ids), rest);
      HeadInverse(4, |ids|, EncodeIds(ids) + rest);
      IdsInverse(ids, rest);
  }

  /** The payload bytes determine the payload. */
  lemma DecodeInverse(p: Payload)
    ensures Decode(Encode(p)) == Some(p)
  {
    var tokens, extra := EncodeTokens(p.tokens), EncodeExtra(p.extra);
    HeadInverse(4, 3, Head(0, p.parent) + (tokens + extra));
    HeadInverse(0, p.parent, tokens + extra);
    TokensInverse(p.tokens, extra);
    ExtraInverse(p.extra, []);
    assert extra + [] == extra;
  }

  lemma EncodeInjective(p: Payload, q: Payload)
    requires Encode(p) == Encode(q)
    ensures p == q
  {
    DecodeInverse(p);
    DecodeInverse(q);
  }

  // ---------- Examples of the standard ----------

  /** Heads are the shortest that hold their number, and carry the major type in their first three bits. */
  lemma HeadIsShortest(major: Major, n: Word)
    ensures |Head(major, n)| == if n < 24 then 1 else if n < 0x100 then 2 else if n < 0x1_0000 then 3
                                else if n < 0x1_0000_0000 then 5 else 9
    ensures Head(major, n)[0] / 32 == major
  {
  }

  /** Numbers of appendix A of RFC 7049. */
  lemma NumbersOfAppendixA()
    ensures Head(0, 0) == [0x00] && Head(0, 23) == [0x17] && Head(0, 24) == [0x18, 0x18] && Head(0, 100) == [0x18, 0x64]
    ensures Head(0, 1000) == [0x19, 0x03, 0xe8]
    ensures Head(0, 1000000) == [0x1a, 0x00, 0x0f, 0x42, 0x40]
  {
    TwoBytes(1000, 3, 0xe8);
    FourBytes(1000000, 0, 0x0f, 0x42, 0x40);
  }

  lemma TwoBytes(n: nat, a: Byte, b: Byte)
    requires n == a * 256 + b
    ensures BigEndian(2, n) == [a, b]
  {
    assert n / 256 == a && n % 256 == b;
    assert BigEndian(1, a) == [a];
  }

  lemma FourBytes(n: nat, a: Byte, b: Byte, c: Byte, d: Byte)
    requires n == (a * 256 + b) * 0x1_0000 + (c * 256 + d)
    ensures BigEndian(4, n) == [a, b, c, d]
  {
    var high, low := a * 256 + b, c * 256 + d;
    TwoBytes(high, a, b);
    assert n / 256 == high * 256 + c && n % 256 == d;
    assert (high * 256 + c) / 256 == high && (high * 256 + c) % 256 == c;
    assert BigEndian(3, high * 256 + c) == [a, b, c];
  }

  /** Strings and arrays of appendix A: the empty string, "a", "IETF", [] and [1, 2, 3]. */
  lemma TextsAndArraysOfAppendixA()
    ensures EncodeText([]) == [0x60] && EncodeText([0x61]) == [0x61, 0x61]
    ensures EncodeText([0x49, 0x45, 0x54, 0x46]) == [0x64, 0x49, 0x45, 0x54, 0x46]
    ensures EncodeTokens(Some([])) == [0x80] && EncodeTokens(Some([1, 2, 3])) == [0x83, 0x01, 0x02, 0x03]
    ensures EncodeTokens(None) == [0xf6]
  {
    var tokens: Tokens := [1, 2, 3];
    assert tokens[1..] == [2, 3] && tokens[1..][1..] == [3];
    assert EncodeNumbers([3]) == [0x03] && EncodeNumbers([2, 3]) == [0x02] + EncodeNumbers([2, 3][1..]);
    assert EncodeNumbers(tokens) == [0x01] + EncodeNumbers(tokens[1..]);
  }

  /** A payload of a first block with one image: an array of three, the parent, the tokens, and an array of one
      map from "Hash" to the identifier. */
  lemma PayloadExample()
    ensures Encode(Payload(1, Some([5]), MMHashes([[0x61]])))
         == [0x83, 0x01, 0x81, 0x05, 0x81, 0xa1, 0x64, 0x48, 0x61, 0x73, 0x68, 0x61, 0x61]
  {
    var ids: Identifiers := [[0x61]];
    assert EncodeNumbers([5]) == [0x05];
    assert EncodeIds(ids) == EncodeId([0x61]) + EncodeIds(ids[1..]);
    assert EncodeText(HASH_KEY) == [0x64, 0x48, 0x61, 0x73, 0x68];
    assert EncodeId([0x61]) == [0xa1, 0x64, 0x48, 0x61, 0x73, 0x68, 0x61, 0x61];
  }
}
