/** The language of metric specifications, said without the parser: which texts are accepted, and as what.
    Every other text is refused. */
module MetricGrammar {
  import opened Text
  import opened MetricSpec

  /** The word with white space around it. */
  ghost predicate Padded(raw: string, word: string) {
    exists a, b :: AllSpace(a) && AllSpace(b) && raw == a + word + b
  }

  lemma PaddedIff(raw: string, word: string)
    requires Trimmed(word)
    ensures TrimSpace(raw) == word <==> Padded(raw, word)
  {
    if TrimSpace(raw) == word {
      var a, b := TrimSpaceSplits(raw);
    }
    if Padded(raw, word) {
      var a, b :| AllSpace(a) && AllSpace(b) && raw == a + word + b;
      TrimPadded(a, word, b);
    }
  }

  lemma PadMore(a: string, raw: string, word: string, b: string)
    requires AllSpace(a) && AllSpace(b) && Padded(raw, word)
    ensures Padded(a + raw + b, word)
  {
    var c, d :| AllSpace(c) && AllSpace(d) && raw == c + word + d;
    assert a + raw + b == (a + c) + word + (d + b);
    assert AllSpace(a + c) && AllSpace(d + b);
  }

  lemma PadAround(raw: string, word: string) returns (a: string, b: string)
    requires Padded(raw, word)
    ensures AllSpace(a) && AllSpace(b) && raw == a + word + b
  {
    a, b :| AllSpace(a) && AllSpace(b) && raw == a + word + b;
  }

  // ---------- One label pair ----------

  /** name=value, white space allowed around both, neither of them empty or holding another '='. */
  ghost predicate PairReads(raw: string, name: string, value: string) {
    && name != "" && Trimmed(name) && '=' !in name && value != "" && Trimmed(value) && '=' !in value
    && exists rawName, rawValue ::
         raw == rawName + "=" + rawValue && Padded(rawName, name) && Padded(rawValue, value)
  }

  /** The two sides of a pair, taken apart and put together again. */
  lemma PairSides(raw: string) returns (a: string, left: string, right: string, b: string)
    requires |Split(TrimSpace(raw), '=')| == 2
    ensures Split(TrimSpace(raw), '=') == [left, right] && '=' !in left && '=' !in right
    ensures raw == (a + left + "") + "=" + ("" + right + b) && AllSpace(a) && AllSpace(b)
  {
    a, b := TrimSpaceSplits(raw);
    var parts := Split(TrimSpace(raw), '=');
    JoinSplit(TrimSpace(raw), '=');
    SplitParts(TrimSpace(raw), '=');
    left, right := parts[0], parts[1];
    assert left in parts && right in parts;
    PairAround(raw, a, left, right, b);
  }

  lemma PairAround(raw: string, a: string, left: string, right: string, b: string)
    requires raw == a + Join([left, right], '=') + b
    ensures raw == (a + left + "") + "=" + ("" + right + b)
  {
    assert [left, right][1..] == [right];
    assert Join([left, right], '=') == left + "=" + right;
  }

  /** One side of a pair, trimmed. */
  lemma SideReads(a: string, side: string, b: string)
    requires AllSpace(a) && AllSpace(b) && '=' !in side
    ensures var word := TrimSpace(side); Trimmed(word) && '=' !in word && Padded(a + side + b, word)
  {
    TrimSpacePart(side);
    PaddedIff(side, TrimSpace(side));
    PadMore(a, side, TrimSpace(side), b);
  }

  lemma ParsedPairReads(raw: string, name: string, value: string)
    requires ParsePair(raw) == Ok((name, value))
    ensures PairReads(raw, name, value)
  {
    var a, left, right, b := PairSides(raw);
    SideReads(a, left, "");
    SideReads("", right, b);
  }

  lemma ReadPairParses(raw: string, name: string, value: string)
    requires PairReads(raw, name, value)
    ensures ParsePair(raw) == Ok((name, value))
  {
    var rawName, rawValue :| raw == rawName + "=" + rawValue && Padded(rawName, name) && Padded(rawValue, value);
    var a, b := PadAround(rawName, name);
    var c, d := PadAround(rawValue, value);
    PairTrims(a, name, b, c, value, d);
    PairParts(name, b, c, value);
    assert raw == a + name + b + "=" + (c + value + d);
  }

  lemma PairTrims(a: string, name: string, b: string, c: string, value: string, d: string)
    requires AllSpace(a) && AllSpace(d) && name != "" && Trimmed(name) && value != "" && Trimmed(value)
    ensures TrimSpace(a + name + b + "=" + (c + value + d)) == name + b + "=" + (c + value)
  {
    var core := name + b + "=" + (c + value);
    assert core[0] == name[0] && core[|core| - 1] == value[|value| - 1];
    TrimPadded(a, core, d);
    ConcatAssoc(a, name, b);
    PadsOutside(a, name + b, c + value, d);
  }

  lemma PadsOutside(a: string, left: string, right: string, d: string)
    ensures (a + left) + "=" + (right + d) == a + (left + "=" + right) + d
  {
  }

  lemma PairParts(name: string, b: string, c: string, value: string)
    requires AllSpace(b) && AllSpace(c) && Trimmed(name) && Trimmed(value) && '=' !in name && '=' !in value
    ensures Split(name + b + "=" + (c + value), '=') == [name + b, c + value]
    ensures TrimSpace(name + b) == name && TrimSpace(c + value) == value
  {
    assert !IsSpace('=');
    assert '=' !in b && '=' !in c;
    SplitFirst(name + b, '=', c + value);
    SplitPlain(c + value, '=');
    TrimPadded("", name, b);
    TrimPadded(c, value, "");
    assert "" + name + b == name + b && c + value + "" == c + value;
  }

  // ---------- All label pairs ----------

  ghost predicate PairsRead(raws: seq<string>, pairs: seq<(string, string)>) {
    |raws| == |pairs| && forall i :: 0 <= i < |raws| ==> PairReads(raws[i], pairs[i].0, pairs[i].1)
  }

  /** Place i holds the last pair of the name. */
  predicate LastOf(pairs: seq<(string, string)>, name: string, i: int) {
    0 <= i < |pairs| && pairs[i].0 == name && forall j :: i < j < |pairs| ==> pairs[j].0 != name
  }

  /** The labels are those named by the pairs; of pairs with one name the last gives the value. */
  ghost predicate LabelsOf(pairs: seq<(string, string)>, labels: map<string, string>) {
    && (forall i :: 0 <= i < |pairs| ==> pairs[i].0 in labels)
    && (forall n :: n in labels ==> exists i :: LastOf(pairs, n, i) && pairs[i].1 == labels[n])
  }

  lemma LabelsNext(pairs: seq<(string, string)>, labels: map<string, string>, name: string, value: string)
    requires LabelsOf(pairs, labels)
    ensures LabelsOf(pairs + [(name, value)], labels[name := value])
  {
    var more, after := pairs + [(name, value)], labels[name := value];
    forall n | n in after
      ensures exists i :: LastOf(more, n, i) && more[i].1 == after[n]
    {
      if n == name {
        assert LastOf(more, n, |pairs|);
      } else {
        var i :| LastOf(pairs, n, i) && pairs[i].1 == labels[n];
        assert LastOf(more, n, i);
      }
    }
  }

  /** The pairs fix the labels. */
  lemma LabelsUnique(pairs: seq<(string, string)>, a: map<string, string>, b: map<string, string>)
    requires LabelsOf(pairs, a) && LabelsOf(pairs, b)
    ensures a == b
  {
    forall n ensures n in a <==> n in b {
    }
    forall n | n in a && n in b ensures a[n] == b[n] {
      var i :| LastOf(pairs, n, i) && pairs[i].1 == a[n];
      var j :| LastOf(pairs, n, j) && pairs[j].1 == b[n];
      assert i == j;
    }
  }

  /** One more pair. */
  lemma PairsNext(raws: seq<string>, before: seq<(string, string)>, name: string, value: string)
    requires raws != [] && PairsRead(raws[..|raws| - 1], before) && PairReads(raws[|raws| - 1], name, value)
    ensures PairsRead(raws, before + [(name, value)])
  {
  }

  lemma {:induction false} ParsedPairsRead(raws: seq<string>) returns (pairs: seq<(string, string)>)
    requires ParsePairs(raws).Ok?
    ensures PairsRead(raws, pairs) && LabelsOf(pairs, ParsePairs(raws).value)
  {
    if raws == [] {
      pairs := [];
    } else {
      var labels := ParsePairs(raws[..|raws| - 1]).value;
      var before := ParsedPairsRead(raws[..|raws| - 1]);
      var (name, value) := ParsePair(raws[|raws| - 1]).value;
      ParsedPairReads(raws[|raws| - 1], name, value);
      PairsNext(raws, before, name, value);
      LabelsNext(before, labels, name, value);
      ParsePairsStep(raws, labels, name, value);
      pairs := before + [(name, value)];
    }
  }

  lemma {:induction false} ReadPairsParse(raws: seq<string>, pairs: seq<(string, string)>)
    requires PairsRead(raws, pairs)
    ensures ParsePairs(raws).Ok? && LabelsOf(pairs, ParsePairs(raws).value)
  {
    if raws != [] {
      var init, before, last := raws[..|raws| - 1], pairs[..|pairs| - 1], pairs[|pairs| - 1];
      ReadPairsParse(init, before);
      ReadPairParses(raws[|raws| - 1], last.0, last.1);
      LabelsLast(pairs, ParsePairs(init).value);
    }
  }

  lemma LabelsLast(pairs: seq<(string, string)>, labels: map<string, string>)
    requires pairs != [] && LabelsOf(pairs[..|pairs| - 1], labels)
    ensures LabelsOf(pairs, labels[pairs[|pairs| - 1].0 := pairs[|pairs| - 1].1])
  {
    var before, last := pairs[..|pairs| - 1], pairs[|pairs| - 1];
    LabelsNext(before, labels, last.0, last.1);
    assert pairs == before + [(last.0, last.1)];
  }

  // ---------- The whole specification ----------

  predicate MetricName(name: string) {
    name != "" && Trimmed(name) && '{' !in name && '}' !in name
  }

  /** Pairs without commas or closing braces, at least one, and the labels they give. */
  ghost predicate BlockReads(raws: seq<string>, pairs: seq<(string, string)>, labels: map<string, string>) {
    && raws != [] && (forall r :: r in raws ==> ',' !in r && '}' !in r)
    && PairsRead(raws, pairs) && LabelsOf(pairs, labels)
  }

  /** The name, then comma-separated pairs in braces, then white space only. */
  ghost predicate Braced(
    text: string, spec: Spec, rawName: string, raws: seq<string>, pairs: seq<(string, string)>, tail: string)
  {
    && MetricName(spec.metricName) && Padded(rawName, spec.metricName)
    && BlockReads(raws, pairs, spec.labels)
    && AllSpace(tail) && text == rawName + "{" + Join(raws, ',') + "}" + tail
  }

  /** The text is a bare name, or a name with pairs in braces. */
  ghost predicate Specifies(text: string, spec: Spec) {
    || (MetricName(spec.metricName) && Padded(text, spec.metricName) && spec.labels == map[])
    || exists rawName, raws, pairs, tail :: Braced(text, spec, rawName, raws, pairs, tail)
  }

  lemma BareParses(text: string, spec: Spec)
    requires MetricName(spec.metricName) && Padded(text, spec.metricName) && spec.labels == map[]
    ensures Parse(text) == Ok(Some(spec))
  {
    PaddedIff(text, spec.metricName);
    if text == "" {
      TrimAllSpace(text);
    }
  }

  /** The pieces of a text in braces are found where they stand. */
  lemma PiecesFound(text: string, name: string, b: string, block: string, a: string, tail: string)
    requires MetricName(name) && AllSpace(a) && AllSpace(b) && AllSpace(tail) && '}' !in block
    requires text == a + name + b + "{" + block + "}" + tail
    ensures var core := name + b + "{" + block + "}";
            && TrimSpace(text) == core && Index(core, '{') == |name + b| && Index(core, '}') == |core| - 1
            && core[|name + b| + 1..|core| - 1] == block && core[..|name + b|] == name + b && TrimSpace(name + b) == name
  {
    var core := name + b + "{" + block + "}";
    assert text == a + core + tail;
    assert core[0] == name[0] && core[|core| - 1] == '}';
    TrimPadded(a, core, tail);
    TrimPadded("", name, b);
    assert "" + name + b == name + b;
    BraceFree(b);
    assert core[..|name + b|] == name + b;
    IndexUnique(core, '{', |name + b|);
    assert core[..|core| - 1] == name + b + "{" + block;
    IndexUnique(core, '}', |core| - 1);
  }

  lemma BraceFree(s: string)
    requires AllSpace(s)
    ensures '{' !in s && '}' !in s
  {
    assert !IsSpace('{') && !IsSpace('}');
  }

  lemma BracedParses(
    text: string, spec: Spec, rawName: string, raws: seq<string>, pairs: seq<(string, string)>, tail: string)
    requires Braced(text, spec, rawName, raws, pairs, tail)
    ensures Parse(text) == Ok(Some(spec))
  {
    var a, b := PadAround(rawName, spec.metricName);
    var block := Join(raws, ',');
    JoinAvoids(raws, ',', '}');
    PiecesFound(text, spec.metricName, b, block, a, tail);
    SplitJoin(raws, ',');
    ReadPairsParse(raws, pairs);
    LabelsUnique(pairs, ParsePairs(raws).value, spec.labels);
    assert block != "" by { BlockNotEmpty(raws, pairs); }
  }

  lemma BlockNotEmpty(raws: seq<string>, pairs: seq<(string, string)>)
    requires raws != [] && PairsRead(raws, pairs)
    ensures Join(raws, ',') != ""
  {
    assert PairReads(raws[0], pairs[0].0, pairs[0].1);
  }

  /** What an accepted text has around its braces. */
  lemma ParsedParts(text: string, spec: Spec)
    requires Parse(text) == Ok(Some(spec))
    ensures var core := TrimSpace(text);
            var start, end := Index(core, '{'), Index(core, '}');
            && MetricName(spec.metricName)
            && (start == -1 ==> end == -1 && spec == Spec(core, map[]))
            && (start != -1 ==> start + 1 < end == |core| - 1 && TrimSpace(core[..start]) == spec.metricName
                                && ParsePairs(Split(core[start + 1..end], ',')) == Ok(spec.labels))
  {
    ParsedIsWellFormed(text);
  }

  lemma ParsedSpecifies(text: string, spec: Spec)
    requires Parse(text) == Ok(Some(spec))
    ensures Specifies(text, spec)
  {
    var core := TrimSpace(text);
    var start, end := Index(core, '{'), Index(core, '}');
    ParsedParts(text, spec);
    if start == -1 {
      PaddedIff(text, core);
    } else {
      ReadsBraced(text, spec, core, start, end);
    }
  }

  lemma ReadsBraced(text: string, spec: Spec, core: string, start: nat, end: nat)
    requires core == TrimSpace(text) && start + 1 < end == |core| - 1
    requires core[start] == '{' && core[end] == '}' && '}' !in core[..end]
    requires MetricName(spec.metricName) && TrimSpace(core[..start]) == spec.metricName
    requires ParsePairs(Split(core[start + 1..end], ',')) == Ok(spec.labels)
    ensures Specifies(text, spec)
  {
    var a, tail := TrimSpaceSplits(text);
    BlockPlain(core, start, end);
    var raws, pairs := BlockParts(core[start + 1..end], spec.labels);
    HeadReads(a, core[..start], spec.metricName);
    CoreAround(text, a, core, start, end, tail);
    assert Braced(text, spec, a + core[..start] + "", raws, pairs, tail);
  }

  lemma HeadReads(a: string, head: string, name: string)
    requires AllSpace(a) && Trimmed(name) && TrimSpace(head) == name
    ensures Padded(a + head + "", name)
  {
    PaddedIff(head, name);
    PadMore(a, head, name, "");
  }

  lemma BlockParts(block: string, labels: map<string, string>) returns (raws: seq<string>, pairs: seq<(string, string)>)
    requires '}' !in block && ParsePairs(Split(block, ',')) == Ok(labels)
    ensures BlockReads(raws, pairs, labels) && Join(raws, ',') == block
  {
    raws := Split(block, ',');
    pairs := ParsedPairsRead(raws);
    SplitParts(block, ',');
    JoinSplit(block, ',');
  }

  lemma CoreAround(text: string, a: string, core: string, start: nat, end: nat, tail: string)
    requires text == a + core + tail && start < end == |core| - 1 && core[start] == '{' && core[end] == '}'
    ensures text == (a + core[..start] + "") + "{" + core[start + 1..end] + "}" + tail
  {
    assert core == core[..start] + "{" + core[start + 1..end] + "}";
  }

  lemma BlockPlain(core: string, start: nat, end: nat)
    requires start < end < |core| && '}' !in core[..end]
    ensures '}' !in core[start + 1..end]
  {
    var block := core[start + 1..end];
    assert forall i :: 0 <= i < |block| ==> block[i] == core[..end][start + 1 + i];
  }

  /** The parser accepts exactly this language: the empty text as no specification, and any other text as the
      specification it spells. */
  lemma ParseExact(text: string)
    ensures Parse(text) == Ok(None) <==> text == ""
    ensures forall spec :: Parse(text) == Ok(Some(spec)) <==> Specifies(text, spec)
  {
    forall spec ensures Parse(text) == Ok(Some(spec)) <==> Specifies(text, spec) {
      if Parse(text) == Ok(Some(spec)) {
        ParsedSpecifies(text, spec);
      }
      if Specifies(text, spec) {
        SpecifiedParses(text, spec);
      }
    }
  }

  lemma SpecifiedParses(text: string, spec: Spec)
    requires Specifies(text, spec)
    ensures Parse(text) == Ok(Some(spec))
  {
    if MetricName(spec.metricName) && Padded(text, spec.metricName) && spec.labels == map[] {
      BareParses(text, spec);
    } else {
      var rawName, raws, pairs, tail :| Braced(text, spec, rawName, raws, pairs, tail);
      BracedParses(text, spec, rawName, raws, pairs, tail);
    }
  }
}
