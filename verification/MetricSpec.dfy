/** Metric specifications, "name" or "name{label=value,...}": parsing, printing, and why printing is a
    normal form. */
module MetricSpec {
  import opened Text

  datatype Spec = Spec(metricName: string, labels: map<string, string>)

  // ---------- Parsing ----------

  /** One label pair: exactly one '=', and neither side empty once trimmed. */
  function ParsePair(pair: string): Result<(string, string)> {
    var parts := Split(TrimSpace(pair), '=');
    if |parts| != 2 then Err("invalid label pair")
    else
      var name, value := TrimSpace(parts[0]), TrimSpace(parts[1]);
      if name == "" || value == "" then Err("empty label name or value in pair") else Ok((name, value))
  }

  /** The labels of the pairs in order; a later pair of the same name wins, the first bad pair is the error. */
  function ParsePairs(pairs: seq<string>): Result<map<string, string>> {
    if pairs == [] then Ok(map[])
    else match ParsePairs(pairs[..|pairs| - 1])
      case Err(e) => Err(e)
      case Ok(labels) =>
        match ParsePair(pairs[|pairs| - 1])
        case Err(e) => Err(e)
        case Ok((name, value)) => Ok(labels[name := value])
  }

  function Named(name: string, labels: map<string, string>): Result<Option<Spec>> {
    if name == "" then Err("empty metric name in spec") else Ok(Some(Spec(name, labels)))
  }

  /** The empty string stands for no specification. */
  function Parse(specStr: string): Result<Option<Spec>> {
    if specStr == "" then Ok(None)
    else
      var s := TrimSpace(specStr);
      var start, end := Index(s, '{'), Index(s, '}');
      if start == -1 && end == -1 then Named(s, map[])
      else if start == -1 || end == -1 || end <= start + 1 then
        Err("invalid metric spec string, missing or malformed label block")
      else match ParsePairs(Split(s[start + 1..end], ','))
        case Err(e) => Err(e)
        case Ok(labels) =>
          if end != |s| - 1 then Err("invalid characters after label section")
          else Named(TrimSpace(s[..start]), labels)
  }

  method ParseLabels(labelPairs: seq<string>) returns (r: Result<map<string, string>>)
    ensures r == ParsePairs(labelPairs)
  {
    var labels: map<string, string> := map[];
    for i := 0 to |labelPairs|
      invariant ParsePairs(labelPairs[..i]) == Ok(labels)
    {
      assert labelPairs[..i + 1][..i] == labelPairs[..i];
      var parts := Split(TrimSpace(labelPairs[i]), '=');
      if |parts| != 2 {
        ParsePairsStops(labelPairs, i);
        return Err("invalid label pair");
      }
      var labelName := TrimSpace(parts[0]);
      var labelValue := TrimSpace(parts[1]);
      if labelName == "" || labelValue == "" {
        ParsePairsStops(labelPairs, i);
        return Err("empty label name or value in pair");
      }
      labels := labels[labelName := labelValue];
    }
    assert labelPairs[..|labelPairs|] == labelPairs;
    return Ok(labels);
  }

  method StringToMetricSpec(specStr: string) returns (r: Result<Option<Spec>>)
    ensures r == Parse(specStr)
  {
    if specStr == "" {
      return Ok(None);
    }
    var s := TrimSpace(specStr);
    var metricName := s;
    var labels: map<string, string> := map[];
    var start := Index(s, '{');
    var end := Index(s, '}');
    if start != -1 || end != -1 {
      if start == -1 || end == -1 || end <= start + 1 {
        return Err("invalid metric spec string, missing or malformed label block");
      }
      metricName := TrimSpace(s[..start]);
      var parsed := ParseLabels(Split(s[start + 1..end], ','));
      if parsed.Err? {
        return Err(parsed.message);
      }
      labels := parsed.value;
      if end != |s| - 1 {
        return Err("invalid characters after label section");
      }
    }
    if metricName == "" {
      return Err("empty metric name in spec");
    }
    return Ok(Some(Spec(metricName, labels)));
  }

  /** The first bad pair decides the outcome. */
  lemma {:induction false} ParsePairsStops(pairs: seq<string>, i: nat)
    requires i < |pairs| && ParsePairs(pairs[..i + 1]).Err?
    ensures ParsePairs(pairs) == ParsePairs(pairs[..i + 1])
    decreases |pairs|
  {
    if i == |pairs| - 1 {
      assert pairs[..i + 1] == pairs;
    } else {
      var init := pairs[..|pairs| - 1];
      assert init[..i + 1] == pairs[..i + 1];
      ParsePairsStops(init, i);
    }
  }

  // ---------- Printing ----------

  function PrintPair(name: string, value: string): string {
    name + "=" + value
  }

  function PrintPairs(order: seq<string>, labels: map<string, string>): seq<string>
    requires forall n :: n in order ==> n in labels
  {
    seq(|order|, i requires 0 <= i < |order| => PrintPair(order[i], labels[order[i]]))
  }

  /** name{k=v,...} with the labels in the given order, or the name alone when there are none. */
  function Print(spec: Spec, order: seq<string>): string
    requires forall n :: n in order ==> n in spec.labels
  {
    if order == [] then spec.metricName
    else spec.metricName + "{" + Join(PrintPairs(order, spec.labels), ',') + "}"
  }

  /** order lists every label once. */
  ghost predicate Enumerates(order: seq<string>, labels: map<string, string>) {
    && (forall n :: n in order <==> n in labels)
    && (forall i, j :: 0 <= i < j < |order| ==> order[i] != order[j])
  }

  // ---------- Well-formed specifications ----------

  /** A label name or value as the parser can produce it. */
  predicate Word(w: string) {
    w != "" && Trimmed(w) && '=' !in w && ',' !in w && '}' !in w
  }

  predicate WellFormed(spec: Spec) {
    && spec.metricName != "" && Trimmed(spec.metricName) && '{' !in spec.metricName && '}' !in spec.metricName
    && forall n :: n in spec.labels ==> Word(n) && Word(spec.labels[n])
  }

  lemma PairWords(pair: string)
    requires ParsePair(pair).Ok? && ',' !in pair && '}' !in pair
    ensures Word(ParsePair(pair).value.0) && Word(ParsePair(pair).value.1)
  {
    TrimSpacePart(pair);
    var parts := Split(TrimSpace(pair), '=');
    SplitParts(TrimSpace(pair), '=');
    assert parts[0] in parts && parts[1] in parts;
    TrimSpacePart(parts[0]);
    TrimSpacePart(parts[1]);
  }

  lemma {:induction false} PairsWords(pairs: seq<string>)
    requires ParsePairs(pairs).Ok? && forall p :: p in pairs ==> ',' !in p && '}' !in p
    ensures forall n :: n in ParsePairs(pairs).value ==> Word(n) && Word(ParsePairs(pairs).value[n])
  {
    if pairs != [] {
      assert pairs[|pairs| - 1] in pairs;
      PairsWords(pairs[..|pairs| - 1]);
      PairWords(pairs[|pairs| - 1]);
    }
  }

  /** Whatever string is accepted, the specification it gives is well formed. */
  lemma ParsedIsWellFormed(specStr: string)
    requires Parse(specStr).Ok? && Parse(specStr).value.Some?
    ensures WellFormed(Parse(specStr).value.value)
  {
    var s := TrimSpace(specStr);
    TrimSpacePart(specStr);
    var start, end := Index(s, '{'), Index(s, '}');
    if start != -1 {
      var block := s[start + 1..end];
      assert '}' !in block by {
        assert forall i :: 0 <= i < |block| ==> block[i] == s[..end][start + 1 + i];
      }
      SplitParts(block, ',');
      PairsWords(Split(block, ','));
      TrimSpacePart(s[..start]);
      assert '}' !in s[..start] by {
        assert forall i :: 0 <= i < start ==> s[..start][i] == s[..end][i];
      }
    }
  }

  // ---------- The normal form ----------

  lemma {:induction false} TrimLeftTrimmed(s: string)
    requires s == "" || !IsSpace(s[0])
    ensures TrimLeft(s) == s
  {
  }

  lemma TrimTrimmed(s: string)
    requires Trimmed(s)
    ensures TrimSpace(s) == s
  {
    TrimLeftTrimmed(s);
  }

  lemma PrintedPairParses(name: string, value: string)
    requires Word(name) && Word(value)
    ensures ParsePair(PrintPair(name, value)) == Ok((name, value))
    ensures ',' !in PrintPair(name, value) && '}' !in PrintPair(name, value)
  {
    var pair := PrintPair(name, value);
    assert Trimmed(pair) by { assert pair[0] == name[0] && pair[|pair| - 1] == value[|value| - 1]; }
    TrimTrimmed(pair);
    SplitFirst(name, '=', value);
    SplitPlain(value, '=');
    assert Split(pair, '=') == [name, value];
    TrimTrimmed(name);
    TrimTrimmed(value);
  }

  /** The labels named in a list. */
  function Chosen(order: seq<string>, labels: map<string, string>): map<string, string> {
    map n | n in labels && n in order :: labels[n]
  }

  lemma ChosenStep(order: seq<string>, labels: map<string, string>)
    requires order != [] && order[|order| - 1] in labels
    ensures Chosen(order, labels)
            == Chosen(order[..|order| - 1], labels)[order[|order| - 1] := labels[order[|order| - 1]]]
  {
    assert order == order[..|order| - 1] + [order[|order| - 1]];
  }

  lemma ParsePairsStep(pairs: seq<string>, labels: map<string, string>, name: string, value: string)
    requires pairs != [] && ParsePairs(pairs[..|pairs| - 1]) == Ok(labels)
    requires ParsePair(pairs[|pairs| - 1]) == Ok((name, value))
    ensures ParsePairs(pairs) == Ok(labels[name := value])
  {
  }

  lemma {:induction false} PrintedPairsParse(order: seq<string>, labels: map<string, string>)
    requires forall n :: n in order ==> n in labels && Word(n) && Word(labels[n])
    ensures ParsePairs(PrintPairs(order, labels)) == Ok(Chosen(order, labels))
  {
    if order == [] {
      assert Chosen(order, labels) == map[];
    } else {
      var init, last := order[..|order| - 1], order[|order| - 1];
      PrintedPairsParse(init, labels);
      PrintedPairParses(last, labels[last]);
      var pairs := PrintPairs(order, labels);
      assert pairs[..|pairs| - 1] == PrintPairs(init, labels);
      ParsePairsStep(pairs, Chosen(init, labels), last, labels[last]);
      ChosenStep(order, labels);
    }
  }

  lemma PrintedPairsPlain(order: seq<string>, labels: map<string, string>)
    requires forall n :: n in order ==> n in labels && Word(n) && Word(labels[n])
    ensures forall p :: p in PrintPairs(order, labels) ==> p != "" && ',' !in p && '}' !in p
  {
    forall i | 0 <= i < |order|
      ensures var p := PrintPairs(order, labels)[i]; p != "" && ',' !in p && '}' !in p
    {
      PrintedPairParses(order[i], labels[order[i]]);
    }
  }

  lemma {:induction false} JoinAvoids(parts: seq<string>, sep: char, c: char)
    requires |parts| >= 1 && c != sep && forall p :: p in parts ==> c !in p
    ensures c !in Join(parts, sep)
  {
    if |parts| > 1 {
      JoinAvoids(parts[1..], sep, c);
    }
  }

  /** Parsing a printed specification with labels finds its pieces where they were put. */
  lemma BracesParse(name: string, block: string)
    requires name != "" && Trimmed(name) && '{' !in name && '}' !in name && block != "" && '}' !in block
    ensures var s := name + "{" + block + "}";
            && TrimSpace(s) == s && Index(s, '{') == |name| && Index(s, '}') == |s| - 1
            && s[|name| + 1..|s| - 1] == block && s[..|name|] == name && TrimSpace(name) == name
  {
    var s := name + "{" + block + "}";
    TrimTrimmed(s);
    TrimTrimmed(name);
    assert s[..|name|] == name;
    IndexUnique(s, '{', |name|);
    assert s[..|s| - 1] == name + "{" + block;
    IndexUnique(s, '}', |s| - 1);
  }

  /** The block between the braces: it splits into the printed pairs, and holds no closing brace. */
  lemma BlockSplits(order: seq<string>, labels: map<string, string>)
    requires order != [] && forall n :: n in order ==> n in labels && Word(n) && Word(labels[n])
    ensures var block := Join(PrintPairs(order, labels), ',');
            && block != "" && '}' !in block && Split(block, ',') == PrintPairs(order, labels)
  {
    var pairs := PrintPairs(order, labels);
    PrintedPairsPlain(order, labels);
    assert pairs[0] in pairs;
    JoinAvoids(pairs, ',', '}');
    SplitJoin(pairs, ',');
  }

  /** Printing a well-formed specification, with its labels in any order, and parsing it again gives it
      back. */
  lemma ParsePrint(spec: Spec, order: seq<string>)
    requires WellFormed(spec) && Enumerates(order, spec.labels)
    ensures Parse(Print(spec, order)) == Ok(Some(spec))
  {
    var name, labels := spec.metricName, spec.labels;
    assert Chosen(order, labels) == labels;
    if order == [] {
      TrimTrimmed(name);
      assert labels == map[];
    } else {
      PrintedPairsParse(order, labels);
      BlockSplits(order, labels);
      BracesParse(name, Join(PrintPairs(order, labels), ','));
    }
  }

  /** The normal form: whenever any string is accepted with a specification, printing that specification
      in any label order and parsing it again returns it. */
  lemma AcceptedHasNormalForm(specStr: string, order: seq<string>)
    requires Parse(specStr).Ok? && Parse(specStr).value.Some?
    requires Enumerates(order, Parse(specStr).value.value.labels)
    ensures Parse(Print(Parse(specStr).value.value, order)) == Parse(specStr)
  {
    ParsedIsWellFormed(specStr);
    ParsePrint(Parse(specStr).value.value, order);
  }
}
