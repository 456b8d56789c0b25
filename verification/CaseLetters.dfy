/** Both conversions keep the letters of a name: separators and capitals aside, the result spells what was
    given, special names included. */
module CaseLetters {
  import opened Text
  import opened StrCase

  function Small(c: char): char {
    if IsUpper(c) then c - 'A' + 'a' else c
  }

  /** The characters of s other than the dropped ones, capitals made small. */
  function Squash(s: string, drop: set<char>): string {
    if s == "" then "" else (if s[0] in drop then "" else [Small(s[0])]) + Squash(s[1..], drop)
  }

  lemma {:induction false} SquashConcat(a: string, b: string, drop: set<char>)
    ensures Squash(a + b, drop) == Squash(a, drop) + Squash(b, drop)
  {
    if a == "" {
      assert a + b == b;
    } else {
      ConcatTail(a, b);
      SquashConcat(a[1..], b, drop);
    }
  }

  lemma SquashFirst(c: char, rest: string, drop: set<char>)
    ensures Squash([c] + rest, drop) == (if c in drop then "" else [Small(c)]) + Squash(rest, drop)
  {
    ConcatTail([c], rest);
  }

  /** The first byte of every rune. */
  function FirstBytes(s: string): string
    decreases |s|
  {
    if s == "" then "" else [s[0]] + FirstBytes(s[RuneWidth(s)..])
  }

  lemma {:induction false} FirstBytesOfOneByteRunes(s: string)
    requires OneByteRunes(s)
    ensures FirstBytes(s) == s
  {
    if s != "" {
      FirstBytesOfOneByteRunes(s[1..]);
    }
  }

  /** The general rule only adds dashes and makes capitals small. */
  lemma {:induction false} DashedKeepsLetters(s: string, first: bool)
    ensures Squash(Dashed(s, first), {'-'}) == Squash(FirstBytes(s), {'-'})
    decreases |s|
  {
    if s != "" {
      var tail, drop := s[RuneWidth(s)..], {'-'};
      var rest := Dashed(tail, false);
      DashedKeepsLetters(tail, false);
      SquashFirst(s[0], FirstBytes(tail), drop);
      SquashFirst(Small(s[0]), rest, drop);
      if IsUpper(s[0]) && !first {
        ConcatAssoc("-", [Small(s[0])], rest);
        SquashFirst('-', [Small(s[0])] + rest, drop);
      }
    }
  }

  /** The same word in capitals and in small letters. */
  predicate SameWord(word: string, small: string) {
    |word| == |small| && forall i :: 0 <= i < |word| ==> Small(word[i]) == Small(small[i]) && word[i] != '-' && small[i] != '-'
  }

  lemma {:induction false} SameWordSquash(word: string, small: string)
    requires SameWord(word, small)
    ensures Squash(word, {'-'}) == Squash(small, {'-'})
  {
    if word != "" {
      SameWordSquash(word[1..], small[1..]);
    }
  }

  /** One more word behind a dash. */
  lemma WordBehindDash(word: string, small: string, words: string, kebab: string)
    requires SameWord(word, small) && Squash(words, {'-'}) == Squash(kebab, {'-'})
    ensures Squash(word + words, {'-'}) == Squash(small + ("-" + kebab), {'-'})
  {
    SameWordSquash(word, small);
    SquashConcat(word, words, {'-'});
    SquashConcat(small, "-" + kebab, {'-'});
    assert Squash("-" + kebab, {'-'}) == Squash(kebab, {'-'}) by {
      SquashFirst('-', kebab, {'-'});
    }
  }

  lemma TwoWords(a: string, b: string, x: string, y: string)
    requires SameWord(a, x) && SameWord(b, y)
    ensures Squash(a + b, {'-'}) == Squash(x + ("-" + y), {'-'})
  {
    SameWordSquash(b, y);
    WordBehindDash(a, x, b, y);
  }

  lemma ThreeWords(a: string, b: string, c: string, x: string, y: string, z: string)
    requires SameWord(a, x) && SameWord(b, y) && SameWord(c, z)
    ensures Squash(a + (b + c), {'-'}) == Squash(x + ("-" + (y + ("-" + z))), {'-'})
  {
    TwoWords(b, c, y, z);
    WordBehindDash(a, x, b + c, y + ("-" + z));
  }

  /** A name and its spelling, word by word; a missing word is empty. */
  datatype Words = Words(a: string, b: string, c: string, d: string)

  predicate SpelledAs(s: string, k: string, name: Words, kebab: Words) {
    && SameWord(name.a, kebab.a) && SameWord(name.b, kebab.b) && SameWord(name.c, kebab.c) && SameWord(name.d, kebab.d)
    && (|| (name.c == "" && name.d == "" && s == name.a + name.b && k == kebab.a + ("-" + kebab.b))
        || (name.d == "" && s == name.a + (name.b + name.c) && k == kebab.a + ("-" + (kebab.b + ("-" + kebab.c))))
        || (s == name.a + (name.b + (name.c + name.d))
            && k == kebab.a + ("-" + (kebab.b + ("-" + (kebab.c + ("-" + kebab.d)))))))
  }

  lemma SpelledKeepsLetters(s: string, k: string, name: Words, kebab: Words)
    requires SpelledAs(s, k, name, kebab)
    ensures Squash(k, {'-'}) == Squash(s, {'-'})
  {
    TwoWords(name.a, name.b, kebab.a, kebab.b);
    ThreeWords(name.a, name.b, name.c, kebab.a, kebab.b, kebab.c);
    ThreeWords(name.b, name.c, name.d, kebab.b, kebab.c, kebab.d);
    WordBehindDash(name.a, kebab.a, name.b + (name.c + name.d),
      kebab.b + ("-" + (kebab.c + ("-" + kebab.d))));
  }

  lemma SpelledTwo(a: string, b: string, x: string, y: string)
    requires SameWord(a, x) && SameWord(b, y)
    ensures SpelledAs(a + b, x + ("-" + y), Words(a, b, "", ""), Words(x, y, "", ""))
  {
  }

  lemma SpelledThree(a: string, b: string, c: string, x: string, y: string, z: string)
    requires SameWord(a, x) && SameWord(b, y) && SameWord(c, z)
    ensures SpelledAs(a + (b + c), x + ("-" + (y + ("-" + z))), Words(a, b, c, ""), Words(x, y, z, ""))
  {
  }

  lemma RouteNames()
    ensures "HTTP" + "Route" == "HTTPRoute" && "http" + ("-" + "route") == "http-route"
    ensures "GRPC" + "Route" == "GRPCRoute" && "grpc" + ("-" + "route") == "grpc-route"
    ensures "TCP" + "Route" == "TCPRoute" && "tcp" + ("-" + "route") == "tcp-route"
    ensures "TLS" + "Route" == "TLSRoute" && "tls" + ("-" + "route") == "tls-route"
    ensures "UDP" + "Route" == "UDPRoute" && "udp" + ("-" + "route") == "udp-route"
  {
  }

  lemma RouteWords(word: string, small: string) returns (name: Words, kebab: Words)
    requires SameWord(word, small)
    ensures SpelledAs(word + "Route", small + ("-" + "route"), name, kebab)
  {
    SpelledTwo(word, "Route", small, "route");
    name, kebab := Words(word, "Route", "", ""), Words(small, "route", "", "");
  }

  lemma SpecialRouteWords(s: string, k: string) returns (name: Words, kebab: Words)
    requires (s, k) in {("HTTPRoute", "http-route"), ("GRPCRoute", "grpc-route"), ("TCPRoute", "tcp-route"),
                        ("TLSRoute", "tls-route"), ("UDPRoute", "udp-route")}
    ensures SpelledAs(s, k, name, kebab)
  {
    RouteNames();
    if s == "HTTPRoute" {
      name, kebab := RouteWords("HTTP", "http");
    } else if s == "GRPCRoute" {
      name, kebab := RouteWords("GRPC", "grpc");
    } else if s == "TCPRoute" {
      name, kebab := RouteWords("TCP", "tcp");
    } else if s == "TLSRoute" {
      name, kebab := RouteWords("TLS", "tls");
    } else {
      name, kebab := RouteWords("UDP", "udp");
    }
  }

  lemma PolicyWords()
    ensures SpelledAs("BackendTLSPolicy", "backend-tls-policy",
              Words("Backend", "TLS", "Policy", ""), Words("backend", "tls", "policy", ""))
  {
    SpelledThree("Backend", "TLS", "Policy", "backend", "tls", "policy");
    assert "Backend" + ("TLS" + "Policy") == "BackendTLSPolicy";
    assert "backend" + ("-" + ("tls" + ("-" + "policy"))) == "backend-tls-policy";
  }

  lemma SpecWords()
    ensures SpelledAs("HTTPAPISpec", "http-api-spec",
              Words("HTTP", "API", "Spec", ""), Words("http", "api", "spec", ""))
  {
    SpelledThree("HTTP", "API", "Spec", "http", "api", "spec");
    assert "HTTP" + ("API" + "Spec") == "HTTPAPISpec";
    assert "http" + ("-" + ("api" + ("-" + "spec"))) == "http-api-spec";
  }

  lemma SpelledFour(a: string, b: string, c: string, d: string, x: string, y: string, z: string, w: string)
    requires SameWord(a, x) && SameWord(b, y) && SameWord(c, z) && SameWord(d, w)
    ensures SpelledAs(a + (b + (c + d)), x + ("-" + (y + ("-" + (z + ("-" + w))))), Words(a, b, c, d), Words(x, y, z, w))
  {
  }

  lemma BindingName()
    ensures "HTTP" + ("API" + ("Spec" + "Binding")) == "HTTPAPISpecBinding"
  {
  }

  lemma BindingSpelling()
    ensures "http" + ("-" + ("api" + ("-" + ("spec" + ("-" + "binding"))))) == "http-api-spec-binding"
  {
  }

  lemma BindingWords()
    ensures SpelledAs("HTTPAPISpecBinding", "http-api-spec-binding",
              Words("HTTP", "API", "Spec", "Binding"), Words("http", "api", "spec", "binding"))
  {
    SpelledFour("HTTP", "API", "Spec", "Binding", "http", "api", "spec", "binding");
    BindingName();
    BindingSpelling();
  }

  lemma SpecialWords(s: string) returns (name: Words, kebab: Words)
    requires SpecialKebab(s).Some?
    ensures SpelledAs(s, SpecialKebab(s).value, name, kebab)
  {
    if s == "HTTPAPISpec" {
      SpecWords();
      name, kebab := Words("HTTP", "API", "Spec", ""), Words("http", "api", "spec", "");
    } else if s == "HTTPAPISpecBinding" {
      BindingWords();
      name, kebab := Words("HTTP", "API", "Spec", "Binding"), Words("http", "api", "spec", "binding");
    } else if s == "BackendTLSPolicy" {
      PolicyWords();
      name, kebab := Words("Backend", "TLS", "Policy", ""), Words("backend", "tls", "policy", "");
    } else {
      name, kebab := SpecialRouteWords(s, SpecialKebab(s).value);
    }
  }

  /** Dashes aside, kebab case spells the name in small letters, special names included: byte for byte on
      names of one-byte runes, and by the first byte of every rune on any other. */
  lemma KebabKeepsLetters(s: string)
    ensures SpecialKebab(s).Some? || OneByteRunes(s) ==> Squash(Kebab(s), {'-'}) == Squash(s, {'-'})
    ensures SpecialKebab(s).None? ==> Squash(Kebab(s), {'-'}) == Squash(FirstBytes(s), {'-'})
  {
    if SpecialKebab(s).Some? {
      var name, kebab := SpecialWords(s);
      SpelledKeepsLetters(s, SpecialKebab(s).value, name, kebab);
    } else {
      DashedKeepsLetters(s, true);
      if OneByteRunes(s) {
        FirstBytesOfOneByteRunes(s);
      }
    }
  }

  /** The special names and their spellings. */
  lemma SpecialSpellings()
    ensures Kebab("HTTPRoute") == "http-route" && Kebab("GRPCRoute") == "grpc-route" && Kebab("TCPRoute") == "tcp-route"
    ensures Kebab("TLSRoute") == "tls-route" && Kebab("UDPRoute") == "udp-route"
    ensures Kebab("HTTPAPISpec") == "http-api-spec" && Kebab("HTTPAPISpecBinding") == "http-api-spec-binding"
    ensures Kebab("BackendTLSPolicy") == "backend-tls-policy"
  {
  }

  lemma {:induction false} CamelRestKeepsLetters(s: string, inWord: bool)
    ensures Squash(CamelRest(s, inWord), {'_', '-'}) == Squash(s, {'_', '-'})
  {
    if s != "" {
      var drop := {'_', '-'};
      CamelRestKeepsLetters(s[1..], true);
      CamelRestKeepsLetters(s[1..], false);
      var c := if !inWord && IsLower(s[0]) then s[0] - ' ' else s[0];
      SquashFirst(c, CamelRest(s[1..], true), drop);
      SquashFirst(c, CamelRest(s[1..], false), drop);
    }
  }

  /** Separators and capitals aside, camel case keeps every byte, behind an X for a leading separator. */
  lemma CamelKeepsLetters(s: string)
    ensures var drop := {'_', '-'};
            Squash(Camel(s), drop)
            == (if s != "" && IsWordSeparator(s[0]) then ['x'] + Squash(s[1..], drop) else Squash(s, drop))
  {
    if s != "" && IsWordSeparator(s[0]) {
      CamelRestKeepsLetters(s[1..], false);
      SquashFirst('X', CamelRest(s[1..], false), {'_', '-'});
    } else {
      CamelRestKeepsLetters(s, false);
    }
  }
}
