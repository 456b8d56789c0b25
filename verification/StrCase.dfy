/** Camel-case and kebab-case conversion.  A character stands for one byte. */
module StrCase {
  import opened Text

  predicate IsWordSeparator(c: char) {
    c == '_' || c == '-'
  }

  predicate IsLower(c: char) {
    'a' <= c <= 'z'
  }

  predicate IsUpper(c: char) {
    'A' <= c <= 'Z'
  }

  // ---------- Camel case ----------

  /** What the conversion makes of the rest of a string.  inWord says that the last character kept may be
      followed by lower-case letters; elsewhere a lower-case letter starts a word and is capitalised. */
  function CamelRest(s: string, inWord: bool): string {
    if s == "" then ""
    else if inWord && IsLower(s[0]) then [s[0]] + CamelRest(s[1..], true)
    else if IsWordSeparator(s[0]) then CamelRest(s[1..], false)
    else if IsDigit(s[0]) then [s[0]] + CamelRest(s[1..], false)
    else [if IsLower(s[0]) then s[0] - ' ' else s[0]] + CamelRest(s[1..], true)
  }

  function Camel(s: string): string {
    if s != "" && IsWordSeparator(s[0]) then "X" + CamelRest(s[1..], false) else CamelRest(s, false)
  }

  /** One character's contribution at index i, put after what is already converted. */
  lemma CamelStep(s: string, i: nat, inWord: bool, t: string)
    requires i < |s|
    ensures var c := s[i];
            t + CamelRest(s[i..], inWord)
            == if inWord && IsLower(c) then t + [c] + CamelRest(s[i + 1..], true)
               else if IsWordSeparator(c) then t + CamelRest(s[i + 1..], false)
               else if IsDigit(c) then t + [c] + CamelRest(s[i + 1..], false)
               else t + [if IsLower(c) then c - ' ' else c] + CamelRest(s[i + 1..], true)
  {
    assert s[i..][1..] == s[i + 1..];
  }

  /** Only a lower-case letter is treated differently inside a word. */
  lemma CamelWordEnd(s: string, i: nat)
    requires i < |s| ==> !IsLower(s[i])
    requires i <= |s|
    ensures CamelRest(s[i..], true) == CamelRest(s[i..], false)
  {
  }

  /** The inner loop: keeps the lower-case letters that follow index start. */
  method AcceptLower(s: string, start: nat, word: string) returns (i: nat, t: string)
    requires start < |s|
    ensures start <= i < |s|
    ensures t + CamelRest(s[i + 1..], false) == word + CamelRest(s[start + 1..], true)
  {
    i, t := start, word;
    while i + 1 < |s| && IsLower(s[i + 1])
      invariant start <= i < |s|
      invariant t + CamelRest(s[i + 1..], true) == word + CamelRest(s[start + 1..], true)
    {
      i := i + 1;
      CamelStep(s, i, true, t);
      t := t + [s[i]];
    }
    CamelWordEnd(s, i + 1);
  }

  /** The loop starts with what is left of the string after a leading separator. */
  lemma CamelStart(s: string)
    requires s != ""
    ensures Camel(s) == if IsWordSeparator(s[0]) then "X" + CamelRest(s[1..], false) else [] + CamelRest(s[0..], false)
  {
    assert s[0..] == s;
  }

  method CamelCase(s: string) returns (t: string)
    ensures t == Camel(s)
  {
    if s == "" {
      return "";
    }
    t := [];
    var i := 0;
    if IsWordSeparator(s[0]) {
      t := "X";
      i := i + 1;
    }
    CamelStart(s);
    t := CamelWords(s, i, t);
  }

  /** The loop: a word at a time. */
  method CamelWords(s: string, start: nat, begun: string) returns (t: string)
    requires start <= |s|
    ensures t == begun + CamelRest(s[start..], false)
  {
    t := begun;
    var i := start;
    while i < |s|
      invariant i <= |s|
      invariant t + CamelRest(s[i..], false) == begun + CamelRest(s[start..], false)
    {
      CamelStep(s, i, false, t);
      var c := s[i];
      if IsWordSeparator(c) {
        i := i + 1;
      } else if IsDigit(c) {
        t := t + [c];
        i := i + 1;
      } else {
        if IsLower(c) {
          c := c - ' ';
        }
        i, t := AcceptLower(s, i, t + [c]);
        i := i + 1;
      }
    }
  }

  /** Camel case, said without the conversion, for the rest of a string: no separators, and every
      lower-case letter directly follows a character that is not a digit. */
  predicate IsCamelRest(s: string, inWord: bool) {
    && (s != "" && IsLower(s[0]) ==> inWord)
    && (forall i :: 0 <= i < |s| ==> !IsWordSeparator(s[i]))
    && (forall i :: 0 <= i < |s| - 1 && IsLower(s[i + 1]) ==> !IsDigit(s[i]))
  }

  predicate IsCamel(s: string) {
    IsCamelRest(s, false)
  }

  lemma {:induction false} CamelRestLength(s: string, inWord: bool)
    ensures |CamelRest(s, inWord)| <= |s|
  {
    if s != "" {
      CamelRestLength(s[1..], true);
      CamelRestLength(s[1..], false);
    }
  }

  /** Whatever the input, the conversion gives camel case. */
  lemma {:induction false} CamelRestIsCamel(s: string, inWord: bool)
    ensures IsCamelRest(CamelRest(s, inWord), inWord)
  {
    if s != "" {
      CamelRestIsCamel(s[1..], true);
      CamelRestIsCamel(s[1..], false);
    }
  }

  lemma IsCamelTail(s: string, inWord: bool)
    requires s != "" && IsCamelRest(s, inWord)
    ensures IsCamelRest(s[1..], !IsDigit(s[0]))
  {
    assert forall i :: 0 <= i < |s[1..]| ==> s[1..][i] == s[i + 1];
  }

  /** The conversion leaves exactly the camel-case names alone. */
  lemma {:induction false} CamelRestFixedIff(s: string, inWord: bool)
    ensures CamelRest(s, inWord) == s <==> IsCamelRest(s, inWord)
  {
    if s != "" {
      CamelRestLength(s[1..], false);
      CamelRestIsCamel(s, inWord);
      if IsCamelRest(s, inWord) {
        IsCamelTail(s, inWord);
        CamelRestFixedIff(s[1..], !IsDigit(s[0]));
      }
    }
  }

  lemma CamelFixedIff(s: string)
    ensures Camel(s) == s <==> IsCamel(s)
  {
    CamelRestFixedIff(s, false);
  }

  lemma CamelIsCamel(s: string)
    ensures IsCamel(Camel(s))
  {
    if s != "" && IsWordSeparator(s[0]) {
      CamelRestIsCamel(s[1..], false);
    } else {
      CamelRestIsCamel(s, false);
    }
  }

  /** Converting twice is converting once, on every byte string. */
  lemma CamelIdempotent(s: string)
    ensures Camel(Camel(s)) == Camel(s)
  {
    CamelIsCamel(s);
    CamelFixedIff(Camel(s));
  }

  // ---------- Kebab case ----------

  /** The names with a spelling of their own. */
  function SpecialKebab(s: string): Option<string> {
    match s
    case "HTTPAPISpec" => Some("http-api-spec")
    case "HTTPRoute" => Some("http-route")
    case "HTTPAPISpecBinding" => Some("http-api-spec-binding")
    case "GRPCRoute" => Some("grpc-route")
    case "TCPRoute" => Some("tcp-route")
    case "TLSRoute" => Some("tls-route")
    case "UDPRoute" => Some("udp-route")
    case "BackendTLSPolicy" => Some("backend-tls-policy")
    case _ => None
  }

  predicate Continues(s: string, i: nat) {
    i < |s| && '\U{80}' <= s[i] <= '\U{bf}'
  }

  /** How many bytes the rune at the front of s takes: the length of a well-formed UTF-8 sequence, or one
      for a plain or a malformed byte. */
  function RuneWidth(s: string): (width: nat)
    requires s != ""
    ensures 1 <= width <= |s|
  {
    if !Continues(s, 1) then 1
    else if '\U{c2}' <= s[0] <= '\U{df}' then 2
    else if '\U{e0}' <= s[0] <= '\U{ef}' then
      if !Continues(s, 2) || (s[0] == '\U{e0}' && s[1] < '\U{a0}') || (s[0] == '\U{ed}' && s[1] >= '\U{a0}') then 1
      else 3
    else if '\U{f0}' <= s[0] <= '\U{f4}' then
      if !Continues(s, 2) || !Continues(s, 3) || (s[0] == '\U{f0}' && s[1] < '\U{90}')
         || (s[0] == '\U{f4}' && s[1] >= '\U{90}') then 1
      else 4
    else 1
  }

  /** A Unicode scalar value. */
  type Scalar = n: int | 0 <= n < 0x11_0000 && !(0xD800 <= n < 0xE000)

  function Continuation(n: nat): char {
    (0x80 + n % 0x40) as char
  }

  /** The UTF-8 form of a scalar value, section 3 of RFC 3629. */
  function Utf8(n: Scalar): (bytes: string)
    ensures 1 <= |bytes| <= 4
  {
    if n < 0x80 then [n as char]
    else if n < 0x800 then [(0xC0 + n / 0x40) as char, Continuation(n)]
    else if n < 0x1_0000 then [(0xE0 + n / 0x1000) as char, Continuation(n / 0x40), Continuation(n)]
    else [(0xF0 + n / 0x4_0000) as char, Continuation(n / 0x1000), Continuation(n / 0x40), Continuation(n)]
  }

  predicate IsContinuation(c: char) {
    '\U{80}' <= c <= '\U{bf}'
  }

  lemma WidthTwo(a: char, b: char, rest: string)
    requires '\U{c2}' <= a <= '\U{df}' && IsContinuation(b)
    ensures RuneWidth([a, b] + rest) == 2
  {
    var s := [a, b] + rest;
    assert s[0] == a && s[1] == b;
  }

  lemma WidthThree(a: char, b: char, c: char, rest: string)
    requires '\U{e0}' <= a <= '\U{ef}' && IsContinuation(b) && IsContinuation(c)
    requires (a == '\U{e0}' ==> b >= '\U{a0}') && (a == '\U{ed}' ==> b < '\U{a0}')
    ensures RuneWidth([a, b, c] + rest) == 3
  {
    var s := [a, b, c] + rest;
    assert s[0] == a && s[1] == b && s[2] == c;
  }

  lemma WidthFour(a: char, b: char, c: char, d: char, rest: string)
    requires '\U{f0}' <= a <= '\U{f4}' && IsContinuation(b) && IsContinuation(c) && IsContinuation(d)
    requires (a == '\U{f0}' ==> b >= '\U{90}') && (a == '\U{f4}' ==> b < '\U{90}')
    ensures RuneWidth([a, b, c, d] + rest) == 4
  {
    var s := [a, b, c, d] + rest;
    assert s[0] == a && s[1] == b && s[2] == c && s[3] == d;
  }

  /** The width of a rune is the length of its UTF-8 form. */
  lemma RuneWidthOfUtf8(n: Scalar, rest: string)
    ensures RuneWidth(Utf8(n) + rest) == |Utf8(n)|
  {
    if n < 0x80 {
      var s := Utf8(n) + rest;
      assert s[0] == n as char;
    } else if n < 0x800 {
      WidthTwo((0xC0 + n / 0x40) as char, Continuation(n), rest);
    } else if n < 0x1_0000 {
      WidthThree((0xE0 + n / 0x1000) as char, Continuation(n / 0x40), Continuation(n), rest);
    } else {
      WidthFour((0xF0 + n / 0x4_0000) as char, Continuation(n / 0x1000), Continuation(n / 0x40), Continuation(n), rest);
    }
  }

  /** Appending six bits, and taking them off again. */
  lemma SixBits(high: nat, low: nat)
    requires low < 0x40
    ensures (high * 0x40 + low) / 0x40 == high && (high * 0x40 + low) % 0x40 == low
  {
  }

  function Bits(c: char): nat {
    c as int % 0x40
  }

  lemma TwoBytes(s: string)
    requires |s| == 2 && '\U{c2}' <= s[0] <= '\U{df}' && Continues(s, 1)
    ensures exists n: Scalar :: s == Utf8(n)
  {
    var a := s[0] as int - 0xC0;
    SixBits(a, Bits(s[1]));
    var n: Scalar := a * 0x40 + Bits(s[1]);
    assert s == Utf8(n);
  }

  lemma ThreeBytes(s: string)
    requires |s| == 3 && '\U{e0}' <= s[0] <= '\U{ef}' && Continues(s, 1) && Continues(s, 2)
    requires (s[0] == '\U{e0}' ==> s[1] >= '\U{a0}') && (s[0] == '\U{ed}' ==> s[1] < '\U{a0}')
    ensures exists n: Scalar :: s == Utf8(n)
  {
    var a := s[0] as int - 0xE0;
    var high := a * 0x40 + Bits(s[1]);
    SixBits(a, Bits(s[1]));
    SixBits(high, Bits(s[2]));
    var n: Scalar := high * 0x40 + Bits(s[2]);
    assert n / 0x1000 == high / 0x40;
    assert s == Utf8(n);
  }

  lemma FourParts(a: nat, b: nat, c: nat, d: nat)
    requires b < 0x40 && c < 0x40 && d < 0x40
    ensures var n := ((a * 0x40 + b) * 0x40 + c) * 0x40 + d;
            n / 0x4_0000 == a && n / 0x1000 % 0x40 == b && n / 0x40 % 0x40 == c && n % 0x40 == d
  {
    var high := a * 0x40 + b;
    var middle := high * 0x40 + c;
    SixBits(a, b);
    SixBits(high, c);
    SixBits(middle, d);
    var n := middle * 0x40 + d;
    assert n / 0x1000 == middle / 0x40 && n / 0x4_0000 == high / 0x40;
  }

  lemma FourBytes(s: string)
    requires |s| == 4 && '\U{f0}' <= s[0] <= '\U{f4}' && Continues(s, 1) && Continues(s, 2) && Continues(s, 3)
    requires (s[0] == '\U{f0}' ==> s[1] >= '\U{90}') && (s[0] == '\U{f4}' ==> s[1] < '\U{90}')
    ensures exists n: Scalar :: s == Utf8(n)
  {
    var a, b, c, d := s[0] as int - 0xF0, Bits(s[1]), Bits(s[2]), Bits(s[3]);
    FourParts(a, b, c, d);
    var n: Scalar := ((a * 0x40 + b) * 0x40 + c) * 0x40 + d;
    assert s == Utf8(n);
  }

  /** A rune of several bytes is the UTF-8 form of a scalar value; every other byte is a rune of its own. */
  lemma WideRuneIsUtf8(s: string)
    requires s != "" && RuneWidth(s) > 1
    ensures exists n: Scalar :: s[..RuneWidth(s)] == Utf8(n)
  {
    var rune := s[..RuneWidth(s)];
    if |rune| == 2 {
      TwoBytes(rune);
    } else if |rune| == 3 {
      ThreeBytes(rune);
    } else {
      FourBytes(rune);
    }
  }

  /** No rune takes more than one byte; every ASCII string is like this. */
  predicate OneByteRunes(s: string) {
    s == "" || (RuneWidth(s) == 1 && OneByteRunes(s[1..]))
  }

  lemma {:induction false} AsciiRunes(s: string)
    requires forall i :: 0 <= i < |s| ==> s[i] < '\U{80}'
    ensures OneByteRunes(s)
  {
    if s != "" {
      AsciiRunes(s[1..]);
    }
  }

  /** The general rule: the first byte of every rune, capitals made small behind a dash. */
  function Dashed(s: string, first: bool): string
    decreases |s|
  {
    if s == "" then ""
    else if IsUpper(s[0]) then
      (if first then "" else "-") + [s[0] - 'A' + 'a'] + Dashed(s[RuneWidth(s)..], false)
    else [s[0]] + Dashed(s[RuneWidth(s)..], false)
  }

  function Kebab(s: string): string {
    match SpecialKebab(s)
    case Some(k) => k
    case None => Dashed(s, true)
  }

  method CamelCaseToKebabCase(s: string) returns (k: string)
    ensures k == Kebab(s)
  {
    match s
    case "HTTPAPISpec" => return "http-api-spec";
    case "HTTPRoute" => return "http-route";
    case "HTTPAPISpecBinding" => return "http-api-spec-binding";
    case "GRPCRoute" => return "grpc-route";
    case "TCPRoute" => return "tcp-route";
    case "TLSRoute" => return "tls-route";
    case "UDPRoute" => return "udp-route";
    case "BackendTLSPolicy" => return "backend-tls-policy";
    case _ => k := DashCapitals(s);
  }

  lemma DashStep(s: string, i: nat, out: string)
    requires i < |s|
    ensures |s[i..]| > 0 && i + RuneWidth(s[i..]) <= |s|
    ensures var rest := Dashed(s[i + RuneWidth(s[i..])..], false);
            out + Dashed(s[i..], i == 0)
            == if !IsUpper(s[i]) then out + [s[i]] + rest
               else if i > 0 then out + "-" + [s[i] - 'A' + 'a'] + rest
               else out + [s[i] - 'A' + 'a'] + rest
  {
    assert s[i..][RuneWidth(s[i..])..] == s[i + RuneWidth(s[i..])..];
  }

  method DashCapitals(s: string) returns (out: string)
    ensures out == Dashed(s, true)
  {
    out := [];
    var i := 0;
    while i < |s|
      invariant 0 <= i <= |s|
      invariant out + Dashed(s[i..], i == 0) == Dashed(s, true)
    {
      DashStep(s, i, out);
      if IsUpper(s[i]) {
        if i > 0 {
          out := out + "-";
        }
        out := out + [s[i] - 'A' + 'a'];
      } else {
        out := out + [s[i]];
      }
      i := i + RuneWidth(s[i..]);
    }
  }

  /** A dash and a small letter come back as the capital they stand for. */
  lemma CamelOfDash(c: char, rest: string, inWord: bool)
    requires IsUpper(c)
    ensures CamelRest("-" + [c - 'A' + 'a'] + rest, inWord) == [c] + CamelRest(rest, true)
  {
    var small := [c - 'A' + 'a'] + rest;
    assert "-" + [c - 'A' + 'a'] + rest == ['-'] + small;
    ConcatTail(['-'], small);
    ConcatTail([c - 'A' + 'a'], rest);
    assert CamelRest(small, false) == [c] + CamelRest(rest, true);
  }

  lemma {:induction false} CamelOfDashed(s: string, inWord: bool)
    requires IsCamelRest(s, inWord) && OneByteRunes(s)
    ensures CamelRest(Dashed(s, false), inWord) == s
  {
    if s != "" {
      IsCamelTail(s, inWord);
      CamelOfDashed(s[1..], !IsDigit(s[0]));
      var rest := Dashed(s[1..], false);
      if IsUpper(s[0]) {
        CamelOfDash(s[0], rest, inWord);
      } else {
        ConcatTail([s[0]], rest);
      }
    }
  }

  /** Camel case of a name's first character and what follows. */
  lemma CamelOfFirst(c: char, rest: string)
    requires !IsWordSeparator(c) && !IsLower(c)
    ensures Camel([if IsUpper(c) then c - 'A' + 'a' else c] + rest) == [c] + CamelRest(rest, !IsDigit(c))
  {
    ConcatTail([if IsUpper(c) then c - 'A' + 'a' else c], rest);
  }

  lemma CamelOfDashedName(s: string)
    requires IsCamel(s) && OneByteRunes(s)
    ensures Camel(Dashed(s, true)) == s
  {
    if s != "" {
      IsCamelTail(s, false);
      CamelOfDashed(s[1..], !IsDigit(s[0]));
      CamelOfFirst(s[0], Dashed(s[1..], false));
      assert Dashed(s, true) == [if IsUpper(s[0]) then s[0] - 'A' + 'a' else s[0]] + Dashed(s[1..], false);
      assert s == [s[0]] + s[1..];
    }
  }

  /** Going to kebab case and back never adds a byte, and keeps them all only if every rune is one. */
  lemma {:induction false} CamelOfDashedLength(s: string, inWord: bool)
    ensures |CamelRest(Dashed(s, false), inWord)| <= |s|
    ensures |CamelRest(Dashed(s, false), inWord)| == |s| ==> OneByteRunes(s)
    decreases |s|
  {
    if s != "" {
      var tail := s[RuneWidth(s)..];
      var rest := Dashed(tail, false);
      CamelOfDashedLength(tail, true);
      CamelOfDashedLength(tail, false);
      if IsUpper(s[0]) {
        CamelOfDash(s[0], rest, inWord);
      } else {
        ConcatTail([s[0]], rest);
      }
    }
  }

  lemma CamelOfDashedNameLength(s: string)
    requires Camel(Dashed(s, true)) == s
    ensures OneByteRunes(s)
  {
    if s != "" {
      var tail := s[RuneWidth(s)..];
      var c := if IsUpper(s[0]) then s[0] - 'A' + 'a' else s[0];
      CamelOfDashedLength(tail, true);
      CamelOfDashedLength(tail, false);
      assert Dashed(s, true) == [c] + Dashed(tail, false);
      ConcatTail([c], Dashed(tail, false));
    }
  }

  predicate AllLower(s: string) {
    forall i :: 0 <= i < |s| ==> IsLower(s[i])
  }

  /** Inside a word lower-case letters are kept as they are. */
  lemma {:induction false} CamelOfLower(letters: string, rest: string)
    requires AllLower(letters)
    ensures CamelRest(letters + rest, true) == letters + CamelRest(rest, true)
  {
    if letters == "" {
      assert letters + rest == rest;
    } else {
      ConcatTail(letters, rest);
      CamelOfLower(letters[1..], rest);
    }
  }

  lemma CamelSecond(k: string)
    requires |k| >= 2 && IsLower(k[0]) && IsLower(k[1])
    ensures |Camel(k)| >= 2 && Camel(k)[1] == k[1]
  {
    assert CamelRest(k, false) == [k[0] - ' '] + CamelRest(k[1..], true);
    assert CamelRest(k[1..], true)[0] == k[1];
  }

  lemma CamelSecondWord(k: string, dash: nat)
    requires 1 <= dash && dash + 2 < |k| && AllLower(k[..dash]) && IsWordSeparator(k[dash])
    requires IsLower(k[dash + 1]) && IsLower(k[dash + 2])
    ensures |Camel(k)| > dash + 1 && Camel(k)[dash + 1] == k[dash + 2]
  {
    var tail := k[dash..];
    assert k[1..] == k[1..dash] + tail;
    CamelOfLower(k[1..dash], tail);
    assert Camel(k) == [k[0] - ' '] + CamelRest(k[1..], true);
    assert CamelRest(tail, true) == CamelRest(tail[1..], false);
    assert CamelRest(tail[1..], false) == [k[dash + 1] - ' '] + CamelRest(tail[1..][1..], true);
    assert CamelRest(tail[1..][1..], true)[0] == k[dash + 2];
  }

  /** The name has a capital inside its word number one (no dash before) or two (after the dash), where its
      spelling has a small letter. */
  predicate CapitalInFirstWord(s: string, k: string) {
    |k| >= 2 && |s| >= 2 && IsLower(k[0]) && IsLower(k[1]) && IsUpper(s[1])
  }

  predicate CapitalInSecondWord(s: string, k: string, dash: nat) {
    && 1 <= dash && dash + 2 < |k| && dash + 1 < |s| && AllLower(k[..dash]) && IsWordSeparator(k[dash])
    && IsLower(k[dash + 1]) && IsLower(k[dash + 2]) && IsUpper(s[dash + 1])
  }

  lemma CapitalChanges(s: string, k: string, dash: nat)
    requires CapitalInFirstWord(s, k) || CapitalInSecondWord(s, k, dash)
    ensures Camel(k) != s
  {
    if CapitalInFirstWord(s, k) {
      CamelSecond(k);
    } else {
      CamelSecondWord(k, dash);
    }
  }

  lemma SpecialCapitals(s: string)
    requires SpecialKebab(s).Some?
    ensures CapitalInFirstWord(s, SpecialKebab(s).value) || CapitalInSecondWord(s, SpecialKebab(s).value, 7)
  {
    if s == "BackendTLSPolicy" {
      assert AllLower("backend-tls-policy"[..7]);
      assert CapitalInSecondWord("BackendTLSPolicy", "backend-tls-policy", 7);
    } else {
      assert IsUpper(s[1]);
    }
  }

  /** The names with a spelling of their own do not come back: a run of capitals is one word there. */
  lemma SpecialNamesChange(s: string)
    requires SpecialKebab(s).Some?
    ensures Camel(Kebab(s)) != s
  {
    SpecialCapitals(s);
    CapitalChanges(s, SpecialKebab(s).value, 7);
  }

  /** Over all byte strings, kebab case converts back exactly for the camel-case names that are not on the
      special list and hold no rune of several bytes. */
  lemma KebabRoundTripIff(s: string)
    ensures Camel(Kebab(s)) == s <==> IsCamel(s) && OneByteRunes(s) && SpecialKebab(s).None?
  {
    if SpecialKebab(s).Some? {
      SpecialNamesChange(s);
    } else {
      if Camel(Dashed(s, true)) == s {
        CamelIsCamel(Dashed(s, true));
        CamelOfDashedNameLength(s);
      }
      if IsCamel(s) && OneByteRunes(s) {
        CamelOfDashedName(s);
      }
    }
  }

  /** So on those names kebab case loses nothing. */
  lemma KebabInjective(s: string, t: string)
    requires IsCamel(s) && OneByteRunes(s) && SpecialKebab(s).None?
    requires IsCamel(t) && OneByteRunes(t) && SpecialKebab(t).None?
    requires Kebab(s) == Kebab(t)
    ensures s == t
  {
    KebabRoundTripIff(s);
    KebabRoundTripIff(t);
  }
}
