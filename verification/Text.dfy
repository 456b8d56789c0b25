/** The string operations the gateway's parsers and printers rest on: splitting and joining on a
    separator, trimming white space, searching, and decimal numbers.  A string is a sequence of
    characters; every separator the gateway uses is a single ASCII character. */
module Text {

  datatype Option<+T> = None | Some(value: T)

  datatype Result<+T> = Ok(value: T) | Err(message: string)

  lemma ConcatAssoc<T>(a: seq<T>, b: seq<T>, c: seq<T>)
    ensures a + b + c == a + (b + c)
  {
  }

  lemma ConcatTail<T>(a: seq<T>, b: seq<T>)
    requires a != []
    ensures (a + b)[0] == a[0] && (a + b)[1..] == a[1..] + b
  {
  }

  lemma ConcatTake<T>(a: seq<T>, b: seq<T>, k: nat)
    requires k < |b|
    ensures a + b[..k + 1] == a + b[..k] + [b[k]]
  {
  }

  /** Places in a list, in ascending order. */
  predicate Increasing(at: seq<nat>) {
    forall i, j :: 0 <= i < j < |at| ==> at[i] < at[j]
  }

  // ---------- Splitting and joining ----------

  function Split(s: string, sep: char): (parts: seq<string>)
    ensures |parts| >= 1
  {
    if s == [] then [[]]
    else
      var rest := Split(s[1..], sep);
      if s[0] == sep then [[]] + rest
      else [[s[0]] + rest[0]] + rest[1..]
  }

  function Join(parts: seq<string>, sep: char): string
    requires |parts| >= 1
  {
    if |parts| == 1 then parts[0] else parts[0] + [sep] + Join(parts[1..], sep)
  }

  /** Splitting counts separators: one more part than there are separators. */
  lemma {:induction false} SplitLength(s: string, sep: char)
    ensures |Split(s, sep)| == 1 + multiset(s)[sep]
  {
    if s != [] {
      SplitLength(s[1..], sep);
      assert s == [s[0]] + s[1..];
    }
  }

  lemma {:induction false} SplitPlain(s: string, sep: char)
    requires sep !in s
    ensures Split(s, sep) == [s]
  {
    if s != [] {
      SplitPlain(s[1..], sep);
      assert s == [s[0]] + s[1..];
    }
  }

  lemma {:induction false} SplitFirst(head: string, sep: char, rest: string)
    requires sep !in head
    ensures Split(head + [sep] + rest, sep) == [head] + Split(rest, sep)
  {
    var s := head + [sep] + rest;
    if head == [] {
      assert s[1..] == rest;
    } else {
      SplitFirst(head[1..], sep, rest);
      assert s[1..] == head[1..] + [sep] + rest;
      assert head == [head[0]] + head[1..];
    }
  }

  /** Splitting undoes joining when no part holds the separator. */
  lemma {:induction false} SplitJoin(parts: seq<string>, sep: char)
    requires |parts| >= 1
    requires forall p :: p in parts ==> sep !in p
    ensures Split(Join(parts, sep), sep) == parts
  {
    if |parts| == 1 {
      SplitPlain(parts[0], sep);
    } else {
      SplitJoin(parts[1..], sep);
      SplitFirst(parts[0], sep, Join(parts[1..], sep));
    }
  }

  /** Joining undoes splitting, on every string. */
  lemma {:induction false} JoinSplit(s: string, sep: char)
    ensures Join(Split(s, sep), sep) == s
  {
    if s != [] {
      JoinSplit(s[1..], sep);
      var rest := Split(s[1..], sep);
      assert s == [s[0]] + s[1..];
      if s[0] == sep {
        ConcatTail([[]], rest);
      } else {
        JoinExtendFirst(s[0], rest, sep);
      }
    }
  }

  lemma JoinExtendFirst(c: char, rest: seq<string>, sep: char)
    requires |rest| >= 1
    ensures Join([[c] + rest[0]] + rest[1..], sep) == [c] + Join(rest, sep)
  {
    ConcatTail([[c] + rest[0]], rest[1..]);
    if |rest| > 1 {
      ConcatAssoc([c], rest[0], [sep]);
      ConcatAssoc([c], rest[0] + [sep], Join(rest[1..], sep));
    }
  }

  /** A join holds one separator between two parts, and every separator its parts hold. */
  lemma {:induction false} JoinCount(parts: seq<string>, sep: char)
    requires |parts| >= 1
    ensures multiset(Join(parts, sep))[sep] >= |parts| - 1
    ensures multiset(Join(parts, sep))[sep] == |parts| - 1 <==> forall p :: p in parts ==> sep !in p
  {
    if |parts| == 1 {
      assert parts[0] in parts;
    } else {
      var head, tail := parts[0], parts[1..];
      JoinCount(tail, sep);
      assert parts == [head] + tail;
      assert multiset(Join(parts, sep))[sep] == multiset(head)[sep] + 1 + multiset(Join(tail, sep))[sep];
      assert multiset(head)[sep] == 0 <==> sep !in head;
      assert (forall p :: p in parts ==> sep !in p) <==> sep !in head && forall p :: p in tail ==> sep !in p;
    }
  }

  /** The parts of a split never hold the separator, nor any character the string does not have. */
  lemma {:induction false} SplitParts(s: string, sep: char)
    ensures forall p :: p in Split(s, sep) ==> sep !in p && forall c :: c in p ==> c in s
  {
    if s != [] {
      SplitParts(s[1..], sep);
    }
  }

  // ---------- Searching ----------

  /** The index of the first c in s, or -1. */
  function Index(s: string, c: char): (i: int)
    ensures -1 <= i < |s|
    ensures i == -1 <==> c !in s
    ensures i >= 0 ==> s[i] == c && c !in s[..i]
  {
    if s == [] then -1
    else if s[0] == c then 0
    else
      var i := Index(s[1..], c);
      if i == -1 then -1
      else
        assert s[..i + 1] == [s[0]] + s[1..][..i];
        i + 1
  }

  lemma IndexUnique(s: string, c: char, i: nat)
    requires i < |s| && s[i] == c && c !in s[..i]
    ensures Index(s, c) == i
  {
    var k := Index(s, c);
    assert forall j | 0 <= j < i :: s[j] == s[..i][j] && s[j] != c;
    assert forall j | 0 <= j < k :: s[j] == s[..k][j] && s[j] != c;
  }

  // ---------- Trimming ----------

  /** The characters with Unicode's White_Space property. */
  predicate IsSpace(c: char) {
    || '\t' <= c <= '\r' || c == ' ' || c == '\U{85}' || c == '\U{A0}' || c == '\U{1680}'
    || '\U{2000}' <= c <= '\U{200a}' || c == '\U{2028}' || c == '\U{2029}' || c == '\U{202f}'
    || c == '\U{205f}' || c == '\U{3000}'
  }

  function TrimLeft(s: string): string {
    if s != [] && IsSpace(s[0]) then TrimLeft(s[1..]) else s
  }

  function TrimRight(s: string): string {
    if s != [] && IsSpace(s[|s| - 1]) then TrimRight(s[..|s| - 1]) else s
  }

  function TrimSpace(s: string): string {
    TrimRight(TrimLeft(s))
  }

  /** Neither end of s is white space. */
  predicate Trimmed(s: string) {
    s != [] ==> !IsSpace(s[0]) && !IsSpace(s[|s| - 1])
  }

  lemma {:induction false} TrimLeftPart(s: string)
    ensures TrimLeft(s) != [] ==> !IsSpace(TrimLeft(s)[0])
    ensures forall c :: c in TrimLeft(s) ==> c in s
  {
    if s != [] && IsSpace(s[0]) {
      TrimLeftPart(s[1..]);
    }
  }

  lemma {:induction false} TrimRightPart(s: string)
    ensures TrimRight(s) <= s
    ensures TrimRight(s) != [] ==> !IsSpace(TrimRight(s)[|TrimRight(s)| - 1])
  {
    if s != [] && IsSpace(s[|s| - 1]) {
      TrimRightPart(s[..|s| - 1]);
    }
  }

  lemma TrimSpacePart(s: string)
    ensures Trimmed(TrimSpace(s))
    ensures forall c :: c in TrimSpace(s) ==> c in s
  {
    TrimLeftPart(s);
    TrimRightPart(TrimLeft(s));
  }

  predicate AllSpace(s: string) {
    forall i :: 0 <= i < |s| ==> IsSpace(s[i])
  }

  lemma {:induction false} TrimLeftSplits(s: string) returns (a: string)
    ensures s == a + TrimLeft(s) && AllSpace(a)
  {
    a := [];
    if s != [] && IsSpace(s[0]) {
      var b := TrimLeftSplits(s[1..]);
      a := [s[0]] + b;
      assert s == [s[0]] + s[1..];
    }
  }

  lemma {:induction false} TrimRightSplits(s: string) returns (b: string)
    ensures s == TrimRight(s) + b && AllSpace(b)
  {
    b := [];
    if s != [] && IsSpace(s[|s| - 1]) {
      var a := TrimRightSplits(s[..|s| - 1]);
      b := a + [s[|s| - 1]];
      assert s == s[..|s| - 1] + [s[|s| - 1]];
    }
  }

  /** Trimming takes away white space at both ends and nothing else. */
  lemma TrimSpaceSplits(s: string) returns (a: string, b: string)
    ensures s == a + TrimSpace(s) + b && AllSpace(a) && AllSpace(b) && Trimmed(TrimSpace(s))
  {
    a := TrimLeftSplits(s);
    b := TrimRightSplits(TrimLeft(s));
    TrimSpacePart(s);
  }

  /** And all of it: a trimmed text between white space is what trimming finds. */
  lemma {:induction false} TrimPadded(a: string, s: string, b: string)
    requires AllSpace(a) && AllSpace(b) && Trimmed(s)
    ensures TrimSpace(a + s + b) == s
    decreases |a| + |b|
  {
    if s == [] {
      TrimAllSpace(a + s + b);
    } else if a != [] {
      assert (a + s + b)[1..] == a[1..] + s + b;
      TrimPadded(a[1..], s, b);
    } else {
      assert a + s + b == s + b && (s + b)[0] == s[0];
      TrimRightPadded(s, b);
    }
  }

  lemma {:induction false} TrimRightPadded(s: string, b: string)
    requires AllSpace(b) && Trimmed(s) && s != []
    ensures TrimRight(s + b) == s
    decreases |b|
  {
    if b == [] {
      assert s + b == s;
    } else {
      assert (s + b)[..|s + b| - 1] == s + b[..|b| - 1];
      TrimRightPadded(s, b[..|b| - 1]);
    }
  }

  lemma {:induction false} TrimAllSpace(s: string)
    requires AllSpace(s)
    ensures TrimSpace(s) == []
  {
    if s != [] {
      TrimAllSpace(s[1..]);
    }
  }

  // ---------- Decimal numbers ----------

  predicate IsDigit(c: char) {
    '0' <= c <= '9'
  }

  predicate AllDigits(s: string) {
    forall c :: c in s ==> IsDigit(c)
  }

  /** The decimal form of a natural number, as %d and strconv.Itoa print it. */
  function Decimal(n: nat): string {
    var digit := ['0' + (n % 10) as char];
    if n < 10 then digit else Decimal(n / 10) + digit
  }

  function DigitsValue(s: string): nat
    requires AllDigits(s)
  {
    if s == [] then 0
    else
      var last := s[|s| - 1];
      assert IsDigit(last);
      DigitsValue(s[..|s| - 1]) * 10 + (last as int - '0' as int)
  }

  /** strconv.ParseInt(s, 10, 32): an optional sign, at least one digit and nothing else, within 32
      signed bits. */
  function ParseInt32(s: string): Option<int> {
    var signed := s != [] && (s[0] == '-' || s[0] == '+');
    var digits := if signed then s[1..] else s;
    if digits == [] || !AllDigits(digits) then None
    else
      var magnitude: int := DigitsValue(digits);
      var n := if signed && s[0] == '-' then -magnitude else magnitude;
      if -0x8000_0000 <= n < 0x8000_0000 then Some(n) else None
  }

  lemma {:induction false} DecimalDigits(n: nat)
    ensures Decimal(n) != [] && AllDigits(Decimal(n)) && DigitsValue(Decimal(n)) == n
  {
    if n >= 10 {
      DecimalDigits(n / 10);
      assert Decimal(n)[..|Decimal(n)| - 1] == Decimal(n / 10);
    } else {
      assert Decimal(n)[..0] == [];
    }
  }

  /** Parsing undoes printing on every natural number that fits. */
  lemma ParseDecimal(n: nat)
    requires n < 0x8000_0000
    ensures ParseInt32(Decimal(n)) == Some(n)
  {
    DecimalDigits(n);
    assert IsDigit(Decimal(n)[0]);
  }

  lemma DecimalInjective(m: nat, n: nat)
    requires Decimal(m) == Decimal(n)
    ensures m == n
  {
    DecimalDigits(m);
    DecimalDigits(n);
  }

  /** strconv.Itoa. */
  function Itoa(n: int): string {
    if n < 0 then "-" + Decimal(-n) else Decimal(n)
  }

  lemma ItoaInjective(a: int, b: int)
    requires Itoa(a) == Itoa(b)
    ensures a == b
  {
    DecimalDigits(if a < 0 then -a else a);
    DecimalDigits(if b < 0 then -b else b);
    assert !IsDigit('-');
    assert (a < 0 <==> Itoa(a)[0] == '-') && (b < 0 <==> Itoa(b)[0] == '-');
    if a < 0 && b < 0 {
      assert Itoa(a)[1..] == Decimal(-a) && Itoa(b)[1..] == Decimal(-b);
      DecimalInjective(-a, -b);
    } else if a >= 0 && b >= 0 {
      DecimalInjective(a, b);
    }
  }

  /** Decimal forms have no leading zero, and leading zeros do not change what digits spell. */
  lemma {:induction false} DecimalLeads(n: nat)
    ensures n > 0 ==> Decimal(n)[0] != '0'
    ensures n == 0 ==> Decimal(n) == "0"
  {
    DecimalDigits(n);
    if n >= 10 {
      DecimalDigits(n / 10);
      DecimalLeads(n / 10);
      assert Decimal(n)[0] == Decimal(n / 10)[0];
    }
  }

  /** One more digit multiplies by ten: the last digit is the ones. */
  lemma DecimalStep(n: nat, digit: nat)
    requires 0 < n && digit < 10
    ensures Decimal(n * 10 + digit) == Decimal(n) + Decimal(digit)
    ensures Decimal(digit) == [['0', '1', '2', '3', '4', '5', '6', '7', '8', '9'][digit]]
  {
    assert (n * 10 + digit) / 10 == n && (n * 10 + digit) % 10 == digit;
  }

  /** A sign may stand before the digits. */
  lemma ParseSigned(n: nat)
    requires n < 0x8000_0000
    ensures ParseInt32("+" + Decimal(n)) == Some(n) && ParseInt32("-" + Decimal(n)) == Some(0 - n)
  {
    DecimalDigits(n);
    ParseAfterSign('+', Decimal(n));
    ParseAfterSign('-', Decimal(n));
  }

  lemma ParseAfterSign(sign: char, digits: string)
    requires (sign == '+' || sign == '-') && digits != [] && AllDigits(digits)
    ensures var n: int := if sign == '+' then DigitsValue(digits) else 0 - DigitsValue(digits);
            ParseInt32([sign] + digits) == if -0x8000_0000 <= n < 0x8000_0000 then Some(n) else None
  {
    assert ([sign] + digits)[0] == sign && ([sign] + digits)[1..] == digits;
  }

  /** The least number fits and the one below it does not. */
  lemma ParseLeast(n: nat)
    ensures ParseInt32("-" + Decimal(n)).Some? <==> n <= 0x8000_0000
    ensures ParseInt32(Decimal(n)).Some? <==> n < 0x8000_0000
  {
    DecimalDigits(n);
    ParseAfterSign('-', Decimal(n));
    assert IsDigit(Decimal(n)[0]);
  }

  /** Nothing else is a number: a text without digits, with any other character, or out of range. */
  lemma ParseRefuses(s: string)
    requires ParseInt32(s).Some?
    ensures s != [] && (s[0] == '-' || s[0] == '+' || IsDigit(s[0])) && (forall i :: 1 <= i < |s| ==> IsDigit(s[i]))
    ensures !IsDigit(s[0]) ==> |s| > 1
  {
    if s[0] == '-' || s[0] == '+' {
      assert forall i :: 1 <= i < |s| ==> s[1..][i - 1] == s[i] && s[i] in s[1..];
    } else {
      assert forall i :: 0 <= i < |s| ==> s[i] in s;
    }
  }
}
