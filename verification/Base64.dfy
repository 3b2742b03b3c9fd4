/** The base64 codec behind region-id strings (section 4 of RFC 4648): encoding and decoding on
    whole strings, and what the two are to each other. */
module Base64 {
  import opened Basics
  import opened Bits

  /** b64_table. */
  function Symbol(v: nat): (c: char)
    requires v < 64
  {
    if v < 26 then 'A' + v as char
    else if v < 52 then 'a' + (v - 26) as char
    else if v < 62 then '0' + (v - 52) as char
    else if v == 62 then '+' else '/'
  }

  predicate IsAlnum(c: char) { 'A' <= c <= 'Z' || 'a' <= c <= 'z' || '0' <= c <= '9' }

  predicate InAlphabet(c: char) { IsAlnum(c) || c == '+' || c == '/' }

  function Value(c: char): (v: nat)
    requires InAlphabet(c)
    ensures v < 64 && Symbol(v) == c
  {
    if 'A' <= c <= 'Z' then (c - 'A') as nat
    else if 'a' <= c <= 'z' then (c - 'a') as nat + 26
    else if '0' <= c <= '9' then (c - '0') as nat + 52
    else if c == '+' then 62 else 63
  }

  lemma SymbolValue(v: nat)
    requires v < 64
    ensures InAlphabet(Symbol(v)) && Value(Symbol(v)) == v && Symbol(v) != '='
  {}

  // ---------- specification ----------

  /** Three bytes as one 24-bit number, and that number as four base-64 digits. */
  function Word(a: byte, b: byte, c: byte): (n: nat)
    ensures n < 0x100_0000
  {
    a * 65536 + b * 256 + c
  }

  function Quad(n: nat): (s: string)
    requires n < 0x100_0000
    ensures |s| == 4
  {
    [Symbol(n / 262144), Symbol(n / 4096 % 64), Symbol(n / 64 % 64), Symbol(n % 64)]
  }

  function Encode(src: seq<byte>): string {
    if |src| == 0 then ""
    else if |src| == 1 then Quad(Word(src[0], 0, 0))[..2] + "=="
    else if |src| == 2 then Quad(Word(src[0], src[1], 0))[..3] + "="
    else Quad(Word(src[0], src[1], src[2])) + Encode(src[3..])
  }

  type digit = v: int | 0 <= v < 64

  /** Four digits as one 24-bit number, and that number as three bytes. */
  function Number(a: digit, b: digit, c: digit, d: digit): (n: nat)
    ensures n < 0x100_0000
  {
    a * 262144 + b * 4096 + c * 64 + d
  }

  function Triple(n: nat): (t: seq<byte>)
    requires n < 0x100_0000
    ensures |t| == 3
  {
    [n / 65536, n / 256 % 256, n % 256]
  }

  /** The longest leading run of alphabet characters. */
  function LeadingRun(s: string): (run: string)
    ensures run <= s && (forall i :: 0 <= i < |run| ==> InAlphabet(run[i]))
    ensures |run| < |s| ==> !InAlphabet(s[|run|])
  {
    if s == "" || !InAlphabet(s[0]) then "" else [s[0]] + LeadingRun(s[1..])
  }

  predicate AllAlphabet(s: string) { forall i :: 0 <= i < |s| ==> InAlphabet(s[i]) }

  function DecodeRun(s: string): seq<byte>
    requires AllAlphabet(s)
  {
    if |s| <= 1 then []
    else if |s| == 2 then Triple(Number(Value(s[0]), Value(s[1]), 0, 0))[..1]
    else if |s| == 3 then Triple(Number(Value(s[0]), Value(s[1]), Value(s[2]), 0))[..2]
    else Triple(Number(Value(s[0]), Value(s[1]), Value(s[2]), Value(s[3]))) + DecodeRun(s[4..])
  }

  function Decode(s: string): seq<byte> { DecodeRun(LeadingRun(s)) }

  /** How many bytes a run decodes to: three for each group of four characters, and one less than the
      characters of a last, shorter group. */
  lemma {:induction false} DecodedLength(s: string)
    requires AllAlphabet(s)
    ensures |DecodeRun(s)| == |s| / 4 * 3 + if |s| % 4 >= 2 then |s| % 4 - 1 else 0
  {
    if |s| >= 4 { DecodedLength(s[4..]); }
  }

  // ---------- one group ----------

  /** Shifts in steps of one digit, and of one byte. */
  lemma Shifts(n: nat)
    ensures n / 4096 == n / 64 / 64 && n / 262144 == n / 4096 / 64
    ensures n / 65536 == n / 256 / 256
  {
    DivDiv(n, 64, 64, 4096);
    DivDiv(n, 4096, 64, 262144);
    DivDiv(n, 256, 256, 65536);
  }

  lemma DigitsOfWord(n: nat)
    requires n < 0x100_0000
    ensures n / 262144 < 64
    ensures Number(n / 262144, n / 4096 % 64, n / 64 % 64, n % 64) == n
  {
    Shifts(n);
    var p, q := n / 64, n / 64 / 64;
    assert n == 64 * p + n % 64 && p == 64 * q + p % 64 && q == 64 * (q / 64) + q % 64;
  }

  lemma BytesOfNumber(a: byte, b: byte, c: byte)
    ensures Triple(Word(a, b, c)) == [a, b, c]
  {
    var n := Word(a, b, c);
    Shifts(n);
    DivModUnique(n, 256, a * 256 + b, c);
    DivModUnique(a * 256 + b, 256, a, b);
  }

  lemma DigitsOfNumber(a: digit, b: digit, c: digit, d: digit)
    ensures Quad(Number(a, b, c, d)) == [Symbol(a), Symbol(b), Symbol(c), Symbol(d)]
  {
    var n := Number(a, b, c, d);
    Shifts(n);
    DivModUnique(n, 64, a * 4096 + b * 64 + c, d);
    DivModUnique(a * 4096 + b * 64 + c, 64, a * 64 + b, c);
    DivModUnique(a * 64 + b, 64, a, b);
  }

  lemma WordOfTriple(n: nat)
    requires n < 0x100_0000
    ensures Word(Triple(n)[0], Triple(n)[1], Triple(n)[2]) == n
  {
    Shifts(n);
    var p := n / 256;
    assert n == 256 * p + n % 256 && p == 256 * (p / 256) + p % 256;
  }

  /** Digits that a short group leaves unused. */
  lemma PadBits(a: byte, b: byte)
    ensures Word(a, 0, 0) / 64 % 64 == 0 && Word(a, 0, 0) % 64 == 0
    ensures Word(a, b, 0) % 64 == 0
    ensures Word(a, 0, 0) / 4096 % 64 % 16 == 0
    ensures Word(a, b, 0) / 64 % 64 % 4 == 0
  {
    PadOne(a);
    PadTwo(a, b);
  }

  lemma PadOne(a: byte)
    ensures Word(a, 0, 0) / 64 % 64 == 0 && Word(a, 0, 0) % 64 == 0
    ensures Word(a, 0, 0) / 4096 % 64 % 16 == 0
  {
    var n := Word(a, 0, 0);
    DivModUnique(n, 64, 1024 * a, 0);
    DivModUnique(1024 * a, 64, 16 * a, 0);
    DivModUnique(n, 4096, 16 * a, 0);
    DivModUnique(16 * a, 64, a / 4, 16 * (a % 4));
    DivModUnique(16 * (a % 4), 16, a % 4, 0);
  }

  lemma PadTwo(a: byte, b: byte)
    ensures Word(a, b, 0) % 64 == 0
    ensures Word(a, b, 0) / 64 % 64 % 4 == 0
  {
    var n := Word(a, b, 0);
    DivModUnique(n, 64, 1024 * a + 4 * b, 0);
    var x := 256 * a + b;
    DivModUnique(4 * x, 64, x / 16, 4 * (x % 16));
    DivModUnique(4 * (x % 16), 4, x % 16, 0);
  }

  lemma ValuesOfQuad(n: nat)
    requires n < 0x100_0000
    ensures forall i :: 0 <= i < 4 ==> InAlphabet(Quad(n)[i])
    ensures Number(Value(Quad(n)[0]), Value(Quad(n)[1]), Value(Quad(n)[2]), Value(Quad(n)[3])) == n
    ensures Value(Quad(n)[1]) == n / 4096 % 64 && Value(Quad(n)[2]) == n / 64 % 64 && Value(Quad(n)[3]) == n % 64
  {
    DigitsOfWord(n);
    SymbolValue(n / 262144);
    SymbolValue(n / 4096 % 64);
    SymbolValue(n / 64 % 64);
    SymbolValue(n % 64);
  }

  // ---------- decode is compositional ----------

  lemma RunOfQuad(q: string, rest: string)
    requires |q| == 4 && AllAlphabet(q)
    ensures LeadingRun(q + rest) == q + LeadingRun(rest)
  {
    RunPrefix(q, rest);
  }

  lemma {:induction false} RunPrefix(a: string, b: string)
    requires AllAlphabet(a)
    ensures LeadingRun(a + b) == a + LeadingRun(b)
  {
    if a == "" {
      assert a + b == b;
    } else {
      assert (a + b)[1..] == a[1..] + b;
      RunPrefix(a[1..], b);
    }
  }

  lemma DecodeQuad(q: string, rest: string)
    requires |q| == 4 && AllAlphabet(q)
    ensures Decode(q + rest) == Triple(Number(Value(q[0]), Value(q[1]), Value(q[2]), Value(q[3]))) + Decode(rest)
  {
    RunOfQuad(q, rest);
    var run := q + LeadingRun(rest);
    assert run[4..] == LeadingRun(rest) && run[0] == q[0] && run[1] == q[1] && run[2] == q[2] && run[3] == q[3];
  }

  lemma DecodeTail(q: string, pad: string)
    requires 2 <= |q| <= 3 && AllAlphabet(q) && pad != "" && pad[0] == '='
    ensures Decode(q + pad)
         == Triple(Number(Value(q[0]), Value(q[1]), if |q| == 3 then Value(q[2]) else 0, 0))[..|q| - 1]
  {
    RunPrefix(q, pad);
    assert q + "" == q;
  }

  // ---------- round trip ----------

  /** Decoding an encoding gives the bytes back, whatever they are. */
  lemma {:induction false} RoundTrip(src: seq<byte>)
    ensures Decode(Encode(src)) == src
  {
    hide Word, Quad, Number, Triple, Decode;
    if |src| == 0 {
      DecodeEmpty();
    } else if |src| == 1 {
      var n := Word(src[0], 0, 0);
      ValuesOfQuad(n);
      PadBits(src[0], 0);
      DecodeTail(Quad(n)[..2], "==");
      BytesOfNumber(src[0], 0, 0);
    } else if |src| == 2 {
      var n := Word(src[0], src[1], 0);
      ValuesOfQuad(n);
      PadBits(src[0], src[1]);
      DecodeTail(Quad(n)[..3], "=");
      BytesOfNumber(src[0], src[1], 0);
    } else {
      var n := Word(src[0], src[1], src[2]);
      ValuesOfQuad(n);
      RoundTrip(src[3..]);
      DecodeQuad(Quad(n), Encode(src[3..]));
      BytesOfNumber(src[0], src[1], src[2]);
    }
  }

  lemma DecodeEmpty()
    ensures Decode("") == []
  {}

  lemma EncodeInjective(a: seq<byte>, b: seq<byte>)
    requires Encode(a) == Encode(b)
    ensures a == b
  {
    RoundTrip(a);
    RoundTrip(b);
  }

  // ---------- canonical form ----------

  /** Whole groups of four; only the last may end in one or two `=`, and then the bits it leaves
      over are zero (sections 3.5 and 4 of RFC 4648). */
  predicate Canonical(s: string) {
    if |s| == 0 then true
    else if |s| < 4 then false
    else if s[2] == '=' then
      |s| == 4 && s[3] == '=' && InAlphabet(s[0]) && InAlphabet(s[1]) && Value(s[1]) % 16 == 0
    else if s[3] == '=' then
      |s| == 4 && InAlphabet(s[0]) && InAlphabet(s[1]) && InAlphabet(s[2]) && Value(s[2]) % 4 == 0
    else AllAlphabet(s[..4]) && Canonical(s[4..])
  }

  lemma {:induction false} EncodeCanonical(src: seq<byte>)
    ensures Canonical(Encode(src)) && |Encode(src)| == (|src| + 2) / 3 * 4
  {
    hide Word, Quad, Canonical;
    if |src| == 0 {
      CanonicalEmpty();
    } else if |src| == 1 {
      ValuesOfQuad(Word(src[0], 0, 0));
      PadBits(src[0], 0);
      CanonicalOne(Quad(Word(src[0], 0, 0)));
    } else if |src| == 2 {
      ValuesOfQuad(Word(src[0], src[1], 0));
      PadBits(src[0], src[1]);
      CanonicalTwo(Quad(Word(src[0], src[1], 0)));
    } else {
      EncodeCanonical(src[3..]);
      CanonicalQuad(Word(src[0], src[1], src[2]), Encode(src[3..]));
    }
  }

  lemma CanonicalEmpty()
    ensures Canonical("")
  {}

  lemma CanonicalOne(q: string)
    requires |q| == 4 && AllAlphabet(q) && Value(q[1]) % 16 == 0
    ensures Canonical(q[..2] + "==")
  {}

  lemma CanonicalTwo(q: string)
    requires |q| == 4 && AllAlphabet(q) && Value(q[2]) % 4 == 0
    ensures Canonical(q[..3] + "=")
  {}

  lemma CanonicalQuad(n: nat, rest: string)
    requires n < 0x100_0000 && Canonical(rest)
    ensures Canonical(Quad(n) + rest)
  {
    var s := Quad(n) + rest;
    ValuesOfQuad(n);
    assert s[..4] == Quad(n) && s[4..] == rest && s[2] == Quad(n)[2] && s[3] == Quad(n)[3];
  }

  lemma EncodeEmpty()
    ensures Encode([]) == ""
  {}

  lemma {:induction false} CanonicalReencodes(s: string)
    requires Canonical(s)
    ensures Encode(Decode(s)) == s
  {
    hide Decode, Encode;
    if |s| == 0 {
      DecodeEmpty();
      EncodeEmpty();
    } else if s[2] == '=' {
      DecodeTail(s[..2], "==");
      assert s == s[..2] + "==";
      ReencodeOne(Value(s[0]), Value(s[1]));
    } else if s[3] == '=' {
      DecodeTail(s[..3], "=");
      assert s == s[..3] + "=";
      ReencodeTwo(Value(s[0]), Value(s[1]), Value(s[2]));
    } else {
      CanonicalReencodes(s[4..]);
      ReencodeQuad(s[..4], s[4..]);
      assert s == s[..4] + s[4..];
    }
  }

  lemma ReencodeQuad(q: string, rest: string)
    requires |q| == 4 && AllAlphabet(q) && Encode(Decode(rest)) == rest
    ensures Encode(Decode(q + rest)) == q + rest
  {
    var n := Number(Value(q[0]), Value(q[1]), Value(q[2]), Value(q[3]));
    assert Decode(q + rest) == Triple(n) + Decode(rest) by { DecodeQuad(q, rest); }
    assert Quad(n) == q by { DigitsOfNumber(Value(q[0]), Value(q[1]), Value(q[2]), Value(q[3])); }
    EncodeTriple(n, Decode(rest));
  }

  lemma EncodeTriple(n: nat, rest: seq<byte>)
    requires n < 0x100_0000
    ensures Encode(Triple(n) + rest) == Quad(n) + Encode(rest)
  {
    WordOfTriple(n);
    assert (Triple(n) + rest)[3..] == rest;
  }

  lemma ReencodeOne(a: digit, b: digit)
    requires b % 16 == 0
    ensures Encode(Triple(Number(a, b, 0, 0))[..1]) == [Symbol(a), Symbol(b)] + "=="
  {
    var n := Number(a, b, 0, 0);
    WholeBytes(n, 4 * a + b / 16);
    DigitsOfNumber(a, b, 0, 0);
    hide Word, Quad, Number, Triple;
    assert Triple(n)[..1] == [Triple(n)[0]];
  }

  lemma WholeBytes(n: nat, k: nat)
    requires n < 0x100_0000 && n == 65536 * k
    ensures Word(Triple(n)[0], 0, 0) == n
  {
    DivModUnique(n, 65536, k, 0);
  }

  lemma ReencodeTwo(a: digit, b: digit, c: digit)
    requires c % 4 == 0
    ensures Encode(Triple(Number(a, b, c, 0))[..2]) == [Symbol(a), Symbol(b), Symbol(c)] + "="
  {
    var n := Number(a, b, c, 0);
    WholePairs(n, 1024 * a + 16 * b + c / 4);
    DigitsOfNumber(a, b, c, 0);
    hide Word, Quad, Number, Triple;
    assert Triple(n)[..2] == [Triple(n)[0], Triple(n)[1]];
  }

  lemma WholePairs(n: nat, k: nat)
    requires n < 0x100_0000 && n == 256 * k
    ensures Word(Triple(n)[0], Triple(n)[1], 0) == n
  {
    WordOfTriple(n);
    DivModUnique(n, 256, k, 0);
  }

  /** The encoder's outputs are exactly the canonical strings, and those are exactly the strings
      that survive decoding and encoding again. */
  lemma CanonicalIffEncoded(s: string)
    ensures Canonical(s) <==> Encode(Decode(s)) == s
    ensures Canonical(s) <==> exists src :: s == Encode(src)
  {
    if Canonical(s) { CanonicalReencodes(s); }
    if src :| s == Encode(src) { EncodeCanonical(src); }
    EncodeCanonical(Decode(s));
  }
}
