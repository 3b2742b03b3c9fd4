/** The alphabet and the grouping of base64 as section 4 of RFC 4648 spells them out, and that the codec
    follows them. */
module Base64Alphabet {
  import opened Basics
  import opened Base64

  const UPPER := "ABCDEFGHIJKLMNOPQRSTUVWXYZ"
  const LOWER := "abcdefghijklmnopqrstuvwxyz"
  const DIGITS := "0123456789"

  /** Table 1 of section 4. */
  function Table(): (t: string)
    ensures |t| == 64
  {
    UPPER + LOWER + DIGITS + "+/"
  }

  lemma Upper(v: nat)
    requires v < 26
    ensures UPPER[v] as nat == 'A' as nat + v
  {}

  lemma Lower(v: nat)
    requires v < 26
    ensures LOWER[v] as nat == 'a' as nat + v
  {}

  lemma Ten(v: nat)
    requires v < 10
    ensures DIGITS[v] as nat == '0' as nat + v
  {}

  /** Digit v is written as the character at position v of the table, and read back as v. */
  lemma SymbolTable(v: nat)
    requires v < 64
    ensures Symbol(v) == Table()[v] && InAlphabet(Table()[v]) && Value(Table()[v]) == v
  {
    if v < 26 { Upper(v); InUpper(v); } else if v < 52 { Lower(v - 26); InLower(v - 26); }
    else if v < 62 { Ten(v - 52); InDigits(v - 52); }
  }

  lemma InUpper(v: nat)
    requires v < 26
    ensures Table()[v] == UPPER[v]
  {}

  lemma InLower(v: nat)
    requires v < 26
    ensures Table()[26 + v] == LOWER[v]
  {}

  lemma InDigits(v: nat)
    requires v < 10
    ensures Table()[52 + v] == DIGITS[v]
  {}

  /** And the table holds nothing but the alphabet: each of its characters is read as its position. */
  lemma ValueTable(c: char)
    requires InAlphabet(c)
    ensures Table()[Value(c)] == c
  {
    hide Table;
    SymbolTable(Value(c));
  }

  // ---------- groups ----------

  /** How section 4 writes a group of three bytes: six bits at a time, from the first byte's highest. */
  function GroupText(a: byte, b: byte, c: byte): (t: string)
    ensures |t| == 4
  {
    [Table()[a / 4], Table()[a % 4 * 16 + b / 16], Table()[b % 16 * 4 + c / 64], Table()[c % 64]]
  }

  /** And how a group of four digits is read. */
  function GroupBytes(p: digit, q: digit, u: digit, v: digit): (t: seq<byte>)
    ensures |t| == 3
  {
    [p * 4 + q / 16, q % 16 * 16 + u / 4, u % 4 * 64 + v]
  }

  /** The same three bytes and four digits make the same number. */
  lemma SameNumber(a: byte, b: byte, c: byte)
    ensures Word(a, b, c) == Number(a / 4, a % 4 * 16 + b / 16, b % 16 * 4 + c / 64, c % 64)
  {}

  lemma SameWord(p: digit, q: digit, u: digit, v: digit)
    ensures Number(p, q, u, v) == Word(p * 4 + q / 16, q % 16 * 16 + u / 4, u % 4 * 64 + v)
  {}

  lemma FullGroup(a: byte, b: byte, c: byte)
    ensures Quad(Word(a, b, c)) == GroupText(a, b, c)
  {
    hide Table, Symbol, Word, Number;
    SameNumber(a, b, c);
    DigitsOfNumber(a / 4, a % 4 * 16 + b / 16, b % 16 * 4 + c / 64, c % 64);
    SymbolTable(a / 4);
    SymbolTable(a % 4 * 16 + b / 16);
    SymbolTable(b % 16 * 4 + c / 64);
    SymbolTable(c % 64);
  }

  lemma Joined(p: digit, q: digit, u: digit, v: digit)
    ensures Triple(Number(p, q, u, v)) == GroupBytes(p, q, u, v)
  {
    hide Triple, Word, Number;
    SameWord(p, q, u, v);
    BytesOfNumber(p * 4 + q / 16, q % 16 * 16 + u / 4, u % 4 * 64 + v);
  }

  /** The text from group n on is the text of the bytes from there on. */
  lemma {:induction false} EncodeFrom(src: seq<byte>, n: nat)
    requires 3 * n <= |src|
    ensures |Encode(src)| >= 4 * n && Encode(src)[4 * n..] == Encode(src[3 * n..])
  {
    hide Quad, Word;
    if n == 0 {
      assert src[0..] == src;
    } else {
      EncodeFrom(src[3..], n - 1);
      assert src[3..][3 * (n - 1)..] == src[3 * n..];
      var t := Encode(src[3..]);
      assert Encode(src) == Quad(Word(src[0], src[1], src[2])) + t;
      assert Encode(src)[4 * n..] == t[4 * (n - 1)..];
    }
  }

  lemma {:induction false} DecodeFrom(s: string, n: nat)
    requires AllAlphabet(s) && 4 * n <= |s|
    ensures |DecodeRun(s)| >= 3 * n && DecodeRun(s)[3 * n..] == DecodeRun(s[4 * n..])
  {
    hide Triple, Number, Value;
    if n == 0 {
      assert s[0..] == s;
    } else {
      DecodeFrom(s[4..], n - 1);
      assert s[4..][4 * (n - 1)..] == s[4 * n..];
      var d := DecodeRun(s[4..]);
      assert DecodeRun(s) == Triple(Number(Value(s[0]), Value(s[1]), Value(s[2]), Value(s[3]))) + d;
      assert DecodeRun(s)[3 * n..] == d[3 * (n - 1)..];
    }
  }

  /** The text of each whole group of bytes, wherever it stands. */
  lemma EncodedGroup(src: seq<byte>, n: nat)
    requires 3 * n + 3 <= |src|
    ensures |Encode(src)| >= 4 * n + 4
    ensures Encode(src)[4 * n..][..4] == GroupText(src[3 * n], src[3 * n + 1], src[3 * n + 2])
  {
    hide Quad, Word, GroupText;
    EncodeFrom(src, n);
    FullGroup(src[3 * n], src[3 * n + 1], src[3 * n + 2]);
  }

  /** And the text of what is left over: one byte as two digits and two pads, two bytes as three digits
      and one pad. */
  lemma EncodedTail(src: seq<byte>, n: nat)
    requires 3 * n <= |src| < 3 * n + 3
    ensures |Encode(src)| >= 4 * n
    ensures Encode(src)[4 * n..] ==
              if |src| == 3 * n then ""
              else if |src| == 3 * n + 1 then GroupText(src[3 * n], 0, 0)[..2] + "=="
              else GroupText(src[3 * n], src[3 * n + 1], 0)[..3] + "="
  {
    hide Quad, Word, GroupText;
    EncodeFrom(src, n);
    if |src| == 3 * n + 1 { FullGroup(src[3 * n], 0, 0); }
    else if |src| == 3 * n + 2 { FullGroup(src[3 * n], src[3 * n + 1], 0); }
  }

  /** The bytes of each whole group of characters. */
  lemma DecodedGroup(s: string, n: nat)
    requires AllAlphabet(s) && 4 * n + 4 <= |s|
    ensures |DecodeRun(s)| >= 3 * n + 3
    ensures DecodeRun(s)[3 * n..][..3]
         == GroupBytes(Value(s[4 * n]), Value(s[4 * n + 1]), Value(s[4 * n + 2]), Value(s[4 * n + 3]))
  {
    hide Triple, Number, Value, GroupBytes;
    DecodeFrom(s, n);
    Joined(Value(s[4 * n]), Value(s[4 * n + 1]), Value(s[4 * n + 2]), Value(s[4 * n + 3]));
  }

  /** And of what is left over: nothing for one character, one byte for two, two for three. */
  lemma DecodedTail(s: string, n: nat)
    requires AllAlphabet(s) && 4 * n <= |s| < 4 * n + 4
    ensures |DecodeRun(s)| >= 3 * n
    ensures DecodeRun(s)[3 * n..] ==
              if |s| <= 4 * n + 1 then []
              else if |s| == 4 * n + 2 then GroupBytes(Value(s[4 * n]), Value(s[4 * n + 1]), 0, 0)[..1]
              else GroupBytes(Value(s[4 * n]), Value(s[4 * n + 1]), Value(s[4 * n + 2]), 0)[..2]
  {
    hide Triple, Number, Value, GroupBytes;
    DecodeFrom(s, n);
    if |s| == 4 * n + 2 { Joined(Value(s[4 * n]), Value(s[4 * n + 1]), 0, 0); }
    else if |s| == 4 * n + 3 { Joined(Value(s[4 * n]), Value(s[4 * n + 1]), Value(s[4 * n + 2]), 0); }
  }
}
