/** The loops of encode.c and decode.c, with the source's own buffers and bit masks, proved against
    module Base64. */
module Base64Codec {
  import opened Basics
  import opened Bits
  import opened Base64

  // ---------- the masks ----------

  /** The masks and shifts of the encoder cut a 24-bit word into its base-64 digits. */
  lemma EncodeMasks(a: byte, b: byte, c: byte)
    ensures var n := Word(a, b, c);
            && And(a, 0xfc) / 4 == n / 262144
            && And(a, 0x03) * 16 + And(b, 0xf0) / 16 == n / 4096 % 64
            && And(b, 0x0f) * 4 + And(c, 0xc0) / 64 == n / 64 % 64
            && And(c, 0x3f) == n % 64
  {
    hide And;
    ByteMasks(a);
    ByteMasks(b);
    ByteMasks(c);
    CutWord(a, b, c);
  }

  lemma ByteMasks(x: byte)
    ensures And(x, 0xfc) == x - x % 4 && And(x, 0x03) == x % 4
    ensures And(x, 0xf0) == x - x % 16 && And(x, 0x0f) == x % 16
    ensures And(x, 0xc0) == x - x % 64 && And(x, 0x3f) == x % 64
  {
    hide And;
    SmallPowers();
    AndHighMask(x, 2, 8);
    AndLowMask(x, 2);
    AndHighMask(x, 4, 8);
    AndLowMask(x, 4);
    AndHighMask(x, 6, 8);
    AndLowMask(x, 6);
  }

  lemma SmallPowers()
    ensures Pow2(2) == 4 && Pow2(4) == 16 && Pow2(6) == 64 && Pow2(8) == 256
  {}

  lemma CutWord(a: byte, b: byte, c: byte)
    ensures var n := Word(a, b, c);
            && a / 4 == n / 262144
            && a % 4 * 16 + b / 16 == n / 4096 % 64
            && b % 16 * 4 + c / 64 == n / 64 % 64
            && c % 64 == n % 64
  {
    var n := Word(a, b, c);
    Shifts(n);
    var p := 1024 * a + 4 * b + c / 64;
    DivModUnique(n, 64, p, c % 64);
    var q := 16 * a + b / 16;
    DivModUnique(p, 64, q, b % 16 * 4 + c / 64);
    DivModUnique(q, 64, a / 4, a % 4 * 16 + b / 16);
  }

  /** And those of the decoder put three bytes together; nothing is lost to the 8-bit buffers. */
  lemma DecodeMasks(a: digit, b: digit, c: digit, d: digit)
    ensures var n := Number(a, b, c, d);
            && (a * 4 + And(b, 0x30) / 16) % 256 == n / 65536
            && (And(b, 0x0f) * 16 + And(c, 0x3c) / 4) % 256 == n / 256 % 256
            && (And(c, 0x03) * 64 + d) % 256 == n % 256
  {
    hide And;
    SmallPowers();
    AndHighMask(b, 4, 6);
    AndLowMask(b, 4);
    AndHighMask(c, 2, 6);
    AndLowMask(c, 2);
    JoinDigits(a, b, c, d);
  }

  lemma JoinDigits(a: digit, b: digit, c: digit, d: digit)
    ensures var n := Number(a, b, c, d);
            && a * 4 + b / 16 == n / 65536 < 256
            && b % 16 * 16 + c / 4 == n / 256 % 256
            && c % 4 * 64 + d == n % 256
  {
    var n := Number(a, b, c, d);
    Shifts(n);
    var p := 1024 * a + 16 * b + c / 4;
    DivModUnique(n, 256, p, c % 4 * 64 + d);
    DivModUnique(p, 256, a * 4 + b / 16, b % 16 * 16 + c / 4);
  }

  // ---------- encode.c ----------

  lemma {:induction false} EncodeAppend(a: seq<byte>, b: seq<byte>)
    requires |a| % 3 == 0
    ensures Encode(a + b) == Encode(a) + Encode(b)
  {
    if a == [] {
      assert a + b == b;
    } else {
      assert (a + b)[3..] == a[3..] + b;
      EncodeAppend(a[3..], b);
    }
  }

  method CutGroup(tmp: array<byte>, buf: array<nat>)
    requires tmp.Length == 3 && buf.Length == 4
    modifies buf
    ensures var n := Word(tmp[0], tmp[1], tmp[2]);
            buf[0] == n / 262144 && buf[1] == n / 4096 % 64 && buf[2] == n / 64 % 64 && buf[3] == n % 64
  {
    buf[0] := And(tmp[0], 0xfc) / 4;
    buf[1] := And(tmp[0], 0x03) * 16 + And(tmp[1], 0xf0) / 16;
    buf[2] := And(tmp[1], 0x0f) * 4 + And(tmp[2], 0xc0) / 64;
    buf[3] := And(tmp[2], 0x3f);
    EncodeMasks(tmp[0], tmp[1], tmp[2]);
  }

  /** Append the first `count` symbols of a group. */
  method PutSymbols(enc: string, buf: array<nat>, count: nat, ghost n: nat) returns (out: string)
    requires buf.Length == 4 && count <= 4 && n < 0x100_0000
    requires buf[0] == n / 262144 && buf[1] == n / 4096 % 64 && buf[2] == n / 64 % 64 && buf[3] == n % 64
    ensures out == enc + Quad(n)[..count]
  {
    out := enc;
    var j := 0;
    DigitsOfWord(n);
    while j < count
      invariant j <= count
      invariant out == enc + Quad(n)[..j]
    {
      out := out + [Symbol(buf[j])];
      j := j + 1;
    }
  }

  /** bake_b64_encode. */
  method EncodeBuffer(src: seq<byte>) returns (enc: string)
    ensures enc == Encode(src)
  {
    hide Encode, Quad, Word;
    var i, k := 0, 0;
    var tmp, buf := new byte[3], new nat[4];
    enc := "";
    EncodeNothing();
    while k < |src|
      invariant i <= k <= |src| && i < 3 && (k - i) % 3 == 0
      invariant enc == Encode(src[..k - i])
      invariant forall m :: 0 <= m < i ==> tmp[m] == src[k - i + m]
    {
      tmp[i] := src[k];
      k, i := k + 1, i + 1;
      if i == 3 {
        CutGroup(tmp, buf);
        enc := PutSymbols(enc, buf, 4, Word(tmp[0], tmp[1], tmp[2]));
        WholeGroup(src, k - 3);
        i := 0;
      }
    }
    if i > 0 {
      enc := EncodeRest(enc, tmp, buf, i, src[k - i..]);
      EncodeAppend(src[..k - i], src[k - i..]);
      assert src == src[..k - i] + src[k - i..];
    } else {
      assert src[..k] == src;
    }
  }

  lemma EncodeNothing()
    ensures Encode([]) == ""
  {}

  lemma WholeGroup(src: seq<byte>, k: nat)
    requires k + 3 <= |src| && k % 3 == 0
    ensures Encode(src[..k + 3]) == Encode(src[..k]) + Quad(Word(src[k], src[k + 1], src[k + 2]))
  {
    assert src[..k + 3] == src[..k] + [src[k], src[k + 1], src[k + 2]];
    EncodeAppend(src[..k], [src[k], src[k + 1], src[k + 2]]);
  }

  /** The remainder: a group of one or two bytes, padded. */
  method EncodeRest(enc: string, tmp: array<byte>, buf: array<nat>, i: nat, ghost rest: seq<byte>)
    returns (out: string)
    requires tmp.Length == 3 && buf.Length == 4 && 0 < i < 3 && |rest| == i
    requires forall m :: 0 <= m < i ==> tmp[m] == rest[m]
    modifies tmp, buf
    ensures out == enc + Encode(rest)
  {
    var j := i;
    while j < 3
      invariant i <= j <= 3
      invariant forall m :: 0 <= m < i ==> tmp[m] == rest[m]
      invariant forall m :: i <= m < j ==> tmp[m] == 0
    {
      tmp[j] := 0;
      j := j + 1;
    }
    CutGroup(tmp, buf);
    ghost var n := Word(tmp[0], tmp[1], tmp[2]);
    out := PutSymbols(enc, buf, i + 1, n);
    ghost var head := out;
    var left := i;
    while left < 3
      invariant i <= left <= 3
      invariant out == head + Equals(left - i)
    {
      out := out + "=";
      left := left + 1;
    }
  }

  ghost function Equals(n: nat): string { seq(n, _ => '=') }

  // ---------- decode.c ----------

  lemma {:induction false} DecodeAppend(a: string, b: string)
    requires AllAlphabet(a) && AllAlphabet(b) && |a| % 4 == 0
    ensures AllAlphabet(a + b) && DecodeRun(a + b) == DecodeRun(a) + DecodeRun(b)
  {
    hide DecodeRun, Triple, Number, Value;
    if a == "" {
      assert a + b == b;
      DecodeNone(a);
    } else {
      assert (a + b)[4..] == a[4..] + b && (a + b)[..4] == a[..4];
      DecodeFirst(a);
      DecodeAppend(a[4..], b);
      DecodeFirst(a + b);
    }
  }

  lemma DecodeNone(s: string)
    requires s == ""
    ensures DecodeRun(s) == []
  {}

  lemma DecodeFirst(s: string)
    requires AllAlphabet(s) && |s| >= 4
    ensures DecodeRun(s) == DecodeRun(s[..4]) + DecodeRun(s[4..])
  {
    DecodeNone(s[..4][4..]);
  }

  lemma {:induction false} RunEnds(s: string, j: nat)
    requires j <= |s| && AllAlphabet(s[..j]) && (j < |s| ==> !InAlphabet(s[j]))
    ensures LeadingRun(s) == s[..j]
  {
    if j > 0 {
      assert s[..j][0] == s[0] && s[1..][..j - 1] == s[1..j] == s[..j][1..];
      RunEnds(s[1..], j - 1);
      assert s[..j] == [s[0]] + s[1..j];
    }
  }

  /** The value the table search leaves for a character code: its index in the table, or the code
      itself when the table does not hold it, as for the filler 0. */
  function Translated(code: nat): nat {
    if code < 128 && InAlphabet(code as char) then Value(code as char) else code
  }

  /** The table holds every character of the alphabet. */
  lemma InTable(code: nat)
    requires code < 128
    ensures InAlphabet(code as char) ==> exists v :: 0 <= v < 64 && Symbol(v) as nat == code
  {
    if InAlphabet(code as char) { assert Symbol(Value(code as char)) as nat == code; }
  }

  method Translate(tmp: array<nat>, i: nat)
    requires i < tmp.Length && tmp[i] < 128
    modifies tmp
    ensures tmp[i] == Translated(old(tmp[i]))
    ensures forall m :: 0 <= m < tmp.Length && m != i ==> tmp[m] == old(tmp[m])
  {
    var code := tmp[i];
    var l := 0;
    while l < 64
      invariant l <= 64 && tmp[i] == code
      invariant forall m :: 0 <= m < tmp.Length ==> tmp[m] == old(tmp[m])
      invariant forall v :: 0 <= v < l ==> Symbol(v) as nat != code
    {
      if tmp[i] == Symbol(l) as nat {
        SymbolValue(l);
        tmp[i] := l;
        return;
      }
      l := l + 1;
    }
    InTable(code);
  }

  method TranslateAll(tmp: array<nat>)
    requires tmp.Length == 4 && forall m :: 0 <= m < 4 ==> tmp[m] < 128
    modifies tmp
    ensures forall m :: 0 <= m < 4 ==> tmp[m] == Translated(old(tmp[m]))
  {
    var i := 0;
    while i < 4
      invariant i <= 4
      invariant forall m :: 0 <= m < i ==> tmp[m] == Translated(old(tmp[m]))
      invariant forall m :: i <= m < 4 ==> tmp[m] == old(tmp[m])
    {
      Translate(tmp, i);
      i := i + 1;
    }
  }

  method JoinGroup(tmp: array<nat>, buf: array<byte>)
    requires tmp.Length == 4 && buf.Length == 3 && forall m :: 0 <= m < 4 ==> tmp[m] < 64
    modifies buf
    ensures buf[..] == Triple(Number(tmp[0], tmp[1], tmp[2], tmp[3]))
  {
    buf[0] := (tmp[0] * 4 + And(tmp[1], 0x30) / 16) % 256;
    buf[1] := (And(tmp[1], 0x0f) * 16 + And(tmp[2], 0x3c) / 4) % 256;
    buf[2] := (And(tmp[2], 0x03) * 64 + tmp[3]) % 256;
    DecodeMasks(tmp[0], tmp[1], tmp[2], tmp[3]);
  }

  method PutBytes(dec: seq<byte>, buf: array<byte>, count: nat) returns (out: seq<byte>)
    requires count <= buf.Length
    ensures out == dec + buf[..count]
  {
    out := dec;
    var i := 0;
    while i < count
      invariant i <= count
      invariant out == dec + buf[..i]
    {
      out := out + [buf[i]];
      i := i + 1;
    }
  }

  /** tmp holds the codes of the given characters. */
  ghost predicate HoldsCodes(tmp: array<nat>, s: string)
    requires tmp.Length == 4
    reads tmp
  {
    |s| <= 4 && forall m :: 0 <= m < |s| ==> tmp[m] == s[m] as nat
  }

  method PushCode(tmp: array<nat>, i: nat, c: char, ghost s: string)
    requires tmp.Length == 4 && |s| == i < 4 && HoldsCodes(tmp, s)
    modifies tmp
    ensures HoldsCodes(tmp, s + [c])
  {
    tmp[i] := c as nat;
  }

  /** One full group of four characters. */
  method DecodeGroup(dec: seq<byte>, tmp: array<nat>, buf: array<byte>, ghost q: string) returns (out: seq<byte>)
    requires tmp.Length == 4 && buf.Length == 3 && |q| == 4 && AllAlphabet(q) && HoldsCodes(tmp, q)
    modifies tmp, buf
    ensures out == dec + DecodeRun(q)
  {
    forall m | 0 <= m < 4 ensures tmp[m] < 128 && Translated(tmp[m]) == Value(q[m]) {
      assert tmp[m] == q[m] as nat;
    }
    TranslateAll(tmp);
    JoinGroup(tmp, buf);
    out := PutBytes(dec, buf, 3);
    assert buf[..3] == buf[..];
  }

  /** The remainder: one to three characters, filled up with zeros. */
  method DecodeRest(dec: seq<byte>, tmp: array<nat>, buf: array<byte>, i: nat, ghost q: string)
    returns (out: seq<byte>)
    requires tmp.Length == 4 && buf.Length == 3 && 0 < i < 4 && |q| == i && AllAlphabet(q) && HoldsCodes(tmp, q)
    modifies tmp, buf
    ensures out == dec + DecodeRun(q)
  {
    var j := i;
    while j < 4
      invariant i <= j <= 4 && HoldsCodes(tmp, q)
      invariant forall m :: i <= m < j ==> tmp[m] == 0
    {
      tmp[j] := 0;
      j := j + 1;
    }
    forall m | 0 <= m < 4
      ensures tmp[m] < 128 && Translated(tmp[m]) == if m < i then Value(q[m]) else 0
    {
      if m < i { assert tmp[m] == q[m] as nat; }
    }
    TranslateAll(tmp);
    JoinGroup(tmp, buf);
    out := PutBytes(dec, buf, i - 1);
    assert buf[..i - 1] == buf[..][..i - 1];
  }

  lemma DecodeNothing(tmp: array<nat>)
    requires tmp.Length == 4
    ensures AllAlphabet("") && DecodeRun("") == [] && HoldsCodes(tmp, "")
  {}

  /** b64_decode_ex: the decoded bytes, `decsize` of them. */
  method DecodeBuffer(src: string) returns (dec: seq<byte>)
    ensures dec == Decode(src)
  {
    hide DecodeRun, LeadingRun, AllAlphabet, HoldsCodes;
    var i, j := 0, 0;
    var tmp, buf := new nat[4], new byte[3];
    dec := [];
    DecodeNothing(tmp);
    while j < |src|
      invariant i <= j <= |src| && i < 4 && (j - i) % 4 == 0
      invariant AllAlphabet(src[..j]) && AllAlphabet(src[..j - i])
      invariant dec == DecodeRun(src[..j - i])
      invariant HoldsCodes(tmp, src[j - i..j])
    {
      if src[j] == '=' { break; }
      if !(IsAlnum(src[j]) || src[j] == '+' || src[j] == '/') { break; }
      PushCode(tmp, i, src[j], src[j - i..j]);
      assert src[j - i..j + 1] == src[j - i..j] + [src[j]];
      LongerRun(src, j);
      i, j := i + 1, j + 1;
      if i == 4 {
        SplitRun(src, j - 4, j);
        dec := DecodeGroup(dec, tmp, buf, src[j - 4..j]);
        DecodeNothing(tmp);
        assert src[j..j] == "";
        i := 0;
      }
    }
    RunEnds(src, j);
    if i > 0 {
      SplitRun(src, j - i, j);
      dec := DecodeRest(dec, tmp, buf, i, src[j - i..j]);
    }
  }

  lemma LongerRun(src: string, j: nat)
    requires j < |src| && AllAlphabet(src[..j]) && InAlphabet(src[j])
    ensures AllAlphabet(src[..j + 1])
  {
    assert forall m :: 0 <= m < j ==> src[..j + 1][m] == src[..j][m];
  }

  lemma SplitRun(src: string, k: nat, j: nat)
    requires k <= j <= |src| && AllAlphabet(src[..j]) && k % 4 == 0
    ensures AllAlphabet(src[..k]) && AllAlphabet(src[k..j])
    ensures DecodeRun(src[..j]) == DecodeRun(src[..k]) + DecodeRun(src[k..j])
  {
    assert src[..j] == src[..k] + src[k..j];
    assert forall m :: 0 <= m < k ==> src[..k][m] == src[..j][m];
    assert forall m :: 0 <= m < j - k ==> src[k..j][m] == src[..j][k + m];
    DecodeAppend(src[..k], src[k..j]);
  }
}
