/** Region identifiers as text (util.c): twenty raw bytes through the base64 codec. */
module RegionId {
  import opened Basics
  import opened Bits
  import opened Base64
  import opened Base64Codec

  const ID_BYTES: nat := 20
  const TEXT_LENGTH: nat := 28

  datatype Code = Success | InvalidArg

  /** bake_region_id_t. */
  datatype RegionId = RegionId(kind: nat, data: seq<byte>)

  predicate Valid(r: RegionId) { r.kind < WORD32 && |r.data| == 16 }

  /** The struct's memory, with the type field little-endian. */
  function Bytes(r: RegionId): (b: seq<byte>)
    requires Valid(r)
    ensures |b| == ID_BYTES
  {
    [r.kind % 256, r.kind / 256 % 256, r.kind / 256 / 256 % 256, r.kind / 256 / 256 / 256 % 256] + r.data
  }

  function OfBytes(b: seq<byte>): (r: RegionId)
    requires |b| >= ID_BYTES
    ensures Valid(r)
  {
    var b0: nat, b1: nat, b2: nat, b3: nat := b[0], b[1], b[2], b[3];
    RegionId(b0 + 256 * b1 + 65536 * b2 + 16777216 * b3, b[4..ID_BYTES])
  }

  /** The bytes hold the type, lowest byte first, and then the data. */
  predicate Layout(r: RegionId, b: seq<byte>) {
    |b| >= 20 && r.data == b[4..20] &&
    var b0: nat, b1: nat, b2: nat, b3: nat := b[0], b[1], b[2], b[3];
    r.kind == b0 + 0x100 * b1 + 0x1_0000 * b2 + 0x100_0000 * b3
  }

  lemma BytesBack(r: RegionId)
    requires Valid(r)
    ensures OfBytes(Bytes(r)) == r
  {
    var p := r.kind / 256;
    var q := p / 256;
    assert r.kind == 256 * p + r.kind % 256 && p == 256 * q + p % 256 && q == 256 * (q / 256) + q % 256;
    assert q / 256 < 256;
    assert Bytes(r)[4..ID_BYTES] == r.data;
  }

  lemma TextLength(r: RegionId)
    requires Valid(r)
    ensures |Encode(Bytes(r))| == TEXT_LENGTH
    ensures forall i :: 0 <= i < TEXT_LENGTH ==> Encode(Bytes(r))[i] != '\0'
  {
    hide Encode, Bytes, Canonical;
    EncodeCanonical(Bytes(r));
    NoNul(Encode(Bytes(r)));
  }

  lemma {:induction false} NoNul(s: string)
    requires Canonical(s)
    ensures forall i :: 0 <= i < |s| ==> s[i] != '\0'
  {
    if |s| > 0 && s[2] != '=' && s[3] != '=' {
      NoNul(s[4..]);
      forall i | 0 <= i < |s| ensures s[i] != '\0' {
        if i < 4 { assert s[..4][i] == s[i]; } else { assert s[4..][i - 4] == s[i]; }
      }
    }
  }

  /** bake_region_id_to_string: `size` is what the caller says the buffer holds. */
  method ToString(rid: RegionId, str: array<char>, size: nat) returns (ret: Code)
    requires Valid(rid) && size <= str.Length
    modifies str
    ensures ret == (if size < TEXT_LENGTH + 1 then InvalidArg else Success)
    ensures ret == InvalidArg ==> str[..] == old(str[..])
    ensures ret == Success ==> str[..TEXT_LENGTH] == Encode(Bytes(rid)) && str[TEXT_LENGTH] == '\0'
                               && str[TEXT_LENGTH + 1..] == old(str[TEXT_LENGTH + 1..])
  {
    var s := EncodeBuffer(Bytes(rid));
    TextLength(rid);
    if size < |s| + 1 { return InvalidArg; }
    var i := 0;
    while i < |s|
      invariant i <= |s|
      invariant str[..i] == s[..i]
      invariant str[i..] == old(str[i..])
    {
      str[i] := s[i];
      i := i + 1;
    }
    str[i] := '\0';
    ret := Success;
  }

  ghost predicate Terminated(s: seq<char>, n: nat) {
    n < |s| && s[n] == '\0' && forall i :: 0 <= i < n ==> s[i] != '\0'
  }

  method StrLen(str: array<char>, ghost n: nat) returns (len: nat)
    requires Terminated(str[..], n)
    ensures len == n
  {
    len := 0;
    while str[len] != '\0'
      invariant len <= n
      decreases n - len
    {
      len := len + 1;
    }
  }

  /** The buffer the decoder returns: the bytes and a terminating zero. */
  function Decoded(text: string): seq<byte> { Decode(text) + [0] }

  /** The decoder's buffer holds the twenty bytes that are copied out of it if and only if the text
      starts with at least 26 alphabet characters. */
  lemma EnoughText(text: string)
    ensures |Decoded(text)| >= ID_BYTES <==> |LeadingRun(text)| >= 26
  {
    DecodedLength(LeadingRun(text));
  }

  /** So shorter text, and text with another character in it too early, makes the copy read past the
      buffer. */
  lemma ShortTextOverruns(text: string)
    requires |text| < 26 || exists i :: 0 <= i < 26 && !InAlphabet(text[i])
    ensures |Decoded(text)| < ID_BYTES
  {
    EnoughText(text);
    var run := LeadingRun(text);
    if i :| 0 <= i < 26 && i < |text| && !InAlphabet(text[i]) {
      assert i < |run| ==> run[i] == text[i];
    }
  }

  /** bake_region_id_from_string. It copies twenty bytes without looking at how many there are. */
  method FromString(str: array<char>, ghost n: nat) returns (rid: RegionId)
    requires Terminated(str[..], n) && |LeadingRun(str[..n])| >= 26
    ensures |Decoded(str[..n])| >= ID_BYTES && rid == OfBytes(Decoded(str[..n]))
    ensures Layout(rid, Decoded(str[..n]))
  {
    EnoughText(str[..n]);
    var len := StrLen(str, n);
    var data := DecodeBuffer(str[..len]);
    rid := OfBytes(data + [0]);
  }

  /** Whatever the region id, its text read back is the same id. */
  lemma TextRoundTrip(r: RegionId)
    requires Valid(r)
    ensures |Decoded(Encode(Bytes(r)))| >= ID_BYTES && OfBytes(Decoded(Encode(Bytes(r)))) == r
  {
    RoundTrip(Bytes(r));
    BytesBack(r);
    assert (Bytes(r) + [0])[4..ID_BYTES] == Bytes(r)[4..ID_BYTES];
  }

  /** What the text stands for: the four bytes of the type, lowest first, and then the sixteen of the
      data. */
  lemma TextLayout(r: RegionId)
    requires Valid(r)
    ensures |Decode(Encode(Bytes(r)))| == 20 && Layout(r, Decode(Encode(Bytes(r))))
  {
    hide Encode, Decode;
    RoundTrip(Bytes(r));
    BytesBack(r);
  }

  /** The two functions one after the other, over the caller's own buffer: any buffer of at least
      29 bytes carries every region id through. */
  method ThroughText(rid: RegionId, str: array<char>) returns (back: RegionId)
    requires Valid(rid) && str.Length >= TEXT_LENGTH + 1
    modifies str
    ensures back == rid
  {
    var ret := ToString(rid, str, str.Length);
    TextLength(rid);
    TextRoundTrip(rid);
    assert forall i :: 0 <= i < TEXT_LENGTH ==> str[..][i] == str[..TEXT_LENGTH][i];
    EnoughText(str[..TEXT_LENGTH]);
    back := FromString(str, TEXT_LENGTH);
  }
}
