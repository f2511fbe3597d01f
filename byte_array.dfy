/** Little-endian byte serialisation with an advancing cursor. The codec's
    byte_array.h is not part of this model; its Put/Get macros are modelled here
    as the little-endian encodings they perform. */
module ByteArray {
  import opened MoiTypes

  /** The two bytes of a 16-bit value, least significant first. */
  function Le16(v: u16): (b: seq<u8>)
    ensures |b| == 2
  {
    [v % 0x100, v / 0x100]
  }

  /** The four bytes of a 32-bit value, least significant first. */
  function Le32(v: u32): (b: seq<u8>)
    ensures |b| == 4
  {
    var v1 := v / 0x100;
    var v2 := v1 / 0x100;
    [v % 0x100, v1 % 0x100, v2 % 0x100, v2 / 0x100]
  }

  /** The bytes of a four-character ASCII chunk identifier, in file order:
      read back as a little-endian word they give the identifier's word. */
  function FourCC(id: string): (b: seq<u8>)
    requires |id| == 4 && forall i :: 0 <= i < 4 ==> id[i] as int < 0x80
    ensures |b| == 4 && GetLe32(b, 0) == FourCCWord(id)
  {
    [id[0] as int, id[1] as int, id[2] as int, id[3] as int]
  }

  /** MOI_CHECK_FOURCC: the 32-bit little-endian value of a four-character
      chunk identifier, its first character in the lowest byte. */
  function FourCCWord(id: string): (w: u32)
    requires |id| == 4 && forall i :: 0 <= i < 4 ==> id[i] as int < 0x80
  {
    id[0] as int + 0x100 * (id[1] as int + 0x100 * (id[2] as int + 0x100 * id[3] as int))
  }

  /** Read a little-endian 16-bit value at pos. */
  function GetLe16(s: seq<u8>, pos: nat): (v: u16)
    requires pos + 2 <= |s|
  {
    s[pos] as int + 0x100 * s[pos + 1] as int
  }

  /** Read a little-endian 32-bit value at pos. */
  function GetLe32(s: seq<u8>, pos: nat): (v: u32)
    requires pos + 4 <= |s|
  {
    s[pos] as int + 0x100 * (s[pos + 1] as int + 0x100 * (s[pos + 2] as int + 0x100 * s[pos + 3] as int))
  }

  /** Reading back what Le16 wrote gives the value. */
  lemma Le16RoundTrip(v: u16, s: seq<u8>, pos: nat)
    requires pos + 2 <= |s| && s[pos..pos + 2] == Le16(v)
    ensures GetLe16(s, pos) == v
  {
    assert s[pos] == Le16(v)[0] && s[pos + 1] == Le16(v)[1];
  }

  /** Reading back what Le32 wrote gives the value. */
  lemma Le32RoundTrip(v: u32, s: seq<u8>, pos: nat)
    requires pos + 4 <= |s| && s[pos..pos + 4] == Le32(v)
    ensures GetLe32(s, pos) == v
  {
    var b := Le32(v);
    assert s[pos] == b[0] && s[pos + 1] == b[1] && s[pos + 2] == b[2] && s[pos + 3] == b[3];
  }

  /** A value read from four bytes is written back as the same four bytes. */
  lemma GetLe32Bytes(s: seq<u8>, pos: nat)
    requires pos + 4 <= |s|
    ensures Le32(GetLe32(s, pos)) == s[pos..pos + 4]
  {
    var v := GetLe32(s, pos);
    var v1 := s[pos + 1] as int + 0x100 * (s[pos + 2] as int + 0x100 * s[pos + 3] as int);
    var v2 := s[pos + 2] as int + 0x100 * s[pos + 3] as int;
    assert v / 0x100 == v1 && v % 0x100 == s[pos];
    assert v1 / 0x100 == v2 && v1 % 0x100 == s[pos + 1];
    assert v2 / 0x100 == s[pos + 3] && v2 % 0x100 == s[pos + 2];
  }

  /** Concatenation is associative. */
  lemma AppendAssoc(a: seq<u8>, b: seq<u8>, c: seq<u8>)
    ensures (a + b) + c == a + (b + c)
  {
  }

  /** Writing bytes just after a prefix keeps the prefix and replaces the start of the rest. */
  lemma PutAfterPrefix(p: seq<u8>, rest: seq<u8>, bytes: seq<u8>)
    requires |bytes| <= |rest|
    ensures (p + rest)[..|p|] + bytes + (p + rest)[|p| + |bytes|..] == p + bytes + rest[|bytes|..]
  {
    assert (p + rest)[..|p|] == p;
    assert (p + rest)[|p| + |bytes|..] == rest[|bytes|..];
  }

  /** Two sequences that agree from i on agree from any later j on. */
  lemma SuffixAgrees(a: seq<u8>, b: seq<u8>, i: nat, j: nat)
    requires i <= j <= |a| && |a| == |b| && a[i..] == b[i..]
    ensures a[j..] == b[j..]
  {
    assert a[j..] == a[i..][j - i..];
    assert b[j..] == b[i..][j - i..];
  }

  /** Write bytes into data at pos and return the advanced cursor. */
  method Put(data: array<u8>, pos: nat, bytes: seq<u8>) returns (next: nat)
    requires pos + |bytes| <= data.Length
    modifies data
    ensures next == pos + |bytes|
    ensures data[..next] == old(data[..pos]) + bytes
    ensures data[next..] == old(data[next..])
  {
    var i := 0;
    while i < |bytes|
      invariant 0 <= i <= |bytes|
      invariant data[..pos + i] == old(data[..pos]) + bytes[..i]
      invariant data[pos + i..] == old(data[pos + i..])
    {
      data[pos + i] := bytes[i];
      assert data[..pos + i + 1] == data[..pos + i] + [bytes[i]];
      assert bytes[..i + 1] == bytes[..i] + [bytes[i]];
      i := i + 1;
    }
    next := pos + |bytes|;
  }
}
