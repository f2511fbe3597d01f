/** How the encoder and the decoder fit together: the decoder's state update
    is the encoder's, so decoding the codes the encoder emits reproduces the
    encoder's own reconstruction; a header the encoder writes reads back as
    the same header; and a block the encoder packs unpacks to its first sample
    and the encoder's reconstruction of the rest. */
module MoiRoundTrip {
  import opened MoiTypes
  import opened MoiInternal
  import opened ByteArray
  import opened MoiEncoder
  import opened MoiDecoder

  // ---------------------------------------------------------------------------
  // Lockstep of the two core state machines
  // ---------------------------------------------------------------------------

  /** The decoder state that mirrors an encoder state: the encoder's previous
      reconstruction is the decoder's last sample. */
  function AsDecoder(st: EncoderState): DecoderState
  {
    DecoderState(st.prevSample, st.stepsizeIndex)
  }

  /** The encoder's reconstruction of each sample of xs, coded from st: its
      previous-sample value after each step. */
  function Reconstruction(st: EncoderState, xs: seq<i16>): (r: seq<i16>)
    ensures |r| == |xs|
    decreases |xs|
  {
    if |xs| == 0 then []
    else
      var c := EncodeStep(st, xs[0]);
      [c.state.prevSample] + Reconstruction(c.state, xs[1..])
  }

  /** MOICoreEncoder_EncodeSample and MOICoreDecoder_DecodeSample update their
      state in the same way from the emitted code: a decoder that starts where
      the encoder starts ends where the encoder ends. */
  lemma Lockstep(st: EncoderState, x: i16)
    ensures DecodeStep(AsDecoder(st), EncodeStep(st, x).nibble) == AsDecoder(EncodeStep(st, x).state)
  {
    var c := EncodeStep(st, x);
    var step := StepsizeTable(st.stepsizeIndex);
    var m := Magnitude(Distance(x, st.prevSample), step);
    assert c.nibble == if x < st.prevSample then m + 8 else m;
    assert c.nibble % 8 == m && (c.nibble >= 8 <==> x < st.prevSample);
  }

  /** Decoding the codes of a run from the mirrored state gives the encoder's
      reconstruction of every sample and ends in the mirror of the encoder's
      final state. */
  lemma {:induction false} LockstepRun(st: EncoderState, xs: seq<i16>)
    ensures Decode(AsDecoder(st), Encode(st, xs).nibbles)
            == Decoding(Reconstruction(st, xs), AsDecoder(Encode(st, xs).state))
    decreases |xs|
  {
    if |xs| > 0 {
      var c := EncodeStep(st, xs[0]);
      Lockstep(st, xs[0]);
      LockstepRun(c.state, xs[1..]);
      var ns := Encode(st, xs).nibbles;
      assert ns == [c.nibble] + Encode(c.state, xs[1..]).nibbles;
      assert ns[0] == c.nibble && ns[1..] == Encode(c.state, xs[1..]).nibbles;
      DecodeCons(AsDecoder(st), ns, AsDecoder(c.state));
    }
  }

  /** The reconstruction of a prefix is the prefix of the reconstruction. */
  lemma {:induction false} ReconstructionPrefix(st: EncoderState, xs: seq<i16>, k: nat)
    requires k <= |xs|
    ensures Reconstruction(st, xs)[..k] == Reconstruction(st, xs[..k])
    decreases k
  {
    if k > 0 {
      var c := EncodeStep(st, xs[0]);
      assert xs[..k][0] == xs[0] && xs[..k][1..] == xs[1..][..k - 1];
      ReconstructionPrefix(c.state, xs[1..], k - 1);
    }
  }

  /** The first k samples decoded from the codes of a run are the encoder's
      reconstruction of the first k samples of the run. */
  lemma DecodedPrefix(st: EncoderState, xs: seq<i16>, k: nat)
    requires k <= |xs|
    ensures Decode(AsDecoder(st), Encode(st, xs).nibbles).samples[..k] == Reconstruction(st, xs[..k])
  {
    LockstepRun(st, xs);
    ReconstructionPrefix(st, xs, k);
  }

  // ---------------------------------------------------------------------------
  // Header round trip
  // ---------------------------------------------------------------------------

  /** The four bytes at k are the little-endian bytes of v. */
  lemma Read32(s: seq<u8>, k: nat, v: u32)
    requires k + 4 <= |s| && s[k] == Le32(v)[0] && s[k + 1] == Le32(v)[1] && s[k + 2] == Le32(v)[2] && s[k + 3] == Le32(v)[3]
    ensures GetLe32(s, k) == v
  {
    assert s[k..k + 4] == Le32(v);
    Le32RoundTrip(v, s, k);
  }

  /** The two bytes at k are the little-endian bytes of v. */
  lemma Read16(s: seq<u8>, k: nat, v: u16)
    requires k + 2 <= |s| && s[k] == Le16(v)[0] && s[k + 1] == Le16(v)[1]
    ensures GetLe16(s, k) == v
  {
    assert s[k..k + 2] == Le16(v);
    Le16RoundTrip(v, s, k);
  }

  /** The fields of bytes 0-21 of a written header, as the reader sees them. */
  lemma Part1Reads(d: u32, s: seq<u8>)
    requires 22 <= |s| && s[..22] == HeaderPart1(d)
    ensures GetLe32(s, 0) == FourCCWord("RIFF") && GetLe32(s, 8) == FourCCWord("WAVE")
    ensures GetLe32(s, 12) == FourCCWord("fmt ") && GetLe32(s, 16) == 20 && GetLe16(s, 20) == 17
  {
    var p := HeaderPart1(d);
    assert p == (FourCC("RIFF") + Le32(U32(HeaderSize + d - 8)) + FourCC("WAVE"))
                + (FourCC("fmt ") + Le32(20) + Le16(17));
    RiffReads(U32(HeaderSize + d - 8), s, p[..12]);
    FmtHeadReads(s, p[12..]);
  }

  /** Bytes 0-11: the RIFF id, the RIFF size and the WAVE form type. */
  lemma RiffReads(size: u32, s: seq<u8>, p: seq<u8>)
    requires 12 <= |s| && s[..12] == p && p == FourCC("RIFF") + Le32(size) + FourCC("WAVE")
    ensures GetLe32(s, 0) == FourCCWord("RIFF") && GetLe32(s, 4) == size && GetLe32(s, 8) == FourCCWord("WAVE")
  {
    forall i | 0 <= i < 12 ensures s[i] == p[i] {
      assert s[..12][i] == s[i];
    }
    Read32(s, 0, FourCCWord("RIFF"));
    Read32(s, 4, size);
    Read32(s, 8, FourCCWord("WAVE"));
  }

  /** Bytes 12-21: the fmt id, its size 20 and the format tag 17. */
  lemma FmtHeadReads(s: seq<u8>, p: seq<u8>)
    requires 22 <= |s| && s[12..22] == p && p == FourCC("fmt ") + Le32(20) + Le16(17)
    ensures GetLe32(s, 12) == FourCCWord("fmt ") && GetLe32(s, 16) == 20 && GetLe16(s, 20) == 17
  {
    forall i | 0 <= i < 10 ensures s[12 + i] == p[i] {
      assert s[12..22][i] == s[12 + i];
    }
    Read32(s, 12, FourCCWord("fmt "));
    Read32(s, 16, 20);
    Read16(s, 20, 17);
  }

  /** The fields of bytes 22-33 of a written header. */
  lemma Part2Reads(h: Header, s: seq<u8>)
    requires 34 <= |s| && s[22..34] == HeaderPart2(h)
    ensures GetLe16(s, 22) == h.numChannels && GetLe32(s, 24) == h.samplingRate
    ensures GetLe32(s, 28) == h.bytesPerSec && GetLe16(s, 32) == h.blockSize
  {
    var p := HeaderPart2(h);
    forall i | 0 <= i < 12 ensures s[22 + i] == p[i] {
      assert s[22..34][i] == s[22 + i];
    }
    Read16(s, 22, h.numChannels);
    Read32(s, 24, h.samplingRate);
    Read32(s, 28, h.bytesPerSec);
    Read16(s, 32, h.blockSize);
  }

  /** The fields of bytes 34-59 of a written header. */
  lemma Part3Reads(h: Header, d: u32, s: seq<u8>)
    requires 60 <= |s| && s[34..60] == HeaderPart3(h, d)
    ensures GetLe16(s, 34) == h.bitsPerSample && GetLe16(s, 36) == 2 && GetLe16(s, 38) == h.numSamplesPerBlock
    ensures GetLe32(s, 40) == FourCCWord("fact") && GetLe32(s, 44) == 4 && GetLe32(s, 48) == h.numSamples
    ensures GetLe32(s, 52) == FourCCWord("data") && GetLe32(s, 56) == d
  {
    var a := Le16(h.bitsPerSample) + Le16(2) + Le16(h.numSamplesPerBlock);
    var b := FourCC("fact") + Le32(4) + Le32(h.numSamples);
    var c := FourCC("data") + Le32(d);
    assert HeaderPart3(h, d) == a + b + c;
    SliceParts(s, 34, 40, 40 + 12, 60, a, b, c);
    FmtTailReads(h, s, a);
    FactReads(h.numSamples, s, 40, b);
    DataChunkReads(d, s, c);
  }

  /** Bytes 34-39: bits per sample, the fmt extra size and samples per block. */
  lemma FmtTailReads(h: Header, s: seq<u8>, p: seq<u8>)
    requires 40 <= |s| && s[34..40] == p && p == Le16(h.bitsPerSample) + Le16(2) + Le16(h.numSamplesPerBlock)
    ensures GetLe16(s, 34) == h.bitsPerSample && GetLe16(s, 36) == 2 && GetLe16(s, 38) == h.numSamplesPerBlock
  {
    forall i | 0 <= i < 6 ensures s[34 + i] == p[i] {
      assert s[34..40][i] == s[34 + i];
    }
    Read16(s, 34, h.bitsPerSample);
    Read16(s, 36, 2);
    Read16(s, 38, h.numSamplesPerBlock);
  }

  /** A fact chunk at k: its id, the size 4 and the number of samples. */
  lemma FactReads(numSamples: u32, s: seq<u8>, k: nat, p: seq<u8>)
    requires k + 12 <= |s| && s[k..k + 12] == p && p == FourCC("fact") + Le32(4) + Le32(numSamples)
    ensures GetLe32(s, k) == FourCCWord("fact") && GetLe32(s, k + 4) == 4 && GetLe32(s, k + 8) == numSamples
  {
    forall i | 0 <= i < 12 ensures s[k + i] == p[i] {
      assert s[k..k + 12][i] == s[k + i];
    }
    Read32(s, k, FourCCWord("fact"));
    Read32(s, k + 4, 4);
    Read32(s, k + 8, numSamples);
  }

  /** Bytes 52-59: the data chunk's id and size. */
  lemma DataChunkReads(d: u32, s: seq<u8>, p: seq<u8>)
    requires 60 <= |s| && s[52..60] == p && p == FourCC("data") + Le32(d)
    ensures GetLe32(s, 52) == FourCCWord("data") && GetLe32(s, 56) == d
  {
    forall i | 0 <= i < 8 ensures s[52 + i] == p[i] {
      assert s[52..60][i] == s[52 + i];
    }
    Read32(s, 52, FourCCWord("data"));
    Read32(s, 56, d);
  }

  /** The 60 bytes MOIEncoder_EncodeHeader writes for a header it accepts,
      followed by any data, read back with MOIDecoder_DecodeHeader as the same
      header, with the header size 60. */
  lemma HeaderRoundTrip(h: Header, rest: seq<u8>)
    requires SizesConsistent(h) && h.numChannels <= MaxNumChannels
    requires HeaderSize + |rest| < 0x1_0000_0000
    ensures ParseHeader(HeaderBytes(h) + rest) == HeaderOk(h.(headerSize := HeaderSize))
  {
    var d := DataChunkSize(h);
    var s := HeaderBytes(h) + rest;
    HeaderBytesParts(h);
    var p1, p2, p3 := HeaderPart1(d), HeaderPart2(h), HeaderPart3(h, d);
    assert s == p1 + p2 + p3 + rest;
    assert s[..22] == p1;
    assert s[22..34] == p2;
    assert s[34..60] == p3;
    Part1Reads(d, s);
    Part2Reads(h, s);
    Part3Reads(h, d, s);
    var fmt := Header(h.numChannels, h.samplingRate, h.bytesPerSec, h.blockSize, h.bitsPerSample,
                      h.numSamplesPerBlock, 0, 0);
    assert ParseHeader(s) == ParseChunks(s, 40, fmt, false);
    assert FourCCWord("fact") != FourCCWord("data");
    assert ParseChunks(s, 40, fmt, false) == ParseChunks(s, 52, fmt.(numSamples := h.numSamples), true);
  }

  // ---------------------------------------------------------------------------
  // Block round trip
  // ---------------------------------------------------------------------------

  /** Unpacking the codes of packed bytes gives the codes back. */
  lemma {:induction false} MonoNibblesPackBytes(ns: seq<Nibble>)
    requires |ns| % 2 == 0
    ensures MonoNibbles(PackBytes(ns)) == ns
    decreases |ns|
  {
    if |ns| >= 2 {
      var p, tail := PackBytes(ns), PackBytes(ns[2..]);
      assert p == [(ns[0] as int + 0x10 * ns[1] as int) as u8] + tail;
      assert p[1..] == tail;
      assert MonoNibbles(p) == [p[0] % 16, p[0] / 16] + MonoNibbles(tail);
      ByteNibbles(ns[0], ns[1]);
      MonoNibblesPackBytes(ns[2..]);
      assert ns == [ns[0], ns[1]] + ns[2..];
    }
  }

  /** A byte packed from a low and a high code splits back into them. */
  lemma ByteNibbles(lo: Nibble, hi: Nibble)
    ensures (lo as int + 0x10 * hi as int) % 16 == lo as int
    ensures (lo as int + 0x10 * hi as int) / 16 == hi as int
  {
  }

  /** The header sample of a block is its first sample. */
  lemma HeaderSampleReads(st: EncoderState, s: seq<u8>, k: nat)
    requires k + 4 <= |s| && s[k..k + 4] == BlockHeader(st)
    ensures HeaderSample(s, k) == st.prevSample && s[k + 2] == st.stepsizeIndex && s[k + 3] == 0
  {
    var h := BlockHeader(st);
    assert s[k] == h[0] && s[k + 1] == h[1] && s[k + 2] == h[2] && s[k + 3] == h[3];
    Read16(s, k, I16ToU16(st.prevSample));
    I16RoundTrip(st.prevSample);
  }

  /** MOIDecoder_DecodeBlockMono on a block with a valid header for the
      encoder state st, whose data bytes hold the codes ns of a run of 2(n/2)
      samples: the header sample and the decoding of the first n - 1 codes. */
  lemma UnpackMonoRead(st: EncoderState, ns: seq<Nibble>, n: u32, data: seq<u8>, stL: DecoderState, stR: DecoderState)
    requires 1 <= n && |ns| == 2 * (n / 2) && 4 + n / 2 <= |data|
    requires HeaderSample(data, 0) == st.prevSample && data[2] == st.stepsizeIndex && data[3] == 0
    requires MonoNibbles(data[4..4 + n / 2]) == ns
    ensures var u := UnpackMono(stL, stR, data, 0, 4 + n / 2, n);
      var d := Decode(AsDecoder(st), ns[..n - 1]);
      && u.err == ErrOk && u.count == n
      && u.left == [st.prevSample] + d.samples && u.stL == d.state
  {
    MonoCountFull(n);
  }

  /** A mono block of 4 + n/2 bytes holds exactly n samples. */
  lemma MonoCountFull(n: u32)
    requires 1 <= n
    ensures MonoCount(4 + n / 2, n) == n
  {
    if n % 2 == 0 {
      assert 2 * (n / 2) + 1 == n + 1;
    } else {
      assert 2 * (n / 2) + 1 == n;
    }
  }

  /** The header and the codes read from a mono block as the packer lays it out. */
  lemma MonoBlockReads(st: EncoderState, ns: seq<Nibble>, n: u32, data: seq<u8>)
    requires |ns| == 2 * (n / 2) && 4 + n / 2 <= |data|
    requires data[..4] == BlockHeader(st) && data[4..4 + n / 2] == PackBytes(ns)
    ensures HeaderSample(data, 0) == st.prevSample && data[2] == st.stepsizeIndex && data[3] == 0
    ensures MonoNibbles(data[4..4 + n / 2]) == ns
  {
    assert data[0..0 + 4] == data[..4];
    HeaderSampleReads(st, data, 0);
    MonoNibblesPackBytes(ns);
  }

  /** Decoding the first n - 1 codes of samples 1 .. m - 1 of xs gives the
      reconstruction of samples 1 .. n - 1 and the mirror of the encoder's
      state after them. */
  lemma MonoChannelRoundTrip(st: EncoderState, xs: seq<i16>, m: nat, n: nat)
    requires 1 <= n <= m <= |xs|
    ensures Decode(AsDecoder(st), Encode(st, xs[1..m]).nibbles[..n - 1])
            == Decoding(Reconstruction(st, xs[1..n]), AsDecoder(Encode(st, xs[1..n]).state))
  {
    var ys := xs[1..m];
    EncodeSplit(st, ys, n - 1);
    assert ys[..n - 1] == xs[1..n];
    assert Encode(st, ys).nibbles[..n - 1] == Encode(st, xs[1..n]).nibbles;
    LockstepRun(st, xs[1..n]);
  }

  /** A mono block of n samples that MOIEncoder_EncodeBlockMono packs, read by
      MOIDecoder_DecodeBlockMono with room for n samples, decodes without error
      to n samples: the block's first sample and the encoder's reconstruction
      of the others. The decoder ends in the mirror of the encoder's state
      after those samples. */
  lemma MonoBlockRoundTrip(idx: StepIndex, xs: seq<i16>, n: u32, stL: DecoderState, stR: DecoderState, rest: seq<u8>)
    requires 1 <= n && MonoReadLength(n) <= |xs|
    ensures var u := UnpackMono(stL, stR, MonoBlock(idx, xs, n) + rest, 0, 4 + n / 2, n);
      && u.err == ErrOk && u.count == n
      && u.left == [xs[0]] + Reconstruction(BlockStart(idx, xs), xs[1..n])
      && u.stL == AsDecoder(Encode(BlockStart(idx, xs), xs[1..n]).state)
  {
    var st := BlockStart(idx, xs);
    var ns := Encode(st, xs[1..MonoReadLength(n)]).nibbles;
    var data := MonoBlock(idx, xs, n) + rest;
    MonoBlockParts(idx, xs, n, rest);
    MonoBlockReads(st, ns, n, data);
    UnpackMonoRead(st, ns, n, data, stL, stR);
    MonoChannelRoundTrip(st, xs, MonoReadLength(n), n);
  }

  /** Where the header and the packed codes of a mono block lie. */
  lemma MonoBlockParts(idx: StepIndex, xs: seq<i16>, n: u32, rest: seq<u8>)
    requires MonoReadLength(n) <= |xs|
    ensures var data := MonoBlock(idx, xs, n) + rest;
      && data[..4] == BlockHeader(BlockStart(idx, xs))
      && data[4..4 + n / 2] == PackBytes(Encode(BlockStart(idx, xs), xs[1..MonoReadLength(n)]).nibbles)
  {
  }

  /** The base-16 digit of w at the place value c, when w is lo + c * (d + 16 * hi)
      with lo below c. */
  lemma DigitAt(w: nat, c: nat, lo: nat, d: Nibble, hi: nat)
    requires c > 0 && lo < c && w == lo + c * (d + 16 * hi)
    ensures (w / c) % 16 == d
  {
    DivisionUnique(w, c, d + 16 * hi, lo);
    DivisionUnique(d + 16 * hi, 16, hi, d);
  }

  /** Reading the eight codes of a packed stereo word gives the codes back. */
  lemma WordNibblesPackWord(ns: seq<Nibble>)
    requires |ns| == 8
    ensures WordNibbles(PackWord(ns)) == ns
  {
    var w := PackWord(ns);
    var n0: int, n1: int, n2: int, n3: int := ns[0], ns[1], ns[2], ns[3];
    var n4: int, n5: int, n6: int, n7: int := ns[4], ns[5], ns[6], ns[7];
    DigitAt(w, 0x1, 0, n0, n1 + 0x10 * n2 + 0x100 * n3 + 0x1000 * n4 + 0x1_0000 * n5 + 0x10_0000 * n6 + 0x100_0000 * n7);
    DigitAt(w, 0x10, n0, n1, n2 + 0x10 * n3 + 0x100 * n4 + 0x1000 * n5 + 0x1_0000 * n6 + 0x10_0000 * n7);
    DigitAt(w, 0x100, n0 + 0x10 * n1, n2, n3 + 0x10 * n4 + 0x100 * n5 + 0x1000 * n6 + 0x1_0000 * n7);
    DigitAt(w, 0x1000, n0 + 0x10 * n1 + 0x100 * n2, n3, n4 + 0x10 * n5 + 0x100 * n6 + 0x1000 * n7);
    DigitAt(w, 0x1_0000, n0 + 0x10 * n1 + 0x100 * n2 + 0x1000 * n3, n4, n5 + 0x10 * n6 + 0x100 * n7);
    DigitAt(w, 0x10_0000, n0 + 0x10 * n1 + 0x100 * n2 + 0x1000 * n3 + 0x1_0000 * n4, n5, n6 + 0x10 * n7);
    DigitAt(w, 0x100_0000, n0 + 0x10 * n1 + 0x100 * n2 + 0x1000 * n3 + 0x1_0000 * n4 + 0x10_0000 * n5, n6, n7);
    DigitAt(w, 0x1000_0000, n0 + 0x10 * n1 + 0x100 * n2 + 0x1000 * n3 + 0x1_0000 * n4 + 0x10_0000 * n5
                            + 0x100_0000 * n6, n7, 0);
  }

  /** Multiplying a base-16 two-digit number by c. */
  lemma Distribute(hi: int, lo: int, c: int)
    ensures (hi * 16 + lo) * c == hi * (16 * c) + lo * c
  {
  }

  /** A base-16 digit times c is at most 15 * c. */
  lemma DigitTimes(d: nat, c: nat)
    requires d < 16
    ensures d * c <= 15 * c
  {
    assert 15 * c - d * c == (15 - d) * c;
  }

  /** Dividing by c and then by 16 is dividing by 16 * c. */
  lemma DivideAgain(w: nat, c: nat)
    requires c > 0
    ensures (w / c) / 16 == w / (16 * c)
  {
    var q, r := w / c, w % c;
    var q2, r2 := q / 16, q % 16;
    assert w == q * c + r;
    assert q == q2 * 16 + r2;
    Distribute(q2, r2, c);
    DigitTimes(r2, c);
    DivisionUnique(w, 16 * c, q2, r2 * c + r);
  }

  /** Eight base-16 digits peeled off one at a time make up the number. */
  lemma Recombine(w: int, n0: int, n1: int, n2: int, n3: int, n4: int, n5: int, n6: int, n7: int,
                  q1: int, q2: int, q3: int, q4: int, q5: int, q6: int)
    requires w == n0 + 0x10 * q1 && q1 == n1 + 0x10 * q2 && q2 == n2 + 0x10 * q3 && q3 == n3 + 0x10 * q4
    requires q4 == n4 + 0x10 * q5 && q5 == n5 + 0x10 * q6 && q6 == n6 + 0x10 * n7
    ensures w == n0 + 0x10 * n1 + 0x100 * n2 + 0x1000 * n3 + 0x1_0000 * n4 + 0x10_0000 * n5
                 + 0x100_0000 * n6 + 0x1000_0000 * n7
  {
  }

  /** The quotient by c is its base-16 digit plus 16 times the quotient by 16 * c. */
  lemma NextDigit(w: nat, c: nat)
    requires c > 0
    ensures w / c == (w / c) % 16 + 16 * (w / (16 * c))
  {
    DivideAgain(w, c);
  }

  /** The top base-16 digit of a 32-bit word is its quotient by 16 to the seventh. */
  lemma TopDigit(w: nat)
    requires w < 0x1_0000_0000
    ensures (w / 0x1000_0000) % 16 == w / 0x1000_0000
  {
    assert w / 0x1000_0000 < 16;
  }

  /** Every word is the packing of its eight codes: splitting a word into codes
      loses nothing. */
  lemma PackWordNibbles(w: u32)
    ensures PackWord(WordNibbles(w)) == w
  {
    NextDigit(w, 0x1);
    NextDigit(w, 0x10);
    NextDigit(w, 0x100);
    NextDigit(w, 0x1000);
    NextDigit(w, 0x1_0000);
    NextDigit(w, 0x10_0000);
    NextDigit(w, 0x100_0000);
    TopDigit(w);
    var ns := WordNibbles(w);
    assert ns[0] == (w / 1) % 16;
    assert ns[1] == (w / 0x10) % 16;
    assert ns[2] == (w / 0x100) % 16;
    assert ns[3] == (w / 0x1000) % 16;
    assert ns[4] == (w / 0x1_0000) % 16;
    assert ns[5] == (w / 0x10_0000) % 16;
    assert ns[6] == (w / 0x100_0000) % 16;
    assert ns[7] == (w / 0x1000_0000) % 16;
    Recombine(w / 1, ns[0], ns[1], ns[2], ns[3], ns[4], ns[5], ns[6], ns[7],
              w / 0x10, w / 0x100, w / 0x1000, w / 0x1_0000, w / 0x10_0000, w / 0x100_0000);
  }



  /** The three parts of a slice that is a concatenation of three sequences. */
  lemma SliceParts(data: seq<u8>, p: nat, q: nat, r: nat, e: nat, a: seq<u8>, b: seq<u8>, c: seq<u8>)
    requires p <= q <= r <= e <= |data| && |a| == q - p && |b| == r - q && |c| == e - r
    requires data[p..e] == a + b + c
    ensures data[p..q] == a && data[q..r] == b && data[r..e] == c
  {
    forall i | 0 <= i < |a| ensures data[p + i] == a[i] {
      assert data[p..e][i] == data[p + i];
    }
    forall i | 0 <= i < |b| ensures data[q + i] == b[i] {
      assert data[p..e][|a| + i] == data[q + i];
    }
    forall i | 0 <= i < |c| ensures data[r + i] == c[i] {
      assert data[p..e][|a| + |b| + i] == data[r + i];
    }
  }

  /** A little-endian packed word of eight codes reads back as those codes. */
  lemma WordReads(data: seq<u8>, at: nat, ns: seq<Nibble>)
    requires |ns| == 8 && at + 4 <= |data| && data[at..at + 4] == Le32(PackWord(ns))
    ensures WordNibbles(GetLe32(data, at)) == ns
  {
    Le32RoundTrip(PackWord(ns), data, at);
    WordNibblesPackWord(ns);
  }

  /** The bytes of the first group of packed stereo data: the word of each
      channel, then the packing of the other groups. */
  lemma FirstGroupBytes(data: seq<u8>, start: nat, g: nat, ls: seq<Nibble>, rs: seq<Nibble>)
    requires g > 0 && |ls| == 8 * g && |rs| == 8 * g && start + 8 * g <= |data|
    requires |ls| % 8 == 0 && data[start..start + 8 * g] == StereoBytes(ls, rs)
    ensures |ls[8..]| % 8 == 0
    ensures data[start..start + 4] == Le32(PackWord(ls[..8]))
    ensures data[start + 4..start + 4 + 4] == Le32(PackWord(rs[..8]))
    ensures data[start + 8..start + 8 + 8 * (g - 1)] == StereoBytes(ls[8..], rs[8..])
  {
    var e := start + 8 + 8 * (g - 1);
    assert e == start + 8 * g;
    assert |ls[8..]| == 8 * (g - 1);
    MultipleOf(g - 1, 8);
    SliceParts(data, start, start + 4, start + 8, e,
               Le32(PackWord(ls[..8])), Le32(PackWord(rs[..8])), StereoBytes(ls[8..], rs[8..]));
  }

  /** A channel's codes in g groups from start are the codes of its word in the
      first group, then its codes in the g - 1 groups after it. */
  lemma {:induction false} StereoNibblesFirst(data: seq<u8>, start: nat, c: nat, g: nat)
    requires c < 2 && g > 0 && start + 8 * g <= |data|
    ensures StereoNibbles(data, start, c, g)
            == WordNibbles(GetLe32(data, start + 4 * c)) + StereoNibbles(data, start + 8, c, g - 1)
    decreases g
  {
    if g > 1 {
      StereoNibblesFirst(data, start, c, g - 1);
      assert start + 8 * (g - 1) + 4 * c == start + 8 + 8 * (g - 2) + 4 * c;
    }
  }

  /** A channel's codes in g groups are all when the codes of its first word
      and those in the g - 1 groups after it are the matching parts of all. */
  lemma StereoNibblesCompose(data: seq<u8>, start: nat, c: nat, g: nat, all: seq<Nibble>, at: nat)
    requires c < 2 && g > 0 && start + 8 * g <= |data| && |all| == 8 * g
    requires at == start + 4 * c
    requires WordNibbles(GetLe32(data, at)) == all[..8]
    requires StereoNibbles(data, start + 8, c, g - 1) == all[8..]
    ensures StereoNibbles(data, start, c, g) == all
  {
    StereoNibblesFirst(data, start, c, g);
    assert all == all[..8] + all[8..];
  }

  /** The codes of each channel read from packed stereo data are the codes
      that were packed for that channel. */
  lemma StereoNibblesOf(data: seq<u8>, start: nat, g: nat, ls: seq<Nibble>, rs: seq<Nibble>)
    requires |ls| == 8 * g && |rs| == 8 * g && start + 8 * g <= |data|
    requires |ls| % 8 == 0 && data[start..start + 8 * g] == StereoBytes(ls, rs)
    ensures StereoNibbles(data, start, 0, g) == ls && StereoNibbles(data, start, 1, g) == rs
  {
    ChannelNibblesOf(data, start, 0, g, ls, rs);
    ChannelNibblesOf(data, start, 1, g, ls, rs);
  }

  /** The codes of channel c read from packed stereo data are the codes that
      were packed for it: ls for channel 0, rs for channel 1. */
  lemma {:induction false} ChannelNibblesOf(data: seq<u8>, start: nat, c: nat, g: nat, ls: seq<Nibble>, rs: seq<Nibble>)
    requires c < 2 && |ls| == 8 * g && |rs| == 8 * g && start + 8 * g <= |data|
    requires |ls| % 8 == 0 && data[start..start + 8 * g] == StereoBytes(ls, rs)
    ensures StereoNibbles(data, start, c, g) == if c == 0 then ls else rs
    decreases g
  {
    if g > 0 {
      FirstGroupBytes(data, start, g, ls, rs);
      ChannelNibblesOf(data, start + 8, c, g - 1, ls[8..], rs[8..]);
      if c == 0 {
        WordReads(data, start, ls[..8]);
        StereoNibblesCompose(data, start, 0, g, ls, start);
      } else {
        WordReads(data, start + 4, rs[..8]);
        StereoNibblesCompose(data, start, 1, g, rs, start + 4);
      }
    }
  }

  /** Where the headers and the packed groups of a stereo block lie. */
  lemma StereoBlockParts(lidx: StepIndex, ridx: StepIndex, left: seq<i16>, right: seq<i16>, n: u32, rest: seq<u8>)
    requires StereoReadLength(n) <= |left| && StereoReadLength(n) <= |right|
    ensures var data := StereoBlock(lidx, ridx, left, right, n) + rest;
      var m := StereoReadLength(n);
      && data[..4] == BlockHeader(BlockStart(lidx, left))
      && data[4..8] == BlockHeader(BlockStart(ridx, right))
      && data[8..8 + 8 * StereoGroups(n)]
         == StereoBytes(Encode(BlockStart(lidx, left), left[1..m]).nibbles,
                        Encode(BlockStart(ridx, right), right[1..m]).nibbles)
  {
  }

  /** MOIDecoder_DecodeBlockStereo on a block with valid channel headers for
      the encoder states sl, sr, whose g groups hold the codes ls, rs: per
      channel the header sample and the decoding of the first n - 1 codes, and
      the state after all the codes. */
  lemma UnpackStereoRead(sl: EncoderState, sr: EncoderState, ls: seq<Nibble>, rs: seq<Nibble>, n: u32,
                         data: seq<u8>, stL: DecoderState, stR: DecoderState)
    requires 1 <= n <= 0xFFFF && 8 + 8 * StereoGroups(n) <= |data|
    requires HeaderSample(data, 0) == sl.prevSample && data[2] == sl.stepsizeIndex && data[3] == 0
    requires HeaderSample(data, 4) == sr.prevSample && data[6] == sr.stepsizeIndex && data[7] == 0
    requires StereoNibbles(data, 8, 0, StereoGroups(n)) == ls && StereoNibbles(data, 8, 1, StereoGroups(n)) == rs
    ensures var u := UnpackStereo(stL, stR, data, 0, 8 + 8 * StereoGroups(n), n);
      var dl, dr := Decode(AsDecoder(sl), ls), Decode(AsDecoder(sr), rs);
      && u.err == ErrOk && u.count == n
      && u.left == [sl.prevSample] + dl.samples[..n - 1] && u.stL == dl.state
      && u.right == [sr.prevSample] + dr.samples[..n - 1] && u.stR == dr.state
  {
    assert Groups(n) == StereoGroups(n);
    assert StereoCount(8 + 8 * StereoGroups(n), n) == n;
  }

  /** The same, for a block whose group bytes are the packing of ls and rs. */
  lemma UnpackStereoOf(sl: EncoderState, sr: EncoderState, ls: seq<Nibble>, rs: seq<Nibble>, n: u32,
                       data: seq<u8>, stL: DecoderState, stR: DecoderState)
    requires 1 <= n <= 0xFFFF && |ls| == 8 * StereoGroups(n) && |rs| == 8 * StereoGroups(n)
    requires 8 + 8 * StereoGroups(n) <= |data|
    requires HeaderSample(data, 0) == sl.prevSample && data[2] == sl.stepsizeIndex && data[3] == 0
    requires HeaderSample(data, 4) == sr.prevSample && data[6] == sr.stepsizeIndex && data[7] == 0
    requires data[8..8 + 8 * StereoGroups(n)] == StereoBytes(ls, rs)
    ensures var u := UnpackStereo(stL, stR, data, 0, 8 + 8 * StereoGroups(n), n);
      var dl, dr := Decode(AsDecoder(sl), ls), Decode(AsDecoder(sr), rs);
      && u.err == ErrOk && u.count == n
      && u.left == [sl.prevSample] + dl.samples[..n - 1] && u.stL == dl.state
      && u.right == [sr.prevSample] + dr.samples[..n - 1] && u.stR == dr.state
  {
    var g := StereoGroups(n);
    MultipleOf(g, 8);
    StereoNibblesOf(data, 8, g, ls, rs);
    UnpackStereoRead(sl, sr, ls, rs, n, data, stL, stR);
  }

  /** A stereo block of n samples that MOIEncoder_EncodeBlockStereo packs,
      read by MOIDecoder_DecodeBlockStereo with room for n samples, decodes
      without error to n samples per channel: the channel's first sample and
      the encoder's reconstruction of the others. Both decoders end in the
      mirror of their encoder's state after the whole block, padding included. */
  lemma StereoBlockRoundTrip(lidx: StepIndex, ridx: StepIndex, left: seq<i16>, right: seq<i16>, n: u32,
                             stL: DecoderState, stR: DecoderState, rest: seq<u8>)
    requires 1 <= n <= 0xFFFF && StereoReadLength(n) <= |left| && StereoReadLength(n) <= |right|
    ensures var u := UnpackStereo(stL, stR, StereoBlock(lidx, ridx, left, right, n) + rest, 0, 8 + 8 * StereoGroups(n), n);
      && u.err == ErrOk && u.count == n
      && u.left == [left[0]] + Reconstruction(BlockStart(lidx, left), left[1..n])
      && u.right == [right[0]] + Reconstruction(BlockStart(ridx, right), right[1..n])
      && u.stL == AsDecoder(StereoBlockEnd(lidx, left, n))
      && u.stR == AsDecoder(StereoBlockEnd(ridx, right, n))
  {
    var m := StereoReadLength(n);
    var sl, sr := BlockStart(lidx, left), BlockStart(ridx, right);
    var ls, rs := Encode(sl, left[1..m]).nibbles, Encode(sr, right[1..m]).nibbles;
    var data := StereoBlock(lidx, ridx, left, right, n) + rest;
    StereoBlockParts(lidx, ridx, left, right, n, rest);
    assert data[0..0 + 4] == data[..4];
    HeaderSampleReads(sl, data, 0);
    HeaderSampleReads(sr, data, 4);
    UnpackStereoOf(sl, sr, ls, rs, n, StereoBlock(lidx, ridx, left, right, n) + rest, stL, stR);
    ChannelRoundTrip(sl, left, m, n);
    ChannelRoundTrip(sr, right, m, n);
  }

  /** The first n - 1 samples decoded from the codes of samples 1 .. m - 1 of
      xs are the reconstruction of samples 1 .. n - 1. */
  lemma ChannelRoundTrip(st: EncoderState, xs: seq<i16>, m: nat, n: nat)
    requires 1 <= n <= m <= |xs|
    ensures Decode(AsDecoder(st), Encode(st, xs[1..m]).nibbles).samples[..n - 1] == Reconstruction(st, xs[1..n])
    ensures Decode(AsDecoder(st), Encode(st, xs[1..m]).nibbles).state == AsDecoder(Encode(st, xs[1..m]).state)
  {
    DecodedPrefix(st, xs[1..m], n - 1);
    LockstepRun(st, xs[1..m]);
    assert xs[1..m][..n - 1] == xs[1..n];
  }
}
