/** The IMA-ADPCM decoder (libs/moicodec/src/moi_decoder.c): the RIFF/WAVE
    header reader, the per-channel sample reconstruction, the mono and stereo
    block unpackers and the whole-file decoder. */
module MoiDecoder {
  import opened MoiTypes
  import opened MoiInternal
  import opened ByteArray

  // ---------------------------------------------------------------------------
  // The per-channel reconstruction (MOICoreDecoder)
  // ---------------------------------------------------------------------------

  /** What a core decoder remembers between samples. */
  datatype DecoderState = DecoderState(sampleVal: i16, stepsizeIndex: StepIndex)

  /** One step of MOICoreDecoder_DecodeSample: the step size of the current
      index, the index moved by the code's table entry and clamped to the table
      (idx + entry lies in -1 .. 96, so the int8 cast keeps it), and the sample
      moved by the quantised difference of the code's magnitude, down when bit 3
      is set, clamped to 16 bits. */
  function DecodeStep(st: DecoderState, nibble: Nibble): DecoderState
  {
    var step := StepsizeTable(st.stepsizeIndex);
    var idx := InnerVal(st.stepsizeIndex + IndexTable(nibble), 0, 88);
    var qdiff := QuantisedDifference(step, nibble % 8);
    var predict := if nibble >= 8 then st.sampleVal - qdiff else st.sampleVal + qdiff;
    DecoderState(InnerVal(predict, -32768, 32767), idx)
  }

  /** What one step means: the sample moves down for a code with bit 3 set and
      up otherwise, by at most two steps of the current step size, and by
      exactly the quantised difference unless that leaves the 16-bit range; the
      step-size index moves by the index table entry, clamped to the table. */
  lemma DecodeStepMeaning(st: DecoderState, nibble: Nibble)
    ensures nibble >= 8 ==> DecodeStep(st, nibble).sampleVal <= st.sampleVal
    ensures nibble < 8 ==> DecodeStep(st, nibble).sampleVal >= st.sampleVal
    ensures -0x8000 <= st.sampleVal - QuantisedDifference(StepsizeTable(st.stepsizeIndex), nibble % 8) && nibble >= 8 ==>
      DecodeStep(st, nibble).sampleVal == st.sampleVal - QuantisedDifference(StepsizeTable(st.stepsizeIndex), nibble % 8)
    ensures st.sampleVal + QuantisedDifference(StepsizeTable(st.stepsizeIndex), nibble % 8) < 0x8000 && nibble < 8 ==>
      DecodeStep(st, nibble).sampleVal == st.sampleVal + QuantisedDifference(StepsizeTable(st.stepsizeIndex), nibble % 8)
    ensures Distance(DecodeStep(st, nibble).sampleVal, st.sampleVal) <= 2 * StepsizeTable(st.stepsizeIndex)
    ensures DecodeStep(st, nibble).stepsizeIndex == InnerVal(st.stepsizeIndex + IndexTable(nibble), 0, 88)
  {
  }

  /** A core decoder: the last reconstructed sample and the step-size index. */
  class CoreDecoder {
    var sampleVal: i16
    var stepsizeIndex: StepIndex

    /** The zeroed state that MOIDecoder_Create leaves. */
    constructor ()
      ensures sampleVal == 0 && stepsizeIndex == 0
    {
      sampleVal, stepsizeIndex := 0, 0;
    }

    function State(): DecoderState
      reads this
    {
      DecoderState(sampleVal, stepsizeIndex)
    }

    /** MOICoreDecoder_DecodeSample: reconstruct the next sample from a code. */
    method DecodeSample(nibble: Nibble) returns (sample: i16)
      modifies this
      ensures State() == DecodeStep(old(State()), nibble)
      ensures sample == sampleVal
    {
      ghost var expected := DecodeStep(State(), nibble);
      var predict: int := sampleVal;
      var idx: int := stepsizeIndex;
      var stepsize := StepsizeTable(idx);
      idx := InnerVal(idx + IndexTable(nibble), 0, 88);
      var delta := nibble % 8;
      var qdiff := (stepsize * (2 * delta + 1)) / 8;
      QuantisedDifferenceIsQuotient(stepsize, delta);
      if nibble >= 8 {
        predict := predict - qdiff;
      } else {
        predict := predict + qdiff;
      }
      sampleVal := InnerVal(predict, -32768, 32767);
      stepsizeIndex := idx;
      assert State() == expected;
      sample := sampleVal;
    }
  }

  // ---------------------------------------------------------------------------
  // Decoding a run of codes
  // ---------------------------------------------------------------------------

  /** The samples reconstructed from a run of codes and the state after them. */
  datatype Decoding = Decoding(samples: seq<i16>, state: DecoderState)

  function Decode(st: DecoderState, ns: seq<Nibble>): (d: Decoding)
    ensures |d.samples| == |ns|
    decreases |ns|
  {
    if |ns| == 0 then Decoding([], st)
    else
      var next := DecodeStep(st, ns[0]);
      var rest := Decode(next, ns[1..]);
      Decoding([next.sampleVal] + rest.samples, rest.state)
  }

  /** Decoding a concatenation is decoding the first part, then the second part
      from the state the first part ends in. */
  lemma {:induction false} DecodeAppend(st: DecoderState, ns: seq<Nibble>, ms: seq<Nibble>)
    ensures Decode(st, ns + ms).samples == Decode(st, ns).samples + Decode(Decode(st, ns).state, ms).samples
    ensures Decode(st, ns + ms).state == Decode(Decode(st, ns).state, ms).state
    decreases |ns|
  {
    if |ns| == 0 {
      assert ns + ms == ms;
    } else {
      var next := DecodeStep(st, ns[0]);
      assert (ns + ms)[0] == ns[0];
      assert (ns + ms)[1..] == ns[1..] + ms;
      DecodeCons(st, ns, next);
      DecodeCons(st, ns + ms, next);
      DecodeAppend(next, ns[1..], ms);
      AppendAssoc16([next.sampleVal], Decode(next, ns[1..]).samples, Decode(Decode(next, ns[1..]).state, ms).samples);
    }
  }

  /** Decoding a nonempty run is one step followed by the rest of the run. */
  lemma DecodeCons(st: DecoderState, ns: seq<Nibble>, next: DecoderState)
    requires |ns| >= 1 && DecodeStep(st, ns[0]) == next
    ensures Decode(st, ns).samples == [next.sampleVal] + Decode(next, ns[1..]).samples
    ensures Decode(st, ns).state == Decode(next, ns[1..]).state
  {
  }

  lemma AppendAssoc16(a: seq<i16>, b: seq<i16>, c: seq<i16>)
    ensures (a + b) + c == a + (b + c)
  {
  }

  /** The sample values of a run of states. */
  function SampleValues(sts: seq<DecoderState>): (s: seq<i16>)
    ensures |s| == |sts|
    ensures forall i :: 0 <= i < |sts| ==> s[i] == sts[i].sampleVal
  {
    seq(|sts|, i requires 0 <= i < |sts| => sts[i].sampleVal)
  }

  /** The samples of a run of states are the first one's and the rest's. */
  lemma SampleValuesHead(sts: seq<DecoderState>)
    requires |sts| > 0
    ensures SampleValues(sts) == [sts[0].sampleVal] + SampleValues(sts[1..])
  {
  }

  /** The samples of the first k states, built one state at a time. */
  function Samples(sts: seq<DecoderState>, k: nat): (s: seq<i16>)
    requires k <= |sts|
    ensures |s| == k
  {
    if k == 0 then [] else Samples(sts, k - 1) + [sts[k - 1].sampleVal]
  }

  /** The samples of the first m + 1 states are the first one's and m of the rest's. */
  lemma {:induction false} SamplesPrefix(sts: seq<DecoderState>, m: nat)
    requires m < |sts|
    ensures Samples(sts, m + 1) == [sts[0].sampleVal] + SampleValues(sts[1..])[..m]
  {
    if m > 0 {
      SamplesPrefix(sts, m - 1);
      assert SampleValues(sts[1..])[..m] == SampleValues(sts[1..])[..m - 1] + [sts[m].sampleVal];
    }
  }

  /** sts records a run over ns step by step: decoding ns[i] from sts[i] leads to sts[i + 1]. */
  predicate DecodeSteps(sts: seq<DecoderState>, ns: seq<Nibble>)
  {
    && |sts| == |ns| + 1
    && forall i {:trigger DecodeStep(sts[i], ns[i])} :: 0 <= i < |ns| ==> DecodeStep(sts[i], ns[i]) == sts[i + 1]
  }

  /** A run recorded step by step is the run's decoding: the samples are the
      values of the states after the first. */
  lemma {:induction false} DecodeBySteps(sts: seq<DecoderState>, ns: seq<Nibble>)
    requires DecodeSteps(sts, ns)
    ensures Decode(sts[0], ns) == Decoding(SampleValues(sts[1..]), sts[|ns|])
    decreases |ns|
  {
    if |ns| > 0 {
      assert DecodeStep(sts[0], ns[0]) == sts[1];
      forall i | 0 <= i < |ns[1..]|
        ensures DecodeStep(sts[1..][i], ns[1..][i]) == sts[1..][i + 1]
      {
        assert DecodeStep(sts[i + 1], ns[i + 1]) == sts[i + 2];
      }
      DecodeBySteps(sts[1..], ns[1..]);
      assert sts[1..][1..] == sts[2..];
      assert SampleValues(sts[1..]) == [sts[1].sampleVal] + SampleValues(sts[2..]);
    }
  }

  /** Decoding along a run of steps gives the samples of its first m + 1
      states after the start's, and ends in its last state. */
  lemma DecodeRow(sts: seq<DecoderState>, ns: seq<Nibble>, m: nat)
    requires DecodeSteps(sts, ns) && m <= |ns|
    ensures Decode(sts[0], ns).state == sts[|ns|]
    ensures [sts[0].sampleVal] + Decode(sts[0], ns).samples[..m] == Samples(sts, m + 1)
  {
    DecodeBySteps(sts, ns);
    SamplesPrefix(sts, m);
  }

  /** Every run can be recorded step by step from its first state. */
  lemma {:induction false} DecodeStepsOf(st: DecoderState, ns: seq<Nibble>) returns (sts: seq<DecoderState>)
    ensures DecodeSteps(sts, ns) && sts[0] == st
    decreases |ns|
  {
    if |ns| == 0 {
      sts := [st];
    } else {
      var sts' := DecodeStepsOf(DecodeStep(st, ns[0]), ns[1..]);
      sts := [st] + sts';
      forall i | 0 <= i < |ns|
        ensures DecodeStep(sts[i], ns[i]) == sts[i + 1]
      {
        if i > 0 {
          assert sts[i] == sts'[i - 1] && sts[i + 1] == sts'[i] && ns[i] == ns[1..][i - 1];
          assert DecodeStep(sts'[i - 1], ns[1..][i - 1]) == sts'[i];
        }
      }
    }
  }

  // ---------------------------------------------------------------------------
  // The RIFF/WAVE header (MOIDecoder_DecodeHeader)
  // ---------------------------------------------------------------------------

  /** The identifier's bytes, read as a little-endian word, are its FourCC word. */
  lemma FourCCRead(id: string, s: seq<u8>, pos: nat)
    requires |id| == 4 && forall i :: 0 <= i < 4 ==> id[i] as int < 0x80
    requires pos + 4 <= |s| && s[pos..pos + 4] == FourCC(id)
    ensures GetLe32(s, pos) == FourCCWord(id)
  {
    assert s[pos] == FourCC(id)[0] && s[pos + 1] == FourCC(id)[1];
    assert s[pos + 2] == FourCC(id)[2] && s[pos + 3] == FourCC(id)[3];
  }

  /** The outcome of reading a header: the header, or the result code that stopped the read. */
  datatype HeaderParse = HeaderOk(header: Header) | HeaderError(result: ApiResult)

  /** The header MOIDecoder_DecodeHeader reads from data. The reads the source
      makes past the end of data (it checks the length only against the fmt
      chunk size and at the head of each chunk) fail here with INSUFFICIENT_DATA;
      a header without a fact chunk and with a zero block size, for which the
      source divides by zero, fails with INVALID_FORMAT. */
  function ParseHeader(data: seq<u8>): (o: HeaderParse)
    requires |data| < 0x1_0000_0000
    ensures o.HeaderError? ==> o.result == InvalidFormat || o.result == InsufficientData
    ensures o.HeaderOk? ==>
      && 40 <= |data|
      && GetLe32(data, 0) == FourCCWord("RIFF") && GetLe32(data, 8) == FourCCWord("WAVE")
      && GetLe32(data, 12) == FourCCWord("fmt ") && GetLe32(data, 16) < |data|
      && GetLe16(data, 20) == 17 && GetLe16(data, 36) == 2
      && o.header.numChannels == GetLe16(data, 22) <= MaxNumChannels
      && o.header.samplingRate == GetLe32(data, 24) && o.header.bytesPerSec == GetLe32(data, 28)
      && o.header.blockSize == GetLe16(data, 32) && o.header.bitsPerSample == GetLe16(data, 34)
      && o.header.numSamplesPerBlock == GetLe16(data, 38)
      && 48 <= o.header.headerSize <= |data|
      && GetLe32(data, o.header.headerSize - 8) == FourCCWord("data")
    ensures o.HeaderOk? ==> FmtValid(data)
    ensures FmtValid(data) ==>
      var w := ChunkWalk(data, 40, NoFact);
      && (w.OffEnd? ==> o == HeaderError(InsufficientData))
      && (w.BadFact? ==> o == HeaderError(InvalidFormat))
      && (w.Reached? && |data| < w.at + 8 ==> o == HeaderError(InsufficientData))
      && (w.Reached? && w.at + 8 <= |data| && w.found.FactCount? ==>
            o.HeaderOk? && o.header.headerSize == w.at + 8 && o.header.numSamples == w.found.count)
      && (w.Reached? && w.at + 8 <= |data| && w.found.NoFact? && GetLe16(data, 32) == 0 ==>
            o == HeaderError(InvalidFormat))
      && (w.Reached? && w.at + 8 <= |data| && w.found.NoFact? && GetLe16(data, 32) > 0 ==>
            && o.HeaderOk? && o.header.headerSize == w.at + 8
            && o.header.numSamples
               == U32(GetLe16(data, 38) * U32(GetLe32(data, w.at + 4) / GetLe16(data, 32) + 1)))
  {
    if |data| < 4 then HeaderError(InsufficientData)
    else if GetLe32(data, 0) != FourCCWord("RIFF") then HeaderError(InvalidFormat)
    else if |data| < 12 then HeaderError(InsufficientData)
    else if GetLe32(data, 8) != FourCCWord("WAVE") then HeaderError(InvalidFormat)
    else if |data| < 16 then HeaderError(InsufficientData)
    else if GetLe32(data, 12) != FourCCWord("fmt ") then HeaderError(InvalidFormat)
    else if |data| < 20 then HeaderError(InsufficientData)
    else if |data| <= GetLe32(data, 16) then HeaderError(InsufficientData)
    else if |data| < 22 then HeaderError(InsufficientData)
    else if GetLe16(data, 20) != 17 then HeaderError(InvalidFormat)
    else if |data| < 24 then HeaderError(InsufficientData)
    else if GetLe16(data, 22) > MaxNumChannels then HeaderError(InvalidFormat)
    else if |data| < 38 then HeaderError(InsufficientData)
    else if GetLe16(data, 36) != 2 then HeaderError(InvalidFormat)
    else if |data| < 40 then HeaderError(InsufficientData)
    else
      var fmt := Header(GetLe16(data, 22), GetLe32(data, 24), GetLe32(data, 28), GetLe16(data, 32),
                        GetLe16(data, 34), GetLe16(data, 38), 0, 0);
      ParseChunks(data, 40, fmt, false)
  }

  /** The chunk loop of MOIDecoder_DecodeHeader from the chunk at pos, with the
      fmt fields read into h and fact telling whether a fact chunk has been
      seen: the data chunk ends the loop; a fact chunk must have size 4 and
      sets the number of samples (a later one overrides an earlier one); any
      other chunk is skipped by its declared size. Without a fact chunk the
      number of samples is samples per block times one more than the number of
      whole blocks in the data chunk, in 32 bits. The loop is the chunk walk
      followed by the loop's tail at the point where the walk ends. */
  function ParseChunks(data: seq<u8>, pos: nat, h: Header, fact: bool): (o: HeaderParse)
    requires |data| < 0x1_0000_0000
    ensures o.HeaderError? ==> o.result == InvalidFormat || o.result == InsufficientData
    ensures o.HeaderOk? ==>
      && o.header.(numSamples := h.numSamples, headerSize := h.headerSize) == h
      && pos + 8 <= o.header.headerSize <= |data|
      && GetLe32(data, o.header.headerSize - 8) == FourCCWord("data")
    ensures o == WalkOutcome(data, h, ChunkWalk(data, pos, if fact then FactCount(h.numSamples) else NoFact))
    decreases if pos <= |data| then |data| - pos + 1 else 0
  {
    if |data| < pos then HeaderError(InsufficientData)
    else if |data| < pos + 4 then HeaderError(InsufficientData)
    else if GetLe32(data, pos) == FourCCWord("data") then
      if |data| < pos + 8 then HeaderError(InsufficientData)
      else if fact then HeaderOk(h.(headerSize := pos + 8))
      else if h.blockSize == 0 then HeaderError(InvalidFormat)
      else
        var blocks := U32(GetLe32(data, pos + 4) / h.blockSize + 1);
        HeaderOk(h.(numSamples := U32(h.numSamplesPerBlock * blocks), headerSize := pos + 8))
    else if |data| < pos + 8 then HeaderError(InsufficientData)
    else if GetLe32(data, pos) == FourCCWord("fact") then
      if GetLe32(data, pos + 4) != 4 then HeaderError(InvalidFormat)
      else if |data| < pos + 12 then HeaderError(InsufficientData)
      else ParseChunks(data, pos + 12, h.(numSamples := GetLe32(data, pos + 8)), true)
    else ParseChunks(data, pos + 8 + GetLe32(data, pos + 4), h, fact)
  }

  /** What a chunk walk has found of fact chunks: none, or the sample count
      the last one holds. */
  datatype FactFound = NoFact | FactCount(count: u32)

  /** Where a walk over the chunks ends: at the first data chunk, with the
      fact chunks found before it; at a fact chunk whose size is not 4; or
      past the end of the data. */
  datatype WalkEnd = Reached(at: nat, found: FactFound) | BadFact | OffEnd

  /** The walk over the chunks from pos, looking only at chunk identifiers
      and sizes: it stops at the first data chunk it reaches, reads the
      sample count of each fact chunk on the way (a later one replacing an
      earlier one), and skips every other chunk by its declared size. */
  function ChunkWalk(data: seq<u8>, pos: nat, found: FactFound): (w: WalkEnd)
    requires |data| < 0x1_0000_0000
    ensures w.Reached? ==> pos <= w.at && w.at + 4 <= |data| && GetLe32(data, w.at) == FourCCWord("data")
    ensures w.Reached? && found.FactCount? ==> w.found.FactCount?
    decreases if pos <= |data| then |data| - pos + 1 else 0
  {
    if |data| < pos + 4 then OffEnd
    else if GetLe32(data, pos) == FourCCWord("data") then Reached(pos, found)
    else if |data| < pos + 8 then OffEnd
    else if GetLe32(data, pos) == FourCCWord("fact") then
      if GetLe32(data, pos + 4) != 4 then BadFact
      else if |data| < pos + 12 then OffEnd
      else ChunkWalk(data, pos + 12, FactCount(GetLe32(data, pos + 8)))
    else ChunkWalk(data, pos + 8 + GetLe32(data, pos + 4), found)
  }

  /** The outcome of the header read once the chunk walk has ended at w,
      with the fmt fields read into h: the data chunk's size follows its
      identifier; without a fact chunk the number of samples is samples per
      block times one more than the whole blocks of the data chunk, in 32
      bits; the header size is the offset just past the data chunk's size. */
  function WalkOutcome(data: seq<u8>, h: Header, w: WalkEnd): HeaderParse
    requires |data| < 0x1_0000_0000
  {
    match w
    case OffEnd => HeaderError(InsufficientData)
    case BadFact => HeaderError(InvalidFormat)
    case Reached(at, found) =>
      if |data| < at + 8 then HeaderError(InsufficientData)
      else match found
        case FactCount(count) => HeaderOk(h.(numSamples := count, headerSize := at + 8))
        case NoFact =>
          if h.blockSize == 0 then HeaderError(InvalidFormat)
          else HeaderOk(h.(numSamples := U32(h.numSamplesPerBlock * U32(GetLe32(data, at + 4) / h.blockSize + 1)),
                           headerSize := at + 8))
  }

  /** The fixed fields of the RIFF header and the fmt chunk are present and
      pass MOIDecoder_DecodeHeader's checks. */
  predicate FmtValid(data: seq<u8>)
  {
    && 40 <= |data|
    && GetLe32(data, 0) == FourCCWord("RIFF") && GetLe32(data, 8) == FourCCWord("WAVE")
    && GetLe32(data, 12) == FourCCWord("fmt ") && GetLe32(data, 16) < |data|
    && GetLe16(data, 20) == 17 && GetLe16(data, 22) <= MaxNumChannels && GetLe16(data, 36) == 2
  }

  /** With the data chunk right after the fmt chunk, the sample count is
      samples per block times one more than the whole blocks of the data
      chunk, in 32 bits. */
  lemma NoFactSampleCount(data: seq<u8>)
    requires |data| < 0x1_0000_0000 && ParseHeader(data).HeaderOk?
    requires 44 <= |data| && GetLe32(data, 40) == FourCCWord("data")
    ensures ParseHeader(data).header.headerSize == 48
    ensures ParseHeader(data).header.numSamples == U32(GetLe16(data, 38) * U32(GetLe32(data, 44) / GetLe16(data, 32) + 1))
  {
  }

  /** With a fact chunk and then the data chunk after the fmt chunk, the
      sample count is the fact chunk's. */
  lemma FactSampleCount(data: seq<u8>)
    requires |data| < 0x1_0000_0000 && ParseHeader(data).HeaderOk?
    requires 56 <= |data| && GetLe32(data, 40) == FourCCWord("fact") && GetLe32(data, 52) == FourCCWord("data")
    ensures ParseHeader(data).header.headerSize == 60
    ensures ParseHeader(data).header.numSamples == GetLe32(data, 48)
  {
    var fmt := Header(GetLe16(data, 22), GetLe32(data, 24), GetLe32(data, 28), GetLe16(data, 32),
                      GetLe16(data, 34), GetLe16(data, 38), 0, 0);
    assert ParseHeader(data) == ParseChunks(data, 40, fmt, false);
    assert FourCCWord("fact") != FourCCWord("data");
    assert ParseChunks(data, 40, fmt, false) == ParseChunks(data, 52, fmt.(numSamples := GetLe32(data, 48)), true);
  }

  /** Which failure MOIDecoder_DecodeHeader reports: a wrong identifier,
      format tag, channel count or extra size is INVALID_FORMAT once the
      fixed fields are present and the fmt size lies within the data; a fmt
      size not below the data size is INSUFFICIENT_DATA; a first chunk that
      is a fact chunk of a size other than 4 is INVALID_FORMAT, and so is any
      fact chunk of such a size that the chunk walk reaches; a walk that runs
      past the end of the data is INSUFFICIENT_DATA. */
  lemma ParseHeaderErrors(data: seq<u8>)
    requires |data| < 0x1_0000_0000
    ensures 40 <= |data| && GetLe32(data, 16) < |data|
            && (|| GetLe32(data, 0) != FourCCWord("RIFF") || GetLe32(data, 8) != FourCCWord("WAVE")
                || GetLe32(data, 12) != FourCCWord("fmt ") || GetLe16(data, 20) != 17
                || GetLe16(data, 22) > MaxNumChannels || GetLe16(data, 36) != 2)
            ==> ParseHeader(data) == HeaderError(InvalidFormat)
    ensures 20 <= |data| <= GetLe32(data, 16)
            && GetLe32(data, 0) == FourCCWord("RIFF") && GetLe32(data, 8) == FourCCWord("WAVE")
            && GetLe32(data, 12) == FourCCWord("fmt ")
            ==> ParseHeader(data) == HeaderError(InsufficientData)
    ensures 48 <= |data| && GetLe32(data, 16) < |data|
            && GetLe32(data, 0) == FourCCWord("RIFF") && GetLe32(data, 8) == FourCCWord("WAVE")
            && GetLe32(data, 12) == FourCCWord("fmt ") && GetLe16(data, 20) == 17
            && GetLe16(data, 22) <= MaxNumChannels && GetLe16(data, 36) == 2
            && GetLe32(data, 40) == FourCCWord("fact") && GetLe32(data, 44) != 4
            ==> ParseHeader(data) == HeaderError(InvalidFormat)
    ensures FmtValid(data) && ChunkWalk(data, 40, NoFact).BadFact? ==> ParseHeader(data) == HeaderError(InvalidFormat)
    ensures FmtValid(data) && ChunkWalk(data, 40, NoFact).OffEnd? ==> ParseHeader(data) == HeaderError(InsufficientData)
  {
    if 48 <= |data| && GetLe32(data, 40) == FourCCWord("fact") {
      assert FourCCWord("fact") != FourCCWord("data");
    }
  }

  /** MOIDecoder_DecodeHeader: walk the header at the start of data with a read
      cursor. The caller's header, prior, is replaced only when the read succeeds. */
  method DecodeHeader(data: seq<u8>, prior: Header) returns (r: ApiResult, header: Header)
    requires |data| < 0x1_0000_0000
    ensures r == Ok ==> ParseHeader(data) == HeaderOk(header)
    ensures r != Ok ==> ParseHeader(data) == HeaderError(r) && header == prior
  {
    header := prior;
    if |data| < 4 {
      return InsufficientData, prior;
    }
    if GetLe32(data, 0) != FourCCWord("RIFF") {
      return InvalidFormat, prior;
    }
    // bytes 4 .. 7, the RIFF chunk size, are skipped
    if |data| < 12 {
      return InsufficientData, prior;
    }
    if GetLe32(data, 8) != FourCCWord("WAVE") {
      return InvalidFormat, prior;
    }
    if |data| < 16 {
      return InsufficientData, prior;
    }
    if GetLe32(data, 12) != FourCCWord("fmt ") {
      return InvalidFormat, prior;
    }
    if |data| < 20 {
      return InsufficientData, prior;
    }
    var fmtSize := GetLe32(data, 16);
    if |data| <= fmtSize {
      return InsufficientData, prior;
    }
    if |data| < 22 {
      return InsufficientData, prior;
    }
    if GetLe16(data, 20) != 17 {
      return InvalidFormat, prior;
    }
    if |data| < 24 {
      return InsufficientData, prior;
    }
    var numChannels := GetLe16(data, 22);
    if numChannels > MaxNumChannels {
      return InvalidFormat, prior;
    }
    if |data| < 38 {
      return InsufficientData, prior;
    }
    var samplingRate, bytesPerSec := GetLe32(data, 24), GetLe32(data, 28);
    var blockSize, bitsPerSample := GetLe16(data, 32), GetLe16(data, 34);
    if GetLe16(data, 36) != 2 {
      return InvalidFormat, prior;
    }
    if |data| < 40 {
      return InsufficientData, prior;
    }
    var tmp := Header(numChannels, samplingRate, bytesPerSec, blockSize, bitsPerSample, GetLe16(data, 38), 0, 0);
    r, header := ScanChunks(data, tmp, prior);
  }

  /** The chunk loop of MOIDecoder_DecodeHeader, from offset 40 on: skip
      chunks until "data", taking the sample count from a "fact" chunk, then
      finish the header at the data chunk. */
  method ScanChunks(data: seq<u8>, fmt: Header, prior: Header) returns (r: ApiResult, header: Header)
    requires |data| < 0x1_0000_0000
    ensures r == Ok ==> ParseChunks(data, 40, fmt, false) == HeaderOk(header)
    ensures r != Ok ==> ParseChunks(data, 40, fmt, false) == HeaderError(r) && header == prior
  {
    var tmp := fmt;
    var findFact := false;
    var pos: nat := 40;
    while true
      invariant ParseChunks(data, pos, tmp, findFact) == ParseChunks(data, 40, fmt, false)
      decreases if pos <= |data| then |data| - pos + 1 else 0
    {
      if |data| < pos {
        return InsufficientData, prior;
      }
      if |data| < pos + 4 {
        return InsufficientData, prior;
      }
      var chunkId := GetLe32(data, pos);
      if chunkId == FourCCWord("data") {
        break;
      }
      if |data| < pos + 8 {
        return InsufficientData, prior;
      }
      var size := GetLe32(data, pos + 4);
      if chunkId == FourCCWord("fact") {
        if size != 4 {
          return InvalidFormat, prior;
        }
        if |data| < pos + 12 {
          return InsufficientData, prior;
        }
        tmp := tmp.(numSamples := GetLe32(data, pos + 8));
        findFact := true;
        pos := pos + 12;
      } else {
        pos := pos + 8 + size;
      }
    }
    r, header := FinishChunks(data, pos, tmp, findFact, prior);
  }

  /** The end of the chunk loop at the "data" chunk at pos: skip its header
      and, without a fact chunk, derive the sample count from its size. */
  method FinishChunks(data: seq<u8>, pos: nat, tmp: Header, findFact: bool, prior: Header)
    returns (r: ApiResult, header: Header)
    requires |data| < 0x1_0000_0000 && pos + 4 <= |data| && GetLe32(data, pos) == FourCCWord("data")
    ensures r == Ok ==> ParseChunks(data, pos, tmp, findFact) == HeaderOk(header)
    ensures r != Ok ==> ParseChunks(data, pos, tmp, findFact) == HeaderError(r) && header == prior
  {
    if |data| < pos + 8 {
      return InsufficientData, prior;
    }
    var dataChunkSize := GetLe32(data, pos + 4);
    header := tmp;
    if !findFact {
      if tmp.blockSize == 0 {
        return InvalidFormat, prior;
      }
      var numBlocks := U32(dataChunkSize / tmp.blockSize + 1);
      header := header.(numSamples := U32(tmp.numSamplesPerBlock * numBlocks));
    }
    header := header.(headerSize := pos + 8);
    return Ok, header;
  }

  // ---------------------------------------------------------------------------
  // Block layout as the decoder reads it
  // ---------------------------------------------------------------------------

  /** The codes of mono block data: two per byte, the low four bits first. */
  function MonoNibbles(bytes: seq<u8>): (ns: seq<Nibble>)
    ensures |ns| == 2 * |bytes|
    decreases |bytes|
  {
    if |bytes| == 0 then [] else [bytes[0] % 16, bytes[0] / 16] + MonoNibbles(bytes[1..])
  }

  /** Byte j of mono data holds codes 2j (low bits) and 2j + 1 (high bits). */
  lemma {:induction false} MonoNibblesAt(bytes: seq<u8>, j: nat)
    requires j < |bytes|
    ensures MonoNibbles(bytes)[2 * j] == bytes[j] % 16
    ensures MonoNibbles(bytes)[2 * j + 1] == bytes[j] / 16
    decreases j
  {
    if j > 0 {
      MonoNibblesAt(bytes[1..], j - 1);
    }
  }

  /** 16 to the power k, for the shifts of a stereo word. */
  function Pow16(k: nat): (p: nat)
    requires k < 8
    ensures p > 0
  {
    match k
    case 0 => 0x1  case 1 => 0x10  case 2 => 0x100  case 3 => 0x1000
    case 4 => 0x1_0000  case 5 => 0x10_0000  case 6 => 0x100_0000  case _ => 0x1000_0000
  }

  /** Code k of a stereo word: (w >> 4k) & 0xF. */
  function WordNibble(w: u32, k: nat): Nibble
    requires k < 8
  {
    (w / Pow16(k)) % 16
  }

  /** The eight codes of a stereo word, the lowest four bits first. */
  function WordNibbles(w: u32): (ns: seq<Nibble>)
    ensures |ns| == 8
    ensures forall k :: 0 <= k < 8 ==> ns[k] == WordNibble(w, k)
  {
    [WordNibble(w, 0), WordNibble(w, 1), WordNibble(w, 2), WordNibble(w, 3),
     WordNibble(w, 4), WordNibble(w, 5), WordNibble(w, 6), WordNibble(w, 7)]
  }

  /** The codes of channel c in the first g groups of stereo data at start:
      group j holds a word for each channel, channel c's at start + 8j + 4c. */
  function StereoNibbles(data: seq<u8>, start: nat, c: nat, g: nat): (ns: seq<Nibble>)
    requires c < 2 && start + 8 * g <= |data|
    ensures |ns| == 8 * g
    decreases g
  {
    if g == 0 then []
    else StereoNibbles(data, start, c, g - 1) + WordNibbles(GetLe32(data, start + 8 * (g - 1) + 4 * c))
  }

  /** Group j of channel c's codes is the eight codes of the channel's word in that group. */
  lemma {:induction false} StereoWordAt(data: seq<u8>, start: nat, c: nat, g: nat, j: nat)
    requires c < 2 && start + 8 * g <= |data| && j < g
    ensures StereoNibbles(data, start, c, g)[8 * j..8 * j + 8] == WordNibbles(GetLe32(data, start + 8 * j + 4 * c))
    decreases g
  {
    var prefix := StereoNibbles(data, start, c, g - 1);
    assert StereoNibbles(data, start, c, g) == prefix + WordNibbles(GetLe32(data, start + 8 * (g - 1) + 4 * c));
    if j < g - 1 {
      StereoWordAt(data, start, c, g - 1, j);
      assert StereoNibbles(data, start, c, g)[8 * j..8 * j + 8] == prefix[8 * j..8 * j + 8];
    }
  }

  /** What decoding one block gives: the internal result, the number of
      samples it reports, the samples written to each channel from the block's
      first column on, and the two core decoder states after it. */
  datatype Unpacked = Unpacked(err: Error, count: nat, left: seq<i16>, right: seq<i16>,
                               stL: DecoderState, stR: DecoderState)

  /** A channel header: the first sample as a 16-bit pattern, then the step-size index. */
  function HeaderSample(data: seq<u8>, at: nat): i16
    requires at + 2 <= |data|
  {
    U16ToI16(GetLe16(data, at))
  }

  /** The number of samples MOIDecoder_DecodeBlockMono reports for a block of
      size bytes: two per data byte and the header's, in 32 bits, capped by the
      buffer. A block shorter than its header wraps to a huge count, which the
      buffer then caps. */
  function MonoCount(size: u32, bufN: u32): (n: u32)
    ensures n <= bufN && (bufN >= 1 ==> n >= 1)
    ensures 4 <= size < 0x8000_0004 && 2 * (size - 4) + 1 <= bufN ==> n == 2 * (size - 4) + 1
    ensures 4 <= size < 0x8000_0004 ==> 4 + n / 2 <= size
  {
    var twice := U32(U32(size - 4) * 2);
    assert twice % 2 == 0;
    MinVal(U32(twice + 1), bufN)
  }

  /** The number of samples MOIDecoder_DecodeBlockStereo reports for a block
      of size bytes: one per data byte and the header's, in 32 bits, capped by
      the buffer. A 7-byte block wraps to 0; a shorter one to a huge count. */
  function StereoCount(size: u32, bufN: u32): (n: u32)
    ensures n <= bufN
    ensures 8 <= size && size - 7 <= bufN ==> n == size - 7
    ensures size == 7 ==> n == 0
  {
    MinVal(U32(U32(size - 8) + 1), bufN)
  }

  /** Groups of eight samples after the header sample: they start at 1, 9, ...
      while the start is below n. */
  function Groups(n: nat): nat
  {
    (n + 6) / 8
  }

  /** MOIDecoder_DecodeBlockMono on the block at pos of size bytes, for a
      buffer of bufN samples, from core states stL (the channel's) and stR
      (left alone): the header sample, then the samples of the first n - 1
      codes, n = MonoCount(size, bufN). Reading past the end of data fails with
      INSUFFICIENT_DATA; a step-size index beyond the table fails with
      INVALID_FORMAT before it is stored; a nonzero reserved byte fails with
      INVALID_FORMAT once the header is stored. */
  function UnpackMono(stL: DecoderState, stR: DecoderState, data: seq<u8>, pos: nat, size: u32, bufN: u32): (u: Unpacked)
    requires bufN >= 1
    ensures u.err == ErrOk || u.err == ErrInvalidFormat || u.err == ErrInsufficientData
    ensures u.right == [] && u.stR == stR
    ensures u.err != ErrOk ==> u.count == 0 && u.left == []
    ensures pos + 4 <= |data| && data[pos + 3] != 0 ==> u.err == ErrInvalidFormat
    ensures u.err == ErrOk ==>
      && pos + 4 + u.count / 2 <= |data|
      && data[pos + 3] == 0
      && u.count == MonoCount(size, bufN) && |u.left| == u.count
      && u.left[0] == HeaderSample(data, pos)
  {
    var n := MonoCount(size, bufN);
    if |data| < pos + 4 then Unpacked(ErrInsufficientData, 0, [], [], stL, stR)
    else if data[pos + 2] > 88 then Unpacked(ErrInvalidFormat, 0, [], [], stL, stR)
    else
      var h := DecoderState(HeaderSample(data, pos), data[pos + 2]);
      if data[pos + 3] != 0 then Unpacked(ErrInvalidFormat, 0, [], [], h, stR)
      else if |data| < pos + 4 + n / 2 then Unpacked(ErrInsufficientData, 0, [], [], h, stR)
      else
        var d := Decode(h, MonoNibbles(data[pos + 4..pos + 4 + n / 2])[..n - 1]);
        Unpacked(ErrOk, n, [h.sampleVal] + d.samples, [], d.state, stR)
  }

  /** MOIDecoder_DecodeBlockStereo on the block at pos of size bytes, for a
      buffer of bufN samples: per channel the header sample, then the samples of
      the first n - 1 of the codes in the Groups(n) words of the channel,
      n = StereoCount(size, bufN); the state after all of them. The header
      sample is written even when n is 0. The two block headers are checked
      first, channel by channel, as for UnpackMono; a block whose codes run
      past the data fails after them. */
  function UnpackStereo(stL: DecoderState, stR: DecoderState, data: seq<u8>, pos: nat, size: u32, bufN: u32): (u: Unpacked)
    ensures u.err == ErrOk || u.err == ErrInvalidFormat || u.err == ErrInsufficientData
    ensures u.err != ErrOk ==> u.count == 0 && u.left == [] && u.right == []
    ensures pos + 8 <= |data| && (data[pos + 3] != 0 || data[pos + 7] != 0) ==> u.err == ErrInvalidFormat
    ensures u.err == ErrOk ==>
      && pos + 8 + 8 * Groups(u.count) <= |data|
      && data[pos + 3] == 0 && data[pos + 7] == 0
      && u.count == StereoCount(size, bufN)
      && |u.left| == |u.right| == MaxVal(u.count, 1)
      && u.left[0] == HeaderSample(data, pos) && u.right[0] == HeaderSample(data, pos + 4)
  {
    var n := StereoCount(size, bufN);
    var g := Groups(n);
    if |data| < pos + 8 then Unpacked(ErrInsufficientData, 0, [], [], stL, stR)
    else if data[pos + 2] > 88 then Unpacked(ErrInvalidFormat, 0, [], [], stL, stR)
    else
      var hl := DecoderState(HeaderSample(data, pos), data[pos + 2]);
      if data[pos + 3] != 0 then Unpacked(ErrInvalidFormat, 0, [], [], hl, stR)
      else if data[pos + 6] > 88 then Unpacked(ErrInvalidFormat, 0, [], [], hl, stR)
      else
        var hr := DecoderState(HeaderSample(data, pos + 4), data[pos + 6]);
        if data[pos + 7] != 0 then Unpacked(ErrInvalidFormat, 0, [], [], hl, hr)
        else if |data| < pos + 8 + 8 * g then Unpacked(ErrInsufficientData, 0, [], [], hl, hr)
        else
          var m := MaxVal(n, 1) - 1;
          var dl := Decode(hl, StereoNibbles(data, pos + 8, 0, g));
          var dr := Decode(hr, StereoNibbles(data, pos + 8, 1, g));
          Unpacked(ErrOk, n, [hl.sampleVal] + dl.samples[..m], [hr.sampleVal] + dr.samples[..m], dl.state, dr.state)
  }

  /** MOIDecoder_DecodeBlock: INSUFFICIENT_BUFFER when the buffer has fewer
      channels than the header, then the unpacker of the header's channel
      count, INVALID_FORMAT for any other count. */
  function UnpackBlock(ch: nat, bufferChannels: nat, stL: DecoderState, stR: DecoderState,
                       data: seq<u8>, pos: nat, size: u32, bufN: u32): (u: Unpacked)
    requires bufN >= 1
    ensures u.err != ErrOk ==> u.count == 0
    ensures ch == 1 ==> u.right == [] && u.stR == stR
    ensures |u.left| <= bufN && |u.right| <= bufN && u.count <= bufN
    ensures u.err == ErrOk ==> u.count >= 1 || size > 0
  {
    if bufferChannels < ch then Unpacked(ErrInsufficientBuffer, 0, [], [], stL, stR)
    else if ch == 1 then UnpackMono(stL, stR, data, pos, size, bufN)
    else if ch == 2 then UnpackStereo(stL, stR, data, pos, size, bufN)
    else Unpacked(ErrInvalidFormat, 0, [], [], stL, stR)
  }

  // ---------------------------------------------------------------------------
  // Block decoders
  // ---------------------------------------------------------------------------

  /** row with the part from at on replaced by xs, one sample after the
      other; row itself when xs does not fit. */
  function Overwrite(row: seq<i16>, at: nat, xs: seq<i16>): (r: seq<i16>)
    ensures |r| == |row|
    decreases |xs|
  {
    if |xs| == 0 || at + |xs| > |row| then row
    else Overwrite(row, at, xs[..|xs| - 1])[at + |xs| - 1 := xs[|xs| - 1]]
  }

  /** Writing nothing changes nothing. */
  lemma OverwriteNothing(row: seq<i16>, at: nat)
    ensures Overwrite(row, at, []) == row
  {
  }

  /** Writing the sample after an overwritten part extends the part. */
  lemma OverwriteNext(row: seq<i16>, at: nat, xs: seq<i16>, x: i16)
    requires at + |xs| < |row|
    ensures Overwrite(row, at, xs)[at + |xs| := x] == Overwrite(row, at, xs + [x])
  {
    assert (xs + [x])[..|xs|] == xs;
  }

  /** What Overwrite leaves: row before at and after the written part, xs in between. */
  lemma {:induction false} OverwriteParts(row: seq<i16>, at: nat, xs: seq<i16>)
    requires at + |xs| <= |row|
    ensures Overwrite(row, at, xs) == row[..at] + xs + row[at + |xs|..]
    decreases |xs|
  {
    if |xs| > 0 {
      var ys := xs[..|xs| - 1];
      OverwriteParts(row, at, ys);
      assert xs == ys + [xs[|xs| - 1]];
    }
  }

  /** The state after steps i and its sample, from the core decoder. */
  method DecodeAt(core: CoreDecoder, nibble: Nibble, ghost sts: seq<DecoderState>, ghost ns: seq<Nibble>, ghost i: nat)
    returns (sample: i16)
    requires DecodeSteps(sts, ns) && i < |ns| && ns[i] == nibble && core.State() == sts[i]
    modifies core
    ensures core.State() == sts[i + 1] && sample == sts[i + 1].sampleVal
  {
    sample := core.DecodeSample(nibble);
    assert DecodeStep(sts[i], ns[i]) == sts[i + 1];
  }

  /** Decode code i into column col + i + 1 of out, after the samples of steps 0..i. */
  method DecodeInto(core: CoreDecoder, nibble: Nibble, out: array<i16>, col: nat,
                    ghost before: seq<i16>, ghost sts: seq<DecoderState>, ghost ns: seq<Nibble>, i: nat)
    requires DecodeSteps(sts, ns) && i < |ns| && ns[i] == nibble && core.State() == sts[i]
    requires col + i + 1 < out.Length == |before|
    requires out[..] == Overwrite(before, col, Samples(sts, i + 1))
    modifies core, out
    ensures core.State() == sts[i + 1]
    ensures out[..] == Overwrite(before, col, Samples(sts, i + 2))
  {
    var sample := DecodeAt(core, nibble, sts, ns, i);
    OverwriteNext(before, col, Samples(sts, i + 1), sample);
    out[col + i + 1] := sample;
  }

  /** Byte j of the mono block data at start holds codes 2j and 2j + 1 of a
      block of n samples. */
  lemma MonoPairAt(data: seq<u8>, start: nat, n: nat, j: nat)
    requires 1 <= n && start + n / 2 <= |data| && 2 * j < n - 1
    ensures MonoNibbles(data[start..start + n / 2])[..n - 1][2 * j] == data[start + j] % 16
    ensures 2 * j + 1 < n - 1 ==> MonoNibbles(data[start..start + n / 2])[..n - 1][2 * j + 1] == data[start + j] / 16
  {
    MonoNibblesAt(data[start..start + n / 2], j);
  }

  /** Decode both codes of a mono data byte, codes k and k + 1, into their columns. */
  method DecodeMonoByte(core: CoreDecoder, b: u8, out: array<i16>, col: nat,
                        ghost before: seq<i16>, ghost sts: seq<DecoderState>, ghost ns: seq<Nibble>, k: nat)
    requires DecodeSteps(sts, ns) && k + 1 < |ns| && ns[k] == b % 16 && ns[k + 1] == b / 16
    requires core.State() == sts[k] && col + k + 2 < out.Length == |before|
    requires out[..] == Overwrite(before, col, Samples(sts, k + 1))
    modifies core, out
    ensures core.State() == sts[k + 2]
    ensures out[..] == Overwrite(before, col, Samples(sts, k + 3))
  {
    DecodeInto(core, b % 16, out, col, before, sts, ns, k);
    DecodeInto(core, b / 16, out, col, before, sts, ns, k + 1);
  }

  /** The samples of the first smpl states are in out from column col on,
      and the core decoder is in the last of them. */
  ghost predicate MonoDecoded(core: CoreDecoder, out: array<i16>, col: nat, before: seq<i16>,
                              sts: seq<DecoderState>, smpl: nat)
    reads core, out
  {
    1 <= smpl <= |sts| && core.State() == sts[smpl - 1] && out[..] == Overwrite(before, col, Samples(sts, smpl))
  }

  /** One pass of the loop over the full data bytes of a mono block: the byte
      at readPos holds the codes of samples smpl and smpl + 1. */
  method DecodeMonoPair(core: CoreDecoder, data: seq<u8>, start: nat, n: u32, out: array<i16>, col: nat,
                        readPos: nat, smpl: nat,
                        ghost before: seq<i16>, ghost sts: seq<DecoderState>, ghost ns: seq<Nibble>)
    requires 1 <= n && start + n / 2 <= |data| && col + n <= out.Length == |before|
    requires ns == MonoNibbles(data[start..start + n / 2])[..n - 1] && DecodeSteps(sts, ns)
    requires start <= readPos && smpl == 2 * (readPos - start) + 1 && smpl + 2 < n
    requires MonoDecoded(core, out, col, before, sts, smpl)
    modifies core, out
    ensures MonoDecoded(core, out, col, before, sts, smpl + 2)
  {
    var b := data[readPos];
    MonoPairAt(data, start, n, readPos - start);
    DecodeMonoByte(core, b, out, col, before, sts, ns, smpl - 1);
  }

  /** The loop over the full data bytes of a mono block: it stops with at most
      two samples to go, at the byte that holds them. The source's bound
      smpl < n - 2 is computed in 32 bits and wraps when n <= 1; smpl + 2 < n
      is the bound it means. */
  method DecodeMonoPairs(core: CoreDecoder, data: seq<u8>, start: nat, n: u32, out: array<i16>, col: nat,
                         ghost before: seq<i16>, ghost sts: seq<DecoderState>, ghost ns: seq<Nibble>)
    returns (smpl: nat, readPos: nat)
    requires 1 <= n && start + n / 2 <= |data| && col + n <= out.Length == |before|
    requires ns == MonoNibbles(data[start..start + n / 2])[..n - 1] && DecodeSteps(sts, ns)
    requires MonoDecoded(core, out, col, before, sts, 1)
    modifies core, out
    ensures smpl == 2 * (readPos - start) + 1 && start <= readPos && smpl <= n <= smpl + 2
    ensures MonoDecoded(core, out, col, before, sts, smpl)
  {
    smpl, readPos := 1, start;
    while MonoPairGuard(n, smpl)
      invariant start <= readPos && smpl == 2 * (readPos - start) + 1 && smpl <= n
      decreases n - smpl
      invariant MonoDecoded(core, out, col, before, sts, smpl)
    {
      DecodeMonoPair(core, data, start, n, out, col, readPos, smpl, before, sts, ns);
      readPos, smpl := readPos + 1, smpl + 2;
    }
  }

  /** The guard of MOIDecoder_DecodeBlockMono's loop over pairs as written:
      smpl < n - 2, the subtraction in 32 bits. */
  predicate MonoPairGuardAsWritten(n: u32, smpl: nat)
  {
    smpl < U32(n - 2)
  }

  /** As written, a block that yields one sample (a block of only its header,
      or a buffer of one sample) passes the guard at smpl = 1: n - 2 wraps to
      0xFFFFFFFF, and the first pass writes samples 1 and 2 of a count of 1. */
  lemma MonoPairGuardAsWrittenOverruns(size: u32, bufN: u32)
    requires 1 <= bufN && (size == 4 || bufN == 1)
    ensures MonoCount(size, bufN) == 1
    ensures U32(MonoCount(size, bufN) - 2) == 0xFFFF_FFFF
    ensures MonoPairGuardAsWritten(MonoCount(size, bufN), 1) && 1 + 1 >= MonoCount(size, bufN)
  {
  }

  /** The guard the model uses: smpl + 2 < n, without wrap-around. */
  predicate MonoPairGuard(n: u32, smpl: nat)
  {
    smpl + 2 < n
  }

  /** The corrected guard agrees with the source's whenever n - 2 does not
      wrap, and a pass it admits writes samples smpl and smpl + 1 within the count. */
  lemma MonoPairGuardCorrected(n: u32, smpl: nat)
    ensures n >= 2 ==> (MonoPairGuard(n, smpl) <==> MonoPairGuardAsWritten(n, smpl))
    ensures MonoPairGuard(n, smpl) ==> smpl + 1 < n
  {
  }

  /** The last byte of a mono block: its one or two remaining samples. The
      source reads the byte even when no sample is left; here it is read only
      when one is. */
  method DecodeMonoTail(core: CoreDecoder, data: seq<u8>, start: nat, n: u32, out: array<i16>, col: nat,
                        smpl: nat, readPos: nat,
                        ghost before: seq<i16>, ghost sts: seq<DecoderState>, ghost ns: seq<Nibble>)
    requires 1 <= n && start + n / 2 <= |data| && col + n <= out.Length == |before|
    requires ns == MonoNibbles(data[start..start + n / 2])[..n - 1] && DecodeSteps(sts, ns)
    requires smpl == 2 * (readPos - start) + 1 && start <= readPos && smpl <= n <= smpl + 2
    requires MonoDecoded(core, out, col, before, sts, smpl)
    modifies core, out
    ensures core.State() == sts[n - 1] && out[..] == Overwrite(before, col, Samples(sts, n))
  {
    if smpl < n {
      var b := data[readPos];
      MonoPairAt(data, start, n, readPos - start);
      DecodeInto(core, b % 16, out, col, before, sts, ns, smpl - 1);
      if smpl + 1 < n {
        DecodeInto(core, b / 16, out, col, before, sts, ns, smpl);
      }
    }
  }

  /** The samples of a mono block after its header: the header sample into
      column col, then the samples of the first n - 1 codes of the data at start. */
  method DecodeMonoSamples(core: CoreDecoder, data: seq<u8>, start: nat, n: u32, out: array<i16>, col: nat,
                           ghost h: DecoderState, ghost before: seq<i16>, ghost d: Decoding)
    requires 1 <= n && start + n / 2 <= |data| && col + n <= out.Length
    requires core.State() == h && out[..] == before
    requires d == Decode(h, MonoNibbles(data[start..start + n / 2])[..n - 1])
    modifies core, out
    ensures core.State() == d.state && out[..] == Overwrite(before, col, [h.sampleVal] + d.samples)
  {
    ghost var ns := MonoNibbles(data[start..start + n / 2])[..n - 1];
    ghost var sts := DecodeStepsOf(core.State(), ns);
    OverwriteNext(before, col, [], core.sampleVal);
    out[col] := core.sampleVal;
    assert Samples(sts, 1) == [sts[0].sampleVal];
    var smpl, readPos := DecodeMonoPairs(core, data, start, n, out, col, before, sts, ns);
    DecodeMonoTail(core, data, start, n, out, col, smpl, readPos, before, sts, ns);
    RunDone(sts, ns, d);
  }

  /** A recorded run of all the codes ends where decoding them does and
      holds the first sample and every decoded one. */
  lemma RunDone(sts: seq<DecoderState>, ns: seq<Nibble>, d: Decoding)
    requires DecodeSteps(sts, ns) && d == Decode(sts[0], ns)
    ensures d.state == sts[|ns|] && [sts[0].sampleVal] + d.samples == Samples(sts, |ns| + 1)
  {
    DecodeRow(sts, ns, |ns|);
    assert d.samples[..|ns|] == d.samples;
  }

  /** MOIDecoder_DecodeBlockMono: decode the block of size bytes at pos into
      out from column col, for a buffer of bufN samples, as UnpackMono says.
      Nothing changes on INSUFFICIENT_DATA or an index beyond the table; on a
      nonzero reserved byte only the core state has changed, to the header. */
  method DecodeBlockMono(core: CoreDecoder, data: seq<u8>, pos: nat, size: u32, out: array<i16>, col: nat, bufN: u32)
    returns (err: Error, count: u32)
    requires 1 <= bufN && col + bufN <= out.Length
    modifies core, out
    ensures var u := UnpackMono(old(core.State()), old(core.State()), data, pos, size, bufN);
      && err == u.err && count as int == u.count && core.State() == u.stL
      && out[..] == Overwrite(old(out[..]), col, u.left)
  {
    ghost var st, before := core.State(), out[..];
    var n := MonoCount(size, bufN);
    if |data| < pos + 4 {
      return ErrInsufficientData, 0;
    }
    var sample := HeaderSample(data, pos);
    var idx := data[pos + 2];
    if idx > 88 {
      return ErrInvalidFormat, 0;
    }
    core.sampleVal, core.stepsizeIndex := sample, idx;
    if data[pos + 3] != 0 {
      return ErrInvalidFormat, 0;
    }
    if |data| < pos + 4 + n / 2 {
      return ErrInsufficientData, 0;
    }
    DecodeMonoBody(core, data, pos, size, out, col, bufN, n, st, before);
    return ErrOk, n;
  }

  /** The samples of a mono block whose header is valid and has been loaded
      into the core decoder; st and before are the state and the output before
      the header was read. */
  method DecodeMonoBody(core: CoreDecoder, data: seq<u8>, pos: nat, size: u32, out: array<i16>, col: nat, bufN: u32,
                        n: u32, ghost st: DecoderState, ghost before: seq<i16>)
    requires n == MonoCount(size, bufN) && 1 <= n && col + n <= out.Length && out[..] == before
    requires pos + 4 + n / 2 <= |data| && data[pos + 2] <= 88 && data[pos + 3] == 0
    requires core.State() == DecoderState(HeaderSample(data, pos), data[pos + 2])
    modifies core, out
    ensures var u := UnpackMono(st, st, data, pos, size, bufN);
      u.err == ErrOk && core.State() == u.stL && out[..] == Overwrite(before, col, u.left)
  {
    ghost var h := core.State();
    ghost var d := Decode(h, MonoNibbles(data[pos + 4..pos + 4 + n / 2])[..n - 1]);
    DecodeMonoSamples(core, data, pos + 4, n, out, col, h, before, d);
    UnpackMonoOk(st, data, pos, size, bufN, n, col, h, d, before, out[..]);
  }

  /** UnpackMono on a block that fits and has a valid header. */
  lemma UnpackMonoOk(st: DecoderState, data: seq<u8>, pos: nat, size: u32, bufN: u32, n: u32, col: nat,
                     h: DecoderState, d: Decoding, before: seq<i16>, after: seq<i16>)
    requires 1 <= bufN && n == MonoCount(size, bufN) && pos + 4 + n / 2 <= |data|
    requires data[pos + 2] <= 88 && data[pos + 3] == 0
    requires h == DecoderState(HeaderSample(data, pos), data[pos + 2])
    requires d == Decode(h, MonoNibbles(data[pos + 4..pos + 4 + n / 2])[..n - 1])
    requires after == Overwrite(before, col, [h.sampleVal] + d.samples)
    ensures var u := UnpackMono(st, st, data, pos, size, bufN);
      u.err == ErrOk && d.state == u.stL && after == Overwrite(before, col, u.left)
  {
    assert MonoCount(size, bufN) == n && !(|data| < pos + 4) && !(data[pos + 2] > 88) && data[pos + 3] == 0;
    assert !(|data| < pos + 4 + n / 2);
    assert UnpackMono(st, st, data, pos, size, bufN) == Unpacked(ErrOk, n, [h.sampleVal] + d.samples, [], d.state, st);
  }

  /** The eight samples of a stereo word's codes, decoded as group j of a channel. */
  method DecodeWord(core: CoreDecoder, w: u32, ghost sts: seq<DecoderState>, ghost ns: seq<Nibble>, ghost j: nat)
    returns (buf: seq<i16>)
    requires DecodeSteps(sts, ns) && 8 * j + 8 <= |ns| && ns[8 * j..8 * j + 8] == WordNibbles(w)
    requires core.State() == sts[8 * j]
    modifies core
    ensures core.State() == sts[8 * j + 8]
    ensures |buf| == 8 && forall k :: 0 <= k < 8 ==> buf[k] == sts[8 * j + 1 + k].sampleVal
  {
    forall k | 0 <= k < 8
      ensures ns[8 * j + k] == WordNibble(w, k)
    {
      assert ns[8 * j + k] == ns[8 * j..8 * j + 8][k];
    }
    var b0 := DecodeAt(core, WordNibble(w, 0), sts, ns, 8 * j);
    var b1 := DecodeAt(core, WordNibble(w, 1), sts, ns, 8 * j + 1);
    var b2 := DecodeAt(core, WordNibble(w, 2), sts, ns, 8 * j + 2);
    var b3 := DecodeAt(core, WordNibble(w, 3), sts, ns, 8 * j + 3);
    var b4 := DecodeAt(core, WordNibble(w, 4), sts, ns, 8 * j + 4);
    var b5 := DecodeAt(core, WordNibble(w, 5), sts, ns, 8 * j + 5);
    var b6 := DecodeAt(core, WordNibble(w, 6), sts, ns, 8 * j + 6);
    var b7 := DecodeAt(core, WordNibble(w, 7), sts, ns, 8 * j + 7);
    buf := [b0, b1, b2, b3, b4, b5, b6, b7];
  }

  /** Copy the samples of a word from column smpl on, as long as they are below n. */
  method CopyWord(buf: seq<i16>, out: array<i16>, col: nat, smpl: nat, n: nat,
                  ghost before: seq<i16>, ghost sts: seq<DecoderState>)
    requires |buf| == 8 && smpl + 8 <= |sts| && forall k :: 0 <= k < 8 ==> buf[k] == sts[smpl + k].sampleVal
    requires smpl < n && col + n <= out.Length == |before|
    requires out[..] == Overwrite(before, col, Samples(sts, smpl))
    modifies out
    ensures out[..] == Overwrite(before, col, Samples(sts, MinVal(smpl + 8, n)))
  {
    var smp, s := 0, smpl;
    while smp < 8 && s < n
      invariant 0 <= smp <= 8 && s == smpl + smp <= n
      invariant out[..] == Overwrite(before, col, Samples(sts, s))
    {
      CopySample(out, col, s, buf[smp], before, sts);
      smp, s := smp + 1, s + 1;
    }
    assert s == MinVal(smpl + 8, n);
  }

  /** Write the sample of state k into column col + k, extending the written samples by one. */
  method CopySample(out: array<i16>, col: nat, k: nat, x: i16, ghost before: seq<i16>, ghost sts: seq<DecoderState>)
    requires k < |sts| && x == sts[k].sampleVal && col + k < out.Length == |before|
    requires out[..] == Overwrite(before, col, Samples(sts, k))
    modifies out
    ensures out[..] == Overwrite(before, col, Samples(sts, k + 1))
  {
    OverwriteNext(before, col, Samples(sts, k), x);
    out[col + k] := x;
  }

  /** One channel of one group of stereo data: decode the channel's word at
      readPos and copy the samples that are below n. */
  method DecodeChannelWord(core: CoreDecoder, data: seq<u8>, readPos: nat, out: array<i16>, col: nat, smpl: nat, n: nat,
                           ghost before: seq<i16>, ghost sts: seq<DecoderState>, ghost ns: seq<Nibble>, ghost j: nat)
    requires DecodeSteps(sts, ns) && 8 * j + 8 <= |ns| && smpl == 8 * j + 1 && core.State() == sts[8 * j]
    requires readPos + 4 <= |data| && ns[8 * j..8 * j + 8] == WordNibbles(GetLe32(data, readPos))
    requires smpl < n && col + n <= out.Length == |before|
    requires out[..] == Overwrite(before, col, Samples(sts, smpl))
    modifies core, out
    ensures core.State() == sts[8 * j + 8]
    ensures out[..] == Overwrite(before, col, Samples(sts, MinVal(smpl + 8, n)))
  {
    var w := GetLe32(data, readPos);
    var buf := DecodeWord(core, w, sts, ns, j);
    CopyWord(buf, out, col, smpl, n, before, sts);
  }

  /** What the group loop of a stereo block needs of both channels. */
  ghost predicate StereoChannel(core: CoreDecoder, data: seq<u8>, start: nat, c: nat, g: nat, out: array<i16>, col: nat,
                                before: seq<i16>, sts: seq<DecoderState>, ns: seq<Nibble>, j: nat, written: nat)
    reads core, out
  {
    && c < 2 && start + 8 * g <= |data| && j <= g
    && ns == StereoNibbles(data, start, c, g) && DecodeSteps(sts, ns)
    && core.State() == sts[8 * j] && written <= |sts|
    && |before| == out.Length && out[..] == Overwrite(before, col, Samples(sts, written))
  }

  /** Channel c of group j of stereo data, the group that starts at column
      smpl = 8j + 1: its word is at start + 8j + 4c. */
  method DecodeChannelGroup(core: CoreDecoder, data: seq<u8>, start: nat, c: nat, g: nat, out: array<i16>, col: nat,
                            readPos: nat, smpl: nat, n: nat, ghost before: seq<i16>, ghost sts: seq<DecoderState>, ghost ns: seq<Nibble>,
                            ghost j: nat)
    requires StereoChannel(core, data, start, c, g, out, col, before, sts, ns, j, smpl)
    requires smpl == 8 * j + 1 && readPos == start + 8 * j + 4 * c && smpl < n && n <= 8 * g + 1 && col + n <= out.Length
    modifies core, out
    ensures StereoChannel(core, data, start, c, g, out, col, before, sts, ns, j + 1, MinVal(smpl + 8, n))
  {
    StereoWordAt(data, start, c, g, j);
    DecodeChannelWord(core, data, readPos, out, col, smpl, n, before, sts, ns, j);
  }

  /** The group loop of MOIDecoder_DecodeBlockStereo: groups of eight samples
      from column 1 while the group's first column is below n, each group the
      left word, then the right word. */
  method DecodeStereoGroups(left: CoreDecoder, right: CoreDecoder, data: seq<u8>, start: nat, n: u32,
                            out0: array<i16>, out1: array<i16>, col: nat,
                            ghost b0: seq<i16>, ghost b1: seq<i16>, ghost stsL: seq<DecoderState>, ghost stsR: seq<DecoderState>,
                            ghost nsL: seq<Nibble>, ghost nsR: seq<Nibble>)
    requires left != right && out0 != out1 && col + MaxVal(n, 1) <= out0.Length && col + MaxVal(n, 1) <= out1.Length
    requires StereoChannel(left, data, start, 0, Groups(n), out0, col, b0, stsL, nsL, 0, 1)
    requires StereoChannel(right, data, start, 1, Groups(n), out1, col, b1, stsR, nsR, 0, 1)
    modifies left, right, out0, out1
    ensures StereoChannel(left, data, start, 0, Groups(n), out0, col, b0, stsL, nsL, Groups(n), MaxVal(n, 1))
    ensures StereoChannel(right, data, start, 1, Groups(n), out1, col, b1, stsR, nsR, Groups(n), MaxVal(n, 1))
  {
    var smpl, readPos := 1, start;
    ghost var j := 0;
    while smpl < n
      invariant smpl == 8 * j + 1 && readPos == start + 8 * j
      invariant StereoChannel(left, data, start, 0, Groups(n), out0, col, b0, stsL, nsL, j, MinVal(smpl, MaxVal(n, 1)))
      invariant StereoChannel(right, data, start, 1, Groups(n), out1, col, b1, stsR, nsR, j, MinVal(smpl, MaxVal(n, 1)))
      invariant smpl >= n ==> j == Groups(n)
    {
      DecodeChannelGroup(left, data, start, 0, Groups(n), out0, col, readPos, smpl, n, b0, stsL, nsL, j);
      DecodeChannelGroup(right, data, start, 1, Groups(n), out1, col, readPos + 4, smpl, n, b1, stsR, nsR, j);
      smpl, readPos, j := smpl + 8, readPos + 8, j + 1;
    }
  }

  /** The header sample of channel c into column col, before the group loop. */
  method StartChannel(core: CoreDecoder, data: seq<u8>, start: nat, c: nat, g: nat, out: array<i16>, col: nat)
    returns (ghost before: seq<i16>, ghost sts: seq<DecoderState>, ghost ns: seq<Nibble>)
    requires c < 2 && start + 8 * g <= |data| && col < out.Length
    modifies out
    ensures StereoChannel(core, data, start, c, g, out, col, before, sts, ns, 0, 1)
    ensures before == old(out[..]) && sts[0] == core.State()
  {
    before := out[..];
    ns := StereoNibbles(data, start, c, g);
    sts := DecodeStepsOf(core.State(), ns);
    OverwriteNext(before, col, [], core.sampleVal);
    out[col] := core.sampleVal;
    assert Samples(sts, 1) == [sts[0].sampleVal];
  }

  /** The samples of a stereo block after its header: each header sample into
      column col, then per channel the samples of the first n - 1 of its codes in
      the Groups(n) words of the data at start. Both channels decode all their
      codes, whatever n. */
  method DecodeStereoSamples(left: CoreDecoder, right: CoreDecoder, data: seq<u8>, start: nat, n: u32,
                             out0: array<i16>, out1: array<i16>, col: nat)
    requires left != right && out0 != out1 && start + 8 * Groups(n) <= |data|
    requires col + MaxVal(n, 1) <= out0.Length && col + MaxVal(n, 1) <= out1.Length
    modifies left, right, out0, out1
    ensures var m := MaxVal(n, 1) - 1;
      var dl := Decode(old(left.State()), StereoNibbles(data, start, 0, Groups(n)));
      var dr := Decode(old(right.State()), StereoNibbles(data, start, 1, Groups(n)));
      && left.State() == dl.state && right.State() == dr.state
      && out0[..] == Overwrite(old(out0[..]), col, [old(left.sampleVal)] + dl.samples[..m])
      && out1[..] == Overwrite(old(out1[..]), col, [old(right.sampleVal)] + dr.samples[..m])
  {
    ghost var b0, stsL, nsL := StartChannel(left, data, start, 0, Groups(n), out0, col);
    ghost var b1, stsR, nsR := StartChannel(right, data, start, 1, Groups(n), out1, col);
    DecodeStereoGroups(left, right, data, start, n, out0, out1, col, b0, b1, stsL, stsR, nsL, nsR);
    ChannelDone(stsL, nsL, MaxVal(n, 1) - 1, b0, col, out0[..]);
    ChannelDone(stsR, nsR, MaxVal(n, 1) - 1, b1, col, out1[..]);
  }

  /** A row holding the samples of the first m + 1 states of a recorded run
      holds the start's sample and the first m samples of the run's decoding. */
  lemma ChannelDone(sts: seq<DecoderState>, ns: seq<Nibble>, m: nat, before: seq<i16>, col: nat, row: seq<i16>)
    requires DecodeSteps(sts, ns) && m <= |ns| && row == Overwrite(before, col, Samples(sts, m + 1))
    ensures Decode(sts[0], ns).state == sts[|ns|]
    ensures row == Overwrite(before, col, [sts[0].sampleVal] + Decode(sts[0], ns).samples[..m])
  {
    DecodeRow(sts, ns, m);
  }

  /** MOIDecoder_DecodeBlockStereo: decode the block of size bytes at pos into
      out0 and out1 from column col, for buffers of bufN samples, as
      UnpackStereo says. On a header error the channel headers read so far
      have been stored and nothing has been written. */
  method DecodeBlockStereo(left: CoreDecoder, right: CoreDecoder, data: seq<u8>, pos: nat, size: u32,
                           out0: array<i16>, out1: array<i16>, col: nat, bufN: u32)
    returns (err: Error, count: u32)
    requires left != right && out0 != out1
    requires 1 <= bufN && col + bufN <= out0.Length && col + bufN <= out1.Length
    modifies left, right, out0, out1
    ensures var u := UnpackStereo(old(left.State()), old(right.State()), data, pos, size, bufN);
      && err == u.err && count as int == u.count && left.State() == u.stL && right.State() == u.stR
      && out0[..] == Overwrite(old(out0[..]), col, u.left)
      && out1[..] == Overwrite(old(out1[..]), col, u.right)
  {
    ghost var stL, stR, b0, b1 := left.State(), right.State(), out0[..], out1[..];
    var n := StereoCount(size, bufN);
    if |data| < pos + 8 {
      return ErrInsufficientData, 0;
    }
    if data[pos + 2] > 88 {
      return ErrInvalidFormat, 0;
    }
    left.sampleVal, left.stepsizeIndex := HeaderSample(data, pos), data[pos + 2];
    if data[pos + 3] != 0 {
      return ErrInvalidFormat, 0;
    }
    if data[pos + 6] > 88 {
      return ErrInvalidFormat, 0;
    }
    right.sampleVal, right.stepsizeIndex := HeaderSample(data, pos + 4), data[pos + 6];
    if data[pos + 7] != 0 {
      return ErrInvalidFormat, 0;
    }
    if |data| < pos + 8 + 8 * Groups(n) {
      return ErrInsufficientData, 0;
    }
    DecodeStereoBody(left, right, data, pos, size, out0, out1, col, bufN, n, stL, stR, b0, b1);
    return ErrOk, n;
  }

  /** The samples of a stereo block whose headers are valid and have been
      loaded into the core decoders; stL, stR, b0 and b1 are the states and
      the outputs before the headers were read. */
  method DecodeStereoBody(left: CoreDecoder, right: CoreDecoder, data: seq<u8>, pos: nat, size: u32,
                          out0: array<i16>, out1: array<i16>, col: nat, bufN: u32, n: u32,
                          ghost stL: DecoderState, ghost stR: DecoderState, ghost b0: seq<i16>, ghost b1: seq<i16>)
    requires left != right && out0 != out1 && 1 <= bufN && n == StereoCount(size, bufN)
    requires col + MaxVal(n, 1) <= out0.Length && col + MaxVal(n, 1) <= out1.Length
    requires out0[..] == b0 && out1[..] == b1
    requires pos + 8 + 8 * Groups(n) <= |data|
    requires data[pos + 2] <= 88 && data[pos + 3] == 0 && data[pos + 6] <= 88 && data[pos + 7] == 0
    requires left.State() == DecoderState(HeaderSample(data, pos), data[pos + 2])
    requires right.State() == DecoderState(HeaderSample(data, pos + 4), data[pos + 6])
    modifies left, right, out0, out1
    ensures var u := UnpackStereo(stL, stR, data, pos, size, bufN);
      && u.err == ErrOk && left.State() == u.stL && right.State() == u.stR
      && out0[..] == Overwrite(b0, col, u.left) && out1[..] == Overwrite(b1, col, u.right)
  {
    ghost var hl, hr := left.State(), right.State();
    DecodeStereoSamples(left, right, data, pos + 8, n, out0, out1, col);
    UnpackStereoOk(stL, stR, data, pos, size, bufN, n, col, hl, hr, left.State(), right.State(), b0, b1, out0[..], out1[..]);
  }

  /** UnpackStereo on a block that fits and has valid headers. */
  lemma UnpackStereoOk(stL: DecoderState, stR: DecoderState, data: seq<u8>, pos: nat, size: u32, bufN: u32, n: u32,
                       col: nat, hl: DecoderState, hr: DecoderState, el: DecoderState, er: DecoderState,
                       b0: seq<i16>, b1: seq<i16>, a0: seq<i16>, a1: seq<i16>)
    requires 1 <= bufN && n == StereoCount(size, bufN) && pos + 8 + 8 * Groups(n) <= |data|
    requires data[pos + 2] <= 88 && data[pos + 3] == 0 && data[pos + 6] <= 88 && data[pos + 7] == 0
    requires hl == DecoderState(HeaderSample(data, pos), data[pos + 2])
    requires hr == DecoderState(HeaderSample(data, pos + 4), data[pos + 6])
    requires var m := MaxVal(n, 1) - 1;
      var dl := Decode(hl, StereoNibbles(data, pos + 8, 0, Groups(n)));
      var dr := Decode(hr, StereoNibbles(data, pos + 8, 1, Groups(n)));
      && el == dl.state && er == dr.state
      && a0 == Overwrite(b0, col, [hl.sampleVal] + dl.samples[..m])
      && a1 == Overwrite(b1, col, [hr.sampleVal] + dr.samples[..m])
    ensures var u := UnpackStereo(stL, stR, data, pos, size, bufN);
      && u.err == ErrOk && el == u.stL && er == u.stR
      && a0 == Overwrite(b0, col, u.left) && a1 == Overwrite(b1, col, u.right)
  {
  }

  // ---------------------------------------------------------------------------
  // The whole-file decoder
  // ---------------------------------------------------------------------------

  /** A block unpacker: from the two core states, the block's offset, its
      size and the room left in the buffer, what decoding the block gives. */
  type BlockUnpacker = (DecoderState, DecoderState, nat, u32, u32) -> Unpacked

  /** The unpacker MOIDecoder_DecodeWhole uses: MOIDecoder_DecodeBlock for a
      header of ch channels, a buffer of bufferChannels channels and the file
      data. It is never asked for a block with no room left. */
  function ChannelUnpacker(ch: nat, bufferChannels: nat, data: seq<u8>): BlockUnpacker
  {
    (stL: DecoderState, stR: DecoderState, pos: nat, size: u32, bufN: u32) =>
      if bufN >= 1 then UnpackBlock(ch, bufferChannels, stL, stR, data, pos, size, bufN)
      else Unpacked(ErrInvalidArgument, 0, [], [], stL, stR)
  }

  /** unpack agrees with MOIDecoder_DecodeBlock wherever the block loop calls it. */
  ghost predicate UnpacksAs(unpack: BlockUnpacker, ch: nat, bufferChannels: nat, data: seq<u8>)
  {
    forall stL: DecoderState, stR: DecoderState, pos: nat, size: u32, bufN: u32
      {:trigger UnpackBlock(ch, bufferChannels, stL, stR, data, pos, size, bufN)} ::
      bufN >= 1 ==> unpack(stL, stR, pos, size, bufN) == UnpackBlock(ch, bufferChannels, stL, stR, data, pos, size, bufN)
  }

  lemma ChannelUnpackerUnpacks(ch: nat, bufferChannels: nat, data: seq<u8>)
    ensures UnpacksAs(ChannelUnpacker(ch, bufferChannels, data), ch, bufferChannels, data)
  {
  }

  /** What the block loop relies on of an unpacker, given room for at least one
      sample: it writes and reports no more samples than there is room for,
      and a successful block either has bytes or reports a sample, so the loop
      always advances. */
  ghost predicate Advances(unpack: BlockUnpacker)
  {
    forall stL: DecoderState, stR: DecoderState, pos: nat, size: u32, bufN: u32
      {:trigger unpack(stL, stR, pos, size, bufN)} ::
      bufN >= 1 ==>
        var u := unpack(stL, stR, pos, size, bufN);
        && u.count <= bufN && |u.left| <= bufN && |u.right| <= bufN
        && (u.err == ErrOk ==> u.count >= 1 || size > 0)
  }

  /** MOIDecoder_DecodeBlock keeps to the bounds the block loop relies on. */
  lemma ChannelUnpackerAdvances(ch: nat, bufferChannels: nat, data: seq<u8>)
    ensures Advances(ChannelUnpacker(ch, bufferChannels, data))
  {
    var unpack := ChannelUnpacker(ch, bufferChannels, data);
    forall stL: DecoderState, stR: DecoderState, pos: nat, size: u32, bufN: u32 | bufN >= 1
      ensures var u := unpack(stL, stR, pos, size, bufN);
        && u.count <= bufN && |u.left| <= bufN && |u.right| <= bufN
        && (u.err == ErrOk ==> u.count >= 1 || size > 0)
    {
      assert unpack(stL, stR, pos, size, bufN) == UnpackBlock(ch, bufferChannels, stL, stR, data, pos, size, bufN);
    }
  }

  /** What the block loop of MOIDecoder_DecodeWhole leaves: its result, the two
      channels' buffers and core states. */
  datatype Stream = Stream(result: ApiResult, left: seq<i16>, right: seq<i16>, stL: DecoderState, stR: DecoderState)

  /** The block loop of MOIDecoder_DecodeWhole from sample progress and byte
      offset on: while samples are due and data is left, decode a block of
      block_size bytes (fewer at the end of the data) into the buffers at
      progress, with the buffer's remaining room; stop at the first block
      error with its translated result. */
  function Unpacks(unpack: BlockUnpacker, numSamples: nat, blockSize: u16, dataLen: nat, bufferSamples: nat,
                   progress: nat, offset: nat, stL: DecoderState, stR: DecoderState,
                   rowL: seq<i16>, rowR: seq<i16>): (s: Stream)
    requires Advances(unpack) && numSamples <= bufferSamples < 0x1_0000_0000 && dataLen < 0x1_0000_0000
    ensures s.result == Ok || s.result == InvalidArgument || s.result == InvalidFormat
            || s.result == InsufficientBuffer || s.result == Ng
    ensures |s.left| == |rowL| && |s.right| == |rowR|
    decreases if progress <= numSamples then numSamples - progress else 0, if offset <= dataLen then dataLen - offset else 0
  {
    if progress >= numSamples || offset >= dataLen then Stream(Ok, rowL, rowR, stL, stR)
    else
      var size := MinVal(dataLen - offset, blockSize);
      var b := unpack(stL, stR, offset, size, bufferSamples - progress);
      var rowL' := Overwrite(rowL, progress, b.left);
      var rowR' := Overwrite(rowR, progress, b.right);
      if b.err != ErrOk then Stream(ToApiResult(b.err), rowL', rowR', b.stL, b.stR)
      else Unpacks(unpack, numSamples, blockSize, dataLen, bufferSamples, progress + b.count, offset + size,
                   b.stL, b.stR, rowL', rowR')
  }

  /** Writing xs at at leaves every cell from at + |xs| on as it was. */
  lemma OverwriteBeyond(row: seq<i16>, at: nat, xs: seq<i16>, i: nat)
    requires at + |xs| <= i < |row|
    ensures Overwrite(row, at, xs)[i] == row[i]
  {
    OverwriteParts(row, at, xs);
  }

  /** The block loop never writes a cell at or past bufferSamples in either
      channel: every block gets only the room left before it. */
  lemma {:induction false} UnpacksKeepsBeyond(unpack: BlockUnpacker, numSamples: nat, blockSize: u16, dataLen: nat,
                                              bufferSamples: nat, progress: nat, offset: nat,
                                              stL: DecoderState, stR: DecoderState, rowL: seq<i16>, rowR: seq<i16>)
    requires Advances(unpack) && numSamples <= bufferSamples < 0x1_0000_0000 && dataLen < 0x1_0000_0000
    requires progress <= bufferSamples
    ensures var s := Unpacks(unpack, numSamples, blockSize, dataLen, bufferSamples, progress, offset, stL, stR, rowL, rowR);
      && (forall i :: bufferSamples <= i < |rowL| ==> s.left[i] == rowL[i])
      && (forall i :: bufferSamples <= i < |rowR| ==> s.right[i] == rowR[i])
    decreases if progress <= numSamples then numSamples - progress else 0, if offset <= dataLen then dataLen - offset else 0
  {
    if progress < numSamples && offset < dataLen {
      var size := MinVal(dataLen - offset, blockSize);
      var b := unpack(stL, stR, offset, size, bufferSamples - progress);
      var rowL', rowR' := Overwrite(rowL, progress, b.left), Overwrite(rowR, progress, b.right);
      forall i | bufferSamples <= i < |rowL|
        ensures rowL'[i] == rowL[i]
      {
        OverwriteBeyond(rowL, progress, b.left, i);
      }
      forall i | bufferSamples <= i < |rowR|
        ensures rowR'[i] == rowR[i]
      {
        OverwriteBeyond(rowR, progress, b.right, i);
      }
      if b.err == ErrOk {
        UnpacksKeepsBeyond(unpack, numSamples, blockSize, dataLen, bufferSamples, progress + b.count, offset + size,
                           b.stL, b.stR, rowL', rowR');
      }
    }
  }

  /** The block loop from sample progress and byte offset on, for header h,
      ends as total does. */
  ghost predicate Pending(unpack: BlockUnpacker, h: Header, dataLen: nat, bufferSamples: nat, progress: nat, offset: nat,
                          stL: DecoderState, stR: DecoderState, rowL: seq<i16>, rowR: seq<i16>, total: Stream)
  {
    && Advances(unpack) && h.numSamples <= bufferSamples < 0x1_0000_0000 && dataLen < 0x1_0000_0000
    && Unpacks(unpack, h.numSamples, h.blockSize, dataLen, bufferSamples, progress, offset, stL, stR, rowL, rowR) == total
  }

  /** One block of the loop: after a block b that succeeds, the loop goes on
      from the block's end with b's states and the buffers b has written;
      after one that fails, it has ended there. */
  lemma PendingStep(unpack: BlockUnpacker, h: Header, dataLen: nat, bufferSamples: nat, progress: nat, offset: nat,
                    stL: DecoderState, stR: DecoderState, rowL: seq<i16>, rowR: seq<i16>, total: Stream, b: Unpacked,
                    progress': nat, offset': nat, rowL': seq<i16>, rowR': seq<i16>)
    requires Pending(unpack, h, dataLen, bufferSamples, progress, offset, stL, stR, rowL, rowR, total)
    requires progress < h.numSamples && offset < dataLen
    requires b == unpack(stL, stR, offset, MinVal(dataLen - offset, h.blockSize), bufferSamples - progress)
    requires progress' == progress + b.count && offset' == offset + MinVal(dataLen - offset, h.blockSize)
    requires rowL' == Overwrite(rowL, progress, b.left) && rowR' == Overwrite(rowR, progress, b.right)
    ensures progress' <= bufferSamples
    ensures b.err == ErrOk ==> progress < progress' || offset < offset'
    ensures b.err != ErrOk ==> total == Stream(ToApiResult(b.err), rowL', rowR', b.stL, b.stR)
    ensures b.err == ErrOk ==> Pending(unpack, h, dataLen, bufferSamples, progress', offset', b.stL, b.stR, rowL', rowR', total)
  {
  }

  /** The samples the block loop of MOIDecoder_DecodeWhole leaves for the
      header h read from data. */
  function DecodedStream(h: Header, bufferChannels: nat, bufferSamples: nat, data: seq<u8>,
                         stL: DecoderState, stR: DecoderState, rowL: seq<i16>, rowR: seq<i16>): (s: Stream)
    requires h.numSamples <= bufferSamples < 0x1_0000_0000 && |data| < 0x1_0000_0000
    ensures |s.left| == |rowL| && |s.right| == |rowR|
    ensures forall i :: bufferSamples <= i < |rowL| ==> s.left[i] == rowL[i]
    ensures forall i :: bufferSamples <= i < |rowR| ==> s.right[i] == rowR[i]
  {
    ChannelUnpackerAdvances(h.numChannels, bufferChannels, data);
    UnpacksKeepsBeyond(ChannelUnpacker(h.numChannels, bufferChannels, data), h.numSamples, h.blockSize, |data|,
                       bufferSamples, 0, h.headerSize, stL, stR, rowL, rowR);
    Unpacks(ChannelUnpacker(h.numChannels, bufferChannels, data), h.numSamples, h.blockSize, |data|, bufferSamples,
            0, h.headerSize, stL, stR, rowL, rowR)
  }

  /** The decoder handle: the header last read and one core decoder per channel. */
  class Decoder {
    var header: Header
    /** core_decoder[0] and core_decoder[1] */
    const left: CoreDecoder
    const right: CoreDecoder

    /** The two core decoders are distinct objects. */
    predicate Valid()
    {
      left != right
    }

    /** MOIDecoder_Create: a zeroed handle. */
    constructor ()
      ensures Valid() && fresh(left) && fresh(right)
      ensures header == ZeroHeader
      ensures left.State() == DecoderState(0, 0) && right.State() == DecoderState(0, 0)
    {
      header := ZeroHeader;
      left := new CoreDecoder();
      right := new CoreDecoder();
    }

    /** MOIDecoder_DecodeBlock: decode the block of size bytes at pos into the
        buffers from column col with room for bufN samples, as UnpackBlock
        says, with the result translated to the API's. */
    method DecodeBlock(data: seq<u8>, pos: nat, size: u32, out0: array<i16>, out1: array<i16>, col: nat,
                       bufferChannels: u32, bufN: u32)
      returns (r: ApiResult, count: u32)
      requires Valid() && out0 != out1 && 1 <= bufN && col + bufN <= out0.Length
      requires bufferChannels >= 2 ==> col + bufN <= out1.Length
      modifies left, right, out0, out1
      ensures var u := UnpackBlock(header.numChannels, bufferChannels, old(left.State()), old(right.State()),
                                   data, pos, size, bufN);
        && r == ToApiResult(u.err) && count as int == u.count
        && left.State() == u.stL && right.State() == u.stR
        && out0[..] == Overwrite(old(out0[..]), col, u.left) && out1[..] == Overwrite(old(out1[..]), col, u.right)
    {
      if bufferChannels < header.numChannels {
        OverwriteNothing(out0[..], col);
        OverwriteNothing(out1[..], col);
        return InsufficientBuffer, 0;
      }
      var err: Error;
      if header.numChannels == 1 {
        err, count := DecodeBlockMono(left, data, pos, size, out0, col, bufN);
        OverwriteNothing(out1[..], col);
      } else if header.numChannels == 2 {
        err, count := DecodeBlockStereo(left, right, data, pos, size, out0, out1, col, bufN);
      } else {
        OverwriteNothing(out0[..], col);
        OverwriteNothing(out1[..], col);
        return InvalidFormat, 0;
      }
      if err != ErrOk {
        return ToApiResult(err), 0;
      }
      r := Ok;
    }

    /** The block loop of MOIDecoder_DecodeWhole for the header already read,
        proved against Unpacks for any unpacker that agrees with DecodeBlock. */
    method DecodeBlocks(data: seq<u8>, buffer0: array<i16>, buffer1: array<i16>, bufferChannels: u32, bufferSamples: u32,
                        ghost unpack: BlockUnpacker)
      returns (r: ApiResult)
      requires Valid() && buffer0 != buffer1 && |data| < 0x1_0000_0000
      requires header.numChannels <= bufferChannels && header.numSamples <= bufferSamples
      requires bufferSamples <= buffer0.Length && (bufferChannels >= 2 ==> bufferSamples <= buffer1.Length)
      requires UnpacksAs(unpack, header.numChannels, bufferChannels, data) && Advances(unpack)
      modifies left, right, buffer0, buffer1
      ensures var s := Unpacks(unpack, header.numSamples, header.blockSize, |data|, bufferSamples, 0, header.headerSize,
                               old(left.State()), old(right.State()), old(buffer0[..]), old(buffer1[..]));
        && r == s.result && left.State() == s.stL && right.State() == s.stR
        && buffer0[..] == s.left && buffer1[..] == s.right
    {
      ghost var total := Unpacks(unpack, header.numSamples, header.blockSize, |data|, bufferSamples, 0, header.headerSize,
                                 left.State(), right.State(), buffer0[..], buffer1[..]);
      var progress: nat, readOffset: nat := 0, header.headerSize;
      while progress < header.numSamples && readOffset < |data|
        invariant progress <= bufferSamples
        invariant Pending(unpack, header, |data|, bufferSamples, progress, readOffset,
                          left.State(), right.State(), buffer0[..], buffer1[..], total)
        decreases if progress <= header.numSamples then header.numSamples - progress else 0,
                  if readOffset <= |data| then |data| - readOffset else 0
      {
        var result;
        result, progress, readOffset := DecodeNextBlock(data, buffer0, buffer1, bufferChannels, bufferSamples,
                                                        progress, readOffset, unpack, total);
        if result != Ok {
          return result;
        }
      }
      r := Ok;
    }

    /** One pass of the block loop, with what is left of the stream after it. */
    method DecodeNextBlock(data: seq<u8>, buffer0: array<i16>, buffer1: array<i16>, bufferChannels: u32, bufferSamples: u32,
                           progress: nat, readOffset: nat, ghost unpack: BlockUnpacker, ghost total: Stream)
      returns (result: ApiResult, progress': nat, readOffset': nat)
      requires Valid() && buffer0 != buffer1 && |data| < 0x1_0000_0000
      requires header.numChannels <= bufferChannels && header.numSamples <= bufferSamples
      requires bufferSamples <= buffer0.Length && (bufferChannels >= 2 ==> bufferSamples <= buffer1.Length)
      requires UnpacksAs(unpack, header.numChannels, bufferChannels, data) && Advances(unpack)
      requires progress < header.numSamples && readOffset < |data|
      requires Pending(unpack, header, |data|, bufferSamples, progress, readOffset,
                       left.State(), right.State(), buffer0[..], buffer1[..], total)
      modifies left, right, buffer0, buffer1
      ensures progress' <= bufferSamples
      ensures result == Ok ==> progress < progress' || (progress == progress' && readOffset < readOffset')
      ensures result != Ok ==>
        total == Stream(result, buffer0[..], buffer1[..], left.State(), right.State())
      ensures result == Ok ==>
        Pending(unpack, header, |data|, bufferSamples, progress', readOffset',
                left.State(), right.State(), buffer0[..], buffer1[..], total)
    {
      ghost var stL, stR, rowL, rowR := left.State(), right.State(), buffer0[..], buffer1[..];
      var count, size;
      result, count, size := DecodeBlockAt(data, buffer0, buffer1, bufferChannels, bufferSamples, progress, readOffset, unpack);
      ghost var b := unpack(stL, stR, readOffset, size, bufferSamples - progress);
      progress', readOffset' := progress + count, readOffset + size;
      PendingStep(unpack, header, |data|, bufferSamples, progress, readOffset, stL, stR, rowL, rowR, total, b,
                  progress', readOffset', buffer0[..], buffer1[..]);
    }

    /** The block at readOffset, of block_size
        bytes or what is left of the data, into the buffers at progress. */
    method DecodeBlockAt(data: seq<u8>, buffer0: array<i16>, buffer1: array<i16>, bufferChannels: u32, bufferSamples: u32,
                         progress: nat, readOffset: nat, ghost unpack: BlockUnpacker)
      returns (result: ApiResult, count: nat, size: u32)
      requires Valid() && buffer0 != buffer1 && |data| < 0x1_0000_0000 && readOffset < |data|
      requires header.numChannels <= bufferChannels && progress < bufferSamples
      requires bufferSamples <= buffer0.Length && (bufferChannels >= 2 ==> bufferSamples <= buffer1.Length)
      requires UnpacksAs(unpack, header.numChannels, bufferChannels, data)
      modifies left, right, buffer0, buffer1
      ensures size == MinVal(|data| - readOffset, header.blockSize)
      ensures var b := unpack(old(left.State()), old(right.State()), readOffset, size, bufferSamples - progress);
        && result == ToApiResult(b.err) && count == b.count
        && left.State() == b.stL && right.State() == b.stR
        && buffer0[..] == Overwrite(old(buffer0[..]), progress, b.left)
        && buffer1[..] == Overwrite(old(buffer1[..]), progress, b.right)
    {
      size := MinVal(|data| - readOffset, header.blockSize);
      var c;
      result, c := DecodeBlock(data, readOffset, size, buffer0, buffer1, progress, bufferChannels, bufferSamples - progress);
      count := c;
    }

    /** MOIDecoder_DecodeWhole: read the header into the handle, check that the
        buffers have room for its channels and samples, then decode the blocks
        that follow it, as DecodedStream says. A header error leaves the handle
        as it was; a short buffer keeps the new header and writes nothing. */
    method DecodeWhole(data: seq<u8>, buffer0: array<i16>, buffer1: array<i16>, bufferChannels: u32, bufferSamples: u32)
      returns (r: ApiResult)
      requires Valid() && |data| < 0x1_0000_0000 && buffer0 != buffer1
      requires bufferSamples <= buffer0.Length && (bufferChannels >= 2 ==> bufferSamples <= buffer1.Length)
      modifies this, left, right, buffer0, buffer1
      ensures Valid()
      ensures ParseHeader(data).HeaderError? ==>
        && r == ParseHeader(data).result && header == old(header)
        && left.State() == old(left.State()) && right.State() == old(right.State())
        && buffer0[..] == old(buffer0[..]) && buffer1[..] == old(buffer1[..])
      ensures ParseHeader(data).HeaderOk? && (bufferChannels < header.numChannels || bufferSamples < header.numSamples) ==>
        && r == InsufficientBuffer && header == ParseHeader(data).header
        && left.State() == old(left.State()) && right.State() == old(right.State())
        && buffer0[..] == old(buffer0[..]) && buffer1[..] == old(buffer1[..])
      ensures ParseHeader(data).HeaderOk? && bufferChannels >= header.numChannels && bufferSamples >= header.numSamples ==>
        var s := DecodedStream(header, bufferChannels, bufferSamples, data,
                               old(left.State()), old(right.State()), old(buffer0[..]), old(buffer1[..]));
        && header == ParseHeader(data).header
        && r == s.result && left.State() == s.stL && right.State() == s.stR
        && buffer0[..] == s.left && buffer1[..] == s.right
      ensures forall i :: bufferSamples <= i < buffer0.Length ==> buffer0[i] == old(buffer0[i])
      ensures forall i :: bufferSamples <= i < buffer1.Length ==> buffer1[i] == old(buffer1[i])
    {
      var h;
      r, h := DecodeHeader(data, header);
      if r != Ok {
        return;
      }
      header := h;
      if bufferChannels < header.numChannels || bufferSamples < header.numSamples {
        return InsufficientBuffer;
      }
      ChannelUnpackerUnpacks(header.numChannels, bufferChannels, data);
      ChannelUnpackerAdvances(header.numChannels, bufferChannels, data);
      r := DecodeBlocks(data, buffer0, buffer1, bufferChannels, bufferSamples,
                        ChannelUnpacker(header.numChannels, bufferChannels, data));
    }
  }
}
