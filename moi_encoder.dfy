/** The IMA-ADPCM encoder (libs/moicodec/src/moi_encoder.c): the per-channel
    sample quantiser, the mono and stereo block packers, the RIFF/WAVE header
    writer and the whole-file encoder. */
module MoiEncoder {
  import opened MoiTypes
  import opened MoiInternal
  import opened ByteArray

  /** Size of the header the encoder writes (everything before the block data). */
  const HeaderSize: nat := 60

  // ---------------------------------------------------------------------------
  // The per-channel quantiser (MOICoreEncoder)
  // ---------------------------------------------------------------------------

  /** What a core encoder remembers between samples. */
  datatype EncoderState = EncoderState(prevSample: i16, stepsizeIndex: StepIndex)

  /** The code emitted for one sample and the state after it. */
  datatype Coded = Coded(nibble: Nibble, state: EncoderState)

  /** The quantised magnitude of a difference: how many whole steps fit into
      four times the difference, saturated at 7. Written as comparisons with
      multiples of the step so that the solver's arithmetic stays linear;
      MagnitudeIsQuotient shows it is the source's min((diffabs << 2) / stepsize, 7). */
  function Magnitude(diffabs: nat, step: nat): (m: nat)
    requires step > 0
    ensures m <= 7
  {
    var x := 4 * diffabs;
    if x < step then 0
    else if x < 2 * step then 1
    else if x < 3 * step then 2
    else if x < 4 * step then 3
    else if x < 5 * step then 4
    else if x < 6 * step then 5
    else if x < 7 * step then 6
    else 7
  }

  /** The quotient and remainder of a division are the only ones. */
  lemma DivisionUnique(x: nat, step: nat, q: nat, r: nat)
    requires 0 <= r < step && x == q * step + r
    ensures x / step == q
  {
    var q', r' := x / step, x % step;
    var d := q' - q;
    assert d * step == r - r';
    if d > 0 {
      ProductAtLeast(d, step);
      assert false;
    } else if d < 0 {
      ProductAtLeast(-d, step);
      assert false;
    }
  }

  /** The magnitude is min(4 * diffabs / step, 7), as the source computes it. */
  lemma MagnitudeIsQuotient(diffabs: nat, step: nat)
    requires step > 0
    ensures Magnitude(diffabs, step) == MinVal((diffabs * 4) / step, 7)
  {
    var x := 4 * diffabs;
    if x < 7 * step {
      var m := Magnitude(diffabs, step);
      assert m * step <= x < m * step + step by {
        if m == 0 {} else if m == 1 {} else if m == 2 {} else if m == 3 {}
        else if m == 4 {} else if m == 5 {} else {}
      }
      DivisionUnique(x, step, m, x - m * step);
    } else {
      var q, r := x / step, x % step;
      assert x == q * step + r;
      if q < 7 {
        ProductAtLeast(7 - q, step);
        assert false;
      }
    }
  }

  /** One step of MOICoreEncoder_EncodeSample: quantise the difference to the
      previous reconstruction by direct division, then update the reconstruction
      and the step-size index exactly as a decoder will. */
  function EncodeStep(st: EncoderState, sample: i16): Coded
  {
    var step := StepsizeTable(st.stepsizeIndex);
    var diff := sample - st.prevSample;
    var sign := diff < 0;
    var diffabs := if sign then -diff else diff;
    assert diffabs == Distance(sample, st.prevSample);
    var magnitude := Magnitude(diffabs, step);
    var nibble := if sign then magnitude + 8 else magnitude;
    var qdiff := QuantisedDifference(step, magnitude);
    var prev := InnerVal(if sign then st.prevSample - qdiff else st.prevSample + qdiff, -32768, 32767);
    var idx := InnerVal(st.stepsizeIndex + IndexTable(nibble), 0, 88);
    Coded(nibble, EncoderState(prev, idx))
  }

  /** What one step of the quantiser means: bit 3 of the code is the sign of
      the difference to the previous reconstruction and bits 0-2 count the whole
      steps in four times that difference, saturated at 7; the reconstruction
      moves towards the sample, by at most two steps; the step-size index moves
      by the index table entry of the code, clamped to the table. */
  lemma EncodeStepMeaning(st: EncoderState, sample: i16)
    ensures EncodeStep(st, sample).nibble
            == (if sample < st.prevSample then 8 else 0)
               + Magnitude(Distance(sample, st.prevSample), StepsizeTable(st.stepsizeIndex))
    ensures EncodeStep(st, sample).nibble >= 8 ==> EncodeStep(st, sample).state.prevSample <= st.prevSample
    ensures EncodeStep(st, sample).nibble < 8 ==> EncodeStep(st, sample).state.prevSample >= st.prevSample
    ensures Distance(EncodeStep(st, sample).state.prevSample, st.prevSample) <= 2 * StepsizeTable(st.stepsizeIndex)
    ensures EncodeStep(st, sample).state.stepsizeIndex
            == InnerVal(st.stepsizeIndex + IndexTable(EncodeStep(st, sample).nibble), 0, 88)
  {
  }

  /** A core encoder: the reconstruction of the previous sample and the step-size index. */
  class CoreEncoder {
    var prevSample: i16
    var stepsizeIndex: StepIndex

    /** The zeroed state that MOIEncoder_Create leaves. */
    constructor ()
      ensures prevSample == 0 && stepsizeIndex == 0
    {
      prevSample, stepsizeIndex := 0, 0;
    }

    function State(): EncoderState
      reads this
    {
      EncoderState(prevSample, stepsizeIndex)
    }

    /** MOICoreEncoder_EncodeSample: emit the code for one sample and update the state. */
    method EncodeSample(sample: i16) returns (nibble: Nibble)
      modifies this
      ensures EncodeStep(old(State()), sample) == Coded(nibble, State())
    {
      ghost var expected := EncodeStep(State(), sample);
      var prev: int := prevSample;
      var idx: int := stepsizeIndex;
      var stepsize := StepsizeTable(idx);
      var diff := sample - prev;
      var sign := diff < 0;
      var diffabs := if sign then -diff else diff;
      assert diffabs == Distance(sample, prev);
      var magnitude := MinVal((diffabs * 4) / stepsize, 7);
      MagnitudeIsQuotient(diffabs, stepsize);
      assert magnitude == Magnitude(diffabs, stepsize);
      nibble := if sign then magnitude + 8 else magnitude;
      assert nibble == expected.nibble;
      var delta := nibble % 8;
      assert delta == magnitude;
      var qdiff := (stepsize * (2 * delta + 1)) / 8;
      QuantisedDifferenceIsQuotient(stepsize, delta);
      assert qdiff == QuantisedDifference(stepsize, magnitude);
      if sign {
        prev := prev - qdiff;
      } else {
        prev := prev + qdiff;
      }
      prevSample := InnerVal(prev, -32768, 32767);
      stepsizeIndex := InnerVal(idx + IndexTable(nibble), 0, 88);
      assert State() == expected.state;
    }
  }

  // ---------------------------------------------------------------------------
  // Encoding a run of samples
  // ---------------------------------------------------------------------------

  /** The codes and the final state of encoding xs, one sample after another,
      from the state st. */
  datatype Coding = Coding(nibbles: seq<Nibble>, state: EncoderState)

  function Encode(st: EncoderState, xs: seq<i16>): (r: Coding)
    ensures |r.nibbles| == |xs|
    decreases |xs|
  {
    if |xs| == 0 then Coding([], st)
    else
      var c := EncodeStep(st, xs[0]);
      var rest := Encode(c.state, xs[1..]);
      Coding([c.nibble] + rest.nibbles, rest.state)
  }

  /** Encoding a concatenation is encoding the first part, then the second part
      from the state the first part ends in. */
  lemma {:induction false} EncodeAppend(st: EncoderState, xs: seq<i16>, ys: seq<i16>)
    ensures Encode(st, xs + ys).nibbles == Encode(st, xs).nibbles + Encode(Encode(st, xs).state, ys).nibbles
    ensures Encode(st, xs + ys).state == Encode(Encode(st, xs).state, ys).state
    decreases |xs|
  {
    if |xs| == 0 {
      assert xs + ys == ys;
    } else {
      var c := EncodeStep(st, xs[0]);
      assert (xs + ys)[0] == xs[0];
      assert (xs + ys)[1..] == xs[1..] + ys;
      EncodeCons(st, xs, c.nibble, c.state);
      EncodeCons(st, xs + ys, c.nibble, c.state);
      EncodeAppend(c.state, xs[1..], ys);
    }
  }

  /** Encoding a sequence split at i. */
  lemma EncodeSplit(st: EncoderState, xs: seq<i16>, i: nat)
    requires i <= |xs|
    ensures Encode(st, xs).nibbles == Encode(st, xs[..i]).nibbles + Encode(Encode(st, xs[..i]).state, xs[i..]).nibbles
    ensures Encode(st, xs).state == Encode(Encode(st, xs[..i]).state, xs[i..]).state
  {
    assert xs == xs[..i] + xs[i..];
    EncodeAppend(st, xs[..i], xs[i..]);
  }

  // ---------------------------------------------------------------------------
  // Block layout
  // ---------------------------------------------------------------------------

  /** The four-byte block header of one channel: the first sample verbatim as a
      16-bit little-endian pattern, the step-size index, and a reserved zero. */
  function BlockHeader(st: EncoderState): (b: seq<u8>)
    ensures |b| == 4
  {
    Le16(I16ToU16(st.prevSample)) + [st.stepsizeIndex, 0]
  }

  /** The state a block starts from: its first sample and the carried step-size index. */
  function BlockStart(idx: StepIndex, xs: seq<i16>): EncoderState
    requires |xs| >= 1
  {
    EncoderState(xs[0], idx)
  }

  /** Two codes per byte, the earlier one in the low four bits. */
  function PackBytes(ns: seq<Nibble>): (b: seq<u8>)
    ensures |b| == |ns| / 2
  {
    if |ns| < 2 then [] else [ns[0] as int + 0x10 * ns[1] as int] + PackBytes(ns[2..])
  }

  /** How many input samples the mono packer reads for a block of n samples:
      sample 0, then pairs starting at 1, 3, ... while the pair's first index is
      below n, so an even n reads one sample past the block. */
  function MonoReadLength(n: nat): nat
  {
    1 + 2 * (n / 2)
  }

  /** The bytes of a mono block of n samples: the header, then the codes of
      samples 1 .. MonoReadLength(n) - 1 two to a byte. */
  function MonoBlock(idx: StepIndex, xs: seq<i16>, n: nat): (b: seq<u8>)
    requires MonoReadLength(n) <= |xs|
    ensures |b| == 4 + n / 2
    ensures b[..4] == BlockHeader(BlockStart(idx, xs))
  {
    var h := BlockHeader(BlockStart(idx, xs));
    var body := PackBytes(Encode(BlockStart(idx, xs), xs[1..MonoReadLength(n)]).nibbles);
    assert (h + body)[..4] == h;
    h + body
  }

  /** The core encoder's state after packing a mono block. */
  function MonoBlockEnd(idx: StepIndex, xs: seq<i16>, n: nat): EncoderState
    requires MonoReadLength(n) <= |xs|
  {
    Encode(BlockStart(idx, xs), xs[1..MonoReadLength(n)]).state
  }

  /** Number of 8-sample groups in a stereo block of n samples: the groups start
      at 1, 9, 17, ... while the start is below n. */
  function StereoGroups(n: nat): nat
  {
    (n + 6) / 8
  }

  /** How many input samples the stereo packer reads per channel for a block of
      n samples: sample 0, then whole groups of 8 (up to 7 samples past the block). */
  function StereoReadLength(n: nat): (m: nat)
    ensures m >= 1 && (m - 1) % 8 == 0
  {
    MultipleOf(StereoGroups(n), 8);
    1 + 8 * StereoGroups(n)
  }

  /** Eight codes in one 32-bit word, the first in the lowest four bits. The
      source ORs shifted codes together; their bits do not overlap, so this is
      their sum. */
  function PackWord(ns: seq<Nibble>): u32
    requires |ns| == 8
  {
    ns[0] as int + 0x10 * ns[1] as int + 0x100 * ns[2] as int + 0x1000 * ns[3] as int
      + 0x1_0000 * ns[4] as int + 0x10_0000 * ns[5] as int + 0x100_0000 * ns[6] as int
      + 0x1000_0000 * ns[7] as int
  }

  /** Stereo block data: per group of eight samples, the word of the left codes
      and then the word of the right codes, each little-endian. */
  function StereoBytes(ls: seq<Nibble>, rs: seq<Nibble>): (b: seq<u8>)
    requires |ls| == |rs| && |ls| % 8 == 0
    ensures |b| == |ls|
  {
    if |ls| == 0 then []
    else Le32(PackWord(ls[..8])) + Le32(PackWord(rs[..8])) + StereoBytes(ls[8..], rs[8..])
  }

  /** The bytes of a stereo block of n samples: both headers, then the groups. */
  function StereoBlock(lidx: StepIndex, ridx: StepIndex, left: seq<i16>, right: seq<i16>, n: nat): (b: seq<u8>)
    requires StereoReadLength(n) <= |left| && StereoReadLength(n) <= |right|
    ensures |b| == 8 + 8 * StereoGroups(n)
    ensures b[..4] == BlockHeader(BlockStart(lidx, left))
    ensures b[4..8] == BlockHeader(BlockStart(ridx, right))
  {
    var m := StereoReadLength(n);
    var body := StereoBytes(Encode(BlockStart(lidx, left), left[1..m]).nibbles,
                            Encode(BlockStart(ridx, right), right[1..m]).nibbles);
    var hl := BlockHeader(BlockStart(lidx, left));
    var hr := BlockHeader(BlockStart(ridx, right));
    assert (hl + hr + body)[..4] == hl;
    assert (hl + hr + body)[4..8] == hr;
    hl + hr + body
  }

  /** One channel's core encoder state after packing a stereo block. */
  function StereoBlockEnd(idx: StepIndex, xs: seq<i16>, n: nat): EncoderState
    requires StereoReadLength(n) <= |xs|
  {
    Encode(BlockStart(idx, xs), xs[1..StereoReadLength(n)]).state
  }

  /** Encoding a nonempty run is one step followed by the rest of the run. */
  lemma EncodeCons(st: EncoderState, zs: seq<i16>, n: Nibble, st': EncoderState)
    requires |zs| >= 1 && EncodeStep(st, zs[0]) == Coded(n, st')
    ensures Encode(st, zs).nibbles == [n] + Encode(st', zs[1..]).nibbles
    ensures Encode(st, zs).state == Encode(st', zs[1..]).state
  {
  }

  /** sts and ns record a run over xs step by step: from sts[i], sample xs[i]
      is coded as ns[i] and leads to sts[i + 1]. */
  predicate Steps(sts: seq<EncoderState>, ns: seq<Nibble>, xs: seq<i16>)
  {
    && |sts| == |xs| + 1
    && |ns| == |xs|
    && forall i {:trigger EncodeStep(sts[i], xs[i])} :: 0 <= i < |xs| ==>
         EncodeStep(sts[i], xs[i]) == Coded(ns[i], sts[i + 1])
  }

  /** A run recorded step by step is the run's encoding. */
  lemma {:induction false} EncodeBySteps(sts: seq<EncoderState>, ns: seq<Nibble>, xs: seq<i16>)
    requires Steps(sts, ns, xs)
    ensures Encode(sts[0], xs) == Coding(ns, sts[|xs|])
    decreases |xs|
  {
    if |xs| > 0 {
      assert EncodeStep(sts[0], xs[0]) == Coded(ns[0], sts[1]);
      EncodeCons(sts[0], xs, ns[0], sts[1]);
      forall i | 0 <= i < |xs[1..]|
        ensures EncodeStep(sts[1..][i], xs[1..][i]) == Coded(ns[1..][i], sts[1..][i + 1])
      {
        assert EncodeStep(sts[i + 1], xs[i + 1]) == Coded(ns[i + 1], sts[i + 2]);
      }
      EncodeBySteps(sts[1..], ns[1..], xs[1..]);
      assert [ns[0]] + ns[1..] == ns;
    }
  }

  /** Every run can be recorded step by step, from its first state; the record
      is unique, since each step is a function of the state and the sample. */
  lemma {:induction false} StepsOf(st: EncoderState, xs: seq<i16>) returns (sts: seq<EncoderState>, ns: seq<Nibble>)
    ensures Steps(sts, ns, xs) && sts[0] == st
    decreases |xs|
  {
    if |xs| == 0 {
      sts, ns := [st], [];
    } else {
      var c := EncodeStep(st, xs[0]);
      var sts', ns' := StepsOf(c.state, xs[1..]);
      sts, ns := [st] + sts', [c.nibble] + ns';
      forall i | 0 <= i < |xs|
        ensures EncodeStep(sts[i], xs[i]) == Coded(ns[i], sts[i + 1])
      {
        if i > 0 {
          assert sts[i] == sts'[i - 1] && sts[i + 1] == sts'[i] && ns[i] == ns'[i - 1] && xs[i] == xs[1..][i - 1];
          assert EncodeStep(sts'[i - 1], xs[1..][i - 1]) == Coded(ns'[i - 1], sts'[i]);
        }
      }
    }
  }

  /** Packing is compatible with concatenation at an even boundary. */
  lemma {:induction false} PackBytesAppend(a: seq<Nibble>, b: seq<Nibble>)
    requires |a| % 2 == 0
    ensures PackBytes(a + b) == PackBytes(a) + PackBytes(b)
    decreases |a|
  {
    if |a| >= 2 {
      assert (a + b)[2..] == a[2..] + b;
      PackBytesAppend(a[2..], b);
    } else {
      assert a + b == b;
    }
  }

  /** The packed prefix grows by one byte per pair of codes. */
  lemma PackBytesNext(ns: seq<Nibble>, j: nat)
    requires 2 * j + 2 <= |ns|
    ensures PackBytes(ns[..2 * j + 2]) == PackBytes(ns[..2 * j]) + [ns[2 * j] as int + 0x10 * ns[2 * j + 1] as int]
  {
    assert ns[..2 * j + 2] == ns[..2 * j] + [ns[2 * j], ns[2 * j + 1]];
    PackBytesAppend(ns[..2 * j], [ns[2 * j], ns[2 * j + 1]]);
    assert [ns[2 * j], ns[2 * j + 1]][2..] == [];
  }

  /** Stereo packing is compatible with concatenation at a group boundary. */
  lemma {:induction false} StereoBytesAppend(a: seq<Nibble>, b: seq<Nibble>, c: seq<Nibble>, d: seq<Nibble>)
    requires |a| == |b| && |c| == |d| && |a| % 8 == 0 && |c| % 8 == 0
    ensures StereoBytes(a + c, b + d) == StereoBytes(a, b) + StereoBytes(c, d)
    decreases |a|
  {
    if |a| > 0 {
      assert (a + c)[..8] == a[..8] && (b + d)[..8] == b[..8];
      assert (a + c)[8..] == a[8..] + c && (b + d)[8..] == b[8..] + d;
      StereoBytesAppend(a[8..], b[8..], c, d);
    } else {
      assert a + c == c && b + d == d;
    }
  }

  /** The packed stereo prefix grows by two words per group. */
  lemma StereoBytesNext(ls: seq<Nibble>, rs: seq<Nibble>, j: nat)
    requires 8 * j + 8 <= |ls| && |ls| == |rs| && |ls| % 8 == 0
    ensures StereoBytes(ls[..8 * j + 8], rs[..8 * j + 8])
            == StereoBytes(ls[..8 * j], rs[..8 * j]) + Le32(PackWord(ls[8 * j..8 * j + 8])) + Le32(PackWord(rs[8 * j..8 * j + 8]))
  {
    var a, b := ls[8 * j..8 * j + 8], rs[8 * j..8 * j + 8];
    assert ls[..8 * j + 8] == ls[..8 * j] + a && rs[..8 * j + 8] == rs[..8 * j] + b;
    StereoBytesAppend(ls[..8 * j], rs[..8 * j], a, b);
    assert a[..8] == a && b[..8] == b && a[8..] == [] && b[8..] == [];
  }

  // ---------------------------------------------------------------------------
  // The block packers
  // ---------------------------------------------------------------------------

  /** MOICoreEncoder_EncodeSample inside a recorded run: from state sts[i],
      encoding ys[i] emits the run's code at i and reaches sts[i + 1]. */
  method EncodeAt(core: CoreEncoder, x: i16,
                  ghost sts: seq<EncoderState>, ghost ns: seq<Nibble>, ghost ys: seq<i16>, ghost i: nat)
    returns (n: Nibble)
    requires Steps(sts, ns, ys)
    requires i < |ys| && ys[i] == x
    requires core.State() == sts[i]
    modifies core
    ensures n == ns[i]
    ensures core.State() == sts[i + 1]
  {
    n := core.EncodeSample(x);
  }

  /** One pass of the mono data loop: samples 2j + 1 and 2j + 2 of the block,
      which are ys[2j] and ys[2j + 1] of the recorded run, coded into the byte
      at pos; the bytes before pos are the block so far, those after pos are
      untouched. */
  method EncodeMonoByte(core: CoreEncoder, x0: i16, x1: i16, data: array<u8>, pos: nat,
                        ghost head: seq<u8>, ghost before: seq<u8>,
                        ghost sts: seq<EncoderState>, ghost ns: seq<Nibble>, ghost ys: seq<i16>, ghost j: nat)
    requires Steps(sts, ns, ys)
    requires 2 * j + 2 <= |ys| && ys[2 * j] == x0 && ys[2 * j + 1] == x1
    requires core.State() == sts[2 * j]
    requires pos < data.Length == |before|
    requires data[..pos] == head + PackBytes(ns[..2 * j]) && data[pos..] == before[pos..]
    modifies core, data
    ensures data[..pos + 1] == head + PackBytes(ns[..2 * j + 2]) && data[pos + 1..] == before[pos + 1..]
    ensures core.State() == sts[2 * j + 2]
  {
    var n0 := EncodeAt(core, x0, sts, ns, ys, 2 * j);
    var n1 := EncodeAt(core, x1, sts, ns, ys, 2 * j + 1);
    PackBytesNext(ns, j);
    AppendAssoc(head, PackBytes(ns[..2 * j]), [n0 as int + 0x10 * n1 as int]);
    SuffixAgrees(data[..], before, pos, pos + 1);
    data[pos] := n0 as int + 0x10 * n1 as int;
    assert data[..pos + 1] == old(data[..pos]) + [data[pos]];
    assert data[pos + 1..] == old(data[pos + 1..]);
  }

  /** The data loop of MOIEncoder_EncodeBlockMono: from the recorded run of
      samples 1 .. MonoReadLength(n) - 1, the packed codes written at start. */
  method EncodeMonoData(core: CoreEncoder, input: seq<i16>, numSamples: u32, data: array<u8>, start: nat,
                        ghost sts: seq<EncoderState>, ghost ns: seq<Nibble>, ghost ys: seq<i16>)
    requires MonoReadLength(numSamples) <= |input| && ys == input[1..MonoReadLength(numSamples)]
    requires Steps(sts, ns, ys) && core.State() == sts[0]
    requires start + numSamples / 2 <= data.Length
    modifies core, data
    ensures data[..start + numSamples / 2] == old(data[..start]) + PackBytes(ns)
    ensures data[start + numSamples / 2..] == old(data[start + numSamples / 2..])
    ensures core.State() == sts[|ys|]
  {
    ghost var k := |ys| / 2;
    assert |ys| == 2 * k;
    ghost var head := data[..start];
    ghost var before := data[..];
    var pos := start;
    var smpl: nat := 1;
    ghost var j: nat := 0;
    while smpl < numSamples
      invariant smpl == 2 * j + 1 && j <= k
      invariant pos == start + j
      invariant data[..pos] == head + PackBytes(ns[..2 * j])
      invariant data[pos..] == before[pos..]
      invariant core.State() == sts[2 * j]
    {
      EncodeMonoByte(core, input[smpl], input[smpl + 1], data, pos, head, before, sts, ns, ys, j);
      pos, smpl, j := pos + 1, smpl + 2, j + 1;
    }
    assert ns[..2 * j] == ns;
  }

  /** MOIEncoder_EncodeBlockMono: pack n samples of one channel into data at
      offset; data.Length - offset is the space the block may use. */
  method EncodeBlockMono(core: CoreEncoder, input: seq<i16>, numSamples: u32, data: array<u8>, offset: nat)
    returns (err: Error, outputSize: u32)
    requires offset <= data.Length <= 0xFFFF_FFFF
    requires MonoReadLength(numSamples) <= |input|
    modifies core, data
    ensures err == ErrOk || err == ErrInsufficientData
    ensures err == ErrInsufficientData <==> data.Length - offset < numSamples / 2 + 4
    ensures err != ErrOk ==> core.State() == old(core.State()) && data[..] == old(data[..])
    ensures err == ErrOk ==>
      && outputSize as int == numSamples / 2 + 4
      && data[..offset + outputSize] == old(data[..offset]) + MonoBlock(old(core.stepsizeIndex), input, numSamples)
      && data[offset + outputSize..] == old(data[offset + outputSize..])
      && core.State() == MonoBlockEnd(old(core.stepsizeIndex), input, numSamples)
  {
    if data.Length - offset < numSamples / 2 + 4 {
      return ErrInsufficientData, 0;
    }
    ghost var s0 := BlockStart(core.stepsizeIndex, input);
    ghost var ys := input[1..MonoReadLength(numSamples)];
    ghost var sts, ns := StepsOf(s0, ys);
    ghost var before := data[..];
    core.prevSample := input[0];
    var pos := Put(data, offset, BlockHeader(core.State()));
    SuffixAgrees(data[..], before, pos, pos + numSamples / 2);
    EncodeMonoData(core, input, numSamples, data, pos, sts, ns, ys);
    EncodeBySteps(sts, ns, ys);
    AppendAssoc(before[..offset], BlockHeader(s0), PackBytes(ns));
    return ErrOk, 4 + numSamples / 2;
  }

  /** Eight consecutive calls of MOICoreEncoder_EncodeSample on one channel of a
      stereo block, packed into one word: from state sts[i] of a recorded run,
      the word of the run's codes i .. i + 7, reaching sts[i + 8]. */
  method EncodeGroup(core: CoreEncoder, xs: seq<i16>,
                     ghost sts: seq<EncoderState>, ghost ns: seq<Nibble>, ghost ys: seq<i16>, ghost i: nat)
    returns (w: u32)
    requires Steps(sts, ns, ys)
    requires i + 8 <= |ys| && xs == ys[i..i + 8]
    requires core.State() == sts[i]
    modifies core
    ensures w == PackWord(ns[i..i + 8])
    ensures core.State() == sts[i + 8]
  {
    var n0 := EncodeAt(core, xs[0], sts, ns, ys, i);
    var n1 := EncodeAt(core, xs[1], sts, ns, ys, i + 1);
    var n2 := EncodeAt(core, xs[2], sts, ns, ys, i + 2);
    var n3 := EncodeAt(core, xs[3], sts, ns, ys, i + 3);
    var n4 := EncodeAt(core, xs[4], sts, ns, ys, i + 4);
    var n5 := EncodeAt(core, xs[5], sts, ns, ys, i + 5);
    var n6 := EncodeAt(core, xs[6], sts, ns, ys, i + 6);
    var n7 := EncodeAt(core, xs[7], sts, ns, ys, i + 7);
    assert ns[i..i + 8] == [n0, n1, n2, n3, n4, n5, n6, n7];
    w := PackWord([n0, n1, n2, n3, n4, n5, n6, n7]);
  }

  /** The body of the inner loop of the stereo data loop for one channel:
      the eight samples xs = ys[i .. i + 8] of the channel's recorded run coded
      into one little-endian word at pos. */
  method EncodeChannelWord(core: CoreEncoder, xs: seq<i16>, data: array<u8>, pos: nat,
                           ghost sts: seq<EncoderState>, ghost ns: seq<Nibble>, ghost ys: seq<i16>, ghost i: nat)
    requires Steps(sts, ns, ys)
    requires i + 8 <= |ys| && xs == ys[i..i + 8]
    requires core.State() == sts[i]
    requires pos + 4 <= data.Length
    modifies core, data
    ensures data[..pos + 4] == old(data[..pos]) + Le32(PackWord(ns[i..i + 8]))
    ensures data[pos + 4..] == old(data[pos + 4..])
    ensures core.State() == sts[i + 8]
  {
    var w := EncodeGroup(core, xs, sts, ns, ys, i);
    var next := Put(data, pos, Le32(w));
  }

  /** Two words stored one after the other at pos, after a known prefix. */
  lemma TwoWords(before: seq<u8>, d0: seq<u8>, d1: seq<u8>, d2: seq<u8>, pos: nat,
                 prefix: seq<u8>, w0: seq<u8>, w1: seq<u8>)
    requires |w0| == 4 && |w1| == 4 && pos + 8 <= |before|
    requires |d0| == |before| && |d1| == |before| && |d2| == |before|
    requires d0[..pos] == prefix && d0[pos..] == before[pos..]
    requires d1[..pos + 4] == d0[..pos] + w0 && d1[pos + 4..] == d0[pos + 4..]
    requires d2[..pos + 8] == d1[..pos + 4] + w1 && d2[pos + 8..] == d1[pos + 8..]
    ensures d2[..pos + 8] == prefix + (w0 + w1)
    ensures d2[pos + 8..] == before[pos + 8..]
  {
    SuffixAgrees(d0, before, pos, pos + 8);
    SuffixAgrees(d1, d0, pos + 4, pos + 8);
    AppendAssoc(prefix, w0, w1);
  }

  /** One pass of the stereo data loop: group j (samples 8j + 1 .. 8j + 8) of
      the left channel, then of the right channel, each packed into a
      little-endian word at pos; the bytes before are the block so far, those
      after the two words are untouched. */
  method EncodeStereoGroup(left: CoreEncoder, right: CoreEncoder, xl: seq<i16>, xr: seq<i16>,
                           data: array<u8>, pos: nat, ghost head: seq<u8>, ghost before: seq<u8>,
                           ghost stsL: seq<EncoderState>, ghost nsL: seq<Nibble>, ghost ls: seq<i16>,
                           ghost stsR: seq<EncoderState>, ghost nsR: seq<Nibble>, ghost rs: seq<i16>, ghost j: nat)
    requires left != right
    requires Steps(stsL, nsL, ls) && Steps(stsR, nsR, rs) && |ls| == |rs| && |ls| % 8 == 0
    requires 8 * j + 8 <= |ls| && xl == ls[8 * j..8 * j + 8] && xr == rs[8 * j..8 * j + 8]
    requires left.State() == stsL[8 * j] && right.State() == stsR[8 * j]
    requires pos + 8 <= data.Length == |before|
    requires data[..pos] == head + StereoBytes(nsL[..8 * j], nsR[..8 * j]) && data[pos..] == before[pos..]
    modifies left, right, data
    ensures data[..pos + 8] == head + StereoBytes(nsL[..8 * j + 8], nsR[..8 * j + 8])
    ensures data[pos + 8..] == before[pos + 8..]
    ensures left.State() == stsL[8 * j + 8] && right.State() == stsR[8 * j + 8]
  {
    ghost var sb := StereoBytes(nsL[..8 * j], nsR[..8 * j]);
    ghost var wl, wr := Le32(PackWord(nsL[8 * j..8 * j + 8])), Le32(PackWord(nsR[8 * j..8 * j + 8]));
    StereoBytesNext(nsL, nsR, j);
    ghost var d0 := data[..];
    EncodeChannelWord(left, xl, data, pos, stsL, nsL, ls, 8 * j);
    ghost var d1 := data[..];
    EncodeChannelWord(right, xr, data, pos + 4, stsR, nsR, rs, 8 * j);
    TwoWords(before, d0, d1, data[..], pos, head + sb, wl, wr);
    AppendAssoc(head, sb, wl + wr);
    AppendAssoc(sb, wl, wr);
  }

  /** The data loop of MOIEncoder_EncodeBlockStereo: from the recorded runs of
      samples 1 .. 8g of each channel, g = StereoGroups(n), the packed groups
      written at start. */
  method EncodeStereoData(left: CoreEncoder, right: CoreEncoder, inL: seq<i16>, inR: seq<i16>,
                          numSamples: u32, data: array<u8>, start: nat, ghost g: nat,
                          ghost stsL: seq<EncoderState>, ghost nsL: seq<Nibble>, ghost ls: seq<i16>,
                          ghost stsR: seq<EncoderState>, ghost nsR: seq<Nibble>, ghost rs: seq<i16>)
    requires left != right
    requires numSamples <= 8 * g + 1 && 8 * g < numSamples + 7 && |ls| == 8 * g && |ls| % 8 == 0
    requires 1 + 8 * g <= |inL| && ls == inL[1..1 + 8 * g]
    requires 1 + 8 * g <= |inR| && rs == inR[1..1 + 8 * g]
    requires Steps(stsL, nsL, ls) && left.State() == stsL[0]
    requires Steps(stsR, nsR, rs) && right.State() == stsR[0]
    requires start + 8 * g <= data.Length
    modifies left, right, data
    ensures data[..start + 8 * g] == old(data[..start]) + StereoBytes(nsL, nsR)
    ensures data[start + 8 * g..] == old(data[start + 8 * g..])
    ensures left.State() == stsL[8 * g] && right.State() == stsR[8 * g]
  {
    ghost var head := data[..start];
    ghost var before := data[..];
    var pos := start;
    var smpl: nat := 1;
    ghost var j: nat := 0;
    while smpl < numSamples
      invariant smpl == 8 * j + 1 && j <= g
      invariant pos == start + 8 * j
      invariant data[..pos] == head + StereoBytes(nsL[..8 * j], nsR[..8 * j])
      invariant data[pos..] == before[pos..]
      invariant left.State() == stsL[8 * j] && right.State() == stsR[8 * j]
    {
      SubSlice(inL, 1, 1 + 8 * g, 8 * j, 8 * j + 8);
      SubSlice(inR, 1, 1 + 8 * g, 8 * j, 8 * j + 8);
      EncodeStereoGroup(left, right, inL[smpl..smpl + 8], inR[smpl..smpl + 8], data, pos, head, before,
                        stsL, nsL, ls, stsR, nsR, rs, j);
      pos, smpl, j := pos + 8, smpl + 8, j + 1;
    }
    assert nsL[..8 * j] == nsL && nsR[..8 * j] == nsR;
  }

  /** A slice of a slice is a slice of the original. */
  lemma SubSlice(s: seq<i16>, lo: nat, hi: nat, i: nat, j: nat)
    requires lo <= hi <= |s| && i <= j <= hi - lo
    ensures s[lo..hi][i..j] == s[lo + i..lo + j]
  {
    assert |s[lo..hi][i..j]| == j - i;
    forall k | 0 <= k < j - i
      ensures s[lo..hi][i..j][k] == s[lo + i + k]
    {
      assert s[lo..hi][i..j][k] == s[lo..hi][i + k];
    }
  }

  /** A stereo block whose two runs are recorded step by step. */
  lemma StereoBlockBySteps(lidx: StepIndex, ridx: StepIndex, inL: seq<i16>, inR: seq<i16>, n: nat,
                           stsL: seq<EncoderState>, nsL: seq<Nibble>, stsR: seq<EncoderState>, nsR: seq<Nibble>)
    requires StereoReadLength(n) <= |inL| && StereoReadLength(n) <= |inR|
    requires Steps(stsL, nsL, inL[1..StereoReadLength(n)]) && stsL[0] == BlockStart(lidx, inL)
    requires Steps(stsR, nsR, inR[1..StereoReadLength(n)]) && stsR[0] == BlockStart(ridx, inR)
    ensures StereoBlock(lidx, ridx, inL, inR, n)
            == BlockHeader(stsL[0]) + BlockHeader(stsR[0]) + StereoBytes(nsL, nsR)
    ensures StereoBlockEnd(lidx, inL, n) == stsL[|stsL| - 1]
    ensures StereoBlockEnd(ridx, inR, n) == stsR[|stsR| - 1]
  {
    EncodeBySteps(stsL, nsL, inL[1..StereoReadLength(n)]);
    EncodeBySteps(stsR, nsR, inR[1..StereoReadLength(n)]);
  }

  /** MOIEncoder_EncodeBlockStereo with the space check the layout needs (see
      StereoGuardAsWritten for the source's check): pack n samples of two
      channels into data at offset. */
  method EncodeBlockStereo(left: CoreEncoder, right: CoreEncoder, inL: seq<i16>, inR: seq<i16>,
                           numSamples: u32, data: array<u8>, offset: nat)
    returns (err: Error, outputSize: u32)
    requires left != right
    requires offset <= data.Length <= 0xFFFF_FFFF
    requires StereoReadLength(numSamples) <= |inL| && StereoReadLength(numSamples) <= |inR|
    modifies left, right, data
    ensures err == ErrOk || err == ErrInsufficientData
    ensures err == ErrInsufficientData <==> data.Length - offset < 8 + 8 * StereoGroups(numSamples)
    ensures err != ErrOk ==>
      left.State() == old(left.State()) && right.State() == old(right.State()) && data[..] == old(data[..])
    ensures err == ErrOk ==>
      && outputSize as int == 8 + 8 * StereoGroups(numSamples)
      && data[..offset + outputSize] == old(data[..offset])
           + StereoBlock(old(left.stepsizeIndex), old(right.stepsizeIndex), inL, inR, numSamples)
      && data[offset + outputSize..] == old(data[offset + outputSize..])
      && left.State() == StereoBlockEnd(old(left.stepsizeIndex), inL, numSamples)
      && right.State() == StereoBlockEnd(old(right.stepsizeIndex), inR, numSamples)
  {
    if data.Length - offset < 8 + 8 * StereoGroups(numSamples) {
      return ErrInsufficientData, 0;
    }
    outputSize := PackStereoBlock(left, right, inL, inR, numSamples, data, offset);
    err := ErrOk;
  }

  /** What MOIEncoder_EncodeBlockStereo does once the block fits: the first
      samples into the core encoders, both channel headers, then the groups. */
  method PackStereoBlock(left: CoreEncoder, right: CoreEncoder, inL: seq<i16>, inR: seq<i16>,
                         numSamples: u32, data: array<u8>, offset: nat)
    returns (outputSize: u32)
    requires left != right
    requires offset + 8 + 8 * StereoGroups(numSamples) <= data.Length <= 0xFFFF_FFFF
    requires StereoReadLength(numSamples) <= |inL| && StereoReadLength(numSamples) <= |inR|
    modifies left, right, data
    ensures outputSize as int == 8 + 8 * StereoGroups(numSamples)
    ensures data[..offset + outputSize] == old(data[..offset])
              + StereoBlock(old(left.stepsizeIndex), old(right.stepsizeIndex), inL, inR, numSamples)
    ensures data[offset + outputSize..] == old(data[offset + outputSize..])
    ensures left.State() == StereoBlockEnd(old(left.stepsizeIndex), inL, numSamples)
    ensures right.State() == StereoBlockEnd(old(right.stepsizeIndex), inR, numSamples)
  {
    ghost var g := StereoGroups(numSamples);
    ghost var m := StereoReadLength(numSamples);
    ghost var l0, r0 := BlockStart(left.stepsizeIndex, inL), BlockStart(right.stepsizeIndex, inR);
    ghost var ls, rs := inL[1..m], inR[1..m];
    ghost var stsL, nsL := StepsOf(l0, ls);
    ghost var stsR, nsR := StepsOf(r0, rs);
    ghost var before := data[..];
    left.prevSample := inL[0];
    right.prevSample := inR[0];
    var pos := Put(data, offset, BlockHeader(left.State()));
    pos := Put(data, pos, BlockHeader(right.State()));
    SuffixAgrees(data[..], before, pos, pos + 8 * g);
    MultipleOf(g, 8);
    assert numSamples <= 8 * g + 1 && 8 * g < numSamples + 7 && |ls| == 8 * g;
    EncodeStereoData(left, right, inL, inR, numSamples, data, pos, g, stsL, nsL, ls, stsR, nsR, rs);
    StereoBlockBySteps(old(left.stepsizeIndex), old(right.stepsizeIndex), inL, inR, numSamples, stsL, nsL, stsR, nsR);
    ghost var sb := StereoBytes(nsL, nsR);
    AppendAssoc(before[..offset] + BlockHeader(l0), BlockHeader(r0), sb);
    AppendAssoc(before[..offset], BlockHeader(l0), BlockHeader(r0) + sb);
    AppendAssoc(BlockHeader(l0), BlockHeader(r0), sb);
    return 8 + 8 * StereoGroups(numSamples);
  }

  /** The space check MOIEncoder_EncodeBlockStereo performs before writing: at
      least n + 4 bytes, computed in 32 bits. */
  predicate StereoFitsAsWritten(space: nat, numSamples: u32)
  {
    space >= U32(numSamples + 4)
  }

  /** The source's stereo check is too weak for every block length: a space of
      exactly n + 4 bytes passes it, yet the block is at least three bytes longer. */
  lemma StereoGuardAsWrittenTooWeak(numSamples: u32)
    requires numSamples + 4 < 0x1_0000_0000
    ensures StereoFitsAsWritten(numSamples + 4, numSamples)
    ensures numSamples + 4 + 3 <= 8 + 8 * StereoGroups(numSamples)
  {
    var g := StereoGroups(numSamples);
    assert numSamples + 6 < 8 * g + 8;
  }

  /** The corrected check, which EncodeBlockStereo uses, accepts exactly the
      spaces the block fits into. */
  lemma StereoGuardCorrected(space: nat, lidx: StepIndex, ridx: StepIndex, left: seq<i16>, right: seq<i16>, numSamples: u32)
    requires StereoReadLength(numSamples) <= |left| && StereoReadLength(numSamples) <= |right|
    ensures !(space < 8 + 8 * StereoGroups(numSamples)) <==> |StereoBlock(lidx, ridx, left, right, numSamples)| <= space
  {
  }

  // ---------------------------------------------------------------------------
  // From encoding parameters to a header
  // ---------------------------------------------------------------------------

  /** The samples of one channel that the data part of a block holds: its
      bytes after the four-byte channel headers, at four bits per sample per channel. */
  function ChannelQuotient(blockSize: u16, ch: u16): nat
    requires 1 <= ch && 4 * ch < blockSize
  {
    (8 * (blockSize - 4 * ch)) / (4 * ch)
  }

  /** Nothing in the way of a division: the 16-bit truncation of the quotient
      is never 0xFFFF, so adding the header sample does not wrap. */
  lemma SamplesPerBlockFits(blockSize: u16, ch: u16)
    requires 1 <= ch && 4 * ch < blockSize
    ensures U16(ChannelQuotient(blockSize, ch)) < 0xFFFF
  {
    var bds := blockSize - 4 * ch;
    var q := ChannelQuotient(blockSize, ch);
    if ch == 1 {
      assert q == 2 * bds;
      var k := q / 0x1_0000;
      assert U16(q) == 2 * (bds - 0x8000 * k);
    } else if ch == 2 {
      assert q == bds;
    } else {
      var d := 4 * ch;
      assert q * d <= 8 * bds;
      ProductMonotone(q, 12, d);
      assert 12 * q < 8 * 0x1_0000;
    }
  }

  /** Multiplication by a natural number is monotone. */
  lemma ProductMonotone(q: nat, a: nat, b: nat)
    requires a <= b
    ensures a * q <= b * q && q * a <= q * b && a * q <= q * b
  {
  }

  /** Samples per block of blockSize bytes over ch channels: the channel
      quotient plus the sample each channel header carries, with the quotient
      cast to 16 bits as in the source. */
  function SamplesPerBlock(blockSize: u16, ch: u16): (spb: u16)
    requires 1 <= ch && 4 * ch < blockSize
    ensures spb >= 1
    ensures ChannelQuotient(blockSize, ch) < 0x1_0000 ==> spb == ChannelQuotient(blockSize, ch) + 1
  {
    SamplesPerBlockFits(blockSize, ch);
    U16(ChannelQuotient(blockSize, ch)) + 1
  }

  /** MOIEncoder_ConvertParameterToHeader: the header a parameter describes, or
      INVALID_FORMAT if it fixes anything but four bits per sample or leaves no
      room for samples after the channel headers. A parameter with no channels
      makes the source divide by zero; it is refused here. */
  function ConvertParameterToHeader(p: EncodeParameter, numSamples: u32): (o: Outcome<Header>)
    ensures o.Success? <==> p.bitsPerSample == BitsPerSample && 1 <= p.numChannels && 4 * p.numChannels < p.blockSize
    ensures o.Failure? ==> o.error == ErrInvalidFormat
    ensures o.Success? ==>
      && o.value.numChannels == p.numChannels && o.value.samplingRate == p.samplingRate
      && o.value.blockSize == p.blockSize && o.value.bitsPerSample == BitsPerSample
      && o.value.numSamples == numSamples && o.value.headerSize == HeaderSize
      && o.value.numSamplesPerBlock == SamplesPerBlock(p.blockSize, p.numChannels)
      && o.value.bytesPerSec == U32(p.blockSize * p.samplingRate) / o.value.numSamplesPerBlock
      && o.value.bytesPerSec * o.value.numSamplesPerBlock <= U32(p.blockSize * p.samplingRate)
  {
    if p.bitsPerSample != BitsPerSample then Failure(ErrInvalidFormat)
    else if p.blockSize <= p.numChannels * 4 then Failure(ErrInvalidFormat)
    else if p.numChannels == 0 then Failure(ErrInvalidFormat)
    else
      var spb := SamplesPerBlock(p.blockSize, p.numChannels);
      var bytes := U32(p.blockSize * p.samplingRate);
      var bytesPerSec := bytes / spb;
      assert bytesPerSec * spb <= bytes;
      Success(Header(p.numChannels, p.samplingRate, bytesPerSec, p.blockSize, p.bitsPerSample,
                     spb, numSamples, HeaderSize))
  }

  /** The search settings are stored but play no part in the header. */
  lemma ConvertIgnoresSearch(p: EncodeParameter, numSamples: u32, beamWidth: u32, depth: u32)
    ensures ConvertParameterToHeader(p, numSamples)
            == ConvertParameterToHeader(p.(searchBeamWidth := beamWidth, searchDepth := depth), numSamples)
  {
  }

  /** A mono block of samples-per-block samples fills the block exactly and
      reads no sample past it, as long as the 16-bit cast does not truncate. */
  lemma FullMonoBlock(p: EncodeParameter)
    requires ConvertParameterToHeader(p, 0).Success? && p.numChannels == 1
    requires p.blockSize <= 0x8003
    ensures MonoReadLength(ConvertParameterToHeader(p, 0).value.numSamplesPerBlock) == ConvertParameterToHeader(p, 0).value.numSamplesPerBlock
    ensures 4 + ConvertParameterToHeader(p, 0).value.numSamplesPerBlock / 2 == p.blockSize
  {
    assert ChannelQuotient(p.blockSize, 1) == 2 * (p.blockSize - 4);
  }

  /** A stereo block of samples-per-block samples has block_size - 7 samples;
      its packed form fills the block exactly when block_size is a multiple of 8,
      and is otherwise longer than the block (by up to 7 bytes). */
  lemma FullStereoBlock(p: EncodeParameter)
    requires ConvertParameterToHeader(p, 0).Success? && p.numChannels == 2
    ensures ConvertParameterToHeader(p, 0).value.numSamplesPerBlock == p.blockSize - 7
    ensures 8 + 8 * StereoGroups(p.blockSize - 7) == p.blockSize <==> p.blockSize % 8 == 0
    ensures p.blockSize <= 8 + 8 * StereoGroups(p.blockSize - 7) < p.blockSize + 8
  {
    assert ChannelQuotient(p.blockSize, 2) == p.blockSize - 8;
  }

  /** For a 17-byte stereo block the packer writes 24 bytes. */
  lemma StereoBlockOverflowsExample()
    ensures ConvertParameterToHeader(EncodeParameter(2, 8000, 4, 17, 0, 0), 0).Success?
    ensures ConvertParameterToHeader(EncodeParameter(2, 8000, 4, 17, 0, 0), 0).value.numSamplesPerBlock == 10
    ensures 8 + 8 * StereoGroups(10) == 24
  {
    FullStereoBlock(EncodeParameter(2, 8000, 4, 17, 0, 0));
  }

  /** Above 0x8003 bytes a mono block's samples-per-block wraps at 16 bits, and
      a full block is then 0x8000 bytes shorter than the block size. */
  lemma MonoSamplesPerBlockWraps(p: EncodeParameter)
    requires ConvertParameterToHeader(p, 0).Success? && p.numChannels == 1
    requires p.blockSize > 0x8003
    ensures ConvertParameterToHeader(p, 0).value.numSamplesPerBlock == 2 * (p.blockSize - 4) - 0x1_0000 + 1
    ensures BlockLength(1, ConvertParameterToHeader(p, 0).value.numSamplesPerBlock) == p.blockSize - 0x8000
  {
    assert ChannelQuotient(p.blockSize, 1) == 2 * (p.blockSize - 4);
    assert U16(2 * (p.blockSize - 4)) == 2 * (p.blockSize - 4) - 0x1_0000;
  }

  /** The block sizes whose full blocks fill the block exactly: mono up to
      0x8003 bytes, where samples-per-block still fits in 16 bits, and stereo
      a multiple of 8. */
  predicate BlockSizeFills(ch: u16, blockSize: u16)
  {
    (ch == 1 ==> blockSize <= 0x8003) && (ch == 2 ==> blockSize % 8 == 0)
  }

  /** For a block size that fills, a block of at most samples-per-block samples
      fits in the block, and a full block fills it. */
  lemma BlocksWithinBlockSize(p: EncodeParameter, k: nat)
    requires ConvertParameterToHeader(p, 0).Success? && (p.numChannels == 1 || p.numChannels == 2)
    requires BlockSizeFills(p.numChannels, p.blockSize)
    requires k <= ConvertParameterToHeader(p, 0).value.numSamplesPerBlock
    ensures BlockLength(p.numChannels, k) <= p.blockSize
    ensures k == ConvertParameterToHeader(p, 0).value.numSamplesPerBlock ==> BlockLength(p.numChannels, k) == p.blockSize
  {
    if p.numChannels == 1 {
      FullMonoBlock(p);
    } else {
      FullStereoBlock(p);
      assert StereoGroups(k) <= StereoGroups(p.blockSize - 7);
    }
  }

  /** The packer's block of k samples from sample p, when it reads within the
      inputs, has the length of a packed block. */
  lemma PackerBlockLength(ch: nat, input: seq<seq<i16>>, stL: EncoderState, stR: EncoderState, p: nat, k: nat)
    requires (ch == 1 || ch == 2) && |input| >= ch
    requires p + ReadLength(ch, k) <= |input[0]| && p + ReadLength(ch, k) <= |input[ch - 1]|
    ensures |ChannelPacker(ch, input)(stL, stR, p, k).bytes| == BlockLength(ch, k)
  {
  }

  /** Every block pack writes for samples p .. n - 1 is at most limit bytes. */
  predicate BlocksWithin(pack: BlockPacker, stL: EncoderState, stR: EncoderState, p: nat, n: nat, spb: nat, limit: nat)
    requires spb > 0
    decreases n - p
  {
    p < n ==>
      var first := pack(stL, stR, p, MinVal(spb, n - p));
      && |first.bytes| <= limit
      && BlocksWithin(pack, first.left, first.right, p + MinVal(spb, n - p), n, spb, limit)
  }

  /** For a block size that fills, every block the stream encoder packs from
      sample p on fits in block_size bytes. */
  lemma {:induction false} StreamBlocksWithinBlockSize(prm: EncodeParameter, input: seq<seq<i16>>,
      stL: EncoderState, stR: EncoderState, p: nat, n: nat, spb: nat)
    requires ConvertParameterToHeader(prm, 0).Success? && (prm.numChannels == 1 || prm.numChannels == 2)
    requires BlockSizeFills(prm.numChannels, prm.blockSize) && |input| >= prm.numChannels
    requires spb == ConvertParameterToHeader(prm, 0).value.numSamplesPerBlock
    requires ReadsFit(prm.numChannels, |input[0]|, p, n, spb)
    requires ReadsFit(prm.numChannels, |input[prm.numChannels - 1]|, p, n, spb)
    ensures BlocksWithin(ChannelPacker(prm.numChannels, input), stL, stR, p, n, spb, prm.blockSize)
    decreases n - p
  {
    if p < n {
      var ch := prm.numChannels as nat;
      var k := MinVal(spb, n - p);
      ReadsFitStep(ch, |input[0]|, p, n, spb);
      ReadsFitStep(ch, |input[ch - 1]|, p, n, spb);
      PackerBlockLength(ch, input, stL, stR, p, k);
      BlocksWithinBlockSize(prm, k);
      var pack := ChannelPacker(ch, input);
      var first := pack(stL, stR, p, k);
      StreamBlocksWithinBlockSize(prm, input, first.left, first.right, p + k, n, spb);
      BlocksWithinStep(pack, stL, stR, p, n, spb, prm.blockSize as nat, first);
    }
  }

  /** A first block within the limit followed by blocks within it. */
  lemma BlocksWithinStep(pack: BlockPacker, stL: EncoderState, stR: EncoderState, p: nat, n: nat, spb: nat,
                         limit: nat, first: Packed)
    requires spb > 0 && p < n && first == pack(stL, stR, p, MinVal(spb, n - p)) && |first.bytes| <= limit
    requires BlocksWithin(pack, first.left, first.right, p + MinVal(spb, n - p), n, spb, limit)
    ensures BlocksWithin(pack, stL, stR, p, n, spb, limit)
  {
  }

  // ---------------------------------------------------------------------------
  // The RIFF/WAVE header (MOIEncoder_EncodeHeader)
  // ---------------------------------------------------------------------------

  /** MOI_CALCULATE_DATASIZE_BYTE: the whole bytes that numSamples samples of
      the given width occupy. */
  function DataSize(numSamples: nat, bits: nat): (b: nat)
    ensures 8 * b < numSamples * bits + 8 && numSamples * bits <= 8 * b
  {
    RoundUp(numSamples * bits, 8) / 8
  }

  /** The header fields the size computation relies on: a nonzero number of
      samples per block, all of which fit in a block. */
  predicate SizesConsistent(h: Header)
  {
    h.numSamplesPerBlock > 0 && DataSize(h.numSamplesPerBlock, h.bitsPerSample) <= h.blockSize
  }

  /** Size of the data chunk: a block for each whole block of samples and one
      more, less the bytes the samples missing from the last block would take.
      The products and the difference are 32-bit operations. */
  function DataChunkSize(h: Header): (d: u32)
    requires SizesConsistent(h)
    ensures h.blockSize * (h.numSamples / h.numSamplesPerBlock + 1) < 0x1_0000_0000 ==>
      d == h.blockSize * (h.numSamples / h.numSamplesPerBlock + 1)
           - DataSize(h.numSamplesPerBlock - h.numSamples % h.numSamplesPerBlock, h.bitsPerSample)
  {
    var spb := h.numSamplesPerBlock;
    var blocks := h.numSamples / spb + 1;
    var tail := DataSize(spb - h.numSamples % spb, h.bitsPerSample);
    DataSizeMonotone(spb - h.numSamples % spb, spb, h.bitsPerSample);
    ChunkNoWrap(h.blockSize, blocks, tail);
    U32(U32(h.blockSize * U32(blocks)) - tail)
  }

  /** With no 32-bit wrap-around the chunk size is the plain difference. */
  lemma ChunkNoWrap(blockSize: nat, blocks: nat, tail: nat)
    requires 1 <= blocks && tail <= blockSize
    ensures blockSize * blocks < 0x1_0000_0000 ==> U32(U32(blockSize * U32(blocks)) - tail) == blockSize * blocks - tail
  {
    if blockSize > 0 {
      ProductAtLeast(blocks, blockSize);
      ProductMonotone(blockSize, 1, blocks);
    }
  }

  /** More samples never take fewer bytes. */
  lemma DataSizeMonotone(a: nat, b: nat, bits: nat)
    requires a <= b
    ensures DataSize(a, bits) <= DataSize(b, bits)
  {
    ProductMonotone(bits, a, b);
  }

  /** Bytes 0-21 of the header: the RIFF chunk with its size, the WAVE form
      type, and the fmt chunk's id, its size 20 and the IMA-ADPCM format tag 17. */
  function HeaderPart1(dataChunkSize: u32): (b: seq<u8>)
    ensures |b| == 22
  {
    FourCC("RIFF") + Le32(U32(HeaderSize + dataChunkSize - 8)) + FourCC("WAVE")
      + FourCC("fmt ") + Le32(20) + Le16(17)
  }

  /** Bytes 22-33: channels, sampling rate, bytes per second, block size. */
  function HeaderPart2(h: Header): (b: seq<u8>)
    ensures |b| == 12
  {
    Le16(h.numChannels) + Le32(h.samplingRate) + Le32(h.bytesPerSec) + Le16(h.blockSize)
  }

  /** Bytes 34-59: bits per sample, the fmt extra size 2, samples per block, the
      fact chunk (size 4, number of samples) and the data chunk's id and size. */
  function HeaderPart3(h: Header, dataChunkSize: u32): (b: seq<u8>)
    ensures |b| == 26
  {
    Le16(h.bitsPerSample) + Le16(2) + Le16(h.numSamplesPerBlock)
      + FourCC("fact") + Le32(4) + Le32(h.numSamples)
      + FourCC("data") + Le32(dataChunkSize)
  }

  /** The 60 header bytes MOIEncoder_EncodeHeader writes. */
  function HeaderBytes(h: Header): (b: seq<u8>)
    requires SizesConsistent(h)
    ensures |b| == HeaderSize
  {
    HeaderPart1(DataChunkSize(h)) + HeaderPart2(h) + HeaderPart3(h, DataChunkSize(h))
  }

  /** The header is its three parts in order. */
  lemma HeaderBytesParts(h: Header)
    requires SizesConsistent(h)
    ensures HeaderBytes(h)[..22] == HeaderPart1(DataChunkSize(h))
    ensures HeaderBytes(h)[..34] == HeaderPart1(DataChunkSize(h)) + HeaderPart2(h)
    ensures HeaderBytes(h) == HeaderPart1(DataChunkSize(h)) + HeaderPart2(h) + HeaderPart3(h, DataChunkSize(h))
  {
    var p1, p2, p3 := HeaderPart1(DataChunkSize(h)), HeaderPart2(h), HeaderPart3(h, DataChunkSize(h));
    assert (p1 + p2 + p3)[..22] == p1;
    assert (p1 + p2 + p3)[..34] == p1 + p2;
  }

  /** How far EncodeHeader gets once the size checks pass: the channel count is
      checked after 22 bytes, the sample width after 34. */
  function HeaderWritten(h: Header): (w: nat)
    ensures w == 22 || w == 34 || w == HeaderSize
    ensures w == HeaderSize <==> h.numChannels <= MaxNumChannels && h.bitsPerSample == BitsPerSample
  {
    if h.numChannels > MaxNumChannels then 22
    else if h.bitsPerSample != BitsPerSample then 34
    else HeaderSize
  }

  /** MOIEncoder_EncodeHeader: check the buffer and the header's sizes, then
      write the header, stopping with INVALID_FORMAT at an unsupported channel
      count or sample width. A header with no samples per block makes the source
      divide by zero; it is refused here with INVALID_FORMAT. */
  method EncodeHeader(h: Header, data: array?<u8>) returns (r: ApiResult)
    modifies data
    ensures data == null ==> r == InvalidArgument
    ensures data != null && data.Length < HeaderSize ==> r == InsufficientData && data[..] == old(data[..])
    ensures data != null && data.Length >= HeaderSize && !SizesConsistent(h) ==>
      r == InvalidFormat && data[..] == old(data[..])
    ensures data != null && data.Length >= HeaderSize && SizesConsistent(h) ==>
      && (r == Ok <==> HeaderWritten(h) == HeaderSize)
      && (r != Ok ==> r == InvalidFormat)
      && data[..HeaderWritten(h)] == HeaderBytes(h)[..HeaderWritten(h)]
      && data[HeaderWritten(h)..] == old(data[HeaderWritten(h)..])
  {
    if data == null {
      return InvalidArgument;
    }
    if data.Length < HeaderSize {
      return InsufficientData;
    }
    var spb := h.numSamplesPerBlock;
    if DataSize(spb, h.bitsPerSample) > h.blockSize {
      return InvalidFormat;
    }
    if spb == 0 {
      return InvalidFormat;
    }
    var dataChunkSize := DataChunkSize(h);
    HeaderBytesParts(h);
    var pos := Put(data, 0, HeaderPart1(dataChunkSize));
    if h.numChannels > MaxNumChannels {
      return InvalidFormat;
    }
    pos := Put(data, pos, HeaderPart2(h));
    if h.bitsPerSample != BitsPerSample {
      return InvalidFormat;
    }
    pos := Put(data, pos, HeaderPart3(h, dataChunkSize));
    return Ok;
  }

  /** A header made from a parameter passes EncodeHeader's size checks. */
  lemma ConvertedSizesConsistent(p: EncodeParameter, numSamples: u32)
    requires ConvertParameterToHeader(p, numSamples).Success?
    ensures SizesConsistent(ConvertParameterToHeader(p, numSamples).value)
  {
    var h := ConvertParameterToHeader(p, numSamples).value;
    var ch: int, bs: int := p.numChannels, p.blockSize;
    var q := ChannelQuotient(p.blockSize, p.numChannels);
    assert q * (4 * ch) <= 8 * (bs - 4 * ch);
    ProductMonotone(q, 4, 4 * ch);
    assert h.numSamplesPerBlock <= q + 1;
    assert DataSize(h.numSamplesPerBlock, 4) <= h.numSamplesPerBlock / 2 + 1;
  }

  // ---------------------------------------------------------------------------
  // Blocks of a whole stream
  // ---------------------------------------------------------------------------

  /** How many samples of each channel the packer for ch channels reads for a
      block of k samples. */
  function ReadLength(ch: nat, k: nat): nat
  {
    if ch == 1 then MonoReadLength(k) else StereoReadLength(k)
  }

  /** The bytes of a packed block of k samples over ch channels. */
  function BlockLength(ch: nat, k: nat): nat
  {
    if ch == 1 then 4 + k / 2 else 8 + 8 * StereoGroups(k)
  }

  /** Packed bytes and the two core encoder states after them. */
  datatype Packed = Packed(bytes: seq<u8>, left: EncoderState, right: EncoderState)

  /** One block of k samples over ch channels, from the core states stL, stR;
      a mono block leaves the second core encoder alone. */
  function PackedBlock(ch: nat, stL: EncoderState, stR: EncoderState, l: seq<i16>, r: seq<i16>, k: nat): (b: Packed)
    requires ch == 1 || ch == 2
    requires ReadLength(ch, k) <= |l| && ReadLength(ch, k) <= |r|
    ensures |b.bytes| == BlockLength(ch, k)
    ensures ch == 1 ==> b.right == stR
  {
    if ch == 1 then
      Packed(MonoBlock(stL.stepsizeIndex, l, k), MonoBlockEnd(stL.stepsizeIndex, l, k), stR)
    else
      Packed(StereoBlock(stL.stepsizeIndex, stR.stepsizeIndex, l, r, k),
             StereoBlockEnd(stL.stepsizeIndex, l, k), StereoBlockEnd(stR.stepsizeIndex, r, k))
  }

  /** Every block from sample p on, of min(spb, remaining) samples each, reads
      within the first len samples of a channel. */
  predicate ReadsFit(ch: nat, len: nat, p: nat, n: nat, spb: nat)
    requires spb > 0
    decreases n - p
  {
    p < n ==>
      && p + ReadLength(ch, MinVal(spb, n - p)) <= len
      && ReadsFit(ch, len, p + MinVal(spb, n - p), n, spb)
  }

  /** A channel with seven samples to spare after the stream covers every read. */
  lemma {:induction false} ReadsFitWithSlack(ch: nat, len: nat, p: nat, n: nat, spb: nat)
    requires spb > 0 && n + 7 <= len
    ensures ReadsFit(ch, len, p, n, spb)
    decreases n - p
  {
    if p < n {
      ReadsFitWithSlack(ch, len, p + MinVal(spb, n - p), n, spb);
    }
  }

  /** A block packer: from the two core states, the block's first sample p and
      its length k, the packed block. */
  type BlockPacker = (EncoderState, EncoderState, nat, nat) -> Packed

  /** The packer for ch channels over the channels of input (the first and the
      last channel it uses). A block that would read past an input packs to
      nothing; the stream encoder never asks for one. */
  function ChannelPacker(ch: nat, input: seq<seq<i16>>): BlockPacker
  {
    (stL: EncoderState, stR: EncoderState, p: nat, k: nat) =>
      if (ch == 1 || ch == 2) && |input| >= ch
         && p + ReadLength(ch, k) <= |input[0]| && p + ReadLength(ch, k) <= |input[ch - 1]|
      then PackedBlock(ch, stL, stR, input[0][p..], input[ch - 1][p..], k)
      else Packed([], stL, stR)
  }

  /** pack packs every block that lies within the inputs as the packer for ch
      channels does. */
  ghost predicate PacksAs(pack: BlockPacker, ch: nat, l: seq<i16>, r: seq<i16>)
  {
    forall stL: EncoderState, stR: EncoderState, p: nat, k: nat
      {:trigger PackedBlock(ch, stL, stR, l[p..], r[p..], k)} ::
      (ch == 1 || ch == 2) && p + ReadLength(ch, k) <= |l| && p + ReadLength(ch, k) <= |r| ==>
        pack(stL, stR, p, k) == PackedBlock(ch, stL, stR, l[p..], r[p..], k)
  }

  lemma ChannelPackerPacks(ch: nat, input: seq<seq<i16>>)
    requires 1 <= ch <= |input|
    ensures PacksAs(ChannelPacker(ch, input), ch, input[0], input[ch - 1])
  {
  }

  /** The blocks of samples p .. n - 1, spb samples to a block and the last
      block taking what is left, packed by pack from the core states stL, stR. */
  function Blocks(pack: BlockPacker, stL: EncoderState, stR: EncoderState, p: nat, n: nat, spb: nat): (b: Packed)
    requires spb > 0
    decreases n - p
  {
    if p >= n then Packed([], stL, stR)
    else
      var k := MinVal(spb, n - p);
      var first := pack(stL, stR, p, k);
      var rest := Blocks(pack, first.left, first.right, p + k, n, spb);
      Packed(first.bytes + rest.bytes, rest.left, rest.right)
  }

  /** The blocks of samples p .. n - 1 of input over ch channels. */
  function PackedBlocks(ch: nat, stL: EncoderState, stR: EncoderState, input: seq<seq<i16>>,
                        p: nat, n: nat, spb: nat): (b: Packed)
    requires spb > 0
  {
    Blocks(ChannelPacker(ch, input), stL, stR, p, n, spb)
  }

  /** What is left of a stream after its first p samples, once the bytes written
      so far are written: the blocks from p on, from the core states stL, stR,
      complete the whole stream. */
  ghost predicate Remaining(pack: BlockPacker, stL: EncoderState, stR: EncoderState, p: nat, n: nat, spb: nat,
                            written: seq<u8>, head: seq<u8>, total: Packed)
  {
    && spb > 0
    && var rest := Blocks(pack, stL, stR, p, n, spb);
       && written + rest.bytes == head + total.bytes
       && rest.left == total.left && rest.right == total.right
  }

  /** Writing the next block of a stream keeps what is left of it in step. */
  lemma RemainingStep(pack: BlockPacker, stL: EncoderState, stR: EncoderState, p: nat, n: nat, spb: nat,
                      written: seq<u8>, head: seq<u8>, total: Packed, written': seq<u8>)
    requires Remaining(pack, stL, stR, p, n, spb, written, head, total) && p < n
    requires written' == written + pack(stL, stR, p, MinVal(spb, n - p)).bytes
    ensures var first := pack(stL, stR, p, MinVal(spb, n - p));
      Remaining(pack, first.left, first.right, p + MinVal(spb, n - p), n, spb, written', head, total)
  {
    var k := MinVal(spb, n - p);
    var first := pack(stL, stR, p, k);
    AppendAssoc(written, first.bytes, Blocks(pack, first.left, first.right, p + k, n, spb).bytes);
  }

  /** A block written at w that leaves everything from next on alone keeps
      the buffer's agreement with orig from next on. */
  lemma SuffixStep(orig: seq<u8>, mid: seq<u8>, after: seq<u8>, w: nat, next: nat)
    requires w <= next <= |mid| == |orig| == |after|
    requires mid[w..] == orig[w..] && after[next..] == mid[next..]
    ensures after[next..] == orig[next..]
  {
    SuffixAgrees(mid, orig, w, next);
  }

  /** The first block of a stream reads within the input, and so do the blocks after it. */
  lemma ReadsFitStep(ch: nat, len: nat, p: nat, n: nat, spb: nat)
    requires spb > 0 && p < n && ReadsFit(ch, len, p, n, spb)
    ensures p + ReadLength(ch, MinVal(spb, n - p)) <= len
    ensures ReadsFit(ch, len, p + MinVal(spb, n - p), n, spb)
  {
  }

  /** Whether the channels of input cover every read the stream encoder makes
      for a parameter, when the parameter is one the encoder accepts. */
  predicate InputCovers(p: EncodeParameter, input: seq<seq<i16>>, numSamples: u32)
  {
    ConvertParameterToHeader(p, numSamples).Success? && p.numChannels <= MaxNumChannels ==>
      && |input| >= p.numChannels
      && forall c :: 0 <= c < p.numChannels ==>
           ReadsFit(p.numChannels, |input[c]|, 0, numSamples,
                    ConvertParameterToHeader(p, numSamples).value.numSamplesPerBlock)
  }

  // ---------------------------------------------------------------------------
  // The encoder handle (struct MOIEncoder)
  // ---------------------------------------------------------------------------

  class Encoder {
    var parameter: EncodeParameter
    var parameterSet: bool
    /** core_encoder[0] and core_encoder[1] */
    const left: CoreEncoder
    const right: CoreEncoder

    /** The two core encoders are distinct objects. */
    predicate Valid()
    {
      left != right
    }

    /** MOIEncoder_Create: a zeroed handle whose parameter is not set. */
    constructor ()
      ensures Valid() && fresh(left) && fresh(right)
      ensures parameter == ZeroParameter && !parameterSet
      ensures left.State() == EncoderState(0, 0) && right.State() == EncoderState(0, 0)
    {
      parameter := ZeroParameter;
      parameterSet := false;
      left := new CoreEncoder();
      right := new CoreEncoder();
    }

    /** MOIEncoder_SetEncodeParameter: accept a parameter that converts to a
      header, and otherwise leave the handle as it was. */
    method SetEncodeParameter(p: EncodeParameter) returns (r: ApiResult)
      modifies this
      ensures ConvertParameterToHeader(p, 0).Failure? ==>
        r == InvalidFormat && parameter == old(parameter) && parameterSet == old(parameterSet)
      ensures ConvertParameterToHeader(p, 0).Success? ==> r == Ok && parameter == p && parameterSet
    {
      if ConvertParameterToHeader(p, 0).Failure? {
        return InvalidFormat;
      }
      parameter := p;
      parameterSet := true;
      return Ok;
    }

    /** MOIEncoder_EncodeBlock: pack one block with the packer for the
      parameter's channel count, into data at offset. */
    method EncodeBlock(input: seq<seq<i16>>, numSamples: u32, data: array<u8>, offset: nat)
      returns (r: ApiResult, outputSize: u32)
      requires Valid()
      requires offset <= data.Length <= 0xFFFF_FFFF
      requires parameter.numChannels == 1 || parameter.numChannels == 2 ==>
        && |input| >= parameter.numChannels
        && ReadLength(parameter.numChannels, numSamples) <= |input[0]|
        && ReadLength(parameter.numChannels, numSamples) <= |input[parameter.numChannels - 1]|
      modifies left, right, data
      ensures parameter.numChannels != 1 && parameter.numChannels != 2 ==>
        r == InvalidFormat && left.State() == old(left.State()) && right.State() == old(right.State())
        && data[..] == old(data[..])
      ensures parameter.numChannels == 1 || parameter.numChannels == 2 ==>
        var b := PackedBlock(parameter.numChannels, old(left.State()), old(right.State()),
                             input[0], input[parameter.numChannels - 1], numSamples);
        && (r == Ok <==> |b.bytes| <= data.Length - offset)
        && (r != Ok ==> r == Ng && left.State() == old(left.State()) && right.State() == old(right.State())
                        && data[..] == old(data[..]))
        && (r == Ok ==>
              && outputSize as int == |b.bytes|
              && data[..offset + outputSize] == old(data[..offset]) + b.bytes
              && data[offset + outputSize..] == old(data[offset + outputSize..])
              && left.State() == b.left && right.State() == b.right)
    {
      var err: Error;
      if parameter.numChannels == 1 {
        err, outputSize := EncodeBlockMono(left, input[0], numSamples, data, offset);
      } else if parameter.numChannels == 2 {
        err, outputSize := EncodeBlockStereo(left, right, input[0], input[1], numSamples, data, offset);
      } else {
        return InvalidFormat, 0;
      }
      r := ToApiResult(err);
    }
  
    /** The block loop of MOIEncoder_EncodeWhole: blocks of min(spb, remaining)
      samples written one after another from byte 60 on, until the samples run
      out or a block does not fit. pack stands for the packer of the
      parameter's channel count over the input. */
    method EncodeStream(input: seq<seq<i16>>, numSamples: u32, spb: u16, data: array<u8>, ghost pack: BlockPacker)
      returns (r: ApiResult, writeOffset: u32)
      requires Valid()
      requires parameter.numChannels == 1 || parameter.numChannels == 2
      requires spb > 0 && |input| >= parameter.numChannels
      requires PacksAs(pack, parameter.numChannels, input[0], input[parameter.numChannels - 1])
      requires ReadsFit(parameter.numChannels, |input[0]|, 0, numSamples, spb)
      requires ReadsFit(parameter.numChannels, |input[parameter.numChannels - 1]|, 0, numSamples, spb)
      requires HeaderSize <= data.Length <= 0xFFFF_FFFF
      modifies left, right, data
      ensures r == Ok || r == Ng
      ensures
        var b := Blocks(pack, old(left.State()), old(right.State()), 0, numSamples, spb);
        && (r == Ok <==> HeaderSize + |b.bytes| <= data.Length)
        && (r == Ok ==>
              && writeOffset as int == HeaderSize + |b.bytes|
              && data[..writeOffset] == old(data[..HeaderSize]) + b.bytes
              && data[writeOffset..] == old(data[writeOffset..])
              && left.State() == b.left && right.State() == b.right)
    {
      ghost var total := Blocks(pack, left.State(), right.State(), 0, numSamples, spb);
      ghost var head, orig := data[..HeaderSize], data[..];
      var progress: u32 := 0;
      writeOffset := HeaderSize;
      while progress < numSamples
        invariant HeaderSize <= writeOffset as int <= data.Length
        invariant ReadsFit(parameter.numChannels, |input[0]|, progress, numSamples, spb)
        invariant ReadsFit(parameter.numChannels, |input[parameter.numChannels - 1]|, progress, numSamples, spb)
        invariant Remaining(pack, left.State(), right.State(), progress, numSamples, spb, data[..writeOffset], head, total)
        invariant data[writeOffset..] == orig[writeOffset..]
        decreases numSamples - progress
      {
        r, progress, writeOffset := EncodeNextBlock(input, numSamples, spb, data, progress, writeOffset, pack, head, total, orig);
        if r != Ok {
          return;
        }
      }
      r := Ok;
    }

    /** One iteration of the block loop: the next block is written, or it does
      not fit and the whole stream does not fit either. */
    method EncodeNextBlock(input: seq<seq<i16>>, numSamples: u32, spb: u16, data: array<u8>,
                           progress: u32, writeOffset: u32,
                           ghost pack: BlockPacker, ghost head: seq<u8>, ghost total: Packed, ghost orig: seq<u8>)
      returns (r: ApiResult, nextProgress: u32, nextOffset: u32)
      requires Valid()
      requires parameter.numChannels == 1 || parameter.numChannels == 2
      requires spb > 0 && |input| >= parameter.numChannels
      requires PacksAs(pack, parameter.numChannels, input[0], input[parameter.numChannels - 1])
      requires progress < numSamples
      requires ReadsFit(parameter.numChannels, |input[0]|, progress, numSamples, spb)
      requires ReadsFit(parameter.numChannels, |input[parameter.numChannels - 1]|, progress, numSamples, spb)
      requires HeaderSize <= writeOffset as int <= data.Length <= 0xFFFF_FFFF
      requires Remaining(pack, left.State(), right.State(), progress, numSamples, spb, data[..writeOffset], head, total)
      requires |orig| == data.Length && data[writeOffset..] == orig[writeOffset..]
      modifies left, right, data
      ensures r == Ok || r == Ng
      ensures r != Ok ==> data.Length < |head| + |total.bytes|
      ensures r == Ok ==>
        && progress < nextProgress <= numSamples
        && HeaderSize <= nextOffset as int <= data.Length
        && ReadsFit(parameter.numChannels, |input[0]|, nextProgress, numSamples, spb)
        && ReadsFit(parameter.numChannels, |input[parameter.numChannels - 1]|, nextProgress, numSamples, spb)
        && Remaining(pack, left.State(), right.State(), nextProgress, numSamples, spb, data[..nextOffset], head, total)
        && data[nextOffset..] == orig[nextOffset..]
    {
      ghost var l, rr := input[0], input[parameter.numChannels - 1];
      var k := MinVal(spb, numSamples - progress);
      ReadsFitStep(parameter.numChannels, |l|, progress as nat, numSamples as nat, spb as nat);
      ReadsFitStep(parameter.numChannels, |rr|, progress as nat, numSamples as nat, spb as nat);
      ghost var stL, stR := left.State(), right.State();
      ghost var written, mid := data[..writeOffset], data[..];
      var size: u32;
      r, size := EncodeBlockAt(input, progress, k, data, writeOffset, pack);
      nextProgress, nextOffset := progress, writeOffset;
      if r == Ok {
        nextProgress := progress + k as u32;
        nextOffset := writeOffset + size;
        RemainingStep(pack, stL, stR, progress as nat, numSamples as nat, spb as nat, written, head, total, data[..nextOffset]);
        SuffixStep(orig, mid, data[..], writeOffset as nat, nextOffset as nat);
      }
    }

    /** EncodeBlock on the samples from progress on, in terms of the packer pack. */
    method EncodeBlockAt(input: seq<seq<i16>>, progress: u32, k: u32, data: array<u8>, offset: nat, ghost pack: BlockPacker)
      returns (r: ApiResult, size: u32)
      requires Valid()
      requires parameter.numChannels == 1 || parameter.numChannels == 2
      requires |input| >= parameter.numChannels
      requires PacksAs(pack, parameter.numChannels, input[0], input[parameter.numChannels - 1])
      requires progress as int + ReadLength(parameter.numChannels, k) <= |input[0]|
      requires progress as int + ReadLength(parameter.numChannels, k) <= |input[parameter.numChannels - 1]|
      requires offset <= data.Length <= 0xFFFF_FFFF
      modifies left, right, data
      ensures var b := pack(old(left.State()), old(right.State()), progress as nat, k as nat);
        && (r == Ok <==> |b.bytes| <= data.Length - offset)
        && (r != Ok ==> r == Ng && left.State() == old(left.State()) && right.State() == old(right.State())
                        && data[..] == old(data[..]))
        && (r == Ok ==>
              && size as int == |b.bytes|
              && data[..offset + size as int] == old(data[..offset]) + b.bytes
              && data[offset + size as int..] == old(data[offset + size as int..])
              && left.State() == b.left && right.State() == b.right)
    {
      ghost var ch := parameter.numChannels;
      ghost var l, rr := input[0], input[ch - 1];
      var ptrs := if parameter.numChannels == 1 then [input[0][progress..]]
                  else [input[0][progress..], input[1][progress..]];
      assert ptrs[0] == l[progress..] && ptrs[ch - 1] == rr[progress..];
      assert pack(left.State(), right.State(), progress as nat, k as nat)
          == PackedBlock(ch, left.State(), right.State(), l[progress..], rr[progress..], k);
      r, size := EncodeBlock(ptrs, k, data, offset);
    }

    /** MOIEncoder_EncodeWhole: the header made from the parameter, then the
      blocks of the whole input. */
    method EncodeWhole(input: seq<seq<i16>>, numSamples: u32, data: array?<u8>)
      returns (r: ApiResult, outputSize: u32)
      requires Valid()
      requires data != null ==> data.Length <= 0xFFFF_FFFF
      requires parameterSet ==> InputCovers(parameter, input, numSamples)
      modifies left, right, data
      ensures data == null ==> r == InvalidArgument && left.State() == old(left.State()) && right.State() == old(right.State())
      ensures data != null && !parameterSet ==>
        r == ParameterNotSet && data[..] == old(data[..])
        && left.State() == old(left.State()) && right.State() == old(right.State())
      ensures data != null && parameterSet && ConvertParameterToHeader(parameter, numSamples).Failure? ==>
        r == InvalidFormat && data[..] == old(data[..])
        && left.State() == old(left.State()) && right.State() == old(right.State())
      ensures data != null && parameterSet && ConvertParameterToHeader(parameter, numSamples).Success? ==>
        var h := ConvertParameterToHeader(parameter, numSamples).value;
        && SizesConsistent(h)
        && WholeWritten(ChannelPacker(h.numChannels, input), h, old(left.State()), old(right.State()), numSamples,
                        old(data[..]), data[..], r, outputSize, left.State(), right.State())
    {
      if data == null {
        return InvalidArgument, 0;
      }
      if !parameterSet {
        return ParameterNotSet, 0;
      }
      var converted := ConvertParameterToHeader(parameter, numSamples);
      if converted.Failure? {
        return InvalidFormat, 0;
      }
      var h := converted.value;
      ConvertedSizesConsistent(parameter, numSamples);
      if h.numChannels <= MaxNumChannels {
        ChannelPackerPacks(h.numChannels, input);
      }
      r, outputSize := EncodeHeaderAndBlocks(h, input, numSamples, data, ChannelPacker(h.numChannels, input));
    }

    /** The header and then the blocks, for a header made from the parameter;
      pack stands for the packer of the header's channel count over the input. */
    method EncodeHeaderAndBlocks(h: Header, input: seq<seq<i16>>, numSamples: u32, data: array<u8>,
                                 ghost pack: BlockPacker)
      returns (r: ApiResult, outputSize: u32)
      requires Valid()
      requires data.Length <= 0xFFFF_FFFF
      requires SizesConsistent(h) && h.numChannels == parameter.numChannels && h.numChannels >= 1
      requires h.bitsPerSample as nat == BitsPerSample
      requires h.numChannels <= MaxNumChannels ==>
        && |input| >= h.numChannels
        && PacksAs(pack, h.numChannels, input[0], input[h.numChannels - 1])
        && ReadsFit(h.numChannels, |input[0]|, 0, numSamples, h.numSamplesPerBlock)
        && ReadsFit(h.numChannels, |input[h.numChannels - 1]|, 0, numSamples, h.numSamplesPerBlock)
      modifies left, right, data
      ensures WholeWritten(pack, h, old(left.State()), old(right.State()), numSamples,
                           old(data[..]), data[..], r, outputSize, left.State(), right.State())
    {
      ghost var before, stL, stR := data[..], left.State(), right.State();
      r := EncodeHeader(h, data);
      if r != Ok {
        return r, 0;
      }
      ghost var mid := data[..];
      r, outputSize := EncodeStream(input, numSamples, h.numSamplesPerBlock, data, pack);
      WholeFromParts(pack, h, stL, stR, numSamples, before, mid, data[..], r, outputSize, left.State(), right.State());
    }
  }

  /** The header written over before, then the blocks written after it, make up
      the whole stream. */
  lemma WholeFromParts(pack: BlockPacker, h: Header, stL: EncoderState, stR: EncoderState, numSamples: u32,
                       before: seq<u8>, mid: seq<u8>, after: seq<u8>, r: ApiResult, outputSize: u32,
                       stL': EncoderState, stR': EncoderState)
    requires SizesConsistent(h) && h.numChannels <= MaxNumChannels
    requires HeaderSize <= |before| && |mid| == |before| && |after| == |before|
    requires mid[..HeaderSize] == HeaderBytes(h) && mid[HeaderSize..] == before[HeaderSize..]
    requires var b := Blocks(pack, stL, stR, 0, numSamples, h.numSamplesPerBlock);
      && (r == Ok || r == Ng)
      && (r == Ok <==> HeaderSize + |b.bytes| <= |before|)
      && (r == Ok ==>
            && outputSize as int == HeaderSize + |b.bytes|
            && after[..outputSize] == mid[..HeaderSize] + b.bytes
            && after[outputSize..] == mid[outputSize..]
            && stL' == b.left && stR' == b.right)
    ensures WholeWritten(pack, h, stL, stR, numSamples, before, after, r, outputSize, stL', stR')
  {
    if r == Ok {
      SuffixAgrees(mid, before, HeaderSize, outputSize as nat);
    }
  }

  /** What encoding a whole stream under the header h with the block packer pack
      leaves behind, from the core states stL, stR and the buffer contents before:
      the buffer contents after, the result, the output size and the core states
      after. */
  ghost predicate WholeWritten(pack: BlockPacker, h: Header, stL: EncoderState, stR: EncoderState, numSamples: u32,
                               before: seq<u8>, after: seq<u8>, r: ApiResult, outputSize: u32,
                               stL': EncoderState, stR': EncoderState)
    requires SizesConsistent(h)
  {
    && |after| == |before|
    && (|before| < HeaderSize ==> r == InsufficientData && after == before && stL' == stL && stR' == stR)
    && (|before| >= HeaderSize && h.numChannels > MaxNumChannels ==>
          && r == InvalidFormat && after[..22] == HeaderBytes(h)[..22] && after[22..] == before[22..]
          && stL' == stL && stR' == stR)
    && (|before| >= HeaderSize && h.numChannels <= MaxNumChannels ==>
          var b := Blocks(pack, stL, stR, 0, numSamples, h.numSamplesPerBlock);
          && (r == Ok <==> HeaderSize + |b.bytes| <= |before|)
          && (r != Ok ==> r == Ng)
          && (r == Ok ==>
                && outputSize as int == HeaderSize + |b.bytes|
                && after[..outputSize] == HeaderBytes(h) + b.bytes
                && after[outputSize..] == before[outputSize..]
                && stL' == b.left && stR' == b.right))
  }
}
