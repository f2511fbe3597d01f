/** Internal helpers of the codec: rounding and clamping macros, the internal error
    type and the two IMA-ADPCM lookup tables (libs/moicodec/include/moi_internal.h). */
module MoiInternal {
  import opened MoiTypes

  /** MOI_ROUND_UP: the least multiple of n that is at least v. */
  function RoundUp(v: nat, n: nat): (r: nat)
    requires n > 0
    ensures r % n == 0
    ensures v <= r < v + n
  {
    var q := (v + n - 1) / n;
    MultipleOf(q, n);
    q * n
  }

  /** (q * n) is a multiple of n. */
  lemma MultipleOf(q: nat, n: nat)
    requires n > 0
    ensures (q * n) % n == 0
  {
    var d, m := (q * n) / n, (q * n) % n;
    assert (q - d) * n == m;
    if q - d > 0 {
      ProductAtLeast(q - d, n);
      assert false;
    } else if d - q > 0 {
      ProductAtLeast(d - q, n);
      assert false;
    }
  }

  lemma ProductAtLeast(k: int, n: int)
    requires k >= 1 && n > 0
    ensures k * n >= n
  {
  }

  /** MOI_MIN_VAL */
  function MinVal(a: int, b: int): (r: int)
    ensures r == a || r == b
    ensures r <= a && r <= b
  {
    if a < b then a else b
  }

  /** MOI_MAX_VAL */
  function MaxVal(a: int, b: int): (r: int)
    ensures r == a || r == b
    ensures r >= a && r >= b
  {
    if a > b then a else b
  }

  /** MOI_INNER_VAL: v clamped to the closed range [lo, hi] (the upper bound is
      included, whatever the source's comment says). */
  function InnerVal(v: int, lo: int, hi: int): (r: int)
    ensures lo <= hi ==> lo <= r <= hi
    ensures lo <= v <= hi ==> r == v
    ensures lo <= hi && v < lo ==> r == lo
    ensures lo <= hi && hi < v ==> r == hi
  {
    MaxVal(lo, MinVal(hi, v))
  }

  /** Distance between two samples. */
  function Distance(a: int, b: int): nat
  {
    if a < b then b - a else a - b
  }

  /** Internal error codes of the block coders. */
  datatype Error =
    | ErrOk
    | ErrNg
    | ErrInvalidArgument
    | ErrInvalidFormat
    | ErrInsufficientBuffer
    | ErrInsufficientData

  /** Numeric value of each internal error code, in declaration order from 0. */
  function ErrorCode(e: Error): (c: nat)
    ensures c < 6
    ensures c == 0 <==> e == ErrOk
  {
    match e
    case ErrOk => 0
    case ErrNg => 1
    case ErrInvalidArgument => 2
    case ErrInvalidFormat => 3
    case ErrInsufficientBuffer => 4
    case ErrInsufficientData => 5
  }

  /** The translation the block encoder and decoder apply to an internal error.
      Only the first four codes keep their meaning: INSUFFICIENT_DATA falls into
      the default branch and becomes NG. */
  function ToApiResult(e: Error): (r: ApiResult)
    ensures r == Ok <==> e == ErrOk
    ensures r == InvalidArgument <==> e == ErrInvalidArgument
    ensures r == InvalidFormat <==> e == ErrInvalidFormat
    ensures r == InsufficientBuffer <==> e == ErrInsufficientBuffer
    ensures r == Ng <==> (e == ErrNg || e == ErrInsufficientData)
    ensures r != InsufficientData && r != ParameterNotSet
  {
    match e
    case ErrOk => Ok
    case ErrInvalidArgument => InvalidArgument
    case ErrInvalidFormat => InvalidFormat
    case ErrInsufficientBuffer => InsufficientBuffer
    case _ => Ng
  }

  /** The difference a code of the given magnitude stands for,
      (step * (2 * magnitude + 1)) >> 3, as both the encoder and the decoder
      compute it. One case per magnitude keeps the solver's arithmetic linear;
      QuantisedDifferenceIsQuotient shows it is the source's expression. */
  function QuantisedDifference(step: nat, magnitude: nat): (q: nat)
    requires magnitude <= 7
    ensures q <= 2 * step
  {
    match magnitude
    case 0 => step / 8
    case 1 => (3 * step) / 8
    case 2 => (5 * step) / 8
    case 3 => (7 * step) / 8
    case 4 => (9 * step) / 8
    case 5 => (11 * step) / 8
    case 6 => (13 * step) / 8
    case _ => (15 * step) / 8
  }

  /** The case table is the source's shift-and-multiply expression. */
  lemma QuantisedDifferenceIsQuotient(step: nat, magnitude: nat)
    requires magnitude <= 7
    ensures QuantisedDifference(step, magnitude) == (step * (2 * magnitude + 1)) / 8
  {
    assert step * (2 * magnitude + 1) == (2 * magnitude + 1) * step;
  }

  /** A computed value, or the internal error that stopped the computation. */
  datatype Outcome<T> = Success(value: T) | Failure(error: Error)

  /** A 4-bit ADPCM code: bit 3 is the sign, bits 0-2 the magnitude. */
  type Nibble = x: int | 0 <= x < 16

  /** A valid index into the step-size table. */
  type StepIndex = x: int | 0 <= x <= 88

  /** MOI_index_table: how a code moves the step-size index. */
  function IndexTable(k: Nibble): (d: int)
    ensures -1 <= d <= 8
  {
    match k
    case 0 => -1  case 1 => -1  case 2 => -1  case 3 => -1  case 4 => 2  case 5 => 4  case 6 => 6  case 7 => 8
    case 8 => -1  case 9 => -1  case 10 => -1  case 11 => -1  case 12 => 2  case 13 => 4  case 14 => 6  case _ => 8
  }

  /** The index table ignores the sign bit: it depends only on the magnitude, which
      lowers the index by one for magnitudes 0-3 and raises it by 2(m-3) for 4-7. */
  lemma IndexTableShape(k: Nibble)
    ensures IndexTable(k) == IndexTable(k % 8)
    ensures k % 8 < 4 ==> IndexTable(k) == -1
    ensures k % 8 >= 4 ==> IndexTable(k) == 2 * (k % 8 - 3)
  {
  }

  /** MOI_stepsize_table: the 89 IMA-ADPCM quantiser step sizes. */
  function StepsizeTable(i: StepIndex): (s: nat)
    ensures 7 <= s <= 32767
  {
    match i
    case 0 => 7  case 1 => 8  case 2 => 9  case 3 => 10  case 4 => 11  case 5 => 12  case 6 => 13  case 7 => 14
    case 8 => 16  case 9 => 17  case 10 => 19  case 11 => 21  case 12 => 23  case 13 => 25  case 14 => 28  case 15 => 31
    case 16 => 34  case 17 => 37  case 18 => 41  case 19 => 45  case 20 => 50  case 21 => 55  case 22 => 60  case 23 => 66
    case 24 => 73  case 25 => 80  case 26 => 88  case 27 => 97  case 28 => 107  case 29 => 118  case 30 => 130  case 31 => 143
    case 32 => 157  case 33 => 173  case 34 => 190  case 35 => 209  case 36 => 230  case 37 => 253  case 38 => 279  case 39 => 307
    case 40 => 337  case 41 => 371  case 42 => 408  case 43 => 449  case 44 => 494  case 45 => 544  case 46 => 598  case 47 => 658
    case 48 => 724  case 49 => 796  case 50 => 876  case 51 => 963  case 52 => 1060  case 53 => 1166  case 54 => 1282  case 55 => 1411
    case 56 => 1552  case 57 => 1707  case 58 => 1878  case 59 => 2066  case 60 => 2272  case 61 => 2499  case 62 => 2749  case 63 => 3024
    case 64 => 3327  case 65 => 3660  case 66 => 4026  case 67 => 4428  case 68 => 4871  case 69 => 5358  case 70 => 5894  case 71 => 6484
    case 72 => 7132  case 73 => 7845  case 74 => 8630  case 75 => 9493  case 76 => 10442  case 77 => 11487  case 78 => 12635  case 79 => 13899
    case 80 => 15289  case 81 => 16818  case 82 => 18500  case 83 => 20350  case 84 => 22385  case 85 => 24623  case 86 => 27086  case 87 => 29794
    case _ => 32767  // index 88
  }

  /** The step-size table runs from 7 to 32767 and increases from each entry to the next. */
  lemma StepsizeTableAdjacent(i: StepIndex)
    requires i < 88
    ensures StepsizeTable(0) == 7 && StepsizeTable(88) == 32767
    ensures StepsizeTable(i) < StepsizeTable(i + 1)
  {
    if i < 22 {
    } else if i < 44 {
    } else if i < 66 {
    } else {
    }
  }

  /** The step-size table is strictly increasing. */
  lemma StepsizeTableIncreasing(i: StepIndex, j: StepIndex)
    requires i < j
    ensures StepsizeTable(i) < StepsizeTable(j)
  {
    forall k: StepIndex | k < 88 ensures StepsizeTable(k) < StepsizeTable(k + 1) {
      StepsizeTableAdjacent(k);
    }
    ChainIncreasing(StepsizeTable, i, j);
  }

  /** A table whose every entry is below the next is strictly increasing. */
  lemma {:induction false} ChainIncreasing(f: StepIndex -> nat, i: StepIndex, j: StepIndex)
    requires forall k: StepIndex :: k < 88 ==> f(k) < f(k + 1)
    requires i < j
    ensures f(i) < f(j)
  {
    if i < j - 1 {
      ChainIncreasing(f, i, j - 1);
    }
  }
}
