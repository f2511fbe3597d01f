/** Public types and constants of the MOI IMA-ADPCM codec (include/moi.h). */
module MoiTypes {

  /** Fixed-width integers of the C interface. */
  type u8 = x: int | 0 <= x < 0x100
  type u16 = x: int | 0 <= x < 0x1_0000
  type u32 = x: int | 0 <= x < 0x1_0000_0000
  type i16 = x: int | -0x8000 <= x < 0x8000

  /** Unsigned 32-bit arithmetic wraps modulo 2^32. */
  function U32(x: int): (r: u32)
    ensures 0 <= x < 0x1_0000_0000 ==> r == x
  {
    x % 0x1_0000_0000
  }

  /** Casting a uint32 or int value to uint16 keeps its low 16 bits. */
  function U16(x: int): (r: u16)
    ensures 0 <= x < 0x1_0000 ==> r == x
  {
    x % 0x1_0000
  }

  /** The two's-complement bit pattern of a 16-bit signed value. */
  function I16ToU16(x: i16): (r: u16)
    ensures x >= 0 ==> r == x
    ensures x < 0 ==> r == x + 0x1_0000
  {
    if x < 0 then x + 0x1_0000 else x
  }

  /** Reading a 16-bit pattern back as a signed value. */
  function U16ToI16(x: u16): (r: i16)
    ensures I16ToU16(r) == x
  {
    if x >= 0x8000 then x - 0x1_0000 else x
  }

  /** Storing a signed 16-bit value as its bit pattern and reading it back gives it back. */
  lemma I16RoundTrip(x: i16)
    ensures U16ToI16(I16ToU16(x)) == x
  {
  }

  /** Largest number of channels the codec handles. */
  const MaxNumChannels: nat := 2
  /** Bits per sample are fixed at 4. */
  const BitsPerSample: nat := 4
  /** Search limits of the encoder's parameters (stored, never used by encoding). */
  const MaxSearchBeamWidth: nat := 16
  const MaxSearchDepth: nat := 8

  /** Result of every public operation. */
  datatype ApiResult =
    | Ok
    | InvalidArgument
    | InvalidFormat
    | InsufficientBuffer
    | InsufficientData
    | ParameterNotSet
    | Ng

  /** The numeric value of each result code, in declaration order from 0. */
  function ApiCode(r: ApiResult): (c: nat)
    ensures c < 7
    ensures c == 0 <==> r == Ok
  {
    match r
    case Ok => 0
    case InvalidArgument => 1
    case InvalidFormat => 2
    case InsufficientBuffer => 3
    case InsufficientData => 4
    case ParameterNotSet => 5
    case Ng => 6
  }

  /** No two result values share a code. */
  lemma ApiCodeInjective(a: ApiResult, b: ApiResult)
    ensures ApiCode(a) == ApiCode(b) ==> a == b
  {
  }

  /** Header of an IMA-ADPCM WAVE file: 16-bit and 32-bit fields as in the C struct. */
  datatype Header = Header(
    numChannels: u16,
    samplingRate: u32,
    bytesPerSec: u32,
    blockSize: u16,
    bitsPerSample: u16,
    numSamplesPerBlock: u16,
    numSamples: u32,
    headerSize: u32)

  /** The all-zero header the C code starts from. */
  const ZeroHeader: Header := Header(0, 0, 0, 0, 0, 0, 0, 0)

  /** Encoding parameters. The two search fields are stored but not used by encoding. */
  datatype EncodeParameter = EncodeParameter(
    numChannels: u16,
    samplingRate: u32,
    bitsPerSample: u16,
    blockSize: u16,
    searchBeamWidth: u32,
    searchDepth: u32)

  /** The all-zero parameter a freshly created encoder holds. */
  const ZeroParameter: EncodeParameter := EncodeParameter(0, 0, 0, 0, 0, 0)
}
