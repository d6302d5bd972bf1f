/** The converter from the bladeRF's interleaved little-endian 16-bit I/Q
    words to floating-point samples, either directly through a 4096-entry
    table or mixed down to a channel through a rotating table of cosine and
    sine rows. Floats are modelled as reals, and the cosine and sine values
    of the mixer rows are oracles. */
module IqConverter {
  import opened JavaTypes
  import Utils

  /** Entries of the direct table and columns of the mixer tables. */
  const TABLE_LENGTH := 4096

  /** Table index of the sample value 0. */
  const ZERO_CODE := 2048

  /** Entry `code` of the direct table, `(code - 2048) / 2048.0f`: a dyadic
      rational that a float holds exactly. */
  function Level(code: int): real
  {
    (code - ZERO_CODE) as real / 2048.0
  }

  /** The direct table runs from -1 at entry 0 through 0 at entry 2048 to
      2047/2048 at its last entry, in steps of 1/2048. */
  lemma LevelRange(code: int)
    ensures 0 <= code < TABLE_LENGTH ==> -1.0 <= Level(code) <= 2047.0 / 2048.0
    ensures code == 0 ==> Level(code) == -1.0
    ensures code == ZERO_CODE ==> Level(code) == 0.0
    ensures Level(code + 1) - Level(code) == 1.0 / 2048.0
  {
  }

  /** A mixer table entry: the level of column `code` weighted by the
      cosine or sine of a row's phase. */
  function Weighted(code: int, weight: real): real
  {
    Level(code) * weight
  }

  // ---------------------------------------------------------------------
  // Decoding one word

  /** The word the source decodes from a low and a high byte,
      `(short) (((short) hi << 8) | (short) lo)`. Both bytes are
      sign-extended before the `|`. A low byte of 0x80 or more therefore
      brings 24 one-bits with it, which cover the shifted high byte: the
      word is the low byte read as a signed number. Otherwise the `|` adds
      the shifted high byte and the low byte. */
  function DecodeAsWritten(lo: i8, hi: i8): i16
  {
    if lo < 0 then lo as int else hi as int * 0x100 + lo as int
  }

  /** The little-endian signed 16-bit word of the two bytes, with the low
      byte taken unsigned (`lo & 0xff`): the decoding the converter needs. */
  function Decode(lo: i8, hi: i8): i16
  {
    hi as int * 0x100 + Unsigned8(lo)
  }

  /** Decode keeps the bit pattern of the two bytes, low byte first. */
  lemma DecodeBits(lo: i8, hi: i8)
    ensures Decode(lo, hi) % 0x1_0000 == Unsigned8(lo) + 0x100 * Unsigned8(hi)
  {
    var w := Decode(lo, hi);
    assert w - (Unsigned8(lo) + 0x100 * Unsigned8(hi)) == 0x100 * (hi as int - Unsigned8(hi));
    WrapResidue(w, Unsigned8(lo) + 0x100 * Unsigned8(hi), 0x1_0000);
  }

  /** Decode reads the same word as the little-endian field reader. */
  lemma DecodeIsGetShort(lo: i8, hi: i8)
    ensures Decode(lo, hi) == Utils.GetShort([lo, hi], 0, 2)
  {
    DecodeBits(lo, hi);
    EqualShorts(Decode(lo, hi), Utils.GetShort([lo, hi], 0, 2));
  }

  /** Two shorts with the same bit pattern are equal. */
  lemma EqualShorts(a: i16, b: i16)
    requires a % 0x1_0000 == b % 0x1_0000
    ensures a == b
  {
    var ra, rb := a % 0x1_0000, b % 0x1_0000;
    DivModUnique(a, 0x1_0000, if a < 0 then -1 else 0, if a < 0 then a + 0x1_0000 else a);
    DivModUnique(b, 0x1_0000, if b < 0 then -1 else 0, if b < 0 then b + 0x1_0000 else b);
  }

  /** Every 16-bit word survives a trip through its two bytes. */
  lemma DecodeRoundTrip(v: i16)
    ensures Decode(ByteOf(v, 0), ByteOf(v, 1)) == v
  {
    var lo, hi := ByteOf(v, 0), ByteOf(v, 1);
    assert Pow256(0) == 1 && Pow256(1) == 0x100;
    Utils.ToI8Unsigned(v % 0x100);
    assert Unsigned8(lo) == v % 0x100;
    var q := v / 0x100;
    assert -0x80 <= q < 0x80;
    Utils.SignedRoundTrip(q, q % 0x100, 0x100);
    assert hi as int == q;
  }

  /** The decoding as written agrees with the intended one exactly when the
      low byte is below 0x80 or the high byte is 0xff. */
  lemma AsWrittenAgrees(lo: i8, hi: i8)
    ensures DecodeAsWritten(lo, hi) == Decode(lo, hi) <==> lo >= 0 || hi == -1
  {
    if lo < 0 {
      assert Unsigned8(lo) == lo as int + 0x100;
      assert Decode(lo, hi) == (hi as int + 1) * 0x100 + lo as int;
    }
  }

  /** The 12-bit sample 200 travels as the bytes 0xC8, 0x00; as written it
      is read back as -56. */
  lemma AsWrittenMisreads200()
    ensures ByteOf(200, 0) == -56 && ByteOf(200, 1) == 0
    ensures Decode(-56, 0) == 200
    ensures DecodeAsWritten(-56, 0) == -56
  {
    assert Pow256(0) == 1 && Pow256(1) == 0x100;
  }

  /** On 12-bit samples the decoding as written is right exactly for those
      whose low byte is below 0x80 and for those in [-128, 0). */
  lemma AsWrittenOnTwelveBits(v: int)
    requires -ZERO_CODE <= v < ZERO_CODE
    ensures DecodeAsWritten(ByteOf(v, 0), ByteOf(v, 1)) == v <==> v % 0x100 < 0x80 || -0x80 <= v < 0
  {
    var lo, hi := ByteOf(v, 0), ByteOf(v, 1);
    assert Pow256(0) == 1 && Pow256(1) == 0x100;
    assert v / 1 == v;
    assert lo == ToI8(v % 0x100);
    assert (lo < 0) == (v % 0x100 >= 0x80);
    var q := v / 0x100;
    assert -0x80 <= q < 0x80;
    Utils.SignedRoundTrip(q, q % 0x100, 0x100);
    assert hi as int == q;
    AsWrittenAgrees(lo, hi);
    DecodeRoundTrip(v);
    assert (hi == -1) == (-0x100 <= v < 0);
  }

  /** `sample + 2048` indexes a 4096-entry table exactly for 12-bit samples;
      any other word makes the lookup throw. */
  predicate InTable(sample: int)
  {
    -ZERO_CODE <= sample < ZERO_CODE
  }

  /** Every 12-bit sample, sent as its two bytes, lands in the table at its
      own value plus 2048. */
  lemma TwelveBitSamplesInTable(v: int)
    requires -ZERO_CODE <= v < ZERO_CODE
    ensures InTable(Decode(ByteOf(v, 0), ByteOf(v, 1)))
    ensures Level(Decode(ByteOf(v, 0), ByteOf(v, 1)) + ZERO_CODE) * 2048.0 == v as real
  {
    DecodeRoundTrip(v);
  }

  // ---------------------------------------------------------------------
  // Samples of a packet

  /** Every 12-bit sample, decoded as written, still lands in the table:
      the lookup never throws on it, and it reads the level of its own
      value exactly when the decoding as written is right for it. */
  lemma AsWrittenTwelveBitLevel(v: int)
    requires -ZERO_CODE <= v < ZERO_CODE
    ensures InTable(DecodeAsWritten(ByteOf(v, 0), ByteOf(v, 1)))
    ensures Level(DecodeAsWritten(ByteOf(v, 0), ByteOf(v, 1)) + ZERO_CODE) * 2048.0 == v as real
            <==> v % 0x100 < 0x80 || -0x80 <= v < 0
  {
    var lo, hi := ByteOf(v, 0), ByteOf(v, 1);
    AsWrittenOnTwelveBits(v);
    if lo >= 0 {
      AsWrittenAgrees(lo, hi);
      DecodeRoundTrip(v);
    }
  }

  /** The I word of sample k as the converter reads it: bytes 4k (low)
      and 4k + 1 (high), decoded as written. */
  function SampleI(packet: seq<i8>, k: int): i16
    requires 0 <= k && 4 * k + 3 < |packet|
  {
    DecodeAsWritten(packet[4 * k], packet[4 * k + 1])
  }

  /** The Q word of sample k as the converter reads it: bytes 4k + 2 (low)
      and 4k + 3 (high), decoded as written. */
  function SampleQ(packet: seq<i8>, k: int): i16
    requires 0 <= k && 4 * k + 3 < |packet|
  {
    DecodeAsWritten(packet[4 * k + 2], packet[4 * k + 3])
  }

  /** The I and Q words of sample k as the hardware means them. */
  function IntendedI(packet: seq<i8>, k: int): i16
    requires 0 <= k && 4 * k + 3 < |packet|
  {
    Decode(packet[4 * k], packet[4 * k + 1])
  }

  function IntendedQ(packet: seq<i8>, k: int): i16
    requires 0 <= k && 4 * k + 3 < |packet|
  {
    Decode(packet[4 * k + 2], packet[4 * k + 3])
  }

  /** The I (resp. Q) word of sample k has a low byte below 0x80 or a high
      byte of 0xff. */
  predicate IWordSafe(packet: seq<i8>, k: int)
    requires 0 <= k && 4 * k + 3 < |packet|
  {
    packet[4 * k] >= 0 || packet[4 * k + 1] == -1
  }

  predicate QWordSafe(packet: seq<i8>, k: int)
    requires 0 <= k && 4 * k + 3 < |packet|
  {
    packet[4 * k + 2] >= 0 || packet[4 * k + 3] == -1
  }

  /** The converter reads a word of a packet as intended exactly when the
      word is safe. */
  lemma SamplesAsIntended(packet: seq<i8>, k: int)
    requires 0 <= k && 4 * k + 3 < |packet|
    ensures SampleI(packet, k) == IntendedI(packet, k) <==> IWordSafe(packet, k)
    ensures SampleQ(packet, k) == IntendedQ(packet, k) <==> QWordSafe(packet, k)
  {
    AsWrittenAgrees(packet[4 * k], packet[4 * k + 1]);
    AsWrittenAgrees(packet[4 * k + 2], packet[4 * k + 3]);
  }

  /** `Math.min(packet.length / 4, capacity)`: the samples a call converts. */
  function Count(length: nat, capacity: nat): (n: nat)
    ensures n <= length / 4 && n <= capacity
    ensures n == length / 4 || n == capacity
    ensures 4 * n <= length
  {
    if length / 4 <= capacity then length / 4 else capacity
  }

  /** How step k of a conversion ends: it stores both values, or it throws
      before storing the `re` value, or after it but before the `im` one. */
  datatype StepEnd = Stores | FailsOnRe | FailsOnIm

  /** Step k of a conversion starting at position `start` of arrays of
      lengths `reLength` and `imLength`. Each table lookup on the right of
      an assignment is evaluated before the store's bounds are checked.
      Filling looks up the I word for `re` and the Q word for `im`; mixing
      looks up both words for each of the two values. */
  function StepOf(mixing: bool, packet: seq<i8>, k: int, start: int, reLength: int, imLength: int): StepEnd
    requires 0 <= k && 4 * k + 3 < |packet|
  {
    var i, q := SampleI(packet, k), SampleQ(packet, k);
    var reFits, imFits := 0 <= start + k < reLength, 0 <= start + k < imLength;
    if mixing then
      if !InTable(i) || !InTable(q) || !reFits then FailsOnRe
      else if !imFits then FailsOnIm
      else Stores
    else
      if !InTable(i) || !reFits then FailsOnRe
      else if !InTable(q) || !imFits then FailsOnIm
      else Stores
  }

  /** The first step from k on, below n, that throws; n when none does. */
  function FirstFailure(mixing: bool, packet: seq<i8>, start: int, reLength: int, imLength: int,
                        k: nat, n: nat): (f: nat)
    requires k <= n && 4 * n <= |packet|
    ensures k <= f <= n
    ensures forall j :: k <= j < f ==> StepOf(mixing, packet, j, start, reLength, imLength) == Stores
    ensures f < n ==> StepOf(mixing, packet, f, start, reLength, imLength) != Stores
    decreases n - k
  {
    if k == n then n
    else if StepOf(mixing, packet, k, start, reLength, imLength) != Stores then k
    else FirstFailure(mixing, packet, start, reLength, imLength, k + 1, n)
  }

  /** The number of `re` values a conversion stores: those of the steps
      before the first failure, and that step's own when it fails on `im`. */
  function ReStored(mixing: bool, packet: seq<i8>, start: int, reLength: int, imLength: int, n: nat): (w: nat)
    requires 4 * n <= |packet|
  {
    var f := FirstFailure(mixing, packet, start, reLength, imLength, 0, n);
    if f < n && StepOf(mixing, packet, f, start, reLength, imLength) == FailsOnIm then f + 1 else f
  }

  /** The `re` values filling stores for the first n samples: the levels of
      their I words. */
  function LevelsI(packet: seq<i8>, n: nat): (r: seq<real>)
    requires 4 * n <= |packet|
    ensures |r| == n
    ensures forall k :: 0 <= k < n ==> r[k] == Level(SampleI(packet, k) + ZERO_CODE)
  {
    if n == 0 then [] else LevelsI(packet, n - 1) + [Level(SampleI(packet, n - 1) + ZERO_CODE)]
  }

  /** The `im` values filling stores: the levels of the Q words. */
  function LevelsQ(packet: seq<i8>, n: nat): (r: seq<real>)
    requires 4 * n <= |packet|
    ensures |r| == n
    ensures forall k :: 0 <= k < n ==> r[k] == Level(SampleQ(packet, k) + ZERO_CODE)
  {
    if n == 0 then [] else LevelsQ(packet, n - 1) + [Level(SampleQ(packet, n - 1) + ZERO_CODE)]
  }

  /** A level names its table entry: different entries hold different
      levels. */
  lemma LevelInjective(a: int, b: int)
    requires Level(a) == Level(b)
    ensures a == b
  {
  }

  /** Filling stores the intended level of every I word exactly when every
      I word is safe; the first unsafe word is stored with a wrong level. */
  lemma LevelsIAsIntended(packet: seq<i8>, n: nat)
    requires 4 * n <= |packet|
    ensures (forall k :: 0 <= k < n ==> LevelsI(packet, n)[k] == Level(IntendedI(packet, k) + ZERO_CODE))
            <==> (forall k :: 0 <= k < n ==> IWordSafe(packet, k))
  {
    forall k | 0 <= k < n
      ensures LevelsI(packet, n)[k] == Level(IntendedI(packet, k) + ZERO_CODE) <==> IWordSafe(packet, k)
    {
      SamplesAsIntended(packet, k);
      if LevelsI(packet, n)[k] == Level(IntendedI(packet, k) + ZERO_CODE) {
        LevelInjective(SampleI(packet, k) + ZERO_CODE, IntendedI(packet, k) + ZERO_CODE);
      }
    }
  }

  /** The same for the Q words and the `im` values. */
  lemma LevelsQAsIntended(packet: seq<i8>, n: nat)
    requires 4 * n <= |packet|
    ensures (forall k :: 0 <= k < n ==> LevelsQ(packet, n)[k] == Level(IntendedQ(packet, k) + ZERO_CODE))
            <==> (forall k :: 0 <= k < n ==> QWordSafe(packet, k))
  {
    forall k | 0 <= k < n
      ensures LevelsQ(packet, n)[k] == Level(IntendedQ(packet, k) + ZERO_CODE) <==> QWordSafe(packet, k)
    {
      SamplesAsIntended(packet, k);
      if LevelsQ(packet, n)[k] == Level(IntendedQ(packet, k) + ZERO_CODE) {
        LevelInjective(SampleQ(packet, k) + ZERO_CODE, IntendedQ(packet, k) + ZERO_CODE);
      }
    }
  }

  /** Mixer tables of a common shape: equally many rows of 4096 columns. */
  predicate MixerShape(cosines: array2<real>, sines: array2<real>)
  {
    cosines.Length0 == sines.Length0 > 0 && cosines.Length1 == sines.Length1 == TABLE_LENGTH
  }

  /** A rotation through the mixer rows: the mixer frequency and sample
      rate the rows were built for, their number, the starting row, and the
      cosine and sine of each row's phase. */
  datatype Rotation = Rotation(mix: i32, rate: i32, rows: Positive, c0: nat,
                               cosineAt: (int, int, int) -> real, sineAt: (int, int, int) -> real)
  {
    /** The row sample k of the run is mixed with. */
    function Row(k: nat): (row: nat)
      ensures row < rows
    {
      Wrap(c0 + k, rows)
    }

    function Cos(k: nat): real { cosineAt(mix, Row(k), rate) }

    function Sin(k: nat): real { sineAt(mix, Row(k), rate) }
  }

  /** x reduced below m by taking m away while it fits: where a rotation
      through m rows stands after x steps from row 0. */
  function Wrap(x: nat, m: Positive): (r: nat)
    ensures r < m
    decreases x
  {
    if x < m then x else Wrap(x - m, m)
  }

  /** Wrapping is Java's (and Dafny's) remainder on naturals. */
  lemma {:induction false} WrapIsRemainder(x: nat, m: Positive)
    ensures Wrap(x, m) == x % m
    decreases x
  {
    if x < m {
      DivModUnique(x, m, 0, x);
    } else {
      WrapIsRemainder(x - m, m);
      DivModUnique(x, m, (x - m) / m + 1, (x - m) % m);
    }
  }

  /** One more sample moves the rotation to the next row, back to row 0
      after the last: the source's `(cosineIndex + 1) % rows`. */
  lemma RowNext(rot: Rotation, k: nat)
    ensures rot.Row(k + 1) == (rot.Row(k) + 1) % rot.rows
  {
    WrapIsRemainder(rot.c0 + k, rot.rows);
    WrapIsRemainder(rot.c0 + k + 1, rot.rows);
    RowAfter(rot.c0, k, 1, rot.rows);
  }

  /** A rotation carries over between runs: a run starting where another
      stopped after k1 samples is, k2 samples on, where one run of k1 + k2
      samples stops. */
  lemma RowsCarryOver(rot: Rotation, k1: nat, k2: nat)
    ensures rot.(c0 := rot.Row(k1)).Row(k2) == rot.Row(k1 + k2)
  {
    WrapIsRemainder(rot.c0 + k1, rot.rows);
    WrapIsRemainder(rot.Row(k1) + k2, rot.rows);
    WrapIsRemainder(rot.c0 + k1 + k2, rot.rows);
    RowAfter(rot.c0, k1, k2, rot.rows);
  }

  /** The real part of the sample (I + jQ) turned by the phase of sample
      k's row, (I + jQ)(cos + j sin), each part read from the tables. */
  function MixRe(i: int, q: int, rot: Rotation, k: nat): real
  {
    Weighted(i + ZERO_CODE, rot.Cos(k)) - Weighted(q + ZERO_CODE, rot.Sin(k))
  }

  /** The imaginary part of the same product. */
  function MixIm(i: int, q: int, rot: Rotation, k: nat): real
  {
    Weighted(q + ZERO_CODE, rot.Cos(k)) + Weighted(i + ZERO_CODE, rot.Sin(k))
  }

  /** The tables' entries at sample k's row give the turned sample. */
  lemma TablesTurn(cosines: array2<real>, sines: array2<real>, rot: Rotation, k: nat, i: int, q: int)
    requires MixerRows(cosines, sines, rot.mix, rot.rate, rot.cosineAt, rot.sineAt)
    requires rot.rows == cosines.Length0 && InTable(i) && InTable(q)
    ensures cosines[rot.Row(k), i + ZERO_CODE] - sines[rot.Row(k), q + ZERO_CODE] == MixRe(i, q, rot, k)
    ensures cosines[rot.Row(k), q + ZERO_CODE] + sines[rot.Row(k), i + ZERO_CODE] == MixIm(i, q, rot, k)
  {
  }

  /** The `re` values mixing stores for the first n samples: the real part
      of (I + jQ) times (cos + j sin) at each sample's row. */
  function MixedRe(packet: seq<i8>, n: nat, rot: Rotation): (r: seq<real>)
    requires 4 * n <= |packet|
    ensures |r| == n
  {
    if n == 0 then []
    else
      var k := n - 1;
      MixedRe(packet, k, rot)
        + [MixRe(SampleI(packet, k), SampleQ(packet, k), rot, k)]
  }

  /** The `im` values mixing stores: the imaginary part of the same
      product. */
  function MixedIm(packet: seq<i8>, n: nat, rot: Rotation): (r: seq<real>)
    requires 4 * n <= |packet|
    ensures |r| == n
  {
    if n == 0 then []
    else
      var k := n - 1;
      MixedIm(packet, k, rot)
        + [MixIm(SampleI(packet, k), SampleQ(packet, k), rot, k)]
  }

  /** Value k of a mixing run is sample k turned by the phase of its
      row. */
  lemma {:induction false} MixedAt(packet: seq<i8>, n: nat, rot: Rotation, k: nat)
    requires 4 * n <= |packet| && k < n
    ensures MixedRe(packet, n, rot)[k] == MixRe(SampleI(packet, k), SampleQ(packet, k), rot, k)
    ensures MixedIm(packet, n, rot)[k] == MixIm(SampleI(packet, k), SampleQ(packet, k), rot, k)
  {
    if k < n - 1 {
      MixedAt(packet, n - 1, rot, k);
    }
  }

  /** When every word of the first n samples is safe, mixing turns the
      intended samples. */
  lemma MixedAsIntended(packet: seq<i8>, n: nat, rot: Rotation)
    requires 4 * n <= |packet|
    requires forall k :: 0 <= k < n ==> IWordSafe(packet, k) && QWordSafe(packet, k)
    ensures forall k :: 0 <= k < n ==>
      MixedRe(packet, n, rot)[k] == MixRe(IntendedI(packet, k), IntendedQ(packet, k), rot, k) &&
      MixedIm(packet, n, rot)[k] == MixIm(IntendedI(packet, k), IntendedQ(packet, k), rot, k)
  {
    forall k | 0 <= k < n
      ensures MixedRe(packet, n, rot)[k] == MixRe(IntendedI(packet, k), IntendedQ(packet, k), rot, k)
      ensures MixedIm(packet, n, rot)[k] == MixIm(IntendedI(packet, k), IntendedQ(packet, k), rot, k)
    {
      SamplesAsIntended(packet, k);
      MixedAt(packet, n, rot, k);
    }
  }

  /** Array `a` holds `before` with `values` written from position `start`
      on (those positions that exist), and nothing else changed. */
  ghost predicate Written(a: array<real>, before: seq<real>, start: int, values: seq<real>)
    reads a
  {
    a.Length == |before| &&
    forall j :: 0 <= j < a.Length ==>
      a[j] == if start <= j < start + |values| then values[j - start] else before[j]
  }

  /** Arithmetic on the rotating row index: k1 steps then k2 steps are
      k1 + k2 steps. */
  lemma RowAfter(a: int, k1: int, k2: int, rows: int)
    requires rows > 0
    ensures ((a + k1) % rows + k2) % rows == (a + k1 + k2) % rows
  {
    var q := (a + k1) / rows;
    assert a + k1 + k2 == rows * q + ((a + k1) % rows + k2);
    var s := (a + k1) % rows + k2;
    DivModUnique(a + k1 + k2, rows, q + s / rows, s % rows);
  }

  // ---------------------------------------------------------------------
  // Mixer frequency

  /** The mixer frequency after aliasing: 0, or a frequency whose period
      (`sampleRate / |mix|` samples) exceeds the longest table, is moved up
      by one sample rate, with Java's 32-bit wrap-around. The zero test runs
      first, so the division never divides by zero. */
  function AliasedMix(mix: i32, sampleRate: i32, maxCosineLength: int): (r: i32)
    ensures mix == 0 ==> r == sampleRate
    ensures mix != 0 && JavaDiv(sampleRate, JavaAbs(mix)) <= maxCosineLength ==> r == mix
    ensures mix != 0 && JavaDiv(sampleRate, JavaAbs(mix)) > maxCosineLength ==> r == ToI32(mix + sampleRate)
  {
    if mix == 0 || JavaDiv(sampleRate, JavaAbs(mix)) > maxCosineLength then ToI32(mix + sampleRate)
    else mix
  }

  /** A non-zero mix is never moved to 0 unless it is minus the sample rate
      (mod 2^32): aliasing keeps the table rotating whenever the sample rate
      is non-zero and the mix differs from it in sign or size. */
  lemma AliasedMixNonZero(mix: i32, sampleRate: i32, maxCosineLength: int)
    requires sampleRate != 0
    requires (mix + sampleRate) % 0x1_0000_0000 != 0
    ensures AliasedMix(mix, sampleRate, maxCosineLength) != 0
  {
    var r := AliasedMix(mix, sampleRate, maxCosineLength);
    if r != mix {
      assert (r - (mix + sampleRate)) % 0x1_0000_0000 == 0;
    }
  }

  /** The two mixer tables hold, in row t and column i, the table level of i
      times the cosine (resp. sine) of the mixer phase at sample t. */
  ghost predicate MixerRows(cosines: array2<real>, sines: array2<real>, mix: i32, sampleRate: i32,
                           cosineAt: (int, int, int) -> real, sineAt: (int, int, int) -> real)
    reads cosines, sines
  {
    MixerShape(cosines, sines) &&
    forall t, i :: 0 <= t < cosines.Length0 && 0 <= i < TABLE_LENGTH ==>
      cosines[t, i] == Weighted(i, cosineAt(mix, t, sampleRate)) &&
      sines[t, i] == Weighted(i, sineAt(mix, t, sampleRate))
  }

  /** The two mixer tables of `rows` rows, built as the source's nested
      loops build them. */
  method BuildMixerTables(rows: int, mix: i32, sampleRate: i32,
                          cosineAt: (int, int, int) -> real, sineAt: (int, int, int) -> real)
    returns (cosines: array2<real>, sines: array2<real>)
    requires rows > 0
    ensures fresh(cosines) && fresh(sines) && cosines.Length0 == rows
    ensures MixerRows(cosines, sines, mix, sampleRate, cosineAt, sineAt)
  {
    cosines := new real[rows, TABLE_LENGTH];
    sines := new real[rows, TABLE_LENGTH];
    for t := 0 to rows
      invariant forall t', i :: 0 <= t' < t && 0 <= i < TABLE_LENGTH ==>
        cosines[t', i] == Weighted(i, cosineAt(mix, t', sampleRate)) &&
        sines[t', i] == Weighted(i, sineAt(mix, t', sampleRate))
    {
      var cosineAtT := cosineAt(mix, t, sampleRate);
      var sineAtT := sineAt(mix, t, sampleRate);
      for i := 0 to TABLE_LENGTH
        invariant forall t', i' :: 0 <= t' < t && 0 <= i' < TABLE_LENGTH ==>
          cosines[t', i'] == Weighted(i', cosineAt(mix, t', sampleRate)) &&
          sines[t', i'] == Weighted(i', sineAt(mix, t', sampleRate))
        invariant forall i' :: 0 <= i' < i ==>
          cosines[t, i'] == Weighted(i', cosineAtT) && sines[t, i'] == Weighted(i', sineAtT)
      {
        cosines[t, i] := Weighted(i, cosineAtT);
        sines[t, i] := Weighted(i, sineAtT);
      }
    }
  }

  // ---------------------------------------------------------------------
  // The packet and the converter

  /** The buffer a conversion writes into: `re` and `im` arrays, the count of
      samples already in them, and the rate and frequency it is stamped
      with. */
  /** A row count: the mixer tables are never empty. */
  type Positive = n: int | n > 0 witness 1

  class SamplePacket {
    const re: array<real>
    const im: array<real>
    var size: int
    var sampleRate: i32
    var frequency: i64

    constructor (length: nat)
      ensures fresh(re) && fresh(im) && re.Length == length && im.Length == length
      ensures size == 0 && sampleRate == 0 && frequency == 0
    {
      re := new real[length];
      im := new real[length];
      size := 0;
      sampleRate := 0;
      frequency := 0;
    }
  }

  class Converter {
    var sampleRate: i32
    var frequency: i64
    var lookupTable: array<real>
    var cosineReal: array2?<real>
    var cosineImag: array2?<real>
    var cosineFrequency: i32
    var cosineIndex: int
    /** The longest mixer table, and the row count chosen for a mixer
        frequency and sample rate. */
    const maxCosineLength: int
    const optimalCosineLength: (i32, i32) -> Positive
    /** The float cosine and sine of the mixer phase at sample t. */
    const cosineAt: (int, int, int) -> real
    const sineAt: (int, int, int) -> real
    /** The sample rate the mixer tables were last built for. */
    ghost var cosineRate: i32

    ghost predicate Valid()
      reads this, lookupTable, cosineReal, cosineImag
    {
      lookupTable.Length == TABLE_LENGTH &&
      (forall i :: 0 <= i < TABLE_LENGTH ==> lookupTable[i] == Level(i)) &&
      (cosineReal == null <==> cosineImag == null) &&
      (cosineReal != null ==>
         cosineImag != null && 0 <= cosineIndex < cosineReal.Length0 &&
         MixerRows(cosineReal, cosineImag, cosineFrequency, cosineRate, cosineAt, sineAt))
    }

    constructor (maxCosineLength: int, optimalCosineLength: (i32, i32) -> Positive,
                 cosineAt: (int, int, int) -> real, sineAt: (int, int, int) -> real)
      ensures Valid() && fresh(lookupTable)
      ensures cosineReal == null && cosineImag == null && cosineIndex == 0
      ensures sampleRate == 0 && frequency == 0
      ensures this.maxCosineLength == maxCosineLength && this.optimalCosineLength == optimalCosineLength
      ensures this.cosineAt == cosineAt && this.sineAt == sineAt
    {
      this.maxCosineLength := maxCosineLength;
      this.optimalCosineLength := optimalCosineLength;
      this.cosineAt := cosineAt;
      this.sineAt := sineAt;
      sampleRate := 0;
      frequency := 0;
      lookupTable := new real[0];
      cosineReal := null;
      cosineImag := null;
      cosineFrequency := 0;
      cosineIndex := 0;
      new;
      GenerateLookupTable();
    }

    method SetSampleRate(rate: i32)
      modifies this
      ensures sampleRate == rate
      ensures frequency == old(frequency) && lookupTable == old(lookupTable)
      ensures cosineReal == old(cosineReal) && cosineImag == old(cosineImag)
      ensures cosineFrequency == old(cosineFrequency) && cosineIndex == old(cosineIndex)
      ensures cosineRate == old(cosineRate)
    {
      sampleRate := rate;
    }

    method SetFrequency(f: i64)
      modifies this
      ensures frequency == f
      ensures sampleRate == old(sampleRate) && lookupTable == old(lookupTable)
      ensures cosineReal == old(cosineReal) && cosineImag == old(cosineImag)
      ensures cosineFrequency == old(cosineFrequency) && cosineIndex == old(cosineIndex)
      ensures cosineRate == old(cosineRate)
    {
      frequency := f;
    }

    /** A fresh direct table: entry i is `(i - 2048) / 2048`. */
    method GenerateLookupTable()
      modifies this
      ensures fresh(lookupTable) && lookupTable.Length == TABLE_LENGTH
      ensures forall i :: 0 <= i < TABLE_LENGTH ==> lookupTable[i] == Level(i)
      ensures sampleRate == old(sampleRate) && frequency == old(frequency)
      ensures cosineReal == old(cosineReal) && cosineImag == old(cosineImag)
      ensures cosineFrequency == old(cosineFrequency) && cosineIndex == old(cosineIndex)
      ensures cosineRate == old(cosineRate)
    {
      var table := new real[TABLE_LENGTH];
      for i := 0 to TABLE_LENGTH
        invariant forall j :: 0 <= j < i ==> table[j] == Level(j)
        invariant unchanged(this)
      {
        table[i] := Level(i);
      }
      lookupTable := table;
    }

    /** Whether the mixer tables must be rebuilt for this (aliased) mixer
        frequency: they are absent or built for another frequency. */
    predicate Rebuilds(mix: i32)
      reads this
    {
      cosineReal == null || mix != cosineFrequency
    }

    /** Aliases the mixer frequency and rebuilds the mixer tables when they
        are absent or built for another frequency; a rebuild starts the
        rotation again at row 0. */
    method GenerateMixerLookupTable(mixFrequency: i32)
      requires Valid()
      modifies this
      ensures Valid() && cosineReal != null && cosineImag != null
      ensures var mix := AliasedMix(mixFrequency, old(sampleRate), maxCosineLength);
        if old(Rebuilds(mix)) then
          fresh(cosineReal) && fresh(cosineImag) && cosineFrequency == mix && cosineIndex == 0 &&
          cosineReal.Length0 == optimalCosineLength(mix, sampleRate) && cosineRate == sampleRate
        else
          cosineReal == old(cosineReal) && cosineImag == old(cosineImag) &&
          cosineFrequency == old(cosineFrequency) && cosineIndex == old(cosineIndex) &&
          cosineRate == old(cosineRate)
      ensures sampleRate == old(sampleRate) && frequency == old(frequency)
      ensures lookupTable == old(lookupTable)
    {
      var mix := mixFrequency;
      if mix == 0 || JavaDiv(sampleRate, JavaAbs(mix)) > maxCosineLength {
        mix := ToI32(mix + sampleRate);
      }
      assert mix == AliasedMix(mixFrequency, sampleRate, maxCosineLength);
      if cosineReal == null || mix != cosineFrequency {
        cosineFrequency := mix;
        var bestLength := optimalCosineLength(cosineFrequency, sampleRate);
        cosineReal, cosineImag := BuildMixerTables(bestLength, cosineFrequency, sampleRate, cosineAt, sineAt);
        cosineRate := sampleRate;
        cosineIndex := 0;
      }
    }

    /** `fillPacketIntoSamplePacket`: converts up to `capacity` samples of
        the packet through the direct table into the packet's arrays from
        position `size` on. It returns the count and stamps the packet, or
        throws at the first sample whose word misses the table or whose
        position misses the arrays, keeping what it stored before. */
    method Fill(packet: array<i8>, samples: SamplePacket, capacity: nat) returns (r: Result<int>)
      requires Valid()
      requires samples.re != samples.im && samples.re != lookupTable && samples.im != lookupTable
      modifies samples, samples.re, samples.im
      ensures var n := Count(packet.Length, capacity);
              var start := old(samples.size);
              var f := FirstFailure(false, packet[..], start, samples.re.Length, samples.im.Length, 0, n);
              var w := ReStored(false, packet[..], start, samples.re.Length, samples.im.Length, n);
        (r.Returned? <==> f == n) &&
        (r.Returned? ==> r.value == n && samples.size == start + n &&
                         samples.sampleRate == sampleRate && samples.frequency == frequency) &&
        (r.Threw? ==> r.exception == ArrayIndexOutOfBoundsException && unchanged(samples)) &&
        Written(samples.re, old(samples.re[..]), start, LevelsI(packet[..], w)) &&
        Written(samples.im, old(samples.im[..]), start, LevelsQ(packet[..], f))
    {
      var n := Count(packet.Length, capacity);
      var failed := FillLoop(lookupTable, packet[..], samples.re, samples.im, samples.size, n);
      if failed {
        return Threw(ArrayIndexOutOfBoundsException);
      }
      samples.size := samples.size + n;
      samples.sampleRate := sampleRate;
      samples.frequency := frequency;
      return Returned(n);
    }

    /** `mixPacketIntoSamplePacket`: mixes up to `capacity` samples of the
        packet down by `frequency - channelFrequency` into the packet's
        arrays from position `size` on, one mixer row per sample, rotating
        through the rows; the rotation carries over from call to call until
        the tables are rebuilt. It returns the count and stamps the packet
        with the channel frequency, or throws at the first sample whose
        words miss the table or whose position misses the arrays. */
    method Mix(packet: array<i8>, samples: SamplePacket, capacity: nat, channelFrequency: i64)
      returns (r: Result<int>)
      requires Valid()
      requires samples.re != samples.im && samples.re != lookupTable && samples.im != lookupTable
      modifies this, samples, samples.re, samples.im
      ensures Valid() && cosineReal != null && cosineImag != null
      ensures sampleRate == old(sampleRate) && frequency == old(frequency) && lookupTable == old(lookupTable)
      ensures var mix := AliasedMix(ToI32(ToI64(old(frequency) - channelFrequency)), old(sampleRate), maxCosineLength);
        cosineFrequency == mix &&
        if old(Rebuilds(mix)) then
          fresh(cosineReal) && fresh(cosineImag) && cosineRate == sampleRate &&
          cosineReal.Length0 == optimalCosineLength(mix, sampleRate)
        else
          cosineReal == old(cosineReal) && cosineImag == old(cosineImag) && cosineRate == old(cosineRate)
      ensures var mix := AliasedMix(ToI32(ToI64(old(frequency) - channelFrequency)), old(sampleRate), maxCosineLength);
              var rot := Rotation(mix, cosineRate, cosineReal.Length0,
                                  if old(Rebuilds(mix)) then 0 else old(cosineIndex), cosineAt, sineAt);
              var n := Count(packet.Length, capacity);
              var start := old(samples.size);
              var f := FirstFailure(true, packet[..], start, samples.re.Length, samples.im.Length, 0, n);
        cosineIndex == rot.Row(f) &&
        (r.Returned? <==> f == n) &&
        (r.Returned? ==> r.value == n && samples.size == start + n &&
                         samples.sampleRate == sampleRate && samples.frequency == channelFrequency) &&
        (r.Threw? ==> r.exception == ArrayIndexOutOfBoundsException && unchanged(samples)) &&
        Written(samples.re, old(samples.re[..]), start,
                MixedRe(packet[..], ReStored(true, packet[..], start, samples.re.Length, samples.im.Length, n), rot)) &&
        Written(samples.im, old(samples.im[..]), start, MixedIm(packet[..], f, rot))
    {
      var mixFrequency := ToI32(ToI64(frequency - channelFrequency));
      ghost var mix := AliasedMix(mixFrequency, sampleRate, maxCosineLength);
      ghost var c0: nat := if Rebuilds(mix) then 0 else cosineIndex;
      GenerateMixerLookupTable(mixFrequency);
      ghost var rot := Rotation(mix, cosineRate, cosineReal.Length0, c0, cosineAt, sineAt);
      var index;
      r, index := MixInto(cosineReal, cosineImag, packet, samples, capacity, sampleRate, channelFrequency,
                          cosineIndex, rot);
      cosineIndex := index;
    }
  }

  /** The part of `mixPacketIntoSamplePacket` after the tables are ready:
      the loop, then the packet's new size and stamps; `index` is the row
      the rotation has reached. */
  method MixInto(cosines: array2<real>, sines: array2<real>, packet: array<i8>, samples: SamplePacket,
                 capacity: nat, sampleRate: i32, channelFrequency: i64, c0: nat, ghost rot: Rotation)
    returns (r: Result<int>, index: int)
    requires MixerRows(cosines, sines, rot.mix, rot.rate, rot.cosineAt, rot.sineAt)
    requires rot.rows == cosines.Length0 && rot.c0 == c0 && c0 < rot.rows
    requires samples.re != samples.im
    modifies samples, samples.re, samples.im
    ensures var n := Count(packet.Length, capacity);
            var start := old(samples.size);
            var f := FirstFailure(true, packet[..], start, samples.re.Length, samples.im.Length, 0, n);
      index == rot.Row(f) &&
      (r.Returned? <==> f == n) &&
      (r.Returned? ==> r.value == n && samples.size == start + n &&
                       samples.sampleRate == sampleRate && samples.frequency == channelFrequency) &&
      (r.Threw? ==> r.exception == ArrayIndexOutOfBoundsException && unchanged(samples)) &&
      Written(samples.re, old(samples.re[..]), start,
              MixedRe(packet[..], ReStored(true, packet[..], start, samples.re.Length, samples.im.Length, n), rot)) &&
      Written(samples.im, old(samples.im[..]), start, MixedIm(packet[..], f, rot))
  {
    var n := Count(packet.Length, capacity);
    var failed;
    failed, index := MixLoop(cosines, sines, packet[..], samples.re, samples.im, samples.size, n, c0, rot);
    if failed {
      return Threw(ArrayIndexOutOfBoundsException), index;
    }
    samples.size := samples.size + n;
    samples.sampleRate := sampleRate;
    samples.frequency := channelFrequency;
    return Returned(n), index;
  }

  /** The loop of `mixPacketIntoSamplePacket` over n samples, the rotation
      starting at row `c0`; `failed` tells whether it threw, `index` is the
      row the rotation has reached. */
  method MixLoop(cosines: array2<real>, sines: array2<real>, packet: seq<i8>, re: array<real>, im: array<real>,
                 start: int, n: nat, c0: nat, ghost rot: Rotation)
    returns (failed: bool, index: int)
    requires MixerRows(cosines, sines, rot.mix, rot.rate, rot.cosineAt, rot.sineAt)
    requires rot.rows == cosines.Length0 && rot.c0 == c0 && 0 <= c0 < rot.rows
    requires re != im && 4 * n <= |packet|
    modifies re, im
    ensures var f := FirstFailure(true, packet, start, re.Length, im.Length, 0, n);
      (failed <==> f < n) && index == rot.Row(f) &&
      Written(re, old(re[..]), start,
              MixedRe(packet, ReStored(true, packet, start, re.Length, im.Length, n), rot)) &&
      Written(im, old(im[..]), start, MixedIm(packet, f, rot))
  {
    ghost var f := FirstFailure(true, packet, start, re.Length, im.Length, 0, n);
    var i := 0;
    failed, index := false, c0;
    while i < n && !failed
      invariant 0 <= i <= f <= n
      invariant FirstFailure(true, packet, start, re.Length, im.Length, i, n) == f
      invariant failed ==> i == f < n
      invariant index == rot.Row(i)
      invariant Written(re, old(re[..]), start,
                        MixedRe(packet, if failed then ReStored(true, packet, start, re.Length, im.Length, n) else i, rot))
      invariant Written(im, old(im[..]), start, MixedIm(packet, i, rot))
      decreases n - i, if failed then 0 else 1
    {
      failed := MixOne(cosines, sines, packet, re, im, start, i, index, rot, old(re[..]), old(im[..]));
      if !failed {
        RowNext(rot, i);
        index := (index + 1) % cosines.Length0;
        i := i + 1;
      }
    }
  }

  /** Step k of the mix loop, on mixer row `row`: both stores, or a throw
      before or between them. */
  method MixOne(cosines: array2<real>, sines: array2<real>, packet: seq<i8>, re: array<real>, im: array<real>,
                start: int, k: nat, row: int, ghost rot: Rotation, ghost reBefore: seq<real>, ghost imBefore: seq<real>)
    returns (failed: bool)
    requires MixerRows(cosines, sines, rot.mix, rot.rate, rot.cosineAt, rot.sineAt)
    requires rot.rows == cosines.Length0 && row == rot.Row(k)
    requires re != im && 4 * k + 3 < |packet|
    requires Written(re, reBefore, start, MixedRe(packet, k, rot))
    requires Written(im, imBefore, start, MixedIm(packet, k, rot))
    modifies re, im
    ensures var step := StepOf(true, packet, k, start, re.Length, im.Length);
      (failed <==> step != Stores) &&
      Written(re, reBefore, start, MixedRe(packet, if step == FailsOnRe then k else k + 1, rot)) &&
      Written(im, imBefore, start, MixedIm(packet, if step == Stores then k + 1 else k, rot))
  {
    ghost var step := StepOf(true, packet, k, start, re.Length, im.Length);
    var sre := SampleI(packet, k);
    var sim := SampleQ(packet, k);
    if !(0 <= sre + ZERO_CODE < cosines.Length1) || !(0 <= sim + ZERO_CODE < sines.Length1)
       || !(0 <= start + k < re.Length) {
      assert step == FailsOnRe;
      return true;
    }
    TablesTurn(cosines, sines, rot, k, sre, sim);
    var v := cosines[row, sre + ZERO_CODE] - sines[row, sim + ZERO_CODE];
    assert MixedRe(packet, k + 1, rot) == MixedRe(packet, k, rot) + [v];
    Store(re, reBefore, start, MixedRe(packet, k, rot), start + k, v);
    if !(0 <= start + k < im.Length) {
      assert step == FailsOnIm;
      return true;
    }
    assert step == Stores;
    var u := cosines[row, sim + ZERO_CODE] + sines[row, sre + ZERO_CODE];
    assert MixedIm(packet, k + 1, rot) == MixedIm(packet, k, rot) + [u];
    Store(im, imBefore, start, MixedIm(packet, k, rot), start + k, u);
    return false;
  }

  /** The loop of `fillPacketIntoSamplePacket` over n samples; `failed`
      tells whether it threw. */
  method FillLoop(table: array<real>, packet: seq<i8>, re: array<real>, im: array<real>, start: int, n: nat)
    returns (failed: bool)
    requires table.Length == TABLE_LENGTH && forall i :: 0 <= i < TABLE_LENGTH ==> table[i] == Level(i)
    requires re != im && re != table && im != table && 4 * n <= |packet|
    modifies re, im
    ensures var f := FirstFailure(false, packet, start, re.Length, im.Length, 0, n);
      (failed <==> f < n) &&
      Written(re, old(re[..]), start, LevelsI(packet, ReStored(false, packet, start, re.Length, im.Length, n))) &&
      Written(im, old(im[..]), start, LevelsQ(packet, f))
  {
    ghost var f := FirstFailure(false, packet, start, re.Length, im.Length, 0, n);
    var i := 0;
    failed := false;
    while i < n && !failed
      invariant 0 <= i <= f <= n
      invariant FirstFailure(false, packet, start, re.Length, im.Length, i, n) == f
      invariant failed ==> i == f < n
      invariant Written(re, old(re[..]), start,
                        LevelsI(packet, if failed then ReStored(false, packet, start, re.Length, im.Length, n) else i))
      invariant Written(im, old(im[..]), start, LevelsQ(packet, i))
      decreases n - i, if failed then 0 else 1
    {
      failed := FillOne(table, packet, re, im, start, i, old(re[..]), old(im[..]));
      if !failed {
        i := i + 1;
      }
    }
  }

  /** Step k of the fill loop: both stores, or a throw before or between
      them. */
  method FillOne(table: array<real>, packet: seq<i8>, re: array<real>, im: array<real>, start: int, k: nat,
                 ghost reBefore: seq<real>, ghost imBefore: seq<real>)
    returns (failed: bool)
    requires table.Length == TABLE_LENGTH && forall i :: 0 <= i < TABLE_LENGTH ==> table[i] == Level(i)
    requires re != im && re != table && im != table && 4 * k + 3 < |packet|
    requires Written(re, reBefore, start, LevelsI(packet, k))
    requires Written(im, imBefore, start, LevelsQ(packet, k))
    modifies re, im
    ensures var step := StepOf(false, packet, k, start, re.Length, im.Length);
      (failed <==> step != Stores) &&
      Written(re, reBefore, start, LevelsI(packet, if step == FailsOnRe then k else k + 1)) &&
      Written(im, imBefore, start, LevelsQ(packet, if step == Stores then k + 1 else k))
  {
    ghost var step := StepOf(false, packet, k, start, re.Length, im.Length);
    var sre := SampleI(packet, k);
    var sim := SampleQ(packet, k);
    if !(0 <= sre + ZERO_CODE < table.Length) || !(0 <= start + k < re.Length) {
      assert step == FailsOnRe;
      failed := true;
    } else {
      var v := table[sre + ZERO_CODE];
      assert LevelsI(packet, k + 1) == LevelsI(packet, k) + [v];
      Store(re, reBefore, start, LevelsI(packet, k), start + k, v);
      if !(0 <= sim + ZERO_CODE < table.Length) || !(0 <= start + k < im.Length) {
        assert step == FailsOnIm;
        failed := true;
      } else {
        assert step == Stores;
        var u := table[sim + ZERO_CODE];
        assert LevelsQ(packet, k + 1) == LevelsQ(packet, k) + [u];
        Store(im, imBefore, start, LevelsQ(packet, k), start + k, u);
        failed := false;
      }
    }
  }

  /** Stores the next value of a run written from `start` on. */
  method Store(a: array<real>, ghost before: seq<real>, start: int, ghost values: seq<real>, position: int, v: real)
    requires Written(a, before, start, values) && position == start + |values| && 0 <= position < a.Length
    modifies a
    ensures Written(a, before, start, values + [v])
  {
    a[position] := v;
  }
}
