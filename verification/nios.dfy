/** The NIOS peripheral protocol: a 16-byte request frame goes out on the
    peripheral bulk endpoint and the 16-byte response comes back into the
    same buffer. Three frame shapes carry an 8-bit address with 16 or 32
    bits of data, or a 16-bit address (command and channel) with 64 bits. */
module Nios {
  import opened JavaTypes
  import opened Constants
  import opened Utils
  import opened Usb

  /** Exchange timeout in milliseconds; fast reads wait a tenth of it. */
  const TIMEOUT: int := 1000
  const FAST_TIMEOUT: int := TIMEOUT / 10

  // ---------------------------------------------------------------------
  // Frames

  /** An 8x16 frame: magic 'B', target, flags, a reserved zero byte, the
      address, the data's two low bytes least significant first, and zero
      padding. */
  function Frame8x16(target: i8, flags: i8, addr: i8, data: int): seq<i8>
  {
    [NIOS_PKT_8x16_MAGIC as i8, target, flags, 0, addr]
    + LittleEndianBytes(data, NIOS_PKT_8x16_IDX_RESV2 - NIOS_PKT_8x16_IDX_DATA)
    + Zeros(NIOS_PKT_LEN - NIOS_PKT_8x16_IDX_RESV2)
  }

  /** An 8x32 frame: magic 'C' and four data bytes. */
  function Frame8x32(target: i8, flags: i8, addr: i8, data: int): seq<i8>
  {
    [NIOS_PKT_8x32_MAGIC as i8, target, flags, 0, addr]
    + LittleEndianBytes(data, NIOS_PKT_8x32_IDX_RESV2 - NIOS_PKT_8x32_IDX_DATA)
    + Zeros(NIOS_PKT_LEN - NIOS_PKT_8x32_IDX_RESV2)
  }

  /** A 16x64 frame: magic 'E', command and channel as the two address
      bytes, and eight data bytes. */
  function Frame16x64(target: i8, flags: i8, command: i8, channel: i8, data: int): seq<i8>
  {
    [NIOS_PKT_16x64_MAGIC as i8, target, flags, 0, command, channel]
    + LittleEndianBytes(data, NIOS_PKT_16x64_IDX_RESV2 - NIOS_PKT_16x64_IDX_DATA)
    + Zeros(NIOS_PKT_LEN - NIOS_PKT_16x64_IDX_RESV2)
  }

  /** The n low bytes of x's two's-complement representation, least
      significant first. */
  function LittleEndianBytes(x: int, n: nat): (bs: seq<i8>)
    ensures |bs| == n && forall k :: 0 <= k < n ==> bs[k] == ByteOf(x, k)
  {
    if n == 0 then [] else LittleEndianBytes(x, n - 1) + [ByteOf(x, n - 1)]
  }

  function Zeros(n: nat): (z: seq<i8>)
    ensures |z| == n && forall k :: 0 <= k < n ==> z[k] == 0
  {
    if n == 0 then [] else Zeros(n - 1) + [0]
  }

  /** The data field of an 8x16 frame holds the data modulo 2^16, and the
      reserved bytes are zero. */
  lemma Frame8x16Layout(target: i8, flags: i8, addr: i8, data: int)
    ensures var f := Frame8x16(target, flags, addr, data);
      |f| == NIOS_PKT_LEN && f[NIOS_PKT_8x16_IDX_MAGIC] as int == NIOS_PKT_8x16_MAGIC &&
      f[NIOS_PKT_8x16_IDX_TARGET_ID] == target && f[NIOS_PKT_8x16_IDX_FLAGS] == flags &&
      f[NIOS_PKT_8x16_IDX_RESV1] == 0 && f[NIOS_PKT_8x16_IDX_ADDR] == addr &&
      LittleEndian(f[NIOS_PKT_8x16_IDX_DATA..NIOS_PKT_8x16_IDX_RESV2]) == data % 0x1_0000 &&
      forall i :: NIOS_PKT_8x16_IDX_RESV2 <= i < NIOS_PKT_LEN ==> f[i] == 0
  {
    var f := Frame8x16(target, flags, addr, data);
    LittleEndianOfBytes(data, f[NIOS_PKT_8x16_IDX_DATA..NIOS_PKT_8x16_IDX_RESV2]);
    Pow256Values();
  }

  /** The data field of an 8x32 frame holds the data modulo 2^32. */
  lemma Frame8x32Layout(target: i8, flags: i8, addr: i8, data: int)
    ensures var f := Frame8x32(target, flags, addr, data);
      |f| == NIOS_PKT_LEN && f[NIOS_PKT_8x32_IDX_MAGIC] as int == NIOS_PKT_8x32_MAGIC &&
      f[NIOS_PKT_8x32_IDX_TARGET_ID] == target && f[NIOS_PKT_8x32_IDX_FLAGS] == flags &&
      f[NIOS_PKT_8x32_IDX_RESV1] == 0 && f[NIOS_PKT_8x32_IDX_ADDR] == addr &&
      LittleEndian(f[NIOS_PKT_8x32_IDX_DATA..NIOS_PKT_8x32_IDX_RESV2]) == data % 0x1_0000_0000 &&
      forall i :: NIOS_PKT_8x32_IDX_RESV2 <= i < NIOS_PKT_LEN ==> f[i] == 0
  {
    var f := Frame8x32(target, flags, addr, data);
    LittleEndianOfBytes(data, f[NIOS_PKT_8x32_IDX_DATA..NIOS_PKT_8x32_IDX_RESV2]);
    Pow256Values();
  }

  /** The data field of a 16x64 frame holds the data modulo 2^64. */
  lemma Frame16x64Layout(target: i8, flags: i8, command: i8, channel: i8, data: int)
    ensures var f := Frame16x64(target, flags, command, channel, data);
      |f| == NIOS_PKT_LEN && f[NIOS_PKT_16x64_IDX_MAGIC] as int == NIOS_PKT_16x64_MAGIC &&
      f[NIOS_PKT_16x64_IDX_TARGET_ID] == target && f[NIOS_PKT_16x64_IDX_FLAGS] == flags &&
      f[NIOS_PKT_16x64_IDX_RESV1] == 0 && f[NIOS_PKT_16x64_IDX_ADDR] == command &&
      f[NIOS_PKT_16x64_IDX_ADDR + 1] == channel &&
      LittleEndian(f[NIOS_PKT_16x64_IDX_DATA..NIOS_PKT_16x64_IDX_RESV2]) == data % 0x1_0000_0000_0000_0000 &&
      forall i :: NIOS_PKT_16x64_IDX_RESV2 <= i < NIOS_PKT_LEN ==> f[i] == 0
  {
    var f := Frame16x64(target, flags, command, channel, data);
    LittleEndianOfBytes(data, f[NIOS_PKT_16x64_IDX_DATA..NIOS_PKT_16x64_IDX_RESV2]);
    Pow256Values();
  }

  /** A read frame (flags 0, data 0) carries nothing but its header. */
  lemma ReadFramesCarryNoData(target: i8, command: i8, channel: i8)
    ensures forall i :: NIOS_PKT_8x16_IDX_FLAGS <= i < NIOS_PKT_LEN && i != NIOS_PKT_8x16_IDX_ADDR ==>
              Frame8x16(target, 0, command, 0)[i] == 0
    ensures forall i :: NIOS_PKT_8x32_IDX_FLAGS <= i < NIOS_PKT_LEN && i != NIOS_PKT_8x32_IDX_ADDR ==>
              Frame8x32(target, 0, command, 0)[i] == 0
    ensures forall i :: NIOS_PKT_16x64_IDX_FLAGS <= i < NIOS_PKT_LEN && i != NIOS_PKT_16x64_IDX_ADDR
                          && i != NIOS_PKT_16x64_IDX_ADDR + 1 ==>
              Frame16x64(target, 0, command, channel, 0)[i] == 0
  {
    forall k: nat ensures ByteOf(0, k) == 0 {
      assert 0 / Pow256(k) == 0;
    }
  }

  /** Two numbers in the same half-open signed range with the same residue
      are equal. */
  lemma SameResidue(a: int, b: int, modulus: int)
    requires modulus > 0 && modulus % 2 == 0
    requires -modulus / 2 <= a < modulus / 2 && -modulus / 2 <= b < modulus / 2
    requires a % modulus == b % modulus
    ensures a == b
  {
    SignedRoundTrip(a, a % modulus, modulus);
    SignedRoundTrip(b, b % modulus, modulus);
  }

  /** `getShort` at the data index inverts the 8x16 encoding. */
  lemma Frame8x16RoundTrip(target: i8, flags: i8, addr: i8, data: i16)
    ensures GetShort(Frame8x16(target, flags, addr, data), NIOS_PKT_8x16_IDX_DATA, 2) == data
  {
    var f := Frame8x16(target, flags, addr, data);
    Frame8x16Layout(target, flags, addr, data);
    LittleEndian2(f[NIOS_PKT_8x16_IDX_DATA..NIOS_PKT_8x16_IDX_RESV2]);
    SameResidue(GetShort(f, NIOS_PKT_8x16_IDX_DATA, 2), data, 0x1_0000);
  }

  /** `getInt` at the data index inverts the 8x32 encoding. */
  lemma Frame8x32RoundTrip(target: i8, flags: i8, addr: i8, data: i32)
    ensures GetInt(Frame8x32(target, flags, addr, data), NIOS_PKT_8x32_IDX_DATA, 4) == data
  {
    var f := Frame8x32(target, flags, addr, data);
    Frame8x32Layout(target, flags, addr, data);
    LittleEndian4(f[NIOS_PKT_8x32_IDX_DATA..NIOS_PKT_8x32_IDX_RESV2]);
    SameResidue(GetInt(f, NIOS_PKT_8x32_IDX_DATA, 4), data, 0x1_0000_0000);
  }

  /** `getLong` at the data index inverts the 16x64 encoding. */
  lemma Frame16x64RoundTrip(target: i8, flags: i8, command: i8, channel: i8, data: i64)
    ensures GetLong(Frame16x64(target, flags, command, channel, data), NIOS_PKT_16x64_IDX_DATA, 8) == data
  {
    var f := Frame16x64(target, flags, command, channel, data);
    Frame16x64Layout(target, flags, command, channel, data);
    assert f[NIOS_PKT_16x64_IDX_DATA..NIOS_PKT_16x64_IDX_DATA + 8]
        == f[NIOS_PKT_16x64_IDX_DATA..NIOS_PKT_16x64_IDX_RESV2];
    SameResidue(GetLong(f, NIOS_PKT_16x64_IDX_DATA, 8), data, 0x1_0000_0000_0000_0000);
  }

  // ---------------------------------------------------------------------
  // The exchange and the six accessors, as functions of the connection's
  // history

  /** `access`: the request goes out; only if that succeeds is the response
      read back over it. The result is the response, or None on failure. */
  function ExchangeSpec(c: Connection, h: seq<Event>, request: seq<i8>, timeout: int)
    : (r: Step<Option<seq<i8>>>)
    ensures r.value.Some? ==> |r.value.value| == |request|
    ensures Sent(r.log) == Sent(h) + [BulkOut(request, timeout)]
  {
    var h1 := h + [BulkOut(request, timeout)];
    SentAppend(h, [BulkOut(request, timeout)]);
    if c.bulkOutStatus(h) < 0 then Step(None, h1)
    else
      var reply := c.bulkInReply(h1);
      var h2 := h1 + [BulkIn(|request|, timeout)];
      SentAppend(h1, [BulkIn(|request|, timeout)]);
      Step(if reply.status < 0 then None else Some(Overlay(request, reply.data)), h2)
  }

  /** A write is accepted when the echoed flags byte has its low bit set. */
  predicate Acknowledged(response: seq<i8>, flagsIndex: nat)
    requires flagsIndex < |response|
  {
    response[flagsIndex] % 2 == 1
  }

  function Read8x16Spec(c: Connection, h: seq<Event>, target: i8, command: i8): (r: Step<Option<i16>>)
    ensures Sent(r.log) == Sent(h) + [BulkOut(Frame8x16(target, 0, command, 0), TIMEOUT)]
  {
    var e := ExchangeSpec(c, h, Frame8x16(target, 0, command, 0), TIMEOUT);
    Step(if e.value.None? then None else Some(GetShort(e.value.value, NIOS_PKT_8x16_IDX_DATA, 2)), e.log)
  }

  function Write8x16Spec(c: Connection, h: seq<Event>, target: i8, command: i8, data: i16): (r: Step<bool>)
    ensures Sent(r.log) == Sent(h) + [BulkOut(Frame8x16(target, 1, command, data), TIMEOUT)]
  {
    var e := ExchangeSpec(c, h, Frame8x16(target, 1, command, data), TIMEOUT);
    Step(e.value.Some? && Acknowledged(e.value.value, NIOS_PKT_8x16_IDX_FLAGS), e.log)
  }

  function Read8x32Spec(c: Connection, h: seq<Event>, target: i8, command: i8): (r: Step<Option<i32>>)
    ensures Sent(r.log) == Sent(h) + [BulkOut(Frame8x32(target, 0, command, 0), TIMEOUT)]
  {
    var e := ExchangeSpec(c, h, Frame8x32(target, 0, command, 0), TIMEOUT);
    Step(if e.value.None? then None else Some(GetInt(e.value.value, NIOS_PKT_8x32_IDX_DATA, 4)), e.log)
  }

  function Write8x32Spec(c: Connection, h: seq<Event>, target: i8, command: i8, data: i32): (r: Step<bool>)
    ensures Sent(r.log) == Sent(h) + [BulkOut(Frame8x32(target, 1, command, data), TIMEOUT)]
  {
    var e := ExchangeSpec(c, h, Frame8x32(target, 1, command, data), TIMEOUT);
    Step(e.value.Some? && Acknowledged(e.value.value, NIOS_PKT_8x32_IDX_FLAGS), e.log)
  }

  function Read16x64Spec(c: Connection, h: seq<Event>, target: i8, command: i8, channel: i8,
                         fastAndQuiet: bool): (r: Step<Option<i64>>)
    ensures Sent(r.log) == Sent(h) + [BulkOut(Frame16x64(target, 0, command, channel, 0),
                                              if fastAndQuiet then FAST_TIMEOUT else TIMEOUT)]
    ensures h <= r.log
  {
    var e := ExchangeSpec(c, h, Frame16x64(target, 0, command, channel, 0),
                          if fastAndQuiet then FAST_TIMEOUT else TIMEOUT);
    Step(if e.value.None? then None else Some(GetLong(e.value.value, NIOS_PKT_16x64_IDX_DATA, 8)), e.log)
  }

  function Write16x64Spec(c: Connection, h: seq<Event>, target: i8, command: i8, channel: i8,
                          data: i64): (r: Step<bool>)
    ensures Sent(r.log) == Sent(h) + [BulkOut(Frame16x64(target, 1, command, channel, data), TIMEOUT)]
    ensures h <= r.log
  {
    var e := ExchangeSpec(c, h, Frame16x64(target, 1, command, channel, data), TIMEOUT);
    Step(e.value.Some? && Acknowledged(e.value.value, NIOS_PKT_16x64_IDX_FLAGS), e.log)
  }

  /** A read yields a value exactly when both transfers succeed, and then
      the value is the response's data field; a failed outbound transfer
      is not followed by an inbound one. */
  lemma ReadOutcome(c: Connection, h: seq<Event>, target: i8, command: i8, channel: i8, fastAndQuiet: bool)
    ensures var timeout := if fastAndQuiet then FAST_TIMEOUT else TIMEOUT;
      var frame := Frame16x64(target, 0, command, channel, 0);
      var r := Read16x64Spec(c, h, target, command, channel, fastAndQuiet);
      (c.bulkOutStatus(h) < 0 ==> r.value.None? && r.log == h + [BulkOut(frame, timeout)]) &&
      (c.bulkOutStatus(h) >= 0 ==>
        var reply := c.bulkInReply(h + [BulkOut(frame, timeout)]);
        r.log == h + [BulkOut(frame, timeout), BulkIn(NIOS_PKT_LEN, timeout)] &&
        (r.value.Some? <==> reply.status >= 0) &&
        (r.value.Some? ==> r.value.value == GetLong(Overlay(frame, reply.data), NIOS_PKT_16x64_IDX_DATA, 8)))
  {
  }

  /** A write is accepted exactly when both transfers succeed and the
      response echoes a flags byte with its low bit set; a response too
      short to reach the flags byte leaves the request's own flags (1) in
      place, so it counts as accepted. */
  lemma WriteOutcome(c: Connection, h: seq<Event>, target: i8, command: i8, channel: i8, data: i64)
    ensures var frame := Frame16x64(target, 1, command, channel, data);
      var reply := c.bulkInReply(h + [BulkOut(frame, TIMEOUT)]);
      Write16x64Spec(c, h, target, command, channel, data).value <==>
        c.bulkOutStatus(h) >= 0 && reply.status >= 0 &&
        (|reply.data| > NIOS_PKT_16x64_IDX_FLAGS ==> reply.data[NIOS_PKT_16x64_IDX_FLAGS] % 2 == 1)
  {
    Frame16x64Layout(target, 1, command, channel, data);
  }

  // ---------------------------------------------------------------------
  // FPGA version word

  /** Major, minor and patch numbers of the FPGA image. */
  datatype FpgaVersion = FpgaVersion(major: int, minor: int, patch: int)

  /** Bits 0-7, 8-15 and 16-31 of the version word; the three fields
      together give back the word's 32-bit pattern. */
  function FpgaVersionOf(word: i32): (v: FpgaVersion)
    ensures 0 <= v.major < 0x100 && 0 <= v.minor < 0x100 && 0 <= v.patch < 0x1_0000
    ensures v.major + 0x100 * v.minor + 0x1_0000 * v.patch == word % 0x1_0000_0000
  {
    var v := FpgaVersion(word % 0x100, (word / 0x100) % 0x100, (word / 0x1_0000) % 0x1_0000);
    DivMulSplit(word, 0x100, 0x100);
    DivMulSplit(word, 0x1_0000, 0x1_0000);
    v
  }

  /** A fresh 16-byte buffer holding an 8x16 frame, filled field by
      field; a read leaves the data field at its zero default, which is
      what writing the data 0 gives. */
  method NewFrame8x16(target: i8, flags: i8, addr: i8, data: int) returns (buffer: array<i8>)
    ensures fresh(buffer) && buffer[..] == Frame8x16(target, flags, addr, data)
  {
    buffer := new i8[NIOS_PKT_LEN](_ => 0);
    buffer[NIOS_PKT_8x16_IDX_MAGIC] := NIOS_PKT_8x16_MAGIC as i8;
    buffer[NIOS_PKT_8x16_IDX_TARGET_ID] := target;
    buffer[NIOS_PKT_8x16_IDX_FLAGS] := flags;
    buffer[NIOS_PKT_8x16_IDX_ADDR] := addr;
    assert buffer[..] == [NIOS_PKT_8x16_MAGIC as i8, target, flags, 0, addr] + Zeros(11);
    buffer[NIOS_PKT_8x16_IDX_DATA + 0] := ByteOf(data, 0);
    buffer[NIOS_PKT_8x16_IDX_DATA + 1] := ByteOf(data, 1);
    assert buffer[..] == Frame8x16(target, flags, addr, data);
  }

  method NewFrame8x32(target: i8, flags: i8, addr: i8, data: int) returns (buffer: array<i8>)
    ensures fresh(buffer) && buffer[..] == Frame8x32(target, flags, addr, data)
  {
    buffer := new i8[NIOS_PKT_LEN](_ => 0);
    buffer[NIOS_PKT_8x32_IDX_MAGIC] := NIOS_PKT_8x32_MAGIC as i8;
    buffer[NIOS_PKT_8x32_IDX_TARGET_ID] := target;
    buffer[NIOS_PKT_8x32_IDX_FLAGS] := flags;
    buffer[NIOS_PKT_8x32_IDX_ADDR] := addr;
    assert buffer[..] == [NIOS_PKT_8x32_MAGIC as i8, target, flags, 0, addr] + Zeros(11);
    StoreData8x32(buffer, data);
  }

  /** The four stores `(byte) ((data >> 8 * k) & 0xff)` into the data
      field of an 8x32 frame; the rest of the frame is left alone. */
  method StoreData8x32(buffer: array<i8>, data: int)
    requires buffer.Length == NIOS_PKT_LEN
    modifies buffer
    ensures buffer[..] == old(buffer[..NIOS_PKT_8x32_IDX_DATA]) + LittleEndianBytes(data, 4)
                          + old(buffer[NIOS_PKT_8x32_IDX_RESV2..])
  {
    var bytes := LittleEndianBytes(data, 4);
    buffer[NIOS_PKT_8x32_IDX_DATA + 0] := bytes[0];
    buffer[NIOS_PKT_8x32_IDX_DATA + 1] := bytes[1];
    buffer[NIOS_PKT_8x32_IDX_DATA + 2] := bytes[2];
    buffer[NIOS_PKT_8x32_IDX_DATA + 3] := bytes[3];
  }

  method NewFrame16x64(target: i8, flags: i8, command: i8, channel: i8, data: int)
    returns (buffer: array<i8>)
    ensures fresh(buffer) && buffer[..] == Frame16x64(target, flags, command, channel, data)
  {
    buffer := new i8[NIOS_PKT_LEN](_ => 0);
    buffer[NIOS_PKT_16x64_IDX_MAGIC] := NIOS_PKT_16x64_MAGIC as i8;
    buffer[NIOS_PKT_16x64_IDX_TARGET_ID] := target;
    buffer[NIOS_PKT_16x64_IDX_FLAGS] := flags;
    buffer[NIOS_PKT_16x64_IDX_ADDR + 0] := command;
    buffer[NIOS_PKT_16x64_IDX_ADDR + 1] := channel;
    assert buffer[..] == [NIOS_PKT_16x64_MAGIC as i8, target, flags, 0, command, channel] + Zeros(10);
    StoreData16x64(buffer, data);
  }

  /** The eight stores `(byte) ((data >> 8 * k) & 0xff)` into the data
      field of a 16x64 frame; the rest of the frame is left alone. */
  method StoreData16x64(buffer: array<i8>, data: int)
    requires buffer.Length == NIOS_PKT_LEN
    modifies buffer
    ensures buffer[..] == old(buffer[..NIOS_PKT_16x64_IDX_DATA]) + LittleEndianBytes(data, 8)
                          + old(buffer[NIOS_PKT_16x64_IDX_RESV2..])
  {
    var bytes := LittleEndianBytes(data, 8);
    buffer[NIOS_PKT_16x64_IDX_DATA + 0] := bytes[0];
    buffer[NIOS_PKT_16x64_IDX_DATA + 1] := bytes[1];
    buffer[NIOS_PKT_16x64_IDX_DATA + 2] := bytes[2];
    buffer[NIOS_PKT_16x64_IDX_DATA + 3] := bytes[3];
    buffer[NIOS_PKT_16x64_IDX_DATA + 4] := bytes[4];
    buffer[NIOS_PKT_16x64_IDX_DATA + 5] := bytes[5];
    buffer[NIOS_PKT_16x64_IDX_DATA + 6] := bytes[6];
    buffer[NIOS_PKT_16x64_IDX_DATA + 7] := bytes[7];
  }

  // ---------------------------------------------------------------------
  // The peripheral interface

  class Nios {
    const connection: Connection

    constructor (connection: Connection)
      ensures this.connection == connection
    {
      this.connection := connection;
    }

    /** `access`: on success the response has replaced the request in the
        buffer; on failure the buffer is unchanged. */
    method Access(buffer: array<i8>, timeout: int, quiet: bool) returns (ok: bool)
      modifies connection, buffer
      ensures var e := ExchangeSpec(connection, old(connection.log), old(buffer[..]), timeout);
        connection.log == e.log && ok == e.value.Some? &&
        buffer[..] == if ok then e.value.value else old(buffer[..])
    {
      var status := connection.BulkTransferOut(buffer, timeout);
      if status < 0 {
        return false;
      }
      status := connection.BulkTransferIn(buffer, timeout);
      if status < 0 {
        return false;
      }
      return true;
    }

    method Read8x16(target: i8, command: i8) returns (r: Option<i16>)
      modifies connection
      ensures Step(r, connection.log) == Read8x16Spec(connection, old(connection.log), target, command)
    {
      var buffer := NewFrame8x16(target, 0, command, 0);
      var ok := Access(buffer, TIMEOUT, false);
      if !ok {
        return None;
      }
      return Some(GetShort(buffer[..], NIOS_PKT_8x16_IDX_DATA, 2));
    }

    method Write8x16(target: i8, command: i8, data: i16) returns (accepted: bool)
      modifies connection
      ensures Step(accepted, connection.log) == Write8x16Spec(connection, old(connection.log), target, command, data)
    {
      var buffer := NewFrame8x16(target, 1, command, data);
      var ok := Access(buffer, TIMEOUT, false);
      accepted := ok && buffer[NIOS_PKT_8x16_IDX_FLAGS] % 2 == 1;
    }

    method Read8x32(target: i8, command: i8) returns (r: Option<i32>)
      modifies connection
      ensures Step(r, connection.log) == Read8x32Spec(connection, old(connection.log), target, command)
    {
      var buffer := NewFrame8x32(target, 0, command, 0);
      var ok := Access(buffer, TIMEOUT, false);
      if !ok {
        return None;
      }
      return Some(GetInt(buffer[..], NIOS_PKT_8x32_IDX_DATA, 4));
    }

    method Write8x32(target: i8, command: i8, data: i32) returns (accepted: bool)
      modifies connection
      ensures Step(accepted, connection.log) == Write8x32Spec(connection, old(connection.log), target, command, data)
    {
      var buffer := NewFrame8x32(target, 1, command, data);
      var ok := Access(buffer, TIMEOUT, false);
      accepted := ok && buffer[NIOS_PKT_8x32_IDX_FLAGS] % 2 == 1;
    }

    method Read16x64(target: i8, command: i8, channel: i8, fastAndQuiet: bool) returns (r: Option<i64>)
      modifies connection
      ensures Step(r, connection.log)
           == Read16x64Spec(connection, old(connection.log), target, command, channel, fastAndQuiet)
    {
      var buffer := NewFrame16x64(target, 0, command, channel, 0);
      var ok := Access(buffer, if fastAndQuiet then TIMEOUT / 10 else TIMEOUT, fastAndQuiet);
      if !ok {
        return None;
      }
      return Some(GetLong(buffer[..], NIOS_PKT_16x64_IDX_DATA, 8));
    }

    method Write16x64(target: i8, command: i8, channel: i8, data: i64) returns (accepted: bool)
      modifies connection
      ensures Step(accepted, connection.log)
           == Write16x64Spec(connection, old(connection.log), target, command, channel, data)
    {
      var buffer := NewFrame16x64(target, 1, command, channel, data);
      var ok := Access(buffer, TIMEOUT, false);
      accepted := ok && buffer[NIOS_PKT_16x64_IDX_FLAGS] % 2 == 1;
    }

    /** `getFPGAVersion`: the version word split into its three fields, or
        None when the read fails. */
    method GetFPGAVersion() returns (v: Option<FpgaVersion>)
      modifies connection
      ensures var read := Read8x32Spec(connection, old(connection.log), NIOS_PKT_8x32_TARGET_VERSION, 0);
        connection.log == read.log &&
        v == if read.value.None? then None else Some(FpgaVersionOf(read.value.value))
    {
      var result := Read8x32(NIOS_PKT_8x32_TARGET_VERSION, 0);
      if result.None? {
        return None;
      }
      return Some(FpgaVersionOf(result.value));
    }

    method GetVCTCXOTrim() returns (r: Option<i16>)
      modifies connection
      ensures Step(r, connection.log)
           == Read8x16Spec(connection, old(connection.log), NIOS_PKT_8x16_TARGET_AD56X1_DAC, 0)
    {
      r := Read8x16(NIOS_PKT_8x16_TARGET_AD56X1_DAC, 0);
    }

    method SetVCTCXOTrim(value: i16) returns (accepted: bool)
      modifies connection
      ensures Step(accepted, connection.log)
           == Write8x16Spec(connection, old(connection.log), NIOS_PKT_8x16_TARGET_AD56X1_DAC, 0, value)
    {
      accepted := Write8x16(NIOS_PKT_8x16_TARGET_AD56X1_DAC, 0, value);
    }

    method GetGPIO() returns (r: Option<i32>)
      modifies connection
      ensures Step(r, connection.log)
           == Read8x32Spec(connection, old(connection.log), NIOS_PKT_8x32_TARGET_CONTROL, 0)
    {
      r := Read8x32(NIOS_PKT_8x32_TARGET_CONTROL, 0);
    }

    method GetRFFECSR() returns (r: Option<i32>)
      modifies connection
      ensures Step(r, connection.log)
           == Read8x32Spec(connection, old(connection.log), NIOS_PKT_8x32_TARGET_RFFE_CSR, 0)
    {
      r := Read8x32(NIOS_PKT_8x32_TARGET_RFFE_CSR, 0);
    }
  }
}
