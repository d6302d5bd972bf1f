# bladeRF receive path of RF Analyzer, modelled in Dafny

This project models the control and sample path that RF Analyzer uses to
drive a Nuand bladeRF 2.0 over USB. It covers five layers.

- **Peripheral frames** (`Constants`, `Utils`, `Nios`). The driver talks to the
  FPGA's NIOS II soft core in 16-byte frames of three shapes: 8-bit address
  with 16-bit data ('B'), 8-bit address with 32-bit data ('C'), and a 16-bit
  address (command and channel) with 64-bit data ('E'). Multi-byte fields are
  little-endian. A frame goes out on the peripheral bulk endpoint, and the
  response comes back into the same buffer.
- **Register protocols** (`Rfic`, `Ina219`).
  - The AD9361 transceiver (RFIC) is written through 16x64 frames. Every write
    is followed by polls of its command queue, at most fifty, until the queue
    is empty.
  - The INA219 power monitor is started by a soft reset, a poll until the reset
    bit clears, a configuration word and a calibration word.
- **Device control** (`Device`). This covers the firmware and FPGA checks when
  the device is opened, rollback on failure, the FIR filter choice when the
  sample rate changes, switching Rx on and off, and the all-or-nothing pool of
  32 USB requests that carry samples.
- **The I/Q source** (`BladeRfSource`). This mirrors settings to the device and
  to the converter. It steps through the supported sample rates. It keeps a
  bounded queue of received packets and a pool of returned buffers. Its worker
  loop hands each completed USB request to the queue and queues the request
  again with a buffer from the pool.
- **I/Q conversion** (`IqConverter`). Signed 12-bit sample words become
  floating-point samples, either through a 4096-entry table or mixed down to a
  channel through a rotating table of cosine and sine rows.

**How the outside world is modelled**
- USB is an oracle. A `Usb.Connection` records every call in its `log`. What
  the device answers is a fixed function of the calls made before it.
- Each protocol step is a function from a connection and a history to a
  `Step(value, log)`. The imperative classes (`Nios.Nios`, `Rfic.Rfic`,
  `Ina219.Ina219`, `Device.Device`, `BladeRfSource.Source`,
  `IqConverter.Converter`) are proved to do exactly what those functions say.
  The properties of the protocols are lemmas about the functions.
- The I/Q converter decodes sample words the way its code does, sign-extending
  the low byte (see "## Findings"). The intended little-endian decoding is
  defined beside it, and lemmas say exactly when the two agree.
- Java's fixed-width integers are the types `i8`, `i16`, `i32` and `i64`.
  Narrowing casts wrap explicitly.
- Exceptions that escape are values: `Result.Threw` and `Completion.Raised`.

## Model

| member | source | states |
|---|---|---|
| Constants.MagicBytesDistinct | sdr/bladerf/src/main/java/com/sdr/bladerf/Constants.java:14-45 | the three frame shapes carry distinct magic bytes, all at index 0 |
| Constants.FieldLayouts | sdr/bladerf/src/main/java/com/sdr/bladerf/Constants.java:15-52 | in each shape the fields are ordered without overlap; the data field ends where RESV2 begins; every shape fits the 16-byte frame |
| Constants.ChannelInvalidIsNoChannel | sdr/bladerf/src/main/java/com/sdr/bladerf/Constants.java:68-72 | CHANNEL_INVALID is negative and differs from all four real channels |
| Constants.FirCodesAgree | sdr/bladerf/src/main/java/com/sdr/bladerf/Constants.java:90-100 | Rx decimation and Tx interpolation by 1, 2 and 4 share the codes 2, 3 and 4 |
| Constants.GainModesDistinct | sdr/bladerf/src/main/java/com/sdr/bladerf/Constants.java:102-106 | the five gain-mode codes are pairwise distinct, so MGC differs from slow-attack AGC |
| Utils.LittleEndian | bladerf/src/main/java/com/sdr/bladerf/Utils.java:7-21 | the unsigned little-endian value of n bytes lies in [0, 256^n) |
| Utils.GetShort | bladerf/src/main/java/com/sdr/bladerf/Utils.java:7-9 | the signed 16-bit result has the bit pattern buf[off] + 256*buf[off+1], both bytes unsigned; the window must fit the buffer |
| Utils.GetInt | bladerf/src/main/java/com/sdr/bladerf/Utils.java:11-13 | the signed 32-bit result has the bit pattern of the four bytes at off, least significant first |
| Utils.GetIntAtStart | bladerf/src/main/java/com/sdr/bladerf/Utils.java:15-17 | the one-argument getInt is the four-argument one at offset 0; its bit pattern is the little-endian value of the first four bytes |
| Utils.GetLong | bladerf/src/main/java/com/sdr/bladerf/Utils.java:19-21 | the signed 64-bit result has the bit pattern of the eight bytes at off, least significant first |
| Utils.LittleEndianOfBytes | bladerf/src/main/java/com/sdr/bladerf/Utils.java:19-21 | bytes that hold the two's-complement bytes of x read back as x modulo 256^n (the decoder inverts the encoder) |
| Utils.LittleEndianSplit | bladerf/src/main/java/com/sdr/bladerf/Utils.java:7-21 | a little-endian value splits into its low k bytes plus 256^k times the rest |
| Utils.BytesToHex | bladerf/src/main/java/com/sdr/bladerf/Utils.java:23-33 | the output is twice as long as the input; characters 2i and 2i+1 are the upper-case high and low nibble of byte i, and they decode back to the byte |
| Utils.HexValue | bladerf/src/main/java/com/sdr/bladerf/Utils.java:23-24 | the digit's value is below 16 and indexes that digit in the hex alphabet |
| Utils.HexDigitValue | bladerf/src/main/java/com/sdr/bladerf/Utils.java:23-31 | reading back a digit of the hex alphabet gives its position |
| Usb.OverlayAt | bladerf/src/main/java/com/sdr/bladerf/NIOS.java:41-47 | an inbound transfer keeps the buffer's length, takes the device's bytes where it sent some and keeps the old bytes elsewhere |
| Usb.Fill | bladerf/src/main/java/com/sdr/bladerf/NIOS.java:41-47 | the buffer becomes the overlay of the device's bytes on its old contents |
| Usb.SentAppend | bladerf/src/main/java/com/sdr/bladerf/NIOS.java:33 | the outbound frames of two logs joined are those of each log, in order |
| Nios.LittleEndianBytes | bladerf/src/main/java/com/sdr/bladerf/NIOS.java:178-185 | byte k of the data field is byte k of the value's two's complement |
| Nios.Frame8x16Layout | bladerf/src/main/java/com/sdr/bladerf/NIOS.java:78-86 | an 8x16 frame is 16 bytes: magic 'B', target, flags, zero, address, the data modulo 2^16 little-endian, then zeros |
| Nios.Frame8x32Layout | bladerf/src/main/java/com/sdr/bladerf/NIOS.java:120-130 | an 8x32 frame is magic 'C', target, flags, zero, address, the data modulo 2^32 little-endian, then zeros |
| Nios.Frame16x64Layout | bladerf/src/main/java/com/sdr/bladerf/NIOS.java:170-185 | a 16x64 frame is magic 'E', target, flags, zero, command, channel, the data modulo 2^64 little-endian, then zeros |
| Nios.ReadFramesCarryNoData | bladerf/src/main/java/com/sdr/bladerf/NIOS.java:56-153 | a read frame has flags 0 and every byte after the flags is zero except the address (and channel) |
| Nios.Frame8x16RoundTrip | bladerf/src/main/java/com/sdr/bladerf/NIOS.java:85-86 | getShort at index 5 of an 8x16 frame gives back the 16-bit data |
| Nios.Frame8x32RoundTrip | bladerf/src/main/java/com/sdr/bladerf/NIOS.java:127-130 | getInt at index 5 of an 8x32 frame gives back the 32-bit data |
| Nios.Frame16x64RoundTrip | bladerf/src/main/java/com/sdr/bladerf/NIOS.java:178-185 | getLong at index 6 of a 16x64 frame gives back the 64-bit data |
| Nios.ExchangeSpec | bladerf/src/main/java/com/sdr/bladerf/NIOS.java:24-54 | an exchange sends exactly the request frame; a response has the request's length |
| Nios.Read8x16Spec | bladerf/src/main/java/com/sdr/bladerf/NIOS.java:56-76 | read8x16 sends exactly one 8x16 read frame for the target and address |
| Nios.Write8x16Spec | bladerf/src/main/java/com/sdr/bladerf/NIOS.java:78-96 | write8x16 sends exactly one 8x16 write frame (flags 1) carrying the data |
| Nios.Read8x32Spec | bladerf/src/main/java/com/sdr/bladerf/NIOS.java:98-118 | read8x32 sends exactly one 8x32 read frame |
| Nios.Write8x32Spec | bladerf/src/main/java/com/sdr/bladerf/NIOS.java:120-140 | write8x32 sends exactly one 8x32 write frame carrying the data |
| Nios.Read16x64Spec | bladerf/src/main/java/com/sdr/bladerf/NIOS.java:142-168 | read16x64 sends one 16x64 read frame, with timeout 100 when fast and quiet and 1000 otherwise, and only extends the log |
| Nios.Write16x64Spec | bladerf/src/main/java/com/sdr/bladerf/NIOS.java:170-196 | write16x64 sends one 16x64 write frame carrying the data and only extends the log |
| Nios.ReadOutcome | bladerf/src/main/java/com/sdr/bladerf/NIOS.java:142-168 | a failed outbound transfer ends the read with null and no inbound transfer; otherwise the read yields a value exactly when the inbound transfer succeeds, and that value is getLong of the response's data field |
| Nios.WriteOutcome | bladerf/src/main/java/com/sdr/bladerf/NIOS.java:189-195 | a write is accepted exactly when both transfers succeed and the echoed flags byte has bit 0 set; a reply too short to reach the flags leaves the request's flag 1 in place |
| Nios.FpgaVersionOf | bladerf/src/main/java/com/sdr/bladerf/NIOS.java:198-210 | major is bits 0-7, minor bits 8-15 and patch bits 16-31 of the word, and together they rebuild its 32-bit pattern |
| Nios.NewFrame8x16 | bladerf/src/main/java/com/sdr/bladerf/NIOS.java:79-86 | the freshly built buffer is exactly the 8x16 frame |
| Nios.NewFrame8x32 | bladerf/src/main/java/com/sdr/bladerf/NIOS.java:121-130 | the freshly built buffer is exactly the 8x32 frame |
| Nios.NewFrame16x64 | bladerf/src/main/java/com/sdr/bladerf/NIOS.java:171-185 | the freshly built buffer is exactly the 16x64 frame |
| Nios.StoreData8x32 | bladerf/src/main/java/com/sdr/bladerf/NIOS.java:127-130 | the four data bytes are stored little-endian and the rest of the frame is untouched |
| Nios.StoreData16x64 | bladerf/src/main/java/com/sdr/bladerf/NIOS.java:178-185 | the eight data bytes are stored little-endian and the rest of the frame is untouched |
| Nios.Nios.Access | bladerf/src/main/java/com/sdr/bladerf/NIOS.java:24-54 | the traffic and result are the exchange's; on success the buffer holds the response, on failure it is unchanged |
| Nios.Nios.Read8x16 | bladerf/src/main/java/com/sdr/bladerf/NIOS.java:56-76 | result and traffic are Read8x16Spec's |
| Nios.Nios.Write8x16 | bladerf/src/main/java/com/sdr/bladerf/NIOS.java:78-96 | result and traffic are Write8x16Spec's |
| Nios.Nios.Read8x32 | bladerf/src/main/java/com/sdr/bladerf/NIOS.java:98-118 | result and traffic are Read8x32Spec's |
| Nios.Nios.Write8x32 | bladerf/src/main/java/com/sdr/bladerf/NIOS.java:120-140 | result and traffic are Write8x32Spec's |
| Nios.Nios.Read16x64 | bladerf/src/main/java/com/sdr/bladerf/NIOS.java:142-168 | result and traffic are Read16x64Spec's |
| Nios.Nios.Write16x64 | bladerf/src/main/java/com/sdr/bladerf/NIOS.java:170-196 | result and traffic are Write16x64Spec's |
| Nios.Nios.GetFPGAVersion | bladerf/src/main/java/com/sdr/bladerf/NIOS.java:198-210 | null when the version read fails, otherwise the split of the word that came back |
| Nios.Nios.GetVCTCXOTrim | bladerf/src/main/java/com/sdr/bladerf/NIOS.java:212-215 | an 8x16 read of the DAC at address 0 |
| Nios.Nios.SetVCTCXOTrim | bladerf/src/main/java/com/sdr/bladerf/NIOS.java:217-220 | an 8x16 write of the trim to the DAC at address 0 |
| Nios.Nios.GetGPIO | bladerf/src/main/java/com/sdr/bladerf/NIOS.java:222-224 | an 8x32 read of the control target |
| Nios.Nios.GetRFFECSR | bladerf/src/main/java/com/sdr/bladerf/NIOS.java:226-228 | an 8x32 read of the RFFE control/status target |
| Rfic.QueueLength | bladerf/src/main/java/com/sdr/bladerf/RFIC.java:18-28 | -1 exactly when the status read failed; 0 exactly when the transceiver is initialized and bits 8-15 are zero; always in [-1, 255] |
| Rfic.QueueLengthIsSecondByte | bladerf/src/main/java/com/sdr/bladerf/RFIC.java:25-27 | for an initialized transceiver the queue length is the status word's second byte, unsigned |
| Rfic.StatusSpec | bladerf/src/main/java/com/sdr/bladerf/RFIC.java:18-28 | a status poll sends one fast, quiet STATUS read on channel INVALID |
| Rfic.DrainSpec | bladerf/src/main/java/com/sdr/bladerf/RFIC.java:33-42 | polling makes between 1 and `tries` status polls and nothing else, and stops only on an empty queue or when the polls run out |
| Rfic.DrainIsDrainOver | bladerf/src/main/java/com/sdr/bladerf/RFIC.java:33-42 | the drain is the generic drain over the connection's status reads |
| Rfic.DrainOverEnds | bladerf/src/main/java/com/sdr/bladerf/RFIC.java:36 | for any status reader: the drain's log is the one after its polls, and it reports an empty queue exactly when its last poll read 0 |
| Rfic.DrainOverEarlierPolls | bladerf/src/main/java/com/sdr/bladerf/RFIC.java:36 | for any status reader: every poll before the last read a non-zero length |
| Rfic.DrainEnds | bladerf/src/main/java/com/sdr/bladerf/RFIC.java:36 | the drain reports an empty queue exactly when its last status poll read a queue length of 0 |
| Rfic.DrainEarlierPolls | bladerf/src/main/java/com/sdr/bladerf/RFIC.java:36 | every status poll before the drain's last one read a non-zero queue length, so polling goes on past it |
| Rfic.WriteSpec | bladerf/src/main/java/com/sdr/bladerf/RFIC.java:30-45 | the result of write is the acceptance of its one write16x64, whether or not the queue drained |
| Rfic.WriteTraffic | bladerf/src/main/java/com/sdr/bladerf/RFIC.java:30-45 | write sends its frame to the RFIC, then 1 to 50 status polls, and nothing else |
| Rfic.ReadSpec | bladerf/src/main/java/com/sdr/bladerf/RFIC.java:14-16 | a read sends one 16x64 read frame for the command and channel |
| Rfic.GetSpec | bladerf/src/main/java/com/sdr/bladerf/RFIC.java:62-65 | a getter throws NullPointerException exactly when the read fails, and otherwise returns the value read |
| Rfic.SetSampleRateSpec | bladerf/src/main/java/com/sdr/bladerf/RFIC.java:67-74 | a rejected write returns false with no read-back; an accepted one sends exactly one SAMPLERATE read-back after the drain, throws NullPointerException exactly when that read fails, and otherwise returns true |
| Rfic.SetTxMuteTraffic | bladerf/src/main/java/com/sdr/bladerf/RFIC.java:133-137 | TXMUTE=1 goes to TX0 and then to TX1, each followed by its own 1 to 50 polls, whatever the results |
| Rfic.Rfic.GetWriteQueueLength | bladerf/src/main/java/com/sdr/bladerf/RFIC.java:18-28 | result and traffic are StatusSpec's |
| Rfic.Rfic.Write | bladerf/src/main/java/com/sdr/bladerf/RFIC.java:30-45 | result and traffic are WriteSpec's |
| Rfic.Rfic.Read | bladerf/src/main/java/com/sdr/bladerf/RFIC.java:14-16 | result and traffic are ReadSpec's |
| Rfic.Rfic.Open | bladerf/src/main/java/com/sdr/bladerf/RFIC.java:47-50 | writes INIT=1 on channel INVALID |
| Rfic.Rfic.Close | bladerf/src/main/java/com/sdr/bladerf/RFIC.java:52-55 | writes INIT=0 on channel INVALID |
| Rfic.Rfic.Enable | bladerf/src/main/java/com/sdr/bladerf/RFIC.java:57-60 | writes ENABLE with the state on RX0 |
| Rfic.Rfic.GetSampleRate | bladerf/src/main/java/com/sdr/bladerf/RFIC.java:62-65 | GetSpec of SAMPLERATE |
| Rfic.Rfic.SetSampleRate | bladerf/src/main/java/com/sdr/bladerf/RFIC.java:67-74 | result and traffic are SetSampleRateSpec's |
| Rfic.Rfic.GetBandwidth | bladerf/src/main/java/com/sdr/bladerf/RFIC.java:76-79 | GetSpec of BANDWIDTH |
| Rfic.Rfic.SetBandwidth | bladerf/src/main/java/com/sdr/bladerf/RFIC.java:81-84 | writes BANDWIDTH on RX0 |
| Rfic.Rfic.GetGainMode | bladerf/src/main/java/com/sdr/bladerf/RFIC.java:86-89 | GetSpec of GAINMODE |
| Rfic.Rfic.SetGainMode | bladerf/src/main/java/com/sdr/bladerf/RFIC.java:91-94 | writes GAINMODE on RX0 |
| Rfic.Rfic.GetGain | bladerf/src/main/java/com/sdr/bladerf/RFIC.java:96-99 | GetSpec of GAIN, narrowed to its low 32 bits |
| Rfic.Rfic.SetGain | bladerf/src/main/java/com/sdr/bladerf/RFIC.java:101-104 | writes GAIN on RX0 |
| Rfic.Rfic.GetFrequency | bladerf/src/main/java/com/sdr/bladerf/RFIC.java:106-109 | GetSpec of FREQUENCY |
| Rfic.Rfic.SetFrequency | bladerf/src/main/java/com/sdr/bladerf/RFIC.java:111-116 | writes FREQUENCY on RX0 |
| Rfic.Rfic.GetRxFilter | bladerf/src/main/java/com/sdr/bladerf/RFIC.java:118-121 | GetSpec of FILTER |
| Rfic.Rfic.SetRxFilter | bladerf/src/main/java/com/sdr/bladerf/RFIC.java:123-126 | writes FILTER on RX0 |
| Rfic.Rfic.SetTxFilter | bladerf/src/main/java/com/sdr/bladerf/RFIC.java:128-131 | writes FILTER on TX0 |
| Rfic.Rfic.SetTxMute | bladerf/src/main/java/com/sdr/bladerf/RFIC.java:133-137 | traffic is SetTxMuteSpec's |
| Ina219.ResetBitIsBit15 | bladerf/src/main/java/com/sdr/bladerf/INA219.java:34-41 | the reset test holds exactly when bit 15 of the register is set |
| Ina219.ConfigurationRead | bladerf/src/main/java/com/sdr/bladerf/INA219.java:16-18 | a configuration read sends one 8x16 read of register 0 to the INA219 |
| Ina219.ResetPollCount | bladerf/src/main/java/com/sdr/bladerf/INA219.java:34-41 | the poll makes at most `fuel` reads, and uses all of them only when it runs out of fuel |
| Ina219.ResetPollTraffic | bladerf/src/main/java/com/sdr/bladerf/INA219.java:34-41 | the poll sends only configuration reads, one per poll |
| Ina219.PollEndsAfterARead | bladerf/src/main/java/com/sdr/bladerf/INA219.java:34-41 | starting from the reset word, the poll ends only after at least one read |
| Ina219.InitializeTraffic | bladerf/src/main/java/com/sdr/bladerf/INA219.java:24-69 | the writes go out in the order reset, configuration, calibration, with the polls between the first two; a rejected write is the last frame sent; initialize succeeds only after all three writes were made |
| Ina219.InitializeOutcomes | bladerf/src/main/java/com/sdr/bladerf/INA219.java:24-69 | initialize returns true exactly when the reset write is accepted, the poll sees the reset bit clear, and the configuration and calibration writes are accepted; it returns false exactly when a write is rejected or a poll read fails; it runs out of fuel only while still resetting |
| Ina219.InitializeStopsAtFailure | bladerf/src/main/java/com/sdr/bladerf/INA219.java:28-39 | a rejected reset write is the only frame sent; a failed poll read ends the traffic after at least one poll; a rejected configuration write is the last frame; a rejected calibration write is the last frame |
| Ina219.InitializeTargetsIna219 | bladerf/src/main/java/com/sdr/bladerf/INA219.java:16-22 | every frame initialize sends is an 8x16 frame to the INA219 |
| Ina219.Ina219.Read | bladerf/src/main/java/com/sdr/bladerf/INA219.java:16-18 | an 8x16 read of the INA219 target |
| Ina219.Ina219.Write | bladerf/src/main/java/com/sdr/bladerf/INA219.java:20-22 | an 8x16 write to the INA219 target |
| Ina219.Ina219.AwaitReset | bladerf/src/main/java/com/sdr/bladerf/INA219.java:34-41 | result and traffic are ResetPollSpec's from the reset word |
| Ina219.Ina219.Initialize | bladerf/src/main/java/com/sdr/bladerf/INA219.java:24-69 | result and traffic are InitializeSpec's |
| Device.ControlSpec | bladerf/src/main/java/com/sdr/bladerf/Device.java:220-234 | a control transfer adds one vendor request with a 4-byte buffer to the log |
| Device.WordValues | bladerf/src/main/java/com/sdr/bladerf/Device.java:236-247 | the little-endian word is 1 exactly for bytes 1,0,0,0 and 0 exactly for four zeros |
| Device.FlagSpec | bladerf/src/main/java/com/sdr/bladerf/Device.java:236-276 | the firmware-ready and FPGA-loaded checks hold exactly when 4 bytes came back holding the word 1 |
| Device.FirmwareVersionSpec | bladerf/src/main/java/com/sdr/bladerf/Device.java:249-263 | a version exactly when 4 bytes came back; major and minor are the two little-endian shorts |
| Device.ControlResultSpec | bladerf/src/main/java/com/sdr/bladerf/Device.java:278-293 | a failed transfer gives -1, except RESET, which gives 0; otherwise the little-endian word |
| Device.ToggleRxSpec | bladerf/src/main/java/com/sdr/bladerf/Device.java:299-301 | toggleRx succeeds exactly when the transfer succeeded and the word is 0 |
| Device.CloseTraffic | bladerf/src/main/java/com/sdr/bladerf/Device.java:195-210 | close ends by releasing the interface and closing the connection; it sends INIT OFF to the RFIC only when the RFIC was open |
| Device.ProbeRequests | bladerf/src/main/java/com/sdr/bladerf/Device.java:124-145 | the checks are ready, version, FPGA, in order, stopping at the first failure; the device is reset only when its firmware is not ready |
| Device.ConfigureTraffic | bladerf/src/main/java/com/sdr/bladerf/Device.java:182-187 | opening ends with manual gain mode and then the gain 16 |
| Device.SettleOutcomes | bladerf/src/main/java/com/sdr/bladerf/Device.java:172-192 | the last stage of open returns true exactly when every logged read succeeded, and then ends with the gain settings |
| Device.StartOutcomes | bladerf/src/main/java/com/sdr/bladerf/Device.java:147-192 | start-up returns false exactly when the RFIC or the INA219 failed, and the device is then closed; it hangs exactly when the INA219 never leaves reset; success needs every logged read |
| Device.OpenOutcomes | bladerf/src/main/java/com/sdr/bladerf/Device.java:124-192 | a failed check returns false without sending a frame; every false leaves the connection released and closed; true exactly when the checks and start-up succeed |
| Device.Bandwidth | bladerf/src/main/java/com/sdr/bladerf/Device.java:342 | the bandwidth of a non-negative rate is at most the rate and at least 9/10 of it, rounded toward zero |
| Device.FiltersSpec | bladerf/src/main/java/com/sdr/bladerf/Device.java:326-337 | the Rx filter write is the first frame sent |
| Device.FiltersTraffic | bladerf/src/main/java/com/sdr/bladerf/Device.java:326-337 | the Tx filter is written only when the Rx filter write was accepted |
| Device.RaiseFromSpec | bladerf/src/main/java/com/sdr/bladerf/Device.java:330-332 | a current rate below 2,083,334 is raised to it first; otherwise nothing is sent |
| Device.RaiseToFirTraffic | bladerf/src/main/java/com/sdr/bladerf/Device.java:330-332 | the current rate is read first; a failed read throws; a low rate is then raised to the FIR threshold; any other rate sends nothing more |
| Device.FinishSampleRateSpec | bladerf/src/main/java/com/sdr/bladerf/Device.java:341-342 | the rate is written first, and a normal finish ends with the bandwidth write |
| Device.SampleRateFirstFrame | bladerf/src/main/java/com/sdr/bladerf/Device.java:323-332 | below the FIR threshold the first frame is the DEC4 Rx filter; otherwise it is the read of the current rate |
| Device.SampleRateCompletes | bladerf/src/main/java/com/sdr/bladerf/Device.java:323-344 | a normal finish has written the rate and ends with the bandwidth; at or above the threshold the matching filter code (DEC2 up to 30,720,000, else DEC1) was written |
| Device.GainModeFor | bladerf/src/main/java/com/sdr/bladerf/Device.java:356-360 | the mode is MGC exactly when manual gain is requested |
| Device.ManualGainSpec | bladerf/src/main/java/com/sdr/bladerf/Device.java:352-354 | manual gain is reported exactly when the mode read back is MGC; a failed read throws |
| Device.ManualGainReadsBack | bladerf/src/main/java/com/sdr/bladerf/Device.java:352-360 | a mode set by setManualGain reads back as the same choice |
| Device.EnableRxSpec | bladerf/src/main/java/com/sdr/bladerf/Device.java:375-389 | the firmware's RF_RX switch comes first, then the RFIC's ENABLE ON |
| Device.DisableRxSpec | bladerf/src/main/java/com/sdr/bladerf/Device.java:391-399 | the RFIC's ENABLE OFF comes first, the firmware's RF_RX switch last |
| Device.PoolShape | bladerf/src/main/java/com/sdr/bladerf/Device.java:406-419 | requests are initialized and queued in slot order; the one that fails stops the loop |
| Device.RequestsAllOrNothing | bladerf/src/main/java/com/sdr/bladerf/Device.java:401-427 | either all 32 requests are returned queued, or none is returned and every request created, including the failed one, is cancelled |
| Device.CancelsPool | bladerf/src/main/java/com/sdr/bladerf/Device.java:429-437 | cancelling a partly filled array cancels exactly the requests present, in order, and skips the empty slots |
| Device.StartChips | bladerf/src/main/java/com/sdr/bladerf/Device.java:147-170 | result and traffic are BringUpSpec's; the RFIC is dropped exactly when it does not initialize |
| Device.Device.ControlTransfer | bladerf/src/main/java/com/sdr/bladerf/Device.java:220-234 | one vendor control transfer over the whole buffer |
| Device.Device.IsFirmwareReady | bladerf/src/main/java/com/sdr/bladerf/Device.java:236-247 | FlagSpec of QUERY_DEVICE_READY |
| Device.Device.GetFirmwareVersion | bladerf/src/main/java/com/sdr/bladerf/Device.java:249-263 | FirmwareVersionSpec |
| Device.Device.IsFPGALoaded | bladerf/src/main/java/com/sdr/bladerf/Device.java:265-276 | FlagSpec of QUERY_FPGA_STATUS |
| Device.Device.ControlTransferWithResult | bladerf/src/main/java/com/sdr/bladerf/Device.java:278-293 | ControlResultSpec |
| Device.Device.Reset | bladerf/src/main/java/com/sdr/bladerf/Device.java:295-297 | one RESET request with value 1 |
| Device.Device.ToggleRx | bladerf/src/main/java/com/sdr/bladerf/Device.java:299-301 | ToggleRxSpec |
| Device.Device.Probe | bladerf/src/main/java/com/sdr/bladerf/Device.java:124-145 | result and traffic are ProbeSpec's |
| Device.Device.LogSettings | bladerf/src/main/java/com/sdr/bladerf/Device.java:172-180 | ReportSpec: the six RFIC reads in order, where a failed read throws, then the three NIOS reads |
| Device.Device.BringUp | bladerf/src/main/java/com/sdr/bladerf/Device.java:147-170 | BringUpSpec, with the RFIC field cleared exactly when the RFIC does not initialize |
| Device.Device.Settle | bladerf/src/main/java/com/sdr/bladerf/Device.java:172-192 | SettleSpec |
| Device.Device.AfterBringUp | bladerf/src/main/java/com/sdr/bladerf/Device.java:156-192 | AfterBringUpSpec; a false result leaves every field cleared |
| Device.Device.Open | bladerf/src/main/java/com/sdr/bladerf/Device.java:49-193 | no device gives false with no traffic; an unusable interface gives false after closing the connection; otherwise OpenSpec, a false result clears every field, and true leaves the device open |
| Device.Device.Close | bladerf/src/main/java/com/sdr/bladerf/Device.java:195-210 | every field is cleared, and the traffic is CloseSpec's |
| Device.Device.SetFilters | bladerf/src/main/java/com/sdr/bladerf/Device.java:326-337 | FiltersSpec |
| Device.Device.RaiseToFir | bladerf/src/main/java/com/sdr/bladerf/Device.java:330-332 | RaiseToFirSpec |
| Device.Device.FinishSampleRate | bladerf/src/main/java/com/sdr/bladerf/Device.java:341-342 | FinishSampleRateSpec |
| Device.Device.SetSampleRate | bladerf/src/main/java/com/sdr/bladerf/Device.java:323-344 | SampleRateSpec when open; nothing when not open |
| Device.Device.SetFrequency | bladerf/src/main/java/com/sdr/bladerf/Device.java:346-350 | one FREQUENCY write when open; nothing otherwise |
| Device.Device.GetManualGain | bladerf/src/main/java/com/sdr/bladerf/Device.java:352-354 | ManualGainSpec when open; false otherwise |
| Device.Device.SetManualGain | bladerf/src/main/java/com/sdr/bladerf/Device.java:356-360 | one GAINMODE write of GainModeFor(enable) when open; nothing otherwise |
| Device.Device.GetGain | bladerf/src/main/java/com/sdr/bladerf/Device.java:362-367 | when open, NullPointerException exactly when the RFIC's gain read fails, otherwise the value read narrowed to its low 32 bits; 0 and no traffic otherwise |
| Device.GainFits | bladerf/src/main/java/com/sdr/bladerf/RFIC.java:98 | `intValue()` keeps a gain that fits in 32 bits |
| Device.Device.SetGain | bladerf/src/main/java/com/sdr/bladerf/Device.java:369-373 | one GAIN write when open; nothing otherwise |
| Device.Device.EnableRx | bladerf/src/main/java/com/sdr/bladerf/Device.java:375-389 | EnableRxSpec when open; nothing otherwise |
| Device.Device.DisableRx | bladerf/src/main/java/com/sdr/bladerf/Device.java:391-399 | DisableRxSpec when open; nothing otherwise |
| Device.Device.QueueUSBRequest | bladerf/src/main/java/com/sdr/bladerf/Device.java:452-462 | one queue call; the result is whether the request was queued |
| Device.Device.InitializeUSBRequests | bladerf/src/main/java/com/sdr/bladerf/Device.java:401-427 | result and traffic are InitializeRequestsSpec's |
| Device.Device.CancelUSBRequests | bladerf/src/main/java/com/sdr/bladerf/Device.java:429-437 | each request present is cancelled; a missing array does nothing |
| IqConverter.LevelRange | app/src/main/java/com/mantz_it/rfanalyzer/Signed12BitIQConverter.java:9-14 | table entries lie in [-1, 2047/2048]; entry 0 is -1, entry 2048 is 0, and neighbouring entries differ by 1/2048 |
| IqConverter.DecodeBits | app/src/main/java/com/mantz_it/rfanalyzer/Signed12BitIQConverter.java:54-55 | the intended decoding (the corrected half of the finding): the decoded word has the bit pattern lo + 256*hi, both bytes unsigned |
| IqConverter.DecodeIsGetShort | app/src/main/java/com/mantz_it/rfanalyzer/Signed12BitIQConverter.java:54-55 | the intended decoding (the corrected half of the finding) is the little-endian short that getShort reads |
| IqConverter.DecodeRoundTrip | app/src/main/java/com/mantz_it/rfanalyzer/Signed12BitIQConverter.java:54-55 | decoding the two bytes of any short gives the short back |
| IqConverter.AsWrittenAgrees | app/src/main/java/com/mantz_it/rfanalyzer/Signed12BitIQConverter.java:54-55 | the decoding as written is correct exactly when the low byte is below 0x80 or the high byte is 0xff |
| IqConverter.AsWrittenMisreads200 | app/src/main/java/com/mantz_it/rfanalyzer/Signed12BitIQConverter.java:54-55 | the sample 200 is sent as C8 00 and the decoding as written reads it as -56 |
| IqConverter.AsWrittenOnTwelveBits | app/src/main/java/com/mantz_it/rfanalyzer/Signed12BitIQConverter.java:54-55 | among 12-bit samples, the decoding as written is right only for those whose low byte is below 0x80 and for those in [-128, 0) |
| IqConverter.TwelveBitSamplesInTable | app/src/main/java/com/mantz_it/rfanalyzer/Signed12BitIQConverter.java:56-57 | under the intended decoding (the corrected half of the finding), every 12-bit sample indexes the table, and its entry is the sample over 2048 |
| IqConverter.AsWrittenTwelveBitLevel | app/src/main/java/com/mantz_it/rfanalyzer/Signed12BitIQConverter.java:54-57 | the decoding as written of any 12-bit sample indexes the table; its entry is the sample over 2048 exactly when the low byte is below 0x80 or the sample is in [-128, 0) |
| IqConverter.SamplesAsIntended | app/src/main/java/com/mantz_it/rfanalyzer/Signed12BitIQConverter.java:54-55 | the I (Q) word the converter reads equals the intended one exactly when its low byte is below 0x80 or its high byte is 0xff |
| IqConverter.Count | app/src/main/java/com/mantz_it/rfanalyzer/Signed12BitIQConverter.java:47 | the count is the smaller of the packet's sample count and the capacity |
| IqConverter.FirstFailure | app/src/main/java/com/mantz_it/rfanalyzer/Signed12BitIQConverter.java:53-58 | with words decoded as written, every sample before it stores; the one at it, if any, throws |
| IqConverter.LevelsI | app/src/main/java/com/mantz_it/rfanalyzer/Signed12BitIQConverter.java:54-56 | entry k is the table level of sample k's I word, decoded as written |
| IqConverter.LevelsQ | app/src/main/java/com/mantz_it/rfanalyzer/Signed12BitIQConverter.java:55-57 | entry k is the table level of sample k's Q word, decoded as written |
| IqConverter.LevelsIAsIntended | app/src/main/java/com/mantz_it/rfanalyzer/Signed12BitIQConverter.java:54-56 | the I levels stored are the intended ones exactly when every I word is decoded correctly as written |
| IqConverter.LevelsQAsIntended | app/src/main/java/com/mantz_it/rfanalyzer/Signed12BitIQConverter.java:55-57 | the Q levels stored are the intended ones exactly when every Q word is decoded correctly as written |
| IqConverter.WrapIsRemainder | app/src/main/java/com/mantz_it/rfanalyzer/Signed12BitIQConverter.java:83 | stepping x times through m rows from row 0 ends at x mod m |
| IqConverter.RowNext | app/src/main/java/com/mantz_it/rfanalyzer/Signed12BitIQConverter.java:83 | each sample moves the rotation to (index + 1) mod rows |
| IqConverter.RowsCarryOver | app/src/main/java/com/mantz_it/rfanalyzer/Signed12BitIQConverter.java:83 | a rotation resumed after k1 samples stands, k2 samples later, where one run of k1 + k2 samples stands |
| IqConverter.TablesTurn | app/src/main/java/com/mantz_it/rfanalyzer/Signed12BitIQConverter.java:81-82 | the table differences and sums are the real and imaginary parts of (I + jQ)(cos + j sin) at the sample's row |
| IqConverter.MixedRe | app/src/main/java/com/mantz_it/rfanalyzer/Signed12BitIQConverter.java:81 | one real part per sample; `MixedAt` states each entry |
| IqConverter.MixedIm | app/src/main/java/com/mantz_it/rfanalyzer/Signed12BitIQConverter.java:82 | one imaginary part per sample; `MixedAt` states each entry |
| IqConverter.MixedAt | app/src/main/java/com/mantz_it/rfanalyzer/Signed12BitIQConverter.java:79-82 | entry k of the mixed parts is the table difference (sum) for sample k's words, decoded as written, at row k of the rotation |
| IqConverter.MixedAsIntended | app/src/main/java/com/mantz_it/rfanalyzer/Signed12BitIQConverter.java:79-82 | when every word is decoded correctly as written, the mixed parts are those of the intended samples |
| IqConverter.AliasedMix | app/src/main/java/com/mantz_it/rfanalyzer/Signed12BitIQConverter.java:19-21 | a zero mix, or one whose period exceeds the longest table, is moved up by the sample rate with 32-bit wrap-around; the zero test comes first, so nothing divides by zero |
| IqConverter.AliasedMixNonZero | app/src/main/java/com/mantz_it/rfanalyzer/Signed12BitIQConverter.java:19-21 | with a non-zero sample rate the aliased mix is never 0 unless mix + rate wraps to 0 |
| IqConverter.BuildMixerTables | app/src/main/java/com/mantz_it/rfanalyzer/Signed12BitIQConverter.java:28-39 | the fresh tables have the given rows, and entry (t, i) is level i times the cosine (sine) of row t's phase |
| IqConverter.SamplePacket.constructor | app/src/main/java/com/mantz_it/rfanalyzer/Signed12BitIQConverter.java:48-51 | a packet starts empty, with fresh re and im arrays of the given capacity |
| IqConverter.Converter.constructor | app/src/main/java/com/mantz_it/rfanalyzer/Signed12BitIQConverter.java:4-15 | a converter starts with the direct table built and no mixer tables |
| IqConverter.Converter.SetSampleRate | app/src/main/java/com/mantz_it/rfanalyzer/BladeRFSource.java:107 | only the sample rate changes |
| IqConverter.Converter.SetFrequency | app/src/main/java/com/mantz_it/rfanalyzer/BladeRFSource.java:127 | only the frequency changes |
| IqConverter.Converter.GenerateLookupTable | app/src/main/java/com/mantz_it/rfanalyzer/Signed12BitIQConverter.java:9-14 | a fresh table of 4096 entries, entry i being (i - 2048)/2048, and nothing else changes |
| IqConverter.Converter.GenerateMixerLookupTable | app/src/main/java/com/mantz_it/rfanalyzer/Signed12BitIQConverter.java:18-43 | the tables are rebuilt exactly when absent or built for another aliased frequency; a rebuild has the optimal number of rows and restarts the rotation at row 0; otherwise tables, frequency and rotation are kept |
| IqConverter.Converter.Fill | app/src/main/java/com/mantz_it/rfanalyzer/Signed12BitIQConverter.java:46-65 | with words decoded as written: returns the count and stamps the rate and frequency exactly when no sample fails; writes only positions size.. on; on failure throws ArrayIndexOutOfBounds with size and stamps untouched and what was stored before kept |
| IqConverter.Converter.Mix | app/src/main/java/com/mantz_it/rfanalyzer/Signed12BitIQConverter.java:67-91 | with words decoded as written: the mix is (int)(frequency - channel) aliased; the tables follow GenerateMixerLookupTable; stored values are the rotated samples at successive rows; the rotation index ends where the run stopped; success stamps the channel frequency |
| IqConverter.MixInto | app/src/main/java/com/mantz_it/rfanalyzer/Signed12BitIQConverter.java:72-90 | the mixing loop followed by the new size and stamps, exactly when no sample failed |
| IqConverter.MixLoop | app/src/main/java/com/mantz_it/rfanalyzer/Signed12BitIQConverter.java:78-84 | the loop stops at the first failure, has rotated one row per sample stored, and wrote the rotated values of the words decoded as written, in order |
| IqConverter.FillLoop | app/src/main/java/com/mantz_it/rfanalyzer/Signed12BitIQConverter.java:53-58 | the loop stops at the first failure and wrote the table levels of the words decoded as written, in order |
| BladeRfSource.RoundedFrequencyParity | app/src/main/java/com/mantz_it/rfanalyzer/BladeRFSource.java:118-120 | a non-negative frequency becomes even and grows by at most one; Long.MAX wraps to Long.MIN; negative and even frequencies are kept |
| BladeRfSource.FirstAbove | app/src/main/java/com/mantz_it/rfanalyzer/BladeRFSource.java:159-163 | the index of the first listed rate above the given one, from index k on, or the list's length |
| BladeRfSource.NextHigherIsLeastAbove | app/src/main/java/com/mantz_it/rfanalyzer/BladeRFSource.java:152-165 | on an ascending list: the least listed rate above the input, else the largest; only an empty list throws |
| BladeRfSource.NextLowerIsGreatestBelow | app/src/main/java/com/mantz_it/rfanalyzer/BladeRFSource.java:168-181 | on an ascending list: the greatest listed rate at or below the input, or the smallest when all are above it; only an empty list throws |
| BladeRfSource.FoldStopped | app/src/main/java/com/mantz_it/rfanalyzer/BladeRFSource.java:247-276 | once the loop has ended, further arrivals change nothing |
| BladeRfSource.FoldCounts | app/src/main/java/com/mantz_it/rfanalyzer/BladeRFSource.java:245-259 | while running, the timeout count is the number of timeouts since the last completed request, and it stays below ten |
| BladeRfSource.TenthTimeoutEnds | app/src/main/java/com/mantz_it/rfanalyzer/BladeRFSource.java:253-258 | a timeout ends the loop exactly when it is the tenth in a row; otherwise the loop goes on |
| BladeRfSource.FoldTakes | app/src/main/java/com/mantz_it/rfanalyzer/BladeRFSource.java:251-263 | while running, the buffers handed over are the data of the completed arrivals, in order |
| BladeRfSource.FoldQueues | app/src/main/java/com/mantz_it/rfanalyzer/BladeRFSource.java:261-271 | the queue is the old queue followed by the buffers received, cut at 1024; the pool loses one buffer from its front per completed request until it is empty |
| BladeRfSource.FoldRequeues | app/src/main/java/com/mantz_it/rfanalyzer/BladeRFSource.java:267-273 | the worker only appends calls; every buffer it queues comes from the pool or is a fresh one of packet size |
| BladeRfSource.Source.constructor | app/src/main/java/com/mantz_it/rfanalyzer/BladeRFSource.java:22-37 | rate 0, frequency 0, AGC on, gain -1000, no device, not sampling |
| BladeRfSource.Source.Open | app/src/main/java/com/mantz_it/rfanalyzer/BladeRFSource.java:40-73 | empty queue and pool, the device set, and the device's answer returned |
| BladeRfSource.Source.OnOpened | app/src/main/java/com/mantz_it/rfanalyzer/BladeRFSource.java:44-56 | on success each setting still at its initial value is read from the device, with AGC the opposite of manual gain; reading a closed device throws NullPointerException and changes nothing |
| BladeRfSource.Source.SetSampleRate | app/src/main/java/com/mantz_it/rfanalyzer/BladeRFSource.java:101-109 | the same rate changes nothing; a new rate goes to the converter always and to the device only while sampling |
| BladeRfSource.Source.SetFrequency | app/src/main/java/com/mantz_it/rfanalyzer/BladeRFSource.java:117-129 | the rounded frequency, if new, goes to the device silently and to the converter; otherwise nothing changes |
| BladeRfSource.Source.SetGain | app/src/main/java/com/mantz_it/rfanalyzer/BladeRFSource.java:319-326 | a new gain is stored and sent to the device; the same gain changes nothing |
| BladeRfSource.Source.SetAgc | app/src/main/java/com/mantz_it/rfanalyzer/BladeRFSource.java:332-339 | a new AGC choice is stored and the device gets manual gain as its opposite; the same choice changes nothing |
| BladeRfSource.Source.NextHigherOptimalSampleRate | app/src/main/java/com/mantz_it/rfanalyzer/BladeRFSource.java:152-165 | the input without a device; NextHigher of the device's rates with one |
| BladeRfSource.Source.NextLowerOptimalSampleRate | app/src/main/java/com/mantz_it/rfanalyzer/BladeRFSource.java:168-181 | the input without a device; NextLower of the device's rates with one |
| BladeRfSource.Source.GetPacket | app/src/main/java/com/mantz_it/rfanalyzer/BladeRFSource.java:194-201 | the oldest queued packet is removed and returned; an empty queue gives null |
| BladeRfSource.Source.ReturnPacket | app/src/main/java/com/mantz_it/rfanalyzer/BladeRFSource.java:204-210 | a buffer of packet size goes to the pool unless it is full; any other is turned away; without a device it throws |
| BladeRfSource.Source.StartSampling | app/src/main/java/com/mantz_it/rfanalyzer/BladeRFSource.java:213-232 | the queue is cleared; with a device, frequency, rate, manual gain, gain and Rx enable go out in that order and sampling begins |
| BladeRfSource.Source.StopSampling | app/src/main/java/com/mantz_it/rfanalyzer/BladeRFSource.java:287-303 | does nothing unless sampling; otherwise disables Rx and ends sampling |
| BladeRfSource.Source.Close | app/src/main/java/com/mantz_it/rfanalyzer/BladeRFSource.java:81-88 | stops sampling, closes and drops the device and returns true; without a device it throws |
| BladeRfSource.Source.Serve | app/src/main/java/com/mantz_it/rfanalyzer/BladeRFSource.java:248-275 | one pass of the worker loop is Process applied to the current state |
| BladeRfSource.Source.Run | app/src/main/java/com/mantz_it/rfanalyzer/BladeRFSource.java:235-284 | no requests (or not sampling) ends at once and clears isSampling; otherwise the state follows Fold over the arrivals; the requests are cancelled once the loop has ended |

## Left out

- USB plumbing is not modelled: device enumeration, `openDevice`, claiming the interface, endpoint lookup and `requestWait`. The connection is an oracle, and `Device.Plumbing` stands for how far the plumbing got. `getSamples` is part of that plumbing; the worker sees its result as an `Arrival`.
- Threads, `join`, the `Handler`/`Executor` callback dispatch and `Thread.sleep` between RFIC polls are not modelled. The open callback is `Source.OnOpened`, called with the error flag.
- The consumer that drains the queue while the worker runs is not modelled: `Run` sees no `GetPacket` in between.
- BladeRfSource.Source.GetPacket: the timed blocking `poll` is an immediate poll.
- Floating point is modelled as reals. Table levels are exact. The cosine and sine of a mixer row are oracle functions of the frequency, the row and the rate.
- Device.Bandwidth: `(long)(sampleRate * 0.9)` is modelled as 9*rate/10 rounded toward zero. Only its bounds are stated.
- IqConverter.Converter.SetSampleRate: the `IQConverter` base-class setter is taken as a plain field store. A rate change does not rebuild the mixer tables; the next `Mix` rebuilds them only if the aliased frequency changed.
- IqConverter.Converter.SetFrequency: the `IQConverter` base-class setter is taken as a plain field store.
- The `IQConverter` base class is not part of this model. `calcOptimalCosineLength`, `MAX_COSINE_LENGTH` and `SamplePacket.capacity()` are parameters.
- Packet arrays are values in the source model (`seq<i8>`), with no identity or aliasing. A buffer in the pool and one in the queue can therefore not be the same object.
- IqConverter.Converter.Fill and IqConverter.Converter.Mix require the packet's `re` and `im` arrays to be distinct from each other and from the lookup table. The source does not check this.
- Sample positions and sizes are unbounded integers and are not wrapped at 32 bits.
- The source's `queue` and `pool` are null before `open`. The model starts them empty.
- The device of the I/Q source is modelled through its interface. Its getters are fixed values, and `initializeUSBRequests` is a request count.
- BladeRfSource.Source.Run: exceptions other than the allocation of a buffer of negative size are not modelled in the worker.
- The plain getters are not modelled: `getName`, `getSampleRate`, `getFrequency`, `getMin/MaxFrequency`, `getMin/MaxSampleRate`, `getPacketSize`, `getGain`, `getAGC` and `getSupportedSampleRates`.
- The delegates `fillPacketIntoSamplePacket` and `mixPacketIntoSamplePacket` of the source are not modelled separately. They are `Converter.Fill` and `Converter.Mix`.
- Ina219.Ina219.Initialize: the reset poll has no bound in the source. The model gives it `fuel` polls and reports `OutOfFuel` (Device: `Hung`) when they run out.
- Logging, `dumpMessages` and the log-only branches are not modelled. Only `bytesToHex` is kept.
- IqConverter.Converter.Mix: the source updates `cosineIndex` after every sample. The model stores it once, after the loop, and proves it equal to the per-sample value where the loop stopped.
- Two behaviours follow the code rather than the documented intent. A failed RFIC status read gives -1, not 255, and polling goes on. A worker that stops on timeouts or on a failed re-queue leaves `isSampling` true.
- `HackrfSource`, the rtl-sdr device stub, `USBPermission` and `IDevice` are not part of this model.

## Findings

| source | as written | input that shows it | evidently intended | confidence | as-written member | corrected member |
|---|---|---|---|---|---|---|
| app/src/main/java/com/mantz_it/rfanalyzer/Signed12BitIQConverter.java:54-55 | `(short)(((short) hi << 8) \| (short) lo)` sign-extends the low byte, so its one-bits cover the high byte whenever the low byte is 0x80 or more | sample 200 arrives as bytes C8 00 and is decoded as -56 | the little-endian short with the low byte taken unsigned (`lo & 0xff`) | not executed | IqConverter.AsWrittenMisreads200 | IqConverter.DecodeRoundTrip |

The converter's `Fill` and `Mix` follow the code as written. `LevelsIAsIntended`, `LevelsQAsIntended` and `MixedAsIntended` state exactly when their results equal those of the intended decoding, `Decode`.
