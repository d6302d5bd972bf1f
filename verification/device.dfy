/** The bladeRF device: the firmware's vendor control requests, bring-up
    and shutdown of the peripherals behind the NIOS interface, the FIR
    filter choice when the sample rate changes, Rx switching, and the pool
    of USB requests that carry samples. */
module Device {
  import opened JavaTypes
  import opened Constants
  import opened Utils
  import opened Usb
  import opened Nios
  import opened Rfic
  import opened Ina219

  const USB_TIMEOUT: int := 1000
  /** Bytes in one sample transfer. */
  const PACKET_SIZE: int := 8192
  /** Sample transfers kept in flight. */
  const NOF_TRANSFERS: nat := 32

  const MIN_SAMPLE_RATE: i32 := 520834
  const MAX_SAMPLE_RATE: i32 := 61440000
  /** Below this rate the RFIC needs its 4x FIR decimation. */
  const FIR_SAMPLE_RATE: i32 := 2083334
  /** Up to this rate (half the maximum) 2x decimation is enough. */
  const HALF_MAX_SAMPLE_RATE: i32 := 61440000 / 2
  const SUPPORTED_SAMPLE_RATES: seq<i32> :=
    [520834, 1000000, 2000000, 4000000, 8000000, 10000000, 20000000, 30000000, 40000000, 61440000]
  const MIN_FREQUENCY: i64 := 70000000
  const MAX_FREQUENCY: i64 := 6000000000

  /** The VCTCXO trim DAC value written after bring-up. */
  const VCTCXO_TRIM: i16 := 0x1f3f
  /** The manual gain set after bring-up. */
  const INITIAL_GAIN: i32 := 16

  // ---------------------------------------------------------------------
  // Vendor control requests

  /** The `new byte[4]` each control request reads into. */
  function Empty4(): seq<i8>
  {
    [0, 0, 0, 0]
  }

  /** A vendor control request into a 4-byte buffer: the length the
      connection reports and the buffer afterwards (untouched on failure). */
  function ControlSpec(c: Connection, h: seq<Event>, request: int, value: int): (r: Step<Transfer>)
    ensures |r.value.data| == 4
    ensures r.log == h + [ControlIn(request, value, 4, USB_TIMEOUT)]
  {
    var reply := c.controlReply(h);
    Step(Transfer(reply.status, if reply.status < 0 then Empty4() else Overlay(Empty4(), reply.data)),
         h + [ControlIn(request, value, 4, USB_TIMEOUT)])
  }

  /** The 4-byte little-endian word `n`, for a small `n`, has exactly one
      encoding: `n` followed by three zero bytes. */
  lemma SmallWord(bs: seq<i8>, n: i8)
    requires |bs| == 4 && 0 <= n <= 1
    ensures GetIntAtStart(bs) == n as int <==> bs == [n, 0, 0, 0]
  {
    assert bs[..4] == bs;
    LittleEndian4(bs);
    var w: int := GetIntAtStart(bs);
    assert w % 0x1_0000_0000 == n as int <==> w == n as int;
  }

  /** A 4-byte little-endian word is 1 exactly for the bytes 01 00 00 00,
      and 0 exactly for four zero bytes. */
  lemma WordValues(bs: seq<i8>)
    requires |bs| == 4
    ensures GetIntAtStart(bs) == 1 <==> bs == [1, 0, 0, 0]
    ensures GetIntAtStart(bs) == 0 <==> bs == Empty4()
  {
    SmallWord(bs, 1);
    SmallWord(bs, 0);
  }

  /** `isFirmwareReady` and `isFPGALoaded`: exactly four bytes came back
      and they hold the word 1. */
  function FlagSpec(c: Connection, h: seq<Event>, request: int): (r: Step<bool>)
    ensures var t := ControlSpec(c, h, request, 0);
      r.log == t.log && (r.value <==> t.value.status == 4 && t.value.data == [1, 0, 0, 0])
  {
    var t := ControlSpec(c, h, request, 0);
    WordValues(t.value.data);
    Step(t.value.status == 4 && GetIntAtStart(t.value.data) == 1, t.log)
  }

  /** The firmware version: two little-endian shorts, major then minor. */
  datatype FirmwareVersion = FirmwareVersion(major: i16, minor: i16)

  /** `getFirmwareVersion`: absent unless exactly four bytes came back;
      bytes 0-1 are the major number and bytes 2-3 the minor one. */
  function FirmwareVersionSpec(c: Connection, h: seq<Event>): (r: Step<Option<FirmwareVersion>>)
    ensures var t := ControlSpec(c, h, USB_CMD_QUERY_VERSION, 0); var d := t.value.data;
      r.log == t.log && (r.value.Some? <==> t.value.status == 4) &&
      (r.value.Some? ==>
        r.value.value.major % 0x1_0000 == Unsigned8(d[0]) + 0x100 * Unsigned8(d[1]) &&
        r.value.value.minor % 0x1_0000 == Unsigned8(d[2]) + 0x100 * Unsigned8(d[3]))
  {
    var t := ControlSpec(c, h, USB_CMD_QUERY_VERSION, 0);
    if t.value.status != 4 then Step(None, t.log)
    else Step(Some(FirmwareVersion(GetShort(t.value.data, 0, 4), GetShort(t.value.data, 2, 2))), t.log)
  }

  /** `controlTransferWithResult`: -1 when the request failed, except for
      RESET, whose failure leaves the zeroed buffer and so yields 0;
      otherwise the little-endian word that came back. */
  function ControlResultSpec(c: Connection, h: seq<Event>, request: int, value: int): (r: Step<i32>)
    ensures var t := ControlSpec(c, h, request, value);
      r.log == t.log &&
      (t.value.status < 0 ==> r.value == if request == USB_CMD_RESET then 0 else -1) &&
      (t.value.status >= 0 ==> r.value % 0x1_0000_0000 == LittleEndian(t.value.data))
  {
    var t := ControlSpec(c, h, request, value);
    WordValues(t.value.data);
    assert t.value.data[..4] == t.value.data;
    Step(if t.value.status < 0 && request != USB_CMD_RESET then -1 else GetIntAtStart(t.value.data), t.log)
  }

  /** `toggleRx`: succeeds exactly when the RF_RX request went through and
      the device answered with four zero bytes. */
  function ToggleRxSpec(c: Connection, h: seq<Event>, state: int): (r: Step<bool>)
    ensures var t := ControlSpec(c, h, USB_CMD_RF_RX, state);
      r.log == t.log && (r.value <==> t.value.status >= 0 && t.value.data == Empty4())
  {
    var t := ControlSpec(c, h, USB_CMD_RF_RX, state);
    WordValues(t.value.data);
    var w := ControlResultSpec(c, h, USB_CMD_RF_RX, state);
    Step(w.value == 0, w.log)
  }

  // ---------------------------------------------------------------------
  // Open and close

  /** `close`: an open RFIC is switched off first; then the interface is
      released and the connection closed. */
  function CloseSpec(c: Connection, h: seq<Event>, rficOpen: bool): (log: seq<Event>)
  {
    (if rficOpen then WriteSpec(c, h, RFIC_CMD_INIT, CHANNEL_INVALID, RFIC_STATE_OFF).log else h)
    + [ReleaseInterface, CloseConnection]
  }

  /** Closing ends with the release and the close of the connection; the
      only frame it sends is the RFIC's INIT OFF, and only when the RFIC
      was open. */
  lemma CloseTraffic(c: Connection, h: seq<Event>, rficOpen: bool)
    ensures var log := CloseSpec(c, h, rficOpen);
      h <= log && |log| >= 2 && log[|log| - 2..] == [ReleaseInterface, CloseConnection] &&
      (!rficOpen ==> Sent(log) == Sent(h)) &&
      (rficOpen ==>
        exists polls :: 1 <= polls <= WRITE_TRIES &&
          Sent(log) == Sent(h) + [WriteFrame(RFIC_CMD_INIT, CHANNEL_INVALID, RFIC_STATE_OFF)]
                       + Repeat(StatusPoll(), polls))
  {
    var before := if rficOpen then WriteSpec(c, h, RFIC_CMD_INIT, CHANNEL_INVALID, RFIC_STATE_OFF).log else h;
    SentSkips(before, [ReleaseInterface, CloseConnection]);
    if rficOpen {
      WriteTraffic(c, h, RFIC_CMD_INIT, CHANNEL_INVALID, RFIC_STATE_OFF);
    }
  }

  /** How the firmware checks in `open` end. */
  datatype Probe = Probed | FirmwareNotReady | NoFirmwareVersion | FpgaNotLoaded

  /** Firmware ready (else a device reset), firmware version, FPGA loaded,
      in that order, stopping at the first that fails. */
  function ProbeSpec(c: Connection, h: seq<Event>): (r: Step<Probe>)
  {
    var ready := FlagSpec(c, h, USB_CMD_QUERY_DEVICE_READY);
    if !ready.value then Step(FirmwareNotReady, ControlResultSpec(c, ready.log, USB_CMD_RESET, 1).log)
    else
      var version := FirmwareVersionSpec(c, ready.log);
      if version.value.None? then Step(NoFirmwareVersion, version.log)
      else
        var loaded := FlagSpec(c, version.log, USB_CMD_QUERY_FPGA_STATUS);
        Step(if loaded.value then Probed else FpgaNotLoaded, loaded.log)
  }

  function Query(request: int, value: int): Event
  {
    ControlIn(request, value, 4, USB_TIMEOUT)
  }

  /** The probe makes control requests only, in a fixed order, and resets
      the device exactly when its firmware is not ready. */
  lemma ProbeRequests(c: Connection, h: seq<Event>)
    ensures var r := ProbeSpec(c, h);
      var ready, version, fpga := Query(USB_CMD_QUERY_DEVICE_READY, 0), Query(USB_CMD_QUERY_VERSION, 0),
                                  Query(USB_CMD_QUERY_FPGA_STATUS, 0);
      Sent(r.log) == Sent(h) &&
      (r.value == FirmwareNotReady ==> r.log == h + [ready, Query(USB_CMD_RESET, 1)]) &&
      (r.value == NoFirmwareVersion ==> r.log == h + [ready, version]) &&
      (r.value in {Probed, FpgaNotLoaded} ==> r.log == h + [ready, version, fpga])
  {
    var ready := FlagSpec(c, h, USB_CMD_QUERY_DEVICE_READY);
    var first := Query(USB_CMD_QUERY_DEVICE_READY, 0);
    if !ready.value {
      var reset := Query(USB_CMD_RESET, 1);
      assert ProbeSpec(c, h).log == h + [first, reset];
      SentSkips(h, [first, reset]);
    } else {
      var version := FirmwareVersionSpec(c, ready.log);
      var second := Query(USB_CMD_QUERY_VERSION, 0);
      if version.value.None? {
        assert ProbeSpec(c, h).log == h + [first, second];
        SentSkips(h, [first, second]);
      } else {
        var third := Query(USB_CMD_QUERY_FPGA_STATUS, 0);
        assert ProbeSpec(c, h).log == h + [first, second, third];
        SentSkips(h, [first, second, third]);
      }
    }
  }

  /** How the peripheral bring-up in `open` ends. */
  datatype BringUp = Up | RficFailed | Ina219Failed | Ina219Hung

  /** FPGA version (only logged), RFIC INIT ON, Tx mute, INA219 start-up. */
  function BringUpSpec(c: Connection, h: seq<Event>, fuel: nat): (r: Step<BringUp>)
  {
    var fpga := Read8x32Spec(c, h, NIOS_PKT_8x32_TARGET_VERSION, 0);
    var rfic := WriteSpec(c, fpga.log, RFIC_CMD_INIT, CHANNEL_INVALID, RFIC_STATE_ON);
    if !rfic.value then Step(RficFailed, rfic.log)
    else
      var init := InitializeSpec(c, SetTxMuteSpec(c, rfic.log), fuel);
      Step(match init.value
           case Done(ok) => if ok then Up else Ina219Failed
           case OutOfFuel => Ina219Hung,
           init.log)
  }

  /** The values `open` logs: six RFIC getters, each of which throws when
      its read fails, then three NIOS reads whose failure only prints
      "null". */
  function ReportSpec(c: Connection, h: seq<Event>): (r: Step<Completion>)
  {
    var rate := GetSpec(c, h, RFIC_CMD_SAMPLERATE);
    if rate.value.Threw? then Step(Raised(rate.value.exception), rate.log) else
    var frequency := GetSpec(c, rate.log, RFIC_CMD_FREQUENCY);
    if frequency.value.Threw? then Step(Raised(frequency.value.exception), frequency.log) else
    var bandwidth := GetSpec(c, frequency.log, RFIC_CMD_BANDWIDTH);
    if bandwidth.value.Threw? then Step(Raised(bandwidth.value.exception), bandwidth.log) else
    var mode := GetSpec(c, bandwidth.log, RFIC_CMD_GAINMODE);
    if mode.value.Threw? then Step(Raised(mode.value.exception), mode.log) else
    var gain := GetSpec(c, mode.log, RFIC_CMD_GAIN);
    if gain.value.Threw? then Step(Raised(gain.value.exception), gain.log) else
    var filter := GetSpec(c, gain.log, RFIC_CMD_FILTER);
    if filter.value.Threw? then Step(Raised(filter.value.exception), filter.log) else
    var trim := Read8x16Spec(c, filter.log, NIOS_PKT_8x16_TARGET_AD56X1_DAC, 0);
    var gpio := Read8x32Spec(c, trim.log, NIOS_PKT_8x32_TARGET_CONTROL, 0);
    Step(Normal, Read8x32Spec(c, gpio.log, NIOS_PKT_8x32_TARGET_RFFE_CSR, 0).log)
  }

  /** The final settings: VCTCXO trim (failure only logged), manual gain
      mode, gain 16. */
  function ConfigureSpec(c: Connection, h: seq<Event>): (log: seq<Event>)
  {
    var trim := Write8x16Spec(c, h, NIOS_PKT_8x16_TARGET_AD56X1_DAC, 0, VCTCXO_TRIM);
    var mode := WriteSpec(c, trim.log, RFIC_CMD_GAINMODE, CHANNEL_RX0, GAIN_MGC);
    WriteSpec(c, mode.log, RFIC_CMD_GAIN, CHANNEL_RX0, INITIAL_GAIN).log
  }

  /** What the Android side of `open` found before any bladeRF traffic:
      no device (or no manager, list or connection), a connection whose
      interface or endpoints could not be set up, or a usable connection. */
  datatype Plumbing = NoDevice | InterfaceUnavailable | Connected

  /** How `open` ends: it returns or throws, or it is still waiting for
      the INA219 to leave reset when the poll budget runs out. */
  datatype Opening = Completed(result: Result<bool>) | Hung

  /** The log ends by releasing the interface and closing the connection. */
  predicate EndsClosed(log: seq<Event>)
  {
    |log| >= 2 && log[|log| - 2..] == [ReleaseInterface, CloseConnection]
  }

  /** The last frames sent are the gain-mode write and then the gain
      write, each followed by its status polls. */
  ghost predicate EndsWithGain(log: seq<Event>)
  {
    exists before: seq<Event>, modePolls: nat, gainPolls: nat ::
      1 <= modePolls <= WRITE_TRIES && 1 <= gainPolls <= WRITE_TRIES &&
      Sent(log) == before + [WriteFrame(RFIC_CMD_GAINMODE, CHANNEL_RX0, GAIN_MGC)] + Repeat(StatusPoll(), modePolls)
                   + [WriteFrame(RFIC_CMD_GAIN, CHANNEL_RX0, INITIAL_GAIN)] + Repeat(StatusPoll(), gainPolls)
  }

  /** The final settings end with the gain mode and then the gain. */
  lemma ConfigureTraffic(c: Connection, h: seq<Event>)
    ensures EndsWithGain(ConfigureSpec(c, h))
  {
    var trim := Write8x16Spec(c, h, NIOS_PKT_8x16_TARGET_AD56X1_DAC, 0, VCTCXO_TRIM);
    var mode := WriteSpec(c, trim.log, RFIC_CMD_GAINMODE, CHANNEL_RX0, GAIN_MGC);
    WriteTraffic(c, trim.log, RFIC_CMD_GAINMODE, CHANNEL_RX0, GAIN_MGC);
    WriteTraffic(c, mode.log, RFIC_CMD_GAIN, CHANNEL_RX0, INITIAL_GAIN);
  }

  /** The end of `open` once the peripherals are up: the logged reads,
      then the final settings. */
  function SettleSpec(c: Connection, h: seq<Event>): (r: Step<Opening>)
  {
    var report := ReportSpec(c, h);
    if report.value.Raised? then Step(Completed(Threw(report.value.exception)), report.log)
    else Step(Completed(Returned(true)), ConfigureSpec(c, report.log))
  }

  /** Settling never returns false; it returns true exactly when every
      logged read succeeded, and then ends with the gain settings. */
  lemma SettleOutcomes(c: Connection, h: seq<Event>)
    ensures var r := SettleSpec(c, h);
      r.value.Completed? && r.value.result != Returned(false) &&
      (r.value == Completed(Returned(true)) <==> ReportSpec(c, h).value == Normal) &&
      (r.value == Completed(Returned(true)) ==> EndsWithGain(r.log))
  {
    var report := ReportSpec(c, h);
    if !report.value.Raised? {
      ConfigureTraffic(c, report.log);
    }
  }

  /** What `open` does once the peripheral bring-up has ended as `up`
      with log `log`: a failure to bring up the RFIC or the INA219 closes
      the device, switching the RFIC off again only in the second case. */
  function AfterBringUpSpec(c: Connection, up: Step<BringUp>): (r: Step<Opening>)
  {
    match up.value
    case RficFailed => Step(Completed(Returned(false)), CloseSpec(c, up.log, false))
    case Ina219Failed => Step(Completed(Returned(false)), CloseSpec(c, up.log, true))
    case Ina219Hung => Step(Hung, up.log)
    case Up => SettleSpec(c, up.log)
  }

  /** `open` once the firmware checks have passed. */
  function StartSpec(c: Connection, h: seq<Event>, fuel: nat): (r: Step<Opening>)
  {
    AfterBringUpSpec(c, BringUpSpec(c, h, fuel))
  }

  /** `open` returns false after the checks exactly when the RFIC or the
      INA219 failed, and is then closed; it returns true exactly when the
      bring-up and every logged read succeeded, and then ends with the gain
      settings. */
  lemma StartOutcomes(c: Connection, h: seq<Event>, fuel: nat)
    ensures var up, r := BringUpSpec(c, h, fuel), StartSpec(c, h, fuel);
      (r.value == Completed(Returned(false)) <==> up.value == RficFailed || up.value == Ina219Failed) &&
      (r.value == Completed(Returned(false)) ==> EndsClosed(r.log)) &&
      (r.value == Hung <==> up.value == Ina219Hung) &&
      (r.value == Completed(Returned(true)) <==> up.value == Up && ReportSpec(c, up.log).value == Normal) &&
      (r.value == Completed(Returned(true)) ==> EndsWithGain(r.log))
  {
    var up := BringUpSpec(c, h, fuel);
    match up.value
    case RficFailed => CloseTraffic(c, up.log, false);
    case Ina219Failed => CloseTraffic(c, up.log, true);
    case Ina219Hung =>
    case Up => SettleOutcomes(c, up.log);
  }

  /** `open` over a usable connection. */
  function OpenSpec(c: Connection, h: seq<Event>, fuel: nat): (r: Step<Opening>)
  {
    var probe := ProbeSpec(c, h);
    if probe.value != Probed then Step(Completed(Returned(false)), CloseSpec(c, probe.log, false))
    else StartSpec(c, probe.log, fuel)
  }

  /** No frame reaches the NIOS interface unless the firmware checks pass;
      every failure leaves the connection released and closed; success
      needs the checks and the start-up to succeed, and ends with the gain
      settings. */
  lemma OpenOutcomes(c: Connection, h: seq<Event>, fuel: nat)
    ensures var probe, r := ProbeSpec(c, h), OpenSpec(c, h, fuel);
      (probe.value != Probed ==> r.value == Completed(Returned(false)) && Sent(r.log) == Sent(h)) &&
      (r.value == Completed(Returned(false)) ==> EndsClosed(r.log)) &&
      (r.value == Completed(Returned(true)) <==>
         probe.value == Probed && StartSpec(c, probe.log, fuel).value == Completed(Returned(true))) &&
      (r.value == Completed(Returned(true)) ==> EndsWithGain(r.log))
  {
    var probe := ProbeSpec(c, h);
    if probe.value != Probed {
      ProbeRequests(c, h);
      CloseTraffic(c, probe.log, false);
    } else {
      StartOutcomes(c, probe.log, fuel);
    }
  }

  // ---------------------------------------------------------------------
  // Sample rate, gain, Rx

  /** `(long) (sampleRate * 0.9)`: for every int the double product lies
      within far less than 0.1 of 9 * rate / 10 and is exact when that is
      whole, so the truncating cast gives 9 * rate / 10 rounded toward
      zero. */
  function Bandwidth(rate: i32): (bandwidth: i64)
    ensures 0 <= rate ==> 0 <= bandwidth <= rate && rate - bandwidth <= rate / 10 + 1
    ensures rate <= 0 ==> rate <= bandwidth <= 0
  {
    JavaDiv(9 * rate, 10)
  }

  /** The `k`-th frame sent after `h` is `frame`. */
  ghost predicate SendsAt(h: seq<Event>, log: seq<Event>, k: int, frame: Event)
  {
    0 <= k && |Sent(h)| + k < |Sent(log)| && Sent(log)[|Sent(h)| + k] == frame
  }

  /** The last frames sent are `frame` and the status polls that follow it. */
  ghost predicate EndsWithWrite(log: seq<Event>, frame: Event)
  {
    exists before: seq<Event>, polls: nat ::
      1 <= polls <= WRITE_TRIES && Sent(log) == before + [frame] + Repeat(StatusPoll(), polls)
  }

  lemma SendsAtExtends(h: seq<Event>, mid: seq<Event>, log: seq<Event>, k: int, frame: Event)
    requires SendsAt(h, mid, k, frame) && mid <= log
    ensures SendsAt(h, log, k, frame)
  {
    SentPrefix(mid, log);
  }

  lemma SendsAtShift(h: seq<Event>, mid: seq<Event>, log: seq<Event>, frame: Event)
    requires h <= mid && SendsAt(mid, log, 0, frame)
    ensures SendsAt(h, log, |Sent(mid)| - |Sent(h)|, frame)
  {
    SentPrefix(h, mid);
  }

  /** A write sends its frame first. */
  lemma WriteSendsFirst(c: Connection, h: seq<Event>, command: i8, channel: i8, value: i64)
    ensures SendsAt(h, WriteSpec(c, h, command, channel, value).log, 0, WriteFrame(command, channel, value))
  {
    WriteTraffic(c, h, command, channel, value);
  }

  /** The frame of a plain RFIC read on the Rx channel. */
  function RficReadFrame(command: i8): Event
  {
    BulkOut(Frame16x64(NIOS_PKT_16x64_TARGET_RFIC, 0, command, CHANNEL_RX0, 0), TIMEOUT)
  }

  /** `!rfic.setRxFilter(rx) || !rfic.setTxFilter(tx)`. */
  function FiltersSpec(c: Connection, h: seq<Event>, rx: i64, tx: i64): (log: seq<Event>)
    ensures h <= log
    ensures SendsAt(h, log, 0, WriteFrame(RFIC_CMD_FILTER, CHANNEL_RX0, rx))
  {
    var first := WriteSpec(c, h, RFIC_CMD_FILTER, CHANNEL_RX0, rx);
    WriteSendsFirst(c, h, RFIC_CMD_FILTER, CHANNEL_RX0, rx);
    if first.value then
      var second := WriteSpec(c, first.log, RFIC_CMD_FILTER, CHANNEL_TX0, tx);
      PrefixTrans(h, first.log, second.log);
      SendsAtExtends(h, first.log, second.log, 0, WriteFrame(RFIC_CMD_FILTER, CHANNEL_RX0, rx));
      second.log
    else first.log
  }

  /** The Tx filter is written exactly when the Rx filter write was
      accepted, and after it. */
  lemma FiltersTraffic(c: Connection, h: seq<Event>, rx: i64, tx: i64)
    ensures var accepted := WriteSpec(c, h, RFIC_CMD_FILTER, CHANNEL_RX0, rx).value;
      var rxFrame, txFrame := WriteFrame(RFIC_CMD_FILTER, CHANNEL_RX0, rx), WriteFrame(RFIC_CMD_FILTER, CHANNEL_TX0, tx);
      (accepted ==>
        exists p, q :: 1 <= p <= WRITE_TRIES && 1 <= q <= WRITE_TRIES &&
          Sent(FiltersSpec(c, h, rx, tx))
            == Sent(h) + [rxFrame] + Repeat(StatusPoll(), p) + [txFrame] + Repeat(StatusPoll(), q)) &&
      (!accepted ==>
        exists p :: 1 <= p <= WRITE_TRIES &&
          Sent(FiltersSpec(c, h, rx, tx)) == Sent(h) + [rxFrame] + Repeat(StatusPoll(), p))
  {
    var first := WriteSpec(c, h, RFIC_CMD_FILTER, CHANNEL_RX0, rx);
    WriteTraffic(c, h, RFIC_CMD_FILTER, CHANNEL_RX0, rx);
    if first.value {
      assert FiltersSpec(c, h, rx, tx) == WriteSpec(c, first.log, RFIC_CMD_FILTER, CHANNEL_TX0, tx).log;
      WriteTraffic(c, first.log, RFIC_CMD_FILTER, CHANNEL_TX0, tx);
    } else {
      assert FiltersSpec(c, h, rx, tx) == first.log;
    }
  }

  /** The last two steps of `setSampleRate`: the rate itself, then (unless
      the rate's read-back threw) the bandwidth. */
  function FinishSampleRateSpec(c: Connection, h: seq<Event>, rate: i32): (r: Step<Completion>)
    ensures h <= r.log
    ensures SendsAt(h, r.log, 0, WriteFrame(RFIC_CMD_SAMPLERATE, CHANNEL_RX0, rate))
    ensures r.value.Raised? ==> r.value.exception == NullPointerException
    ensures r.value == Normal ==> EndsWithWrite(r.log, WriteFrame(RFIC_CMD_BANDWIDTH, CHANNEL_RX0, Bandwidth(rate)))
  {
    var written := SetSampleRateSpec(c, h, rate);
    WriteSendsFirst(c, h, RFIC_CMD_SAMPLERATE, CHANNEL_RX0, rate);
    SendsAtExtends(h, WriteSpec(c, h, RFIC_CMD_SAMPLERATE, CHANNEL_RX0, rate).log, written.log, 0,
                   WriteFrame(RFIC_CMD_SAMPLERATE, CHANNEL_RX0, rate));
    if written.value.Threw? then Step(Raised(written.value.exception), written.log)
    else
      var bandwidth := WriteSpec(c, written.log, RFIC_CMD_BANDWIDTH, CHANNEL_RX0, Bandwidth(rate));
      PrefixTrans(h, written.log, bandwidth.log);
      SendsAtExtends(h, written.log, bandwidth.log, 0, WriteFrame(RFIC_CMD_SAMPLERATE, CHANNEL_RX0, rate));
      WriteTraffic(c, written.log, RFIC_CMD_BANDWIDTH, CHANNEL_RX0, Bandwidth(rate));
      Step(Normal, bandwidth.log)
  }

  /** A read of an RFIC setting sends its read frame and nothing else. */
  lemma GetSends(c: Connection, h: seq<Event>, command: i8)
    ensures var g := GetSpec(c, h, command);
      h <= g.log && Sent(g.log) == Sent(h) + [RficReadFrame(command)]
  {
  }

  /** `rfic.setSampleRate(firSampleRate)` when the rate read back is below
      the FIR threshold, nothing otherwise. */
  function RaiseFromSpec(c: Connection, h: seq<Event>, current: i64): (r: Step<Completion>)
    ensures h <= r.log
    ensures r.value.Raised? ==> r.value.exception == NullPointerException
    ensures current < FIR_SAMPLE_RATE as i64 ==> SendsAt(h, r.log, 0, WriteFrame(RFIC_CMD_SAMPLERATE, CHANNEL_RX0, FIR_SAMPLE_RATE))
    ensures current >= FIR_SAMPLE_RATE as i64 ==> r.value == Normal && r.log == h
  {
    if current < FIR_SAMPLE_RATE as i64 then
      var raised := SetSampleRateSpec(c, h, FIR_SAMPLE_RATE);
      WriteSendsFirst(c, h, RFIC_CMD_SAMPLERATE, CHANNEL_RX0, FIR_SAMPLE_RATE);
      SendsAtExtends(h, WriteSpec(c, h, RFIC_CMD_SAMPLERATE, CHANNEL_RX0, FIR_SAMPLE_RATE).log,
                     raised.log, 0, WriteFrame(RFIC_CMD_SAMPLERATE, CHANNEL_RX0, FIR_SAMPLE_RATE));
      Step(if raised.value.Threw? then Raised(raised.value.exception) else Normal, raised.log)
    else Step(Normal, h)
  }

  /** `if (rfic.getSampleRate() < firSampleRate) rfic.setSampleRate(firSampleRate)`. */
  function RaiseToFirSpec(c: Connection, h: seq<Event>): (r: Step<Completion>)
    ensures h <= r.log
    ensures r.value.Raised? ==> r.value.exception == NullPointerException
  {
    var current := GetSpec(c, h, RFIC_CMD_SAMPLERATE);
    GetSends(c, h, RFIC_CMD_SAMPLERATE);
    if current.value.Threw? then Step(Raised(current.value.exception), current.log)
    else
      var raised := RaiseFromSpec(c, current.log, current.value.value);
      PrefixTrans(h, current.log, raised.log);
      raised
  }

  /** The current rate is read first; a failed read ends the call, a rate
      below the FIR threshold is raised to it next, and any other rate
      leaves nothing more to send. */
  lemma RaiseToFirTraffic(c: Connection, h: seq<Event>)
    ensures SendsAt(h, RaiseToFirSpec(c, h).log, 0, RficReadFrame(RFIC_CMD_SAMPLERATE))
    ensures var current := GetSpec(c, h, RFIC_CMD_SAMPLERATE).value;
      var r := RaiseToFirSpec(c, h);
      (current.Threw? ==> r.value.Raised?) &&
      (current.Returned? && current.value < FIR_SAMPLE_RATE as i64 ==>
        SendsAt(h, r.log, 1, WriteFrame(RFIC_CMD_SAMPLERATE, CHANNEL_RX0, FIR_SAMPLE_RATE))) &&
      (current.Returned? && current.value >= FIR_SAMPLE_RATE as i64 ==>
        r.value == Normal && Sent(r.log) == Sent(h) + [RficReadFrame(RFIC_CMD_SAMPLERATE)])
  {
    var current := GetSpec(c, h, RFIC_CMD_SAMPLERATE);
    var r := RaiseToFirSpec(c, h);
    GetSends(c, h, RFIC_CMD_SAMPLERATE);
    if current.value.Threw? {
      assert r.log == current.log;
    } else {
      var raised := RaiseFromSpec(c, current.log, current.value.value);
      assert r == raised;
      SendsAtExtends(h, current.log, raised.log, 0, RficReadFrame(RFIC_CMD_SAMPLERATE));
      if current.value.value < FIR_SAMPLE_RATE as i64 {
        SendsAtShift(h, current.log, raised.log, WriteFrame(RFIC_CMD_SAMPLERATE, CHANNEL_RX0, FIR_SAMPLE_RATE));
      }
    }
  }

  /** The filter codes `setSampleRate` picks for a rate at or above the FIR
      threshold: decimate by two up to half the maximum rate, by one above. */
  function RxFirFor(rate: i32): (code: i64)
  {
    if rate <= HALF_MAX_SAMPLE_RATE then RFIC_RXFIR_DEC2 else RFIC_RXFIR_DEC1
  }

  function TxFirFor(rate: i32): (code: i64)
  {
    if rate <= HALF_MAX_SAMPLE_RATE then RFIC_TXFIR_INT2 else RFIC_TXFIR_INT1
  }

  /** `setSampleRate` on an open device. */
  function SampleRateSpec(c: Connection, h: seq<Event>, rate: i32): (r: Step<Completion>)
    ensures h <= r.log
    ensures r.value.Raised? ==> r.value.exception == NullPointerException
  {
    if rate < FIR_SAMPLE_RATE then
      var filters := FiltersSpec(c, h, RFIC_RXFIR_DEC4, RFIC_TXFIR_INT4);
      var finish := FinishSampleRateSpec(c, filters, rate);
      PrefixTrans(h, filters, finish.log);
      finish
    else
      var raised := RaiseToFirSpec(c, h);
      if raised.value.Raised? then raised
      else
        var filters := FiltersSpec(c, raised.log, RxFirFor(rate), TxFirFor(rate));
        var finish := FinishSampleRateSpec(c, filters, rate);
        PrefixTrans(h, raised.log, filters);
        PrefixTrans(h, filters, finish.log);
        finish
  }

  /** Below the FIR threshold the filters are set to decimate by four
      before anything else; otherwise the current rate is read first. */
  lemma SampleRateFirstFrame(c: Connection, h: seq<Event>, rate: i32)
    ensures rate < FIR_SAMPLE_RATE ==>
      SendsAt(h, SampleRateSpec(c, h, rate).log, 0, WriteFrame(RFIC_CMD_FILTER, CHANNEL_RX0, RFIC_RXFIR_DEC4))
    ensures rate >= FIR_SAMPLE_RATE ==>
      SendsAt(h, SampleRateSpec(c, h, rate).log, 0, RficReadFrame(RFIC_CMD_SAMPLERATE))
  {
    if rate < FIR_SAMPLE_RATE {
      var filters := FiltersSpec(c, h, RFIC_RXFIR_DEC4, RFIC_TXFIR_INT4);
      SendsAtExtends(h, filters, SampleRateSpec(c, h, rate).log, 0, WriteFrame(RFIC_CMD_FILTER, CHANNEL_RX0, RFIC_RXFIR_DEC4));
    } else {
      var raised := RaiseToFirSpec(c, h);
      RaiseToFirTraffic(c, h);
      if !raised.value.Raised? {
        var filters := FiltersSpec(c, raised.log, RxFirFor(rate), TxFirFor(rate));
        PrefixTrans(raised.log, filters, SampleRateSpec(c, h, rate).log);
      }
      SendsAtExtends(h, raised.log, SampleRateSpec(c, h, rate).log, 0, RficReadFrame(RFIC_CMD_SAMPLERATE));
    }
  }

  /** A call that completes has written the requested rate, at or above the
      FIR threshold after the matching filter codes, and ends with the
      bandwidth write. */
  lemma SampleRateCompletes(c: Connection, h: seq<Event>, rate: i32)
    ensures var r := SampleRateSpec(c, h, rate);
      var rateFrame := WriteFrame(RFIC_CMD_SAMPLERATE, CHANNEL_RX0, rate);
      r.value == Normal ==>
        EndsWithWrite(r.log, WriteFrame(RFIC_CMD_BANDWIDTH, CHANNEL_RX0, Bandwidth(rate))) &&
        exists k :: SendsAt(h, r.log, k, rateFrame)
    ensures var r := SampleRateSpec(c, h, rate);
      var filterFrame := WriteFrame(RFIC_CMD_FILTER, CHANNEL_RX0, RxFirFor(rate));
      r.value == Normal && rate >= FIR_SAMPLE_RATE ==> exists k :: SendsAt(h, r.log, k, filterFrame)
  {
    var r := SampleRateSpec(c, h, rate);
    if rate < FIR_SAMPLE_RATE {
      var filters := FiltersSpec(c, h, RFIC_RXFIR_DEC4, RFIC_TXFIR_INT4);
      SendsAtShift(h, filters, r.log, WriteFrame(RFIC_CMD_SAMPLERATE, CHANNEL_RX0, rate));
    } else {
      var raised := RaiseToFirSpec(c, h);
      if !raised.value.Raised? {
        var filters := FiltersSpec(c, raised.log, RxFirFor(rate), TxFirFor(rate));
        assert r == FinishSampleRateSpec(c, filters, rate);
        SendsAtShift(h, filters, r.log, WriteFrame(RFIC_CMD_SAMPLERATE, CHANNEL_RX0, rate));
        PrefixTrans(raised.log, filters, r.log);
        SendsAtExtends(raised.log, filters, r.log, 0, WriteFrame(RFIC_CMD_FILTER, CHANNEL_RX0, RxFirFor(rate)));
        SendsAtShift(h, raised.log, r.log, WriteFrame(RFIC_CMD_FILTER, CHANNEL_RX0, RxFirFor(rate)));
      }
    }
  }

  /** `enable ? GAIN_MGC : GAIN_SLOWATTACK_AGC`: manual gain is the only
      choice that selects MGC. */
  function GainModeFor(manual: bool): (mode: i64)
    ensures mode == GAIN_MGC <==> manual
  {
    if manual then GAIN_MGC else GAIN_SLOWATTACK_AGC
  }

  /** `getManualGain` on an open device: the gain-mode read, which throws
      when it fails. */
  function ManualGainSpec(c: Connection, h: seq<Event>): (r: Step<Result<bool>>)
    ensures var mode := GetSpec(c, h, RFIC_CMD_GAINMODE);
      r.log == mode.log && (r.value.Threw? <==> mode.value.Threw?) &&
      (r.value == Returned(true) <==> mode.value == Returned(GAIN_MGC as i64))
  {
    var mode := GetSpec(c, h, RFIC_CMD_GAINMODE);
    Step(if mode.value.Threw? then Threw(mode.value.exception) else Returned(mode.value.value == GAIN_MGC as i64),
         mode.log)
  }

  /** A device that reports the mode `setManualGain(manual)` writes is
      reported as manual exactly when `manual` holds. */
  lemma ManualGainReadsBack(c: Connection, h: seq<Event>, manual: bool)
    requires GetSpec(c, h, RFIC_CMD_GAINMODE).value == Returned(GainModeFor(manual))
    ensures ManualGainSpec(c, h).value == Returned(manual)
  {
    assert GainModeFor(manual) == GAIN_MGC as i64 <==> manual;
  }

  /** `intValue()` leaves a gain that fits in an int unchanged. */
  lemma GainFits(g: i64)
    requires -0x8000_0000 <= g < 0x8000_0000
    ensures ToI32(g) == g
  {
    if g < 0 {
      assert g % 0x1_0000_0000 == g + 0x1_0000_0000;
    } else {
      assert g % 0x1_0000_0000 == g;
    }
  }

  /** `enableRx` on an open device: the firmware's RF_RX switch, whose
      failure is only logged, then the RFIC's ENABLE ON. */
  function EnableRxSpec(c: Connection, h: seq<Event>): (log: seq<Event>)
    ensures |log| > |h| && log[|h|] == Query(USB_CMD_RF_RX, 1)
    ensures exists polls ::
              1 <= polls <= WRITE_TRIES &&
              Sent(log) == Sent(h) + [WriteFrame(RFIC_CMD_ENABLE, CHANNEL_RX0, RFIC_STATE_ON)] + Repeat(StatusPoll(), polls)
  {
    var toggled := ToggleRxSpec(c, h, 1);
    SentSkips(h, [Query(USB_CMD_RF_RX, 1)]);
    WriteTraffic(c, toggled.log, RFIC_CMD_ENABLE, CHANNEL_RX0, RFIC_STATE_ON);
    WriteSpec(c, toggled.log, RFIC_CMD_ENABLE, CHANNEL_RX0, RFIC_STATE_ON).log
  }

  /** `disableRx` on an open device: the opposite order, RFIC first and
      the firmware's RF_RX switch last. */
  function DisableRxSpec(c: Connection, h: seq<Event>): (log: seq<Event>)
    ensures |log| > |h| && log[|log| - 1] == Query(USB_CMD_RF_RX, 0)
    ensures exists polls ::
              1 <= polls <= WRITE_TRIES &&
              Sent(log) == Sent(h) + [WriteFrame(RFIC_CMD_ENABLE, CHANNEL_RX0, RFIC_STATE_OFF)] + Repeat(StatusPoll(), polls)
  {
    var disabled := WriteSpec(c, h, RFIC_CMD_ENABLE, CHANNEL_RX0, RFIC_STATE_OFF);
    WriteTraffic(c, h, RFIC_CMD_ENABLE, CHANNEL_RX0, RFIC_STATE_OFF);
    SentSkips(disabled.log, [Query(USB_CMD_RF_RX, 0)]);
    ToggleRxSpec(c, disabled.log, 0).log
  }

  // ---------------------------------------------------------------------
  // Sample transfers

  /** The requests of slots `lo` up to `hi`, each initialized and queued
      with a fresh packet buffer. */
  function Queued(lo: nat, hi: nat): (r: seq<Event>)
    requires lo <= hi
    ensures |r| == 2 * (hi - lo)
    decreases hi - lo
  {
    if lo == hi then [] else [RequestInitialize(lo), RequestQueue(lo, PACKET_SIZE)] + Queued(lo + 1, hi)
  }

  /** The cancels of slots 0 up to `n`, in order. */
  function CancelAll(n: nat): (r: seq<Event>)
    ensures |r| == n && forall i :: 0 <= i < n ==> r[i] == RequestCancel(i)
  {
    if n == 0 then [] else CancelAll(n - 1) + [RequestCancel(n - 1)]
  }

  /** The loop of `initializeUSBRequests` from `slot` on: the slot whose
      request failed to initialize or to queue, if any. */
  function PoolSpec(c: Connection, h: seq<Event>, slot: nat): (r: Step<Option<nat>>)
    requires slot <= NOF_TRANSFERS
    decreases NOF_TRANSFERS - slot
  {
    var initialize := h + [RequestInitialize(slot)];
    var queue := initialize + [RequestQueue(slot, PACKET_SIZE)];
    if slot == NOF_TRANSFERS then Step(None, h)
    else if !c.requestInitializes(h) then Step(Some(slot), initialize)
    else if !c.requestQueues(initialize) then Step(Some(slot), queue)
    else PoolSpec(c, queue, slot + 1)
  }

  /** The loop queues the slots in order until one fails; the one that
      fails is left initialized, or initialized and queued. */
  lemma {:induction false} PoolShape(c: Connection, h: seq<Event>, slot: nat)
    requires slot <= NOF_TRANSFERS
    ensures var r := PoolSpec(c, h, slot);
      (r.value.None? ==> r.log == h + Queued(slot, NOF_TRANSFERS)) &&
      (r.value.Some? ==>
        var k := r.value.value;
        slot <= k < NOF_TRANSFERS &&
        (r.log == h + Queued(slot, k) + [RequestInitialize(k)] ||
         r.log == h + Queued(slot, k) + [RequestInitialize(k), RequestQueue(k, PACKET_SIZE)]))
    decreases NOF_TRANSFERS - slot
  {
    var initialize := h + [RequestInitialize(slot)];
    var queue := initialize + [RequestQueue(slot, PACKET_SIZE)];
    if slot == NOF_TRANSFERS {
    } else if !c.requestInitializes(h) || !c.requestQueues(initialize) {
      assert Queued(slot, slot) == [];
    } else {
      var rest := PoolSpec(c, queue, slot + 1);
      PoolShape(c, queue, slot + 1);
      assert queue == h + [RequestInitialize(slot), RequestQueue(slot, PACKET_SIZE)];
      if rest.value.None? {
        assert h + Queued(slot, NOF_TRANSFERS) == queue + Queued(slot + 1, NOF_TRANSFERS);
      } else {
        assert h + Queued(slot, rest.value.value) == queue + Queued(slot + 1, rest.value.value);
      }
    }
  }

  /** `initializeUSBRequests`: all 32 requests queued, or, after the first
      failure, every request created so far cancelled and none returned. */
  function InitializeRequestsSpec(c: Connection, h: seq<Event>): (r: Step<seq<Option<int>>>)
  {
    var pool := PoolSpec(c, h, 0);
    if pool.value.None? then Step(seq(NOF_TRANSFERS, i => Some(i)), pool.log)
    else Step([], pool.log + CancelAll(pool.value.value + 1))
  }

  /** The requests a failed pool leaves behind: those of the slots before
      `k` queued, the one of slot `k` initialized and possibly queued, and
      then all `k + 1` of them cancelled. */
  ghost predicate AbandonedAt(h: seq<Event>, log: seq<Event>, k: int)
  {
    0 <= k < NOF_TRANSFERS &&
    (log == h + Queued(0, k) + [RequestInitialize(k)] + CancelAll(k + 1) ||
     log == h + Queued(0, k) + [RequestInitialize(k), RequestQueue(k, PACKET_SIZE)] + CancelAll(k + 1))
  }

  /** All or nothing: either every slot holds its queued request, or no
      request is returned and each one created, including the one that
      failed, has been cancelled. */
  lemma RequestsAllOrNothing(c: Connection, h: seq<Event>)
    ensures var r := InitializeRequestsSpec(c, h);
      (|r.value| == NOF_TRANSFERS &&
       (forall i :: 0 <= i < NOF_TRANSFERS ==> r.value[i] == Some(i)) &&
       r.log == h + Queued(0, NOF_TRANSFERS)) ||
      (r.value == [] && exists k :: AbandonedAt(h, r.log, k))
  {
    var pool := PoolSpec(c, h, 0);
    PoolShape(c, h, 0);
    if pool.value.Some? {
      var k := pool.value.value;
      var r := InitializeRequestsSpec(c, h);
      assert r.log == pool.log + CancelAll(k + 1);
      assert AbandonedAt(h, r.log, k);
    }
  }

  /** `cancelUSBRequests`: a cancel for each request present, in order. */
  function Cancels(requests: seq<Option<int>>): (r: seq<Event>)
    ensures |r| <= |requests|
  {
    if requests == [] then []
    else Cancels(requests[..|requests| - 1])
         + (if requests[|requests| - 1].Some? then [RequestCancel(requests[|requests| - 1].value)] else [])
  }

  /** A pool whose first `k` of `n` slots hold their requests. */
  function PoolAfter(k: nat, n: nat): (pool: seq<Option<int>>)
    requires k <= n
  {
    seq(n, j => if j < k then Some(j) else None)
  }

  /** Cancelling a pool whose first `k` slots are filled cancels exactly
      those, in order. */
  lemma {:induction false} CancelsPool(k: nat, n: nat)
    requires k <= n
    ensures Cancels(PoolAfter(k, n)) == CancelAll(k)
  {
    if n > k {
      assert PoolAfter(k, n)[..n - 1] == PoolAfter(k, n - 1);
      CancelsPool(k, n - 1);
    } else if n > 0 {
      assert PoolAfter(k, n)[..n - 1] == PoolAfter(k - 1, n - 1);
      CancelsPool(k - 1, n - 1);
    }
  }

  /** Cancelling a full pool cancels every slot in order. */
  lemma {:induction false} CancelsFullPool(n: nat)
    ensures Cancels(seq(n, i => Some(i))) == CancelAll(n)
  {
    if n > 0 {
      assert seq(n, i => Some(i))[..n - 1] == seq(n - 1, i => Some(i));
      CancelsFullPool(n - 1);
    }
  }

  // ---------------------------------------------------------------------
  // The driver object

  /** The objects `open` creates over the connection, with what their
      start-up returned; no RFIC when it did not initialize. */
  method StartChips(c: Connection, fuel: nat) returns (up: BringUp, interface: Nios, chip: Rfic?)
    modifies c
    ensures Step(up, c.log) == BringUpSpec(c, old(c.log), fuel)
    ensures interface.connection == c && (chip != null ==> chip.nios == interface)
    ensures up == RficFailed <==> chip == null
  {
    interface := new Nios(c);
    var fpgaVersion := interface.GetFPGAVersion();
    chip := new Rfic(interface);
    var started := chip.Open();
    if !started {
      return RficFailed, interface, null;
    }
    chip.SetTxMute();
    var ina219 := new Ina219(interface);
    var init := ina219.Initialize(fuel);
    up := match init
      case Done(ok) => if ok then Up else Ina219Failed
      case OutOfFuel => Ina219Hung;
  }

  /** The driver: the connection, the NIOS interface over it and the RFIC
      behind that. `open` fills them in and `close` clears them. */
  class Device {
    var usbConnection: Connection?
    var nios: Nios?
    var rfic: Rfic?

    constructor ()
      ensures usbConnection == null && nios == null && rfic == null
    {
      usbConnection := null;
      nios := null;
      rfic := null;
    }

    /** The RFIC talks through this device's NIOS interface, and that
        through this device's connection. */
    predicate Valid()
      reads this
    {
      (rfic != null ==> nios != null && rfic.nios == nios) &&
      (nios != null ==> usbConnection != null && nios.connection == usbConnection)
    }

    /** `isOpen`. */
    predicate IsOpen()
      reads this
    {
      rfic != null
    }

    /** `controlTransfer`: a vendor request from the device, value 0, into
        the whole buffer. */
    method ControlTransfer(request: int, buffer: array<i8>) returns (len: int)
      requires usbConnection != null
      modifies usbConnection, buffer
      ensures usbConnection.log == old(usbConnection.log) + [ControlIn(request, 0, buffer.Length, USB_TIMEOUT)]
      ensures len == usbConnection.controlReply(old(usbConnection.log)).status
      ensures buffer[..] == if len < 0 then old(buffer[..])
                            else Overlay(old(buffer[..]), usbConnection.controlReply(old(usbConnection.log)).data)
    {
      len := usbConnection.ControlTransferIn(request, 0, buffer, USB_TIMEOUT);
    }

    method IsFirmwareReady() returns (ready: bool)
      requires usbConnection != null
      modifies usbConnection
      ensures Step(ready, usbConnection.log) == FlagSpec(usbConnection, old(usbConnection.log), USB_CMD_QUERY_DEVICE_READY)
    {
      var result := new i8[4](_ => 0);
      assert result[..] == Empty4();
      var n := ControlTransfer(USB_CMD_QUERY_DEVICE_READY, result);
      if n != 4 {
        return false;
      }
      return GetIntAtStart(result[..]) == 1;
    }

    method GetFirmwareVersion() returns (version: Option<FirmwareVersion>)
      requires usbConnection != null
      modifies usbConnection
      ensures Step(version, usbConnection.log) == FirmwareVersionSpec(usbConnection, old(usbConnection.log))
    {
      var result := new i8[4](_ => 0);
      assert result[..] == Empty4();
      var n := ControlTransfer(USB_CMD_QUERY_VERSION, result);
      if n != 4 {
        return None;
      }
      var major := GetShort(result[..], 0, 4);
      var minor := GetShort(result[..], 2, 2);
      return Some(FirmwareVersion(major, minor));
    }

    method IsFPGALoaded() returns (loaded: bool)
      requires usbConnection != null
      modifies usbConnection
      ensures Step(loaded, usbConnection.log) == FlagSpec(usbConnection, old(usbConnection.log), USB_CMD_QUERY_FPGA_STATUS)
    {
      var result := new i8[4](_ => 0);
      assert result[..] == Empty4();
      var n := ControlTransfer(USB_CMD_QUERY_FPGA_STATUS, result);
      if n != 4 {
        return false;
      }
      return GetIntAtStart(result[..]) == 1;
    }

    method ControlTransferWithResult(request: int, value: int) returns (r: i32)
      requires usbConnection != null
      modifies usbConnection
      ensures Step(r, usbConnection.log) == ControlResultSpec(usbConnection, old(usbConnection.log), request, value)
    {
      var result := new i8[4](_ => 0);
      assert result[..] == Empty4();
      var len := usbConnection.ControlTransferIn(request, value, result, USB_TIMEOUT);
      if len < 0 && request != USB_CMD_RESET {
        return -1;
      }
      return GetIntAtStart(result[..]);
    }

    method Reset()
      requires usbConnection != null
      modifies usbConnection
      ensures usbConnection.log == old(usbConnection.log) + [Query(USB_CMD_RESET, 1)]
    {
      var _ := ControlTransferWithResult(USB_CMD_RESET, 1);
    }

    method ToggleRx(state: int) returns (ok: bool)
      requires usbConnection != null
      modifies usbConnection
      ensures Step(ok, usbConnection.log) == ToggleRxSpec(usbConnection, old(usbConnection.log), state)
    {
      var result := ControlTransferWithResult(USB_CMD_RF_RX, state);
      return result == 0;
    }

    /** The firmware checks at the start of `open`, with the reset that
        follows a firmware that is not ready. */
    method Probe() returns (probe: Probe)
      requires usbConnection != null
      modifies usbConnection
      ensures Step(probe, usbConnection.log) == ProbeSpec(usbConnection, old(usbConnection.log))
    {
      var ready := IsFirmwareReady();
      if !ready {
        Reset();
        return FirmwareNotReady;
      }
      var version := GetFirmwareVersion();
      if version.None? {
        return NoFirmwareVersion;
      }
      var loaded := IsFPGALoaded();
      return if loaded then Probed else FpgaNotLoaded;
    }

    /** The settings `open` logs once the peripherals are up. */
    method LogSettings() returns (r: Completion)
      requires Valid() && rfic != null
      modifies usbConnection
      ensures Step(r, usbConnection.log) == ReportSpec(usbConnection, old(usbConnection.log))
    {
      var rate := rfic.GetSampleRate();
      if rate.Threw? {
        return Raised(rate.exception);
      }
      var frequency := rfic.GetFrequency();
      if frequency.Threw? {
        return Raised(frequency.exception);
      }
      var bandwidth := rfic.GetBandwidth();
      if bandwidth.Threw? {
        return Raised(bandwidth.exception);
      }
      var mode := rfic.GetGainMode();
      if mode.Threw? {
        return Raised(mode.exception);
      }
      var gain := rfic.GetGain();
      if gain.Threw? {
        return Raised(gain.exception);
      }
      var filter := rfic.GetRxFilter();
      if filter.Threw? {
        return Raised(filter.exception);
      }
      var trim := nios.GetVCTCXOTrim();
      var gpio := nios.GetGPIO();
      var csr := nios.GetRFFECSR();
      return Normal;
    }

    /** The peripheral bring-up in `open`: the NIOS interface (whose FPGA
        version is only logged), the RFIC, the Tx mute and the INA219. The
        RFIC is dropped again when it does not initialize. */
    method BringUp(fuel: nat) returns (up: BringUp)
      requires usbConnection != null && nios == null && rfic == null
      modifies this, usbConnection
      ensures usbConnection == old(usbConnection) && nios != null && Valid()
      ensures Step(up, usbConnection.log) == BringUpSpec(usbConnection, old(usbConnection.log), fuel)
      ensures up == RficFailed <==> rfic == null
    {
      var c := usbConnection;
      var interface, chip;
      up, interface, chip := StartChips(c, fuel);
      ghost var after := Step(up, c.log);
      nios := interface;
      rfic := chip;
      assert Step(up, usbConnection.log) == after;
    }

    /** The end of `open`: the logged settings, then the VCTCXO trim (whose
        failure is only logged), manual gain mode and the initial gain. */
    method Settle() returns (r: Opening)
      requires Valid() && rfic != null
      modifies usbConnection
      ensures Step(r, usbConnection.log) == SettleSpec(usbConnection, old(usbConnection.log))
    {
      var report := LogSettings();
      if report.Raised? {
        return Completed(Threw(report.exception));
      }
      var _ := nios.SetVCTCXOTrim(VCTCXO_TRIM);
      var _ := rfic.SetGainMode(GAIN_MGC);
      var _ := rfic.SetGain(INITIAL_GAIN);
      return Completed(Returned(true));
    }

    /** `open` after the bring-up: a failed one closes the device again. */
    method AfterBringUp(up: BringUp) returns (r: Opening)
      requires Valid() && usbConnection != null && nios != null && (up == RficFailed <==> rfic == null)
      modifies this, usbConnection
      ensures Step(r, old(usbConnection).log) == AfterBringUpSpec(old(usbConnection), Step(up, old(usbConnection.log)))
      ensures Valid()
      ensures r == Completed(Returned(false)) ==> usbConnection == null && nios == null && rfic == null
      ensures r != Completed(Returned(false)) ==> usbConnection == old(usbConnection) && rfic != null
    {
      if up == RficFailed || up == Ina219Failed {
        Close();
        return Completed(Returned(false));
      }
      if up == Ina219Hung {
        return Hung;
      }
      r := Settle();
    }

    /** `open`. The Android side is summarised by `plumbing`; over a usable
        connection the result and the traffic are those of `OpenSpec`. */
    method Open(plumbing: Plumbing, connection: Connection, fuel: nat) returns (r: Opening)
      requires usbConnection == null && nios == null && rfic == null
      modifies this, connection
      ensures Valid()
      ensures plumbing == NoDevice ==>
        r == Completed(Returned(false)) && usbConnection == null && connection.log == old(connection.log)
      ensures plumbing == InterfaceUnavailable ==>
        r == Completed(Returned(false)) && usbConnection == connection && nios == null && rfic == null &&
        connection.log == old(connection.log) + [CloseConnection]
      ensures plumbing == Connected ==> Step(r, connection.log) == OpenSpec(connection, old(connection.log), fuel)
      ensures plumbing == Connected && r == Completed(Returned(false)) ==>
        usbConnection == null && nios == null && rfic == null
      ensures r == Completed(Returned(true)) ==> IsOpen() && usbConnection == connection
    {
      if plumbing == NoDevice {
        return Completed(Returned(false));
      }
      usbConnection := connection;
      if plumbing == InterfaceUnavailable {
        connection.Close();
        return Completed(Returned(false));
      }
      ghost var h := connection.log;
      var probe := Probe();
      if probe != Probed {
        Close();
        return Completed(Returned(false));
      }
      var up := BringUp(fuel);
      r := AfterBringUp(up);
    }

    /** `close`: the RFIC is switched off if it was open, then the interface
        is released and the connection closed; every field is cleared. */
    method Close()
      requires Valid()
      modifies this, usbConnection
      ensures usbConnection == null && nios == null && rfic == null
      ensures old(usbConnection) != null ==>
        old(usbConnection).log == CloseSpec(old(usbConnection), old(usbConnection.log), old(rfic) != null)
    {
      if rfic != null {
        var _ := rfic.Close();
        rfic := null;
      }
      if nios != null {
        nios := null;
      }
      if usbConnection != null {
        var connection := usbConnection;
        connection.Release();
        connection.Close();
        usbConnection := null;
      }
    }
  
    /** `!rfic.setRxFilter(rx) || !rfic.setTxFilter(tx)`, whose outcome is
        only logged. */
    method SetFilters(rx: i64, tx: i64)
      requires Valid() && rfic != null
      modifies usbConnection
      ensures usbConnection.log == FiltersSpec(usbConnection, old(usbConnection.log), rx, tx)
    {
      var accepted := rfic.SetRxFilter(rx);
      if accepted {
        var _ := rfic.SetTxFilter(tx);
      }
    }

    /** Raises a current rate below the FIR threshold to it. */
    method RaiseToFir() returns (r: Completion)
      requires Valid() && rfic != null
      modifies usbConnection
      ensures Step(r, usbConnection.log) == RaiseToFirSpec(usbConnection, old(usbConnection.log))
    {
      var current := rfic.GetSampleRate();
      if current.Threw? {
        return Raised(current.exception);
      }
      if current.value < FIR_SAMPLE_RATE as i64 {
        var raised := rfic.SetSampleRate(FIR_SAMPLE_RATE);
        if raised.Threw? {
          return Raised(raised.exception);
        }
      }
      return Normal;
    }

    /** The rate itself and then the bandwidth. */
    method FinishSampleRate(rate: i32) returns (r: Completion)
      requires Valid() && rfic != null
      modifies usbConnection
      ensures Step(r, usbConnection.log) == FinishSampleRateSpec(usbConnection, old(usbConnection.log), rate)
    {
      var written := rfic.SetSampleRate(rate);
      if written.Threw? {
        return Raised(written.exception);
      }
      var _ := rfic.SetBandwidth(Bandwidth(rate));
      return Normal;
    }

    /** `setSampleRate`: nothing happens on a closed device. */
    method SetSampleRate(rate: i32) returns (r: Completion)
      requires Valid()
      modifies usbConnection
      ensures rfic != null ==> Step(r, usbConnection.log) == SampleRateSpec(usbConnection, old(usbConnection.log), rate)
      ensures rfic == null ==> r == Normal && (usbConnection != null ==> usbConnection.log == old(usbConnection.log))
    {
      if rfic == null {
        return Normal;
      }
      if rate < FIR_SAMPLE_RATE {
        SetFilters(RFIC_RXFIR_DEC4, RFIC_TXFIR_INT4);
      } else {
        var raised := RaiseToFir();
        if raised.Raised? {
          return raised;
        }
        if rate <= HALF_MAX_SAMPLE_RATE {
          SetFilters(RFIC_RXFIR_DEC2, RFIC_TXFIR_INT2);
        } else {
          SetFilters(RFIC_RXFIR_DEC1, RFIC_TXFIR_INT1);
        }
      }
      r := FinishSampleRate(rate);
    }

    /** `setFrequency`: one RFIC write on an open device, nothing otherwise. */
    method SetFrequency(frequency: i64, silent: bool)
      requires Valid()
      modifies usbConnection
      ensures rfic != null ==>
        usbConnection.log == WriteSpec(usbConnection, old(usbConnection.log), RFIC_CMD_FREQUENCY, CHANNEL_RX0, frequency).log
      ensures rfic == null && usbConnection != null ==> usbConnection.log == old(usbConnection.log)
    {
      if rfic != null {
        var _ := rfic.SetFrequency(frequency, silent);
      }
    }

    /** `getManualGain`: false on a closed device. */
    method GetManualGain() returns (r: Result<bool>)
      requires Valid()
      modifies usbConnection
      ensures rfic != null ==> Step(r, usbConnection.log) == ManualGainSpec(usbConnection, old(usbConnection.log))
      ensures rfic == null ==> r == Returned(false) && (usbConnection != null ==> usbConnection.log == old(usbConnection.log))
    {
      if rfic == null {
        return Returned(false);
      }
      var mode := rfic.GetGainMode();
      if mode.Threw? {
        return Threw(mode.exception);
      }
      return Returned(mode.value == GAIN_MGC as i64);
    }

    /** `setManualGain`: MGC for manual gain, slow-attack AGC otherwise. */
    method SetManualGain(enable: bool)
      requires Valid()
      modifies usbConnection
      ensures rfic != null ==>
        usbConnection.log == WriteSpec(usbConnection, old(usbConnection.log), RFIC_CMD_GAINMODE, CHANNEL_RX0, GainModeFor(enable)).log
      ensures rfic == null && usbConnection != null ==> usbConnection.log == old(usbConnection.log)
    {
      if rfic != null {
        var _ := rfic.SetGainMode(if enable then GAIN_MGC else GAIN_SLOWATTACK_AGC);
      }
    }

    /** `getGain`: the RFIC's gain read, 0 on a closed device. */
    method GetGain() returns (r: Result<i32>)
      requires Valid()
      modifies usbConnection
      ensures rfic != null ==>
        var g := GetSpec(usbConnection, old(usbConnection.log), RFIC_CMD_GAIN);
        usbConnection.log == g.log &&
        r == if g.value.Threw? then Threw(g.value.exception) else Returned(ToI32(g.value.value))
      ensures rfic == null ==> r == Returned(0) && (usbConnection != null ==> usbConnection.log == old(usbConnection.log))
    {
      if rfic == null {
        return Returned(0);
      }
      r := rfic.GetGain();
    }

    /** `setGain`: one RFIC write on an open device, nothing otherwise. */
    method SetGain(gain: i32)
      requires Valid()
      modifies usbConnection
      ensures rfic != null ==>
        usbConnection.log == WriteSpec(usbConnection, old(usbConnection.log), RFIC_CMD_GAIN, CHANNEL_RX0, gain).log
      ensures rfic == null && usbConnection != null ==> usbConnection.log == old(usbConnection.log)
    {
      if rfic != null {
        var _ := rfic.SetGain(gain);
      }
    }

    method EnableRx()
      requires Valid()
      modifies usbConnection
      ensures rfic != null ==> usbConnection.log == EnableRxSpec(usbConnection, old(usbConnection.log))
      ensures rfic == null && usbConnection != null ==> usbConnection.log == old(usbConnection.log)
    {
      if rfic == null {
        return;
      }
      var toggled := ToggleRx(1);
      var _ := rfic.Enable(RFIC_STATE_ON);
    }

    method DisableRx()
      requires Valid()
      modifies usbConnection
      ensures rfic != null ==> usbConnection.log == DisableRxSpec(usbConnection, old(usbConnection.log))
      ensures rfic == null && usbConnection != null ==> usbConnection.log == old(usbConnection.log)
    {
      if rfic == null {
        return;
      }
      var _ := rfic.Enable(RFIC_STATE_OFF);
      var _ := ToggleRx(0);
    }

    /** `queueUSBRequest`: the request of `slot` queued with a buffer of
        `size` bytes. */
    method QueueUSBRequest(slot: int, size: int) returns (ok: bool)
      requires usbConnection != null
      modifies usbConnection
      ensures usbConnection.log == old(usbConnection.log) + [RequestQueue(slot, size)]
      ensures ok == usbConnection.requestQueues(old(usbConnection.log))
    {
      ok := usbConnection.QueueRequest(slot, size);
    }

    /** `initializeUSBRequests`: a request per slot, each initialized and
        queued with a fresh packet buffer; on the first failure every
        request created is cancelled and none is returned. A request is
        named by its slot. */
    method InitializeUSBRequests() returns (requests: seq<Option<int>>)
      requires usbConnection != null
      modifies usbConnection
      ensures Step(requests, usbConnection.log) == InitializeRequestsSpec(usbConnection, old(usbConnection.log))
    {
      ghost var c, h := usbConnection, usbConnection.log;
      var pool := new Option<int>[NOF_TRANSFERS](_ => None);
      var error := false;
      var i := 0;
      while i < pool.Length
        invariant 0 <= i <= NOF_TRANSFERS && usbConnection == c
        invariant PoolSpec(c, c.log, i) == PoolSpec(c, h, 0)
        invariant forall j :: 0 <= j < NOF_TRANSFERS ==> pool[j] == if j < i then Some(j) else None
      {
        pool[i] := Some(i);
        ghost var before := c.log;
        var initialized := usbConnection.InitializeRequest(i);
        if !initialized {
          error := true;
          break;
        }
        var queued := QueueUSBRequest(i, PACKET_SIZE);
        if !queued {
          error := true;
          break;
        }
        i := i + 1;
      }
      if error {
        ghost var failed := c.log;
        assert PoolSpec(c, h, 0) == Step(Some(i), failed);
        assert pool[..] == PoolAfter(i + 1, NOF_TRANSFERS);
        CancelUSBRequests(Some(pool[..]));
        CancelsPool(i + 1, NOF_TRANSFERS);
        return [];
      }
      assert pool[..] == seq(NOF_TRANSFERS, j => Some(j));
      return pool[..];
    }

    /** `cancelUSBRequests`: every request present is cancelled, in order;
        a missing array does nothing. */
    method CancelUSBRequests(requests: Option<seq<Option<int>>>)
      requires usbConnection != null
      modifies usbConnection
      ensures usbConnection.log == old(usbConnection.log) + if requests.Some? then Cancels(requests.value) else []
    {
      if requests.None? {
        return;
      }
      var all := requests.value;
      for k := 0 to |all|
        invariant usbConnection.log == old(usbConnection.log) + Cancels(all[..k])
      {
        assert all[..k + 1][..k] == all[..k];
        if all[k].Some? {
          usbConnection.CancelRequest(all[k].value);
        }
      }
      assert all[..|all|] == all;
    }
  }
}
