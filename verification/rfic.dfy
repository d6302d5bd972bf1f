/** The RF transceiver (RFIC) driver: 16x64 frames to the RFIC target. A
    write is followed by polling the transceiver's command queue until it
    reports empty, for at most fifty polls; every getter and setter maps to
    one command on one channel. */
module Rfic {
  import opened JavaTypes
  import opened Constants
  import opened Usb
  import opened Nios

  /** Status polls made after a write before giving up. */
  const WRITE_TRIES: nat := 50

  /** `getWriteQueueLength`'s decoding of the status word: -1 when the
      status could not be read, 255 while the transceiver is not yet
      initialized (bit 0 clear), otherwise bits 8-15 of the word. */
  function QueueLength(status: Option<i64>): (n: int)
    ensures -1 <= n <= 0xff
    ensures n == -1 <==> status.None?
    ensures n == 0 <==> status.Some? && status.value % 2 == 1 && (status.value / 0x100) % 0x100 == 0
  {
    match status
    case None => -1
    case Some(word) =>
      if word % 2 != 1 then 0xff
      else (word / 0x100) % 0x100
  }

  /** Bits 8-15 are the second byte of the word's little-endian form, so
      an initialized transceiver's queue length is that byte unsigned. */
  lemma QueueLengthIsSecondByte(word: i64)
    requires word % 2 == 1
    ensures QueueLength(Some(word)) == Unsigned8(ByteOf(word, 1))
  {
    assert Pow256(1) == 0x100;
  }

  /** The status poll: a fast, quiet read of STATUS on no channel. */
  function StatusPoll(): Event
  {
    BulkOut(Frame16x64(NIOS_PKT_16x64_TARGET_RFIC, 0, RFIC_CMD_STATUS, CHANNEL_INVALID, 0), FAST_TIMEOUT)
  }

  function StatusSpec(c: Connection, h: seq<Event>): (r: Step<int>)
    ensures -1 <= r.value <= 0xff
    ensures Sent(r.log) == Sent(h) + [StatusPoll()]
    ensures h <= r.log
  {
    var s := Read16x64Spec(c, h, NIOS_PKT_16x64_TARGET_RFIC, RFIC_CMD_STATUS, CHANNEL_INVALID, true);
    Step(QueueLength(s.value), s.log)
  }

  /** How a drain ended: the number of status polls made, and whether the
      last of them found the queue empty. */
  datatype Drain = Drain(polls: nat, emptied: bool)

  /** Polling the queue with `tries` polls left: stop at the first poll
      that reports an empty queue, or when the polls run out. */
  function DrainSpec(c: Connection, h: seq<Event>, tries: nat): (r: Step<Drain>)
    ensures r.value.polls <= tries
    ensures tries > 0 ==> r.value.polls >= 1
    ensures r.value.emptied || r.value.polls == tries
    ensures Sent(r.log) == Sent(h) + Repeat(StatusPoll(), r.value.polls)
    ensures h <= r.log
    decreases tries
  {
    if tries == 0 then
      assert h == h + [];
      Step(Drain(0, false), h)
    else
      var s := StatusSpec(c, h);
      if s.value == 0 then
        assert Repeat(StatusPoll(), 1) == [StatusPoll()];
        Step(Drain(1, true), s.log)
      else
        var d := DrainSpec(c, s.log, tries - 1);
        RepeatCons(StatusPoll(), d.value.polls);
        Step(Drain(d.value.polls + 1, d.value.emptied), d.log)
  }

  /** A status read from a given history. */
  type StatusReader = seq<Event> -> Step<int>

  function StatusReads(c: Connection): StatusReader
  {
    h => StatusSpec(c, h)
  }

  /** The drain with the status read left open. */
  function DrainOver(status: StatusReader, h: seq<Event>, tries: nat): Step<Drain>
    decreases tries
  {
    if tries == 0 then Step(Drain(0, false), h)
    else
      var s := status(h);
      if s.value == 0 then Step(Drain(1, true), s.log)
      else
        var d := DrainOver(status, s.log, tries - 1);
        Step(Drain(d.value.polls + 1, d.value.emptied), d.log)
  }

  /** The transceiver's drain is the open drain with its status read. */
  lemma {:induction false} DrainIsDrainOver(c: Connection, h: seq<Event>, tries: nat)
    ensures DrainSpec(c, h, tries) == DrainOver(StatusReads(c), h, tries)
    decreases tries
  {
    if tries > 0 {
      var next := StatusSpec(c, h).log;
      var left := tries - 1;
      DrainIsDrainOver(c, next, left);
      DrainBridge(c, h, next, left);
    }
  }

  /** One poll of the bridge, given that the rest of the drain, `left`
      polls from the history `next` after the poll, agrees. */
  lemma DrainBridge(c: Connection, h: seq<Event>, next: seq<Event>, left: nat)
    requires next == StatusSpec(c, h).log
    requires DrainSpec(c, next, left) == DrainOver(StatusReads(c), next, left)
    ensures DrainSpec(c, h, left + 1) == DrainOver(StatusReads(c), h, left + 1)
  {
    if StatusSpec(c, h).value == 0 {
      DrainStops(c, h, left + 1);
    } else {
      DrainOnward(c, h, next, left);
    }
  }

  lemma DrainStops(c: Connection, h: seq<Event>, tries: nat)
    requires tries > 0 && StatusSpec(c, h).value == 0
    ensures DrainSpec(c, h, tries) == DrainOver(StatusReads(c), h, tries)
  {
    assert StatusReads(c)(h) == StatusSpec(c, h);
  }

  lemma DrainOnward(c: Connection, h: seq<Event>, next: seq<Event>, left: nat)
    requires next == StatusSpec(c, h).log && StatusSpec(c, h).value != 0
    requires DrainSpec(c, next, left) == DrainOver(StatusReads(c), next, left)
    ensures DrainSpec(c, h, left + 1) == DrainOver(StatusReads(c), h, left + 1)
  {
    assert StatusReads(c)(h) == StatusSpec(c, h);
  }

  /** The history after j status polls from h. */
  function PollLog(status: StatusReader, h: seq<Event>, j: nat): seq<Event>
    decreases j
  {
    if j == 0 then h else PollLog(status, status(h).log, j - 1)
  }

  /** The drain ends where its polls leave the history, and `emptied`
      holds exactly when the last poll reported an empty queue. */
  lemma {:induction false} DrainOverEnds(status: StatusReader, h: seq<Event>, tries: nat)
    ensures var d := DrainOver(status, h, tries);
      d.log == PollLog(status, h, d.value.polls) &&
      (d.value.emptied <==> d.value.polls > 0 && status(PollLog(status, h, d.value.polls - 1)).value == 0)
    decreases tries
  {
    if tries > 0 {
      var s := status(h);
      if s.value != 0 {
        var d := DrainOver(status, s.log, tries - 1);
        DrainOverEnds(status, s.log, tries - 1);
        assert PollLog(status, h, d.value.polls + 1) == PollLog(status, s.log, d.value.polls);
        if d.value.polls > 0 {
          assert PollLog(status, h, d.value.polls) == PollLog(status, s.log, d.value.polls - 1);
        }
      } else {
        assert PollLog(status, h, 1) == PollLog(status, s.log, 0);
      }
    }
  }

  /** The drain stops only on an empty queue or when its polls run out:
      every poll before the last reported a non-empty queue, or failed. */
  lemma {:induction false} DrainOverEarlierPolls(status: StatusReader, h: seq<Event>, tries: nat, j: nat)
    requires j + 1 < DrainOver(status, h, tries).value.polls
    ensures status(PollLog(status, h, j)).value != 0
    decreases tries
  {
    var s := status(h);
    if j > 0 {
      DrainOverEarlierPolls(status, s.log, tries - 1, j - 1);
      assert PollLog(status, h, j) == PollLog(status, s.log, j - 1);
    }
  }

  /** For the transceiver: the drain's log is that of its polls, and
      `emptied` holds exactly when the last poll read a queue length of 0. */
  lemma DrainEnds(c: Connection, h: seq<Event>, tries: nat)
    ensures var d := DrainSpec(c, h, tries);
      d.log == PollLog(StatusReads(c), h, d.value.polls) &&
      (d.value.emptied <==>
         d.value.polls > 0 && StatusSpec(c, PollLog(StatusReads(c), h, d.value.polls - 1)).value == 0)
  {
    DrainIsDrainOver(c, h, tries);
    DrainOverEnds(StatusReads(c), h, tries);
  }

  /** For the transceiver: every poll before the last read a non-zero
      queue length (-1 when the read failed). */
  lemma DrainEarlierPolls(c: Connection, h: seq<Event>, tries: nat, j: nat)
    requires j + 1 < DrainSpec(c, h, tries).value.polls
    ensures StatusSpec(c, PollLog(StatusReads(c), h, j)).value != 0
  {
    DrainIsDrainOver(c, h, tries);
    DrainOverEarlierPolls(StatusReads(c), h, tries, j);
  }

  /** One poll of the drain. */
  lemma DrainStep(c: Connection, h: seq<Event>, tries: nat)
    requires tries > 0
    ensures var s := StatusSpec(c, h);
      DrainSpec(c, h, tries).log == if s.value == 0 then s.log else DrainSpec(c, s.log, tries - 1).log
  {
  }

  lemma {:induction false} RepeatCons(e: Event, n: nat)
    ensures [e] + Repeat(e, n) == Repeat(e, n + 1)
  {
    if n > 0 {
      RepeatCons(e, n - 1);
      assert [e] + Repeat(e, n) == ([e] + Repeat(e, n - 1)) + [e];
    }
  }

  /** The frame a write of `value` to `command` on `channel` sends. */
  function WriteFrame(command: i8, channel: i8, value: i64): Event
  {
    BulkOut(Frame16x64(NIOS_PKT_16x64_TARGET_RFIC, 1, command, channel, value), TIMEOUT)
  }

  /** `write`: one 16x64 write, then the drain; the result is the write's
      acceptance, whether or not the queue drained. */
  function WriteSpec(c: Connection, h: seq<Event>, command: i8, channel: i8, value: i64): (r: Step<bool>)
    ensures r.value == Write16x64Spec(c, h, NIOS_PKT_16x64_TARGET_RFIC, command, channel, value).value
    ensures h <= r.log
  {
    var w := Write16x64Spec(c, h, NIOS_PKT_16x64_TARGET_RFIC, command, channel, value);
    var d := DrainSpec(c, w.log, WRITE_TRIES);
    Step(w.value, d.log)
  }

  /** A write sends exactly one write frame followed by between one and
      fifty status polls, and nothing else. */
  lemma WriteTraffic(c: Connection, h: seq<Event>, command: i8, channel: i8, value: i64)
    ensures exists polls ::
              1 <= polls <= WRITE_TRIES &&
              Sent(WriteSpec(c, h, command, channel, value).log)
                == Sent(h) + [WriteFrame(command, channel, value)] + Repeat(StatusPoll(), polls)
  {
    var w := Write16x64Spec(c, h, NIOS_PKT_16x64_TARGET_RFIC, command, channel, value);
    var d := DrainSpec(c, w.log, WRITE_TRIES);
    assert Sent(WriteSpec(c, h, command, channel, value).log)
        == Sent(h) + [WriteFrame(command, channel, value)] + Repeat(StatusPoll(), d.value.polls);
  }

  /** `read`: a plain (not fast) 16x64 read from the RFIC target. */
  function ReadSpec(c: Connection, h: seq<Event>, command: i8, channel: i8): (r: Step<Option<i64>>)
    ensures Sent(r.log) == Sent(h) + [BulkOut(Frame16x64(NIOS_PKT_16x64_TARGET_RFIC, 0, command, channel, 0), TIMEOUT)]
    ensures h <= r.log
  {
    Read16x64Spec(c, h, NIOS_PKT_16x64_TARGET_RFIC, command, channel, false)
  }

  /** A getter on RX0: the value read, with a failed read surfacing as
      the exception that unboxing null throws. */
  function GetSpec(c: Connection, h: seq<Event>, command: i8): (r: Step<Result<i64>>)
    ensures r.value.Threw? <==> ReadSpec(c, h, command, CHANNEL_RX0).value.None?
    ensures r.value.Threw? ==> r.value.exception == NullPointerException
    ensures r.value.Returned? ==> Some(r.value.value) == ReadSpec(c, h, command, CHANNEL_RX0).value
    ensures h <= r.log
  {
    var s := ReadSpec(c, h, command, CHANNEL_RX0);
    Step(Unbox(s.value), s.log)
  }

  /** `setSampleRate`: the write, then, only when it was accepted, a read
      back of the rate for the log message, which throws when that read
      fails. */
  function SetSampleRateSpec(c: Connection, h: seq<Event>, rate: i64): (r: Step<Result<bool>>)
    ensures var w := WriteSpec(c, h, RFIC_CMD_SAMPLERATE, CHANNEL_RX0, rate);
      (!w.value ==> r == Step(Returned(false), w.log)) &&
      (w.value ==> r.value != Returned(false))
    ensures var w := WriteSpec(c, h, RFIC_CMD_SAMPLERATE, CHANNEL_RX0, rate);
            var back := ReadSpec(c, w.log, RFIC_CMD_SAMPLERATE, CHANNEL_RX0);
      w.value ==>
        Sent(r.log) == Sent(w.log) + [BulkOut(Frame16x64(NIOS_PKT_16x64_TARGET_RFIC, 0, RFIC_CMD_SAMPLERATE,
                                                         CHANNEL_RX0, 0), TIMEOUT)] &&
        r.value == if back.value.None? then Threw(NullPointerException) else Returned(true)
    ensures h <= r.log
  {
    var w := WriteSpec(c, h, RFIC_CMD_SAMPLERATE, CHANNEL_RX0, rate);
    if !w.value then Step(Returned(false), w.log)
    else
      var g := GetSpec(c, w.log, RFIC_CMD_SAMPLERATE);
      Step(if g.value.Threw? then Threw(g.value.exception) else Returned(true), g.log)
  }

  /** `setTxMute`: TXMUTE = 1 on TX0, then on TX1; both results are
      dropped. */
  function SetTxMuteSpec(c: Connection, h: seq<Event>): (r: seq<Event>)
  {
    var first := WriteSpec(c, h, RFIC_CMD_TXMUTE, CHANNEL_TX0, 1);
    WriteSpec(c, first.log, RFIC_CMD_TXMUTE, CHANNEL_TX1, 1).log
  }

  /** Tx mute sends exactly two write frames, TX0 before TX1, each followed
      by its own status polls. */
  lemma SetTxMuteTraffic(c: Connection, h: seq<Event>)
    ensures exists p, q ::
              1 <= p <= WRITE_TRIES && 1 <= q <= WRITE_TRIES &&
              Sent(SetTxMuteSpec(c, h))
                == Sent(h) + [WriteFrame(RFIC_CMD_TXMUTE, CHANNEL_TX0, 1)] + Repeat(StatusPoll(), p)
                   + [WriteFrame(RFIC_CMD_TXMUTE, CHANNEL_TX1, 1)] + Repeat(StatusPoll(), q)
  {
    var first := WriteSpec(c, h, RFIC_CMD_TXMUTE, CHANNEL_TX0, 1);
    WriteTraffic(c, h, RFIC_CMD_TXMUTE, CHANNEL_TX0, 1);
    WriteTraffic(c, first.log, RFIC_CMD_TXMUTE, CHANNEL_TX1, 1);
    var p :| 1 <= p <= WRITE_TRIES &&
      Sent(first.log) == Sent(h) + [WriteFrame(RFIC_CMD_TXMUTE, CHANNEL_TX0, 1)] + Repeat(StatusPoll(), p);
    var q :| 1 <= q <= WRITE_TRIES &&
      Sent(SetTxMuteSpec(c, h))
        == Sent(first.log) + [WriteFrame(RFIC_CMD_TXMUTE, CHANNEL_TX1, 1)] + Repeat(StatusPoll(), q);
  }

  class Rfic {
    const nios: Nios

    constructor (nios: Nios)
      ensures this.nios == nios
    {
      this.nios := nios;
    }

    method GetWriteQueueLength() returns (n: int)
      modifies nios.connection
      ensures Step(n, nios.connection.log) == StatusSpec(nios.connection, old(nios.connection.log))
    {
      var result := nios.Read16x64(NIOS_PKT_16x64_TARGET_RFIC, RFIC_CMD_STATUS, CHANNEL_INVALID, true);
      if result.None? {
        return -1;
      }
      var initialized := result.value % 2 == 1;
      if !initialized {
        return 0xff;
      }
      return (result.value / 0x100) % 0x100;
    }

    /** `write`: the loop `while (tries-- > 0 && getWriteQueueLength() != 0)`
        polls at most `WRITE_TRIES` times (the sleep between polls is left
        out). */
    method Write(command: i8, channel: i8, value: i64) returns (result: bool)
      modifies nios.connection
      ensures Step(result, nios.connection.log)
           == WriteSpec(nios.connection, old(nios.connection.log), command, channel, value)
    {
      result := nios.Write16x64(NIOS_PKT_16x64_TARGET_RFIC, command, channel, value);
      ghost var afterWrite := nios.connection.log;
      var tries := WRITE_TRIES;
      while tries > 0
        invariant DrainSpec(nios.connection, nios.connection.log, tries).log
               == DrainSpec(nios.connection, afterWrite, WRITE_TRIES).log
      {
        ghost var before := nios.connection.log;
        tries := tries - 1;
        var length := GetWriteQueueLength();
        DrainStep(nios.connection, before, tries + 1);
        if length == 0 {
          break;
        }
      }
    }

    method Read(command: i8, channel: i8) returns (r: Option<i64>)
      modifies nios.connection
      ensures Step(r, nios.connection.log) == ReadSpec(nios.connection, old(nios.connection.log), command, channel)
    {
      r := nios.Read16x64(NIOS_PKT_16x64_TARGET_RFIC, command, channel, false);
    }

    method Get(command: i8) returns (r: Result<i64>)
      modifies nios.connection
      ensures Step(r, nios.connection.log) == GetSpec(nios.connection, old(nios.connection.log), command)
    {
      var value := Read(command, CHANNEL_RX0);
      r := Unbox(value);
    }

    method Open() returns (ok: bool)
      modifies nios.connection
      ensures Step(ok, nios.connection.log)
           == WriteSpec(nios.connection, old(nios.connection.log), RFIC_CMD_INIT, CHANNEL_INVALID, RFIC_STATE_ON)
    {
      ok := Write(RFIC_CMD_INIT, CHANNEL_INVALID, RFIC_STATE_ON);
    }

    method Close() returns (ok: bool)
      modifies nios.connection
      ensures Step(ok, nios.connection.log)
           == WriteSpec(nios.connection, old(nios.connection.log), RFIC_CMD_INIT, CHANNEL_INVALID, RFIC_STATE_OFF)
    {
      ok := Write(RFIC_CMD_INIT, CHANNEL_INVALID, RFIC_STATE_OFF);
    }

    method Enable(state: i32) returns (ok: bool)
      modifies nios.connection
      ensures Step(ok, nios.connection.log)
           == WriteSpec(nios.connection, old(nios.connection.log), RFIC_CMD_ENABLE, CHANNEL_RX0, state)
    {
      ok := Write(RFIC_CMD_ENABLE, CHANNEL_RX0, state);
    }

    method GetSampleRate() returns (r: Result<i64>)
      modifies nios.connection
      ensures Step(r, nios.connection.log)
           == GetSpec(nios.connection, old(nios.connection.log), RFIC_CMD_SAMPLERATE)
    {
      r := Get(RFIC_CMD_SAMPLERATE);
    }

    method SetSampleRate(rate: i64) returns (r: Result<bool>)
      modifies nios.connection
      ensures Step(r, nios.connection.log) == SetSampleRateSpec(nios.connection, old(nios.connection.log), rate)
    {
      var written := Write(RFIC_CMD_SAMPLERATE, CHANNEL_RX0, rate);
      if written {
        var readBack := GetSampleRate();
        if readBack.Threw? {
          return Threw(readBack.exception);
        }
        return Returned(true);
      }
      return Returned(false);
    }

    method GetBandwidth() returns (r: Result<i64>)
      modifies nios.connection
      ensures Step(r, nios.connection.log)
           == GetSpec(nios.connection, old(nios.connection.log), RFIC_CMD_BANDWIDTH)
    {
      r := Get(RFIC_CMD_BANDWIDTH);
    }

    method SetBandwidth(bandwidth: i64) returns (ok: bool)
      modifies nios.connection
      ensures Step(ok, nios.connection.log)
           == WriteSpec(nios.connection, old(nios.connection.log), RFIC_CMD_BANDWIDTH, CHANNEL_RX0, bandwidth)
    {
      ok := Write(RFIC_CMD_BANDWIDTH, CHANNEL_RX0, bandwidth);
    }

    method GetGainMode() returns (r: Result<i64>)
      modifies nios.connection
      ensures Step(r, nios.connection.log)
           == GetSpec(nios.connection, old(nios.connection.log), RFIC_CMD_GAINMODE)
    {
      r := Get(RFIC_CMD_GAINMODE);
    }

    method SetGainMode(mode: i64) returns (ok: bool)
      modifies nios.connection
      ensures Step(ok, nios.connection.log)
           == WriteSpec(nios.connection, old(nios.connection.log), RFIC_CMD_GAINMODE, CHANNEL_RX0, mode)
    {
      ok := Write(RFIC_CMD_GAINMODE, CHANNEL_RX0, mode);
    }

    /** `getGain`: `intValue()` keeps the low 32 bits of the value read. */
    method GetGain() returns (r: Result<i32>)
      modifies nios.connection
      ensures var g := GetSpec(nios.connection, old(nios.connection.log), RFIC_CMD_GAIN);
        nios.connection.log == g.log &&
        r == if g.value.Threw? then Threw(g.value.exception) else Returned(ToI32(g.value.value))
    {
      var value := Get(RFIC_CMD_GAIN);
      if value.Threw? {
        return Threw(value.exception);
      }
      return Returned(ToI32(value.value));
    }

    method SetGain(gain: i32) returns (ok: bool)
      modifies nios.connection
      ensures Step(ok, nios.connection.log)
           == WriteSpec(nios.connection, old(nios.connection.log), RFIC_CMD_GAIN, CHANNEL_RX0, gain)
    {
      ok := Write(RFIC_CMD_GAIN, CHANNEL_RX0, gain);
    }

    method GetFrequency() returns (r: Result<i64>)
      modifies nios.connection
      ensures Step(r, nios.connection.log)
           == GetSpec(nios.connection, old(nios.connection.log), RFIC_CMD_FREQUENCY)
    {
      r := Get(RFIC_CMD_FREQUENCY);
    }

    /** `setFrequency`: `quiet` only silences the log message. */
    method SetFrequency(frequency: i64, quiet: bool) returns (ok: bool)
      modifies nios.connection
      ensures Step(ok, nios.connection.log)
           == WriteSpec(nios.connection, old(nios.connection.log), RFIC_CMD_FREQUENCY, CHANNEL_RX0, frequency)
    {
      ok := Write(RFIC_CMD_FREQUENCY, CHANNEL_RX0, frequency);
    }

    method GetRxFilter() returns (r: Result<i64>)
      modifies nios.connection
      ensures Step(r, nios.connection.log)
           == GetSpec(nios.connection, old(nios.connection.log), RFIC_CMD_FILTER)
    {
      r := Get(RFIC_CMD_FILTER);
    }

    method SetRxFilter(filter: i64) returns (ok: bool)
      modifies nios.connection
      ensures Step(ok, nios.connection.log)
           == WriteSpec(nios.connection, old(nios.connection.log), RFIC_CMD_FILTER, CHANNEL_RX0, filter)
    {
      ok := Write(RFIC_CMD_FILTER, CHANNEL_RX0, filter);
    }

    method SetTxFilter(filter: i64) returns (ok: bool)
      modifies nios.connection
      ensures Step(ok, nios.connection.log)
           == WriteSpec(nios.connection, old(nios.connection.log), RFIC_CMD_FILTER, CHANNEL_TX0, filter)
    {
      ok := Write(RFIC_CMD_FILTER, CHANNEL_TX0, filter);
    }

    method SetTxMute()
      modifies nios.connection
      ensures nios.connection.log == SetTxMuteSpec(nios.connection, old(nios.connection.log))
    {
      var _ := Write(RFIC_CMD_TXMUTE, CHANNEL_TX0, 1);
      var _ := Write(RFIC_CMD_TXMUTE, CHANNEL_TX1, 1);
    }
  }
}
