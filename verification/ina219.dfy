/** The INA219 power monitor behind the 8x16 peripheral target 4: its
    start-up sequence is a soft reset, a poll of the configuration register
    until the reset bit clears, the configuration word, and the calibration
    word, stopping at the first failure. */
module Ina219 {
  import opened JavaTypes
  import opened Constants
  import opened Usb
  import opened Nios

  /** `(short) 0x8000`: the configuration register's reset bit alone. */
  const RESET_WORD: i16 := -0x8000
  /** 16 V bus range, 40 mV shunt range, 12-bit conversions, continuous. */
  const CONFIGURATION_WORD: i16 := 0x019f
  /** `(short) (0.04096 / (0.001 * shunt) + 0.5)` with a 1 milliohm shunt:
      40960, which as a short is 0xA000. */
  const CALIBRATION_WORD: i16 := -0x6000

  /** `(value & 0x8000) != 0` on a short: bit 15, which is the sign bit. */
  predicate ResetBit(value: i16)
  {
    value < 0
  }

  /** The sign test is the test of bit 15 of the two's-complement short. */
  lemma ResetBitIsBit15(value: i16)
    ensures ResetBit(value) <==> (value % 0x1_0000) / 0x8000 == 1
  {
  }

  /** The frames this driver sends: an 8x16 read or write of a register. */
  function RegisterRead(register: i8): Event
  {
    BulkOut(Frame8x16(NIOS_PKT_8x16_TARGET_INA219, 0, register, 0), TIMEOUT)
  }

  function RegisterWrite(register: i8, value: i16): Event
  {
    BulkOut(Frame8x16(NIOS_PKT_8x16_TARGET_INA219, 1, register, value), TIMEOUT)
  }

  /** The three writes of a complete start-up, in order. */
  function StartupWrites(): seq<Event>
  {
    [RegisterWrite(INA219_REG_CONFIGURATION, RESET_WORD),
     RegisterWrite(INA219_REG_CONFIGURATION, CONFIGURATION_WORD),
     RegisterWrite(INA219_REG_CALIBRATION, CALIBRATION_WORD)]
  }

  /** One read of the configuration register. */
  function ConfigurationRead(c: Connection, h: seq<Event>): (r: Step<Option<i16>>)
    ensures Sent(r.log) == Sent(h) + [RegisterRead(INA219_REG_CONFIGURATION)]
  {
    Read8x16Spec(c, h, NIOS_PKT_8x16_TARGET_INA219, INA219_REG_CONFIGURATION)
  }

  /** A read of the configuration register from a given history. */
  type Reader = seq<Event> -> Step<Option<i16>>

  function ConfigurationReads(c: Connection): Reader
  {
    h => ConfigurationRead(c, h)
  }

  /** How the reset poll ended. */
  datatype PollEnd = OutOfReset | ReadFailed | StillResetting

  /** The number of configuration reads made, and how the poll ended. */
  datatype Poll = Poll(polls: nat, end: PollEnd)

  /** The loop `while ((value & 0x8000) != 0) value = read(CONFIGURATION)`
      from the given `value`, with at most `fuel` more reads (the source's
      loop has no bound); `done` counts the reads already made. The reads
      are those of `read`, which `InitializeSpec` fixes to
      `ConfigurationReads`. */
  function ResetPollSpec(read: Reader, h: seq<Event>, value: i16, fuel: nat, done: nat): (r: Step<Poll>)
    decreases fuel
  {
    if !ResetBit(value) || fuel == 0 then
      Step(Poll(done, if ResetBit(value) then StillResetting else OutOfReset), h)
    else
      var next := read(h);
      if next.value.None? then Step(Poll(done + 1, ReadFailed), next.log)
      else ResetPollSpec(read, next.log, next.value.value, fuel - 1, done + 1)
  }

  /** The poll makes at most `fuel` reads, and all of them when it runs
      out. */
  lemma {:induction false} ResetPollCount(read: Reader, h: seq<Event>, value: i16, fuel: nat, done: nat)
    ensures var r := ResetPollSpec(read, h, value, fuel, done);
      done <= r.value.polls <= done + fuel &&
      (r.value.end == StillResetting ==> r.value.polls == done + fuel)
    decreases fuel
  {
    if ResetBit(value) && fuel > 0 {
      var next := read(h);
      if next.value.Some? {
        ResetPollCount(read, next.log, next.value.value, fuel - 1, done + 1);
      }
    }
  }

  /** Each read sends the one frame `e`. */
  ghost predicate SendsOnly(read: Reader, e: Event)
  {
    forall h :: Sent(read(h).log) == Sent(h) + [e]
  }

  lemma ConfigurationReadsSend(c: Connection)
    ensures SendsOnly(ConfigurationReads(c), RegisterRead(INA219_REG_CONFIGURATION))
  {
    forall h ensures Sent(ConfigurationReads(c)(h).log) == Sent(h) + [RegisterRead(INA219_REG_CONFIGURATION)] {
      assert ConfigurationReads(c)(h) == ConfigurationRead(c, h);
    }
  }

  /** The poll sends nothing but its reads. */
  lemma {:induction false} ResetPollTraffic(read: Reader, e: Event, h: seq<Event>, value: i16, fuel: nat,
                                            done: nat)
    requires SendsOnly(read, e)
    ensures var r := ResetPollSpec(read, h, value, fuel, done);
      done <= r.value.polls && Sent(r.log) == Sent(h) + Repeat(e, r.value.polls - done)
    decreases fuel
  {
    var r := ResetPollSpec(read, h, value, fuel, done);
    ResetPollCount(read, h, value, fuel, done);
    if !ResetBit(value) || fuel == 0 {
      assert Sent(h) + Repeat(e, 0) == Sent(h);
    } else {
      var next := read(h);
      if next.value.Some? {
        ResetPollTraffic(read, e, next.log, next.value.value, fuel - 1, done + 1);
        RepeatAfter(Sent(h), Sent(next.log), e, r.value.polls - (done + 1));
      } else {
        assert Repeat(e, 1) == [e];
      }
    }
  }

  /** One read of the reset poll, given what it returned: with `fuel`
      reads allowed before it, `left` are left after it, and the count goes
      from `done` to `done'`. */
  lemma PollStep(read: Reader, h: seq<Event>, value: i16, fuel: nat, left: nat, done: nat, done': nat,
                 next: Step<Option<i16>>)
    requires ResetBit(value) && fuel == left + 1 && done' == done + 1 && next == read(h)
    ensures next.value.None? ==>
      ResetPollSpec(read, h, value, fuel, done) == Step(Poll(done', ReadFailed), next.log)
    ensures next.value.Some? ==>
      ResetPollSpec(read, h, value, fuel, done) == ResetPollSpec(read, next.log, next.value.value, left, done')
  {
  }

  /** A poll from the reset word that ended for any reason but running out
      made a read. */
  lemma PollEndsAfterARead(read: Reader, h: seq<Event>, fuel: nat, done: nat)
    ensures var r := ResetPollSpec(read, h, RESET_WORD, fuel, done);
      r.value.end != StillResetting ==> r.value.polls >= done + 1
  {
    if fuel > 0 {
      var next := read(h);
      if next.value.Some? {
        ResetPollCount(read, next.log, next.value.value, fuel - 1, done + 1);
      }
    }
  }

  /** One more `e` in front of n of them. */
  lemma RepeatAfter(s: seq<Event>, mid: seq<Event>, e: Event, n: nat)
    requires mid == s + [e]
    ensures mid + Repeat(e, n) == s + Repeat(e, n + 1)
  {
    RepeatCons(e, n);
  }

  lemma {:induction false} RepeatCons(e: Event, n: nat)
    ensures [e] + Repeat(e, n) == Repeat(e, n + 1)
  {
    if n > 0 {
      RepeatCons(e, n - 1);
      assert [e] + Repeat(e, n) == ([e] + Repeat(e, n - 1)) + [e];
    }
  }

  /** The result of `initialize`, or `OutOfFuel` when the reset poll had
      not finished within the polls allowed. */
  datatype Init = Done(ok: bool) | OutOfFuel

  /** `initialize`: each step runs only if the one before it succeeded. */
  function InitializeSpec(c: Connection, h: seq<Event>, fuel: nat): (r: Step<Init>)
  {
    var reset := Write8x16Spec(c, h, NIOS_PKT_8x16_TARGET_INA219, INA219_REG_CONFIGURATION, RESET_WORD);
    if !reset.value then Step(Done(false), reset.log)
    else AfterResetSpec(c, ResetPollSpec(ConfigurationReads(c), reset.log, RESET_WORD, fuel, 0))
  }

  /** What `initialize` does once the reset poll has ended. */
  function AfterResetSpec(c: Connection, poll: Step<Poll>): (r: Step<Init>)
  {
    if poll.value.end == ReadFailed then Step(Done(false), poll.log)
    else if poll.value.end == StillResetting then Step(OutOfFuel, poll.log)
    else
      var config := Write8x16Spec(c, poll.log, NIOS_PKT_8x16_TARGET_INA219, INA219_REG_CONFIGURATION,
                                  CONFIGURATION_WORD);
      if !config.value then Step(Done(false), config.log)
      else
        var calibration := Write8x16Spec(c, config.log, NIOS_PKT_8x16_TARGET_INA219,
                                         INA219_REG_CALIBRATION, CALIBRATION_WORD);
        Step(Done(calibration.value), calibration.log)
  }

  /** The start-up writes of `initialize`. */
  function ResetWrite(c: Connection, h: seq<Event>): Step<bool>
  {
    Write8x16Spec(c, h, NIOS_PKT_8x16_TARGET_INA219, INA219_REG_CONFIGURATION, RESET_WORD)
  }

  function ConfigurationWrite(c: Connection, h: seq<Event>): Step<bool>
  {
    Write8x16Spec(c, h, NIOS_PKT_8x16_TARGET_INA219, INA219_REG_CONFIGURATION, CONFIGURATION_WORD)
  }

  function CalibrationWrite(c: Connection, h: seq<Event>): Step<bool>
  {
    Write8x16Spec(c, h, NIOS_PKT_8x16_TARGET_INA219, INA219_REG_CALIBRATION, CALIBRATION_WORD)
  }

  /** How `initialize` ends, in terms of its steps: true exactly when the
      reset write is accepted, the poll sees the reset bit clear, and the
      configuration and calibration writes are accepted; false exactly when
      one of the writes is rejected or a poll read fails. */
  lemma InitializeOutcomes(c: Connection, h: seq<Event>, fuel: nat)
    ensures var reset := ResetWrite(c, h);
            var poll := ResetPollSpec(ConfigurationReads(c), reset.log, RESET_WORD, fuel, 0);
            var config := ConfigurationWrite(c, poll.log);
            var calibration := CalibrationWrite(c, config.log);
            var r := InitializeSpec(c, h, fuel);
      (r.value == Done(true) <==>
         reset.value && poll.value.end == OutOfReset && config.value && calibration.value) &&
      (r.value == OutOfFuel <==> reset.value && poll.value.end == StillResetting) &&
      (r.value == Done(false) <==>
         !reset.value || poll.value.end == ReadFailed ||
         (poll.value.end == OutOfReset && (!config.value || !calibration.value)))
  {
  }

  /** The step that makes `initialize` fail sends its last frame: a
      rejected write, or the poll read that failed. */
  lemma InitializeStopsAtFailure(c: Connection, h: seq<Event>, fuel: nat)
    ensures var reset := ResetWrite(c, h);
            var poll := ResetPollSpec(ConfigurationReads(c), reset.log, RESET_WORD, fuel, 0);
            var config := ConfigurationWrite(c, poll.log);
            var r := InitializeSpec(c, h, fuel);
      (!reset.value ==> Sent(r.log) == Sent(h) + [StartupWrites()[0]]) &&
      (reset.value && poll.value.end == ReadFailed ==>
         poll.value.polls >= 1 && Sent(r.log) == Sent(reset.log)
           + Repeat(RegisterRead(INA219_REG_CONFIGURATION), poll.value.polls)) &&
      (reset.value && poll.value.end == OutOfReset && !config.value ==>
         Sent(r.log) == Sent(poll.log) + [StartupWrites()[1]]) &&
      (reset.value && poll.value.end == OutOfReset && config.value ==>
         Sent(r.log) == Sent(config.log) + [StartupWrites()[2]])
  {
    var reset := ResetWrite(c, h);
    var r := InitializeSpec(c, h, fuel);
    if !reset.value {
      ResetRejectedStops(c, h, fuel);
    } else {
      var poll := ResetPollSpec(ConfigurationReads(c), reset.log, RESET_WORD, fuel, 0);
      InitializeAfterReset(c, h, fuel);
      if poll.value.end == ReadFailed {
        PollFailureStops(c, reset.log, fuel);
      } else if poll.value.end == OutOfReset {
        AfterResetStops(c, poll);
      }
    }
  }

  lemma ResetRejectedStops(c: Connection, h: seq<Event>, fuel: nat)
    requires !ResetWrite(c, h).value
    ensures Sent(InitializeSpec(c, h, fuel).log) == Sent(h) + [StartupWrites()[0]]
  {
    assert InitializeSpec(c, h, fuel).log == ResetWrite(c, h).log;
  }

  lemma InitializeAfterReset(c: Connection, h: seq<Event>, fuel: nat)
    requires ResetWrite(c, h).value
    ensures InitializeSpec(c, h, fuel)
         == AfterResetSpec(c, ResetPollSpec(ConfigurationReads(c), ResetWrite(c, h).log, RESET_WORD, fuel, 0))
  {
  }

  /** A failed poll read is the last frame. */
  lemma PollFailureStops(c: Connection, log: seq<Event>, fuel: nat)
    requires ResetPollSpec(ConfigurationReads(c), log, RESET_WORD, fuel, 0).value.end == ReadFailed
    ensures var poll := ResetPollSpec(ConfigurationReads(c), log, RESET_WORD, fuel, 0);
      poll.value.polls >= 1 &&
      Sent(AfterResetSpec(c, poll).log) == Sent(log) + Repeat(RegisterRead(INA219_REG_CONFIGURATION), poll.value.polls)
  {
    var read := ConfigurationReads(c);
    var poll := ResetPollSpec(read, log, RESET_WORD, fuel, 0);
    FailedPollEnds(c, poll);
    ConfigurationReadsSend(c);
    PollFailureTraffic(read, RegisterRead(INA219_REG_CONFIGURATION), log, fuel);
  }

  lemma FailedPollEnds(c: Connection, poll: Step<Poll>)
    requires poll.value.end == ReadFailed
    ensures AfterResetSpec(c, poll) == Step(Done(false), poll.log)
  {
  }

  /** A poll from the reset word that failed made at least one read, and
      sent its reads and nothing else. */
  lemma PollFailureTraffic(read: Reader, e: Event, log: seq<Event>, fuel: nat)
    requires SendsOnly(read, e)
    requires ResetPollSpec(read, log, RESET_WORD, fuel, 0).value.end == ReadFailed
    ensures var poll := ResetPollSpec(read, log, RESET_WORD, fuel, 0);
      poll.value.polls >= 1 && Sent(poll.log) == Sent(log) + Repeat(e, poll.value.polls)
  {
    ResetPollTraffic(read, e, log, RESET_WORD, fuel, 0);
    PollEndsAfterARead(read, log, fuel, 0);
  }

  /** The writes after the poll: a rejected configuration write is the
      last frame, otherwise the calibration write is. */
  lemma AfterResetStops(c: Connection, poll: Step<Poll>)
    requires poll.value.end == OutOfReset
    ensures var config := ConfigurationWrite(c, poll.log);
            var r := AfterResetSpec(c, poll);
      (!config.value ==> Sent(r.log) == Sent(poll.log) + [StartupWrites()[1]]) &&
      (config.value ==> Sent(r.log) == Sent(config.log) + [StartupWrites()[2]])
  {
  }

  /** The frames `initialize` sends, with `writes` of the start-up writes
      made and `polls` reads between the first and the second. */
  ghost predicate StartupSent(h: seq<Event>, log: seq<Event>, fuel: nat, ok: bool)
  {
    exists writes: nat, polls: nat ::
      1 <= writes <= 3 && polls <= fuel &&
      Sent(log) == Sent(h) + [StartupWrites()[0]] + Repeat(RegisterRead(INA219_REG_CONFIGURATION), polls)
                   + StartupWrites()[1..writes] &&
      (ok ==> writes == 3) &&
      (writes > 1 ==> polls >= 1)
  }

  /** The frames `initialize` sends: the first `writes` start-up writes in
      order, with the reset poll's reads between the first and the second;
      it succeeds only when all three writes were made. */
  lemma InitializeTraffic(c: Connection, h: seq<Event>, fuel: nat)
    ensures var r := InitializeSpec(c, h, fuel);
      StartupSent(h, r.log, fuel, r.value == Done(true))
  {
    var r := InitializeSpec(c, h, fuel);
    var reset := Write8x16Spec(c, h, NIOS_PKT_8x16_TARGET_INA219, INA219_REG_CONFIGURATION, RESET_WORD);
    var read := RegisterRead(INA219_REG_CONFIGURATION);
    var w := StartupWrites();
    var start := Sent(h) + [w[0]];
    assert Sent(reset.log) == start;
    if !reset.value {
      assert r.log == reset.log;
      AppendSlice(start + Repeat(read, 0), w, 1, 1);
      assert Sent(r.log) == start + Repeat(read, 0) + w[1..1];
    } else {
      var poll := ResetPollSpec(ConfigurationReads(c), reset.log, RESET_WORD, fuel, 0);
      assert r == AfterResetSpec(c, poll);
      ConfigurationReadsSend(c);
      PollTraffic(c, ConfigurationReads(c), h, reset.log, fuel);
    }
  }

  /** The reset poll and what follows it, after an accepted reset write. */
  lemma PollTraffic(c: Connection, read: Reader, h: seq<Event>, log: seq<Event>, fuel: nat)
    requires SendsOnly(read, RegisterRead(INA219_REG_CONFIGURATION))
    requires Sent(log) == Sent(h) + [StartupWrites()[0]]
    ensures var r := AfterResetSpec(c, ResetPollSpec(read, log, RESET_WORD, fuel, 0));
      StartupSent(h, r.log, fuel, r.value == Done(true))
  {
    var poll := ResetPollSpec(read, log, RESET_WORD, fuel, 0);
    ResetPollCount(read, log, RESET_WORD, fuel, 0);
    ResetPollTraffic(read, RegisterRead(INA219_REG_CONFIGURATION), log, RESET_WORD, fuel, 0);
    PollEndsAfterARead(read, log, fuel, 0);
    AfterResetTraffic(c, h, poll, fuel);
  }

  lemma AfterResetTraffic(c: Connection, h: seq<Event>, poll: Step<Poll>, fuel: nat)
    requires poll.value.polls <= fuel
    requires poll.value.end == OutOfReset ==> poll.value.polls >= 1
    requires Sent(poll.log) == Sent(h) + [StartupWrites()[0]]
                               + Repeat(RegisterRead(INA219_REG_CONFIGURATION), poll.value.polls)
    ensures var r := AfterResetSpec(c, poll);
      StartupSent(h, r.log, fuel, r.value == Done(true))
  {
    var r := AfterResetSpec(c, poll);
    var w := StartupWrites();
    var before := Sent(poll.log);
    var n := poll.value.polls;
    if poll.value.end != OutOfReset {
      assert r.log == poll.log;
      AppendSlice(before, w, 1, 1);
      assert Sent(r.log) == before + w[1..1];
    } else {
      var config := Write8x16Spec(c, poll.log, NIOS_PKT_8x16_TARGET_INA219, INA219_REG_CONFIGURATION,
                                  CONFIGURATION_WORD);
      assert Sent(config.log) == before + [w[1]];
      if !config.value {
        assert r.log == config.log;
        AppendSlice(before, w, 1, 2);
        assert Sent(r.log) == before + w[1..2];
      } else {
        var calibration := Write8x16Spec(c, config.log, NIOS_PKT_8x16_TARGET_INA219,
                                         INA219_REG_CALIBRATION, CALIBRATION_WORD);
        assert r.log == calibration.log;
        assert Sent(calibration.log) == before + [w[1]] + [w[2]];
        AppendSlice(before, w, 1, 3);
        assert Sent(r.log) == before + w[1..3];
      }
    }
  }

  lemma AppendSlice<T>(before: seq<T>, w: seq<T>, i: nat, j: nat)
    requires i <= j <= |w| && j - i <= 2
    ensures before + w[i..j] == if j - i == 0 then before
                                else if j - i == 1 then before + [w[i]]
                                else before + [w[i]] + [w[i + 1]]
  {
  }

  /** A frame of the 8x16 protocol addressed to the INA219. */
  predicate ForIna219(e: Event)
  {
    e.BulkOut? && |e.data| == NIOS_PKT_LEN &&
    e.data[NIOS_PKT_8x16_IDX_MAGIC] as int == NIOS_PKT_8x16_MAGIC &&
    e.data[NIOS_PKT_8x16_IDX_TARGET_ID] == NIOS_PKT_8x16_TARGET_INA219
  }

  lemma StartupFramesForIna219()
    ensures ForIna219(RegisterRead(INA219_REG_CONFIGURATION))
    ensures forall k :: 0 <= k < 3 ==> ForIna219(StartupWrites()[k])
  {
    Frame8x16Layout(NIOS_PKT_8x16_TARGET_INA219, 0, INA219_REG_CONFIGURATION, 0);
    Frame8x16Layout(NIOS_PKT_8x16_TARGET_INA219, 1, INA219_REG_CONFIGURATION, RESET_WORD);
    Frame8x16Layout(NIOS_PKT_8x16_TARGET_INA219, 1, INA219_REG_CONFIGURATION, CONFIGURATION_WORD);
    Frame8x16Layout(NIOS_PKT_8x16_TARGET_INA219, 1, INA219_REG_CALIBRATION, CALIBRATION_WORD);
  }

  /** Every frame `initialize` sends is an 8x16 frame for the INA219. */
  lemma InitializeTargetsIna219(c: Connection, h: seq<Event>, fuel: nat)
    ensures var sent := Sent(InitializeSpec(c, h, fuel).log);
      |Sent(h)| <= |sent| && sent[..|Sent(h)|] == Sent(h) &&
      forall i :: |Sent(h)| <= i < |sent| ==> ForIna219(sent[i])
  {
    InitializeTraffic(c, h, fuel);
    StartupTrafficForIna219(Sent(h), Sent(InitializeSpec(c, h, fuel).log));
  }

  lemma StartupTrafficForIna219(before: seq<Event>, sent: seq<Event>)
    requires exists writes: nat, polls: nat ::
      1 <= writes <= 3 &&
      sent == before + [StartupWrites()[0]] + Repeat(RegisterRead(INA219_REG_CONFIGURATION), polls)
              + StartupWrites()[1..writes]
    ensures |before| <= |sent| && sent[..|before|] == before
    ensures forall i :: |before| <= i < |sent| ==> ForIna219(sent[i])
  {
    var writes: nat, polls: nat :| 1 <= writes <= 3 &&
      sent == before + [StartupWrites()[0]] + Repeat(RegisterRead(INA219_REG_CONFIGURATION), polls)
              + StartupWrites()[1..writes];
    StartupTailForIna219(before, polls, writes);
  }

  lemma StartupTailForIna219(before: seq<Event>, polls: nat, writes: nat)
    requires 1 <= writes <= 3
    ensures var w := StartupWrites();
      var sent := before + [w[0]] + Repeat(RegisterRead(INA219_REG_CONFIGURATION), polls) + w[1..writes];
      |before| <= |sent| && sent[..|before|] == before &&
      forall i :: |before| <= i < |sent| ==> ForIna219(sent[i])
  {
    StartupFramesForIna219();
    var read := RegisterRead(INA219_REG_CONFIGURATION);
    var w := StartupWrites();
    var tail := [w[0]] + Repeat(read, polls) + w[1..writes];
    var sent := before + [w[0]] + Repeat(read, polls) + w[1..writes];
    assert sent == before + tail;
    forall i | |before| <= i < |sent|
      ensures ForIna219(sent[i])
    {
      var k := i - |before|;
      assert sent[i] == tail[k];
      if k == 0 {
        assert tail[k] == w[0];
      } else if k <= polls {
        assert tail[k] == Repeat(read, polls)[k - 1];
      } else {
        assert tail[k] == w[k - polls];
      }
    }
  }

  class Ina219 {
    const nios: Nios

    constructor (nios: Nios)
      ensures this.nios == nios
    {
      this.nios := nios;
    }

    method Read(command: i8) returns (r: Option<i16>)
      modifies nios.connection
      ensures Step(r, nios.connection.log)
           == Read8x16Spec(nios.connection, old(nios.connection.log), NIOS_PKT_8x16_TARGET_INA219, command)
    {
      r := nios.Read8x16(NIOS_PKT_8x16_TARGET_INA219, command);
    }

    method ReadConfiguration() returns (r: Option<i16>)
      modifies nios.connection
      ensures Step(r, nios.connection.log) == ConfigurationRead(nios.connection, old(nios.connection.log))
    {
      r := Read(INA219_REG_CONFIGURATION);
    }

    method Write(command: i8, value: i16) returns (accepted: bool)
      modifies nios.connection
      ensures Step(accepted, nios.connection.log)
           == Write8x16Spec(nios.connection, old(nios.connection.log), NIOS_PKT_8x16_TARGET_INA219, command, value)
    {
      accepted := nios.Write8x16(NIOS_PKT_8x16_TARGET_INA219, command, value);
    }

    /** The reset poll of `initialize`: reads the configuration register
        until the reset bit is clear or a read fails, at most `fuel` times. */
    method AwaitReset(fuel: nat) returns (p: Poll)
      modifies nios.connection
      ensures Step(p, nios.connection.log)
           == ResetPollSpec(ConfigurationReads(nios.connection), old(nios.connection.log), RESET_WORD, fuel, 0)
    {
      ghost var read := ConfigurationReads(nios.connection);
      ghost var poll := ResetPollSpec(read, nios.connection.log, RESET_WORD, fuel, 0);
      var value := RESET_WORD;
      var polls := 0;
      var left: nat := fuel;
      while ResetBit(value)
        invariant poll == ResetPollSpec(read, nios.connection.log, value, left, polls)
        decreases left
      {
        if left == 0 {
          return Poll(polls, StillResetting);
        }
        ghost var before, left0, polls0 := nios.connection.log, left, polls;
        var result := ReadConfiguration();
        left, polls := left - 1, polls + 1;
        assert read(before) == Step(result, nios.connection.log);
        PollStep(read, before, value, left0, left, polls0, polls, Step(result, nios.connection.log));
        if result.None? {
          return Poll(polls, ReadFailed);
        }
        value := result.value;
      }
      return Poll(polls, OutOfReset);
    }

    /** `initialize`, with the reset poll cut off after `fuel` reads. */
    method Initialize(fuel: nat) returns (r: Init)
      modifies nios.connection
      ensures Step(r, nios.connection.log) == InitializeSpec(nios.connection, old(nios.connection.log), fuel)
    {
      var ok := Write(INA219_REG_CONFIGURATION, RESET_WORD);
      if !ok {
        return Done(false);
      }
      var poll := AwaitReset(fuel);
      if poll.end == ReadFailed {
        return Done(false);
      } else if poll.end == StillResetting {
        return OutOfFuel;
      }
      ok := Write(INA219_REG_CONFIGURATION, CONFIGURATION_WORD);
      if !ok {
        return Done(false);
      }
      ok := Write(INA219_REG_CALIBRATION, CALIBRATION_WORD);
      return Done(ok);
    }
  }
}
