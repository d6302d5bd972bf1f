/** The bladeRF back end of the analyzer: the settings it mirrors to the
    device and to the I/Q converter, the stepping through the device's
    supported sample rates, the bounded queue of received packets and the
    pool of returned ones, and the worker that hands each completed USB
    request to the queue and re-queues the request with a fresh buffer.
    The device is seen through its interface: every call made on it is
    recorded in its `log`, and what its getters report is fixed when it is
    built. The worker's view of the device (timeouts, completed requests,
    whether a request could be re-queued) is a trace of arrivals. */
module BladeRfSource {
  import opened JavaTypes
  import IqConverter

  /** Capacity of the delivery queue and of the return pool. */
  const QUEUE_SIZE := 1024

  /** The number of consecutive timeouts that ends the worker. */
  const MAX_TIMEOUTS := 10

  /** The gain a source starts with, meaning "not yet read from the device". */
  const UNSET_GAIN: i32 := -1000

  /** The bytes of one USB packet. Buffers are values here: the model does
      not track which array object is which. */
  type Buffer = seq<i8>

  /** A buffer as `new byte[n]` allocates it. */
  function Zeros(n: nat): (b: Buffer)
    ensures |b| == n && forall k :: 0 <= k < n ==> b[k] == 0
  {
    seq(n, _ => 0)
  }

  /** `offer` on a bounded blocking queue: the buffer joins the end, or is
      dropped when the queue is full. */
  function Offer(q: seq<Buffer>, b: Buffer): seq<Buffer>
  {
    if |q| < QUEUE_SIZE then q + [b] else q
  }

  // ---------------------------------------------------------------------
  // The device interface

  /** One call made on the device. */
  datatype Call =
    | RateSet(rate: i32)
    | FrequencySet(frequency: i64, silent: bool)
    | ManualGainSet(enable: bool)
    | GainSet(gain: i32)
    | RxEnabled
    | RxDisabled
    | RequestsInitialized
    | RequestsCancelled(count: nat)
    | SamplesAwaited
    | RequestQueued(buffer: Buffer)
    | Closed

  /** The device behind its interface. The getters' values are constants
      of the device; `requestCount` is how many USB requests
      `initializeUSBRequests` manages to set up after the calls so far. */
  class Device {
    const packetSize: i32
    const supportedRates: seq<i32>
    const reportedRate: i32
    const reportedFrequency: i64
    const reportedManualGain: bool
    const reportedGain: i32
    const requestCount: seq<Call> -> nat
    var log: seq<Call>

    constructor (packetSize: i32, supportedRates: seq<i32>, reportedRate: i32, reportedFrequency: i64,
                 reportedManualGain: bool, reportedGain: i32, requestCount: seq<Call> -> nat)
      ensures this.packetSize == packetSize && this.supportedRates == supportedRates
      ensures this.reportedRate == reportedRate && this.reportedFrequency == reportedFrequency
      ensures this.reportedManualGain == reportedManualGain && this.reportedGain == reportedGain
      ensures this.requestCount == requestCount && log == []
    {
      this.packetSize := packetSize;
      this.supportedRates := supportedRates;
      this.reportedRate := reportedRate;
      this.reportedFrequency := reportedFrequency;
      this.reportedManualGain := reportedManualGain;
      this.reportedGain := reportedGain;
      this.requestCount := requestCount;
      log := [];
    }

    method SetSampleRate(rate: i32)
      modifies this
      ensures log == old(log) + [RateSet(rate)]
    {
      log := log + [RateSet(rate)];
    }

    method SetFrequency(frequency: i64, silent: bool)
      modifies this
      ensures log == old(log) + [FrequencySet(frequency, silent)]
    {
      log := log + [FrequencySet(frequency, silent)];
    }

    method SetManualGain(enable: bool)
      modifies this
      ensures log == old(log) + [ManualGainSet(enable)]
    {
      log := log + [ManualGainSet(enable)];
    }

    method SetGain(gain: i32)
      modifies this
      ensures log == old(log) + [GainSet(gain)]
    {
      log := log + [GainSet(gain)];
    }

    method EnableRx()
      modifies this
      ensures log == old(log) + [RxEnabled]
    {
      log := log + [RxEnabled];
    }

    method DisableRx()
      modifies this
      ensures log == old(log) + [RxDisabled]
    {
      log := log + [RxDisabled];
    }

    method Close()
      modifies this
      ensures log == old(log) + [Closed]
    {
      log := log + [Closed];
    }

    /** `initializeUSBRequests`: the number of requests set up. */
    method InitializeRequests() returns (n: nat)
      modifies this
      ensures n == requestCount(old(log))
      ensures log == old(log) + [RequestsInitialized]
    {
      n := requestCount(log);
      log := log + [RequestsInitialized];
    }

    method CancelRequests(n: nat)
      modifies this
      ensures log == old(log) + [RequestsCancelled(n)]
    {
      log := log + [RequestsCancelled(n)];
    }

    /** `getSamples`: waiting for the next completed request. */
    method AwaitSamples()
      modifies this
      ensures log == old(log) + [SamplesAwaited]
    {
      log := log + [SamplesAwaited];
    }

    /** `queueUSBRequest`: a completed request goes back with a new buffer. */
    method QueueRequest(buffer: Buffer)
      modifies this
      ensures log == old(log) + [RequestQueued(buffer)]
    {
      log := log + [RequestQueued(buffer)];
    }
  }

  // ---------------------------------------------------------------------
  // Settings

  /** `setFrequency` first rounds an odd frequency up by one. Java's `%`
      keeps the sign of the dividend, so only positive odd frequencies are
      rounded, and `+= 1` on a long wraps at the top of its range. */
  function RoundedFrequency(f: i64): i64
  {
    if JavaRem(f, 2) == 1 then ToI64(f as int + 1) else f
  }

  /** Rounding makes every non-negative frequency even, moving it up by at
      most one (the largest long wraps to the smallest, which is even), and
      leaves negative frequencies as they are. */
  lemma RoundedFrequencyParity(f: i64)
    ensures f >= 0 ==> RoundedFrequency(f) % 2 == 0
    ensures 0 <= f < 0x7fff_ffff_ffff_ffff ==> f <= RoundedFrequency(f) <= f + 1
    ensures f == 0x7fff_ffff_ffff_ffff ==> RoundedFrequency(f) == -0x8000_0000_0000_0000
    ensures f < 0 || f % 2 == 0 ==> RoundedFrequency(f) == f
  {
    if f >= 0 && f % 2 == 1 {
      if f < 0x7fff_ffff_ffff_ffff {
        WrapResidue(f + 1, f + 1, 0x1_0000_0000_0000_0000);
      } else {
        WrapResidue(f + 1, 0x8000_0000_0000_0000, 0x1_0000_0000_0000_0000);
      }
    }
  }

  // ---------------------------------------------------------------------
  // Stepping through the supported sample rates

  /** The index of the first rate above `rate` at or after `k`, or the
      length of the list when there is none. */
  function FirstAbove(rates: seq<i32>, rate: int, k: nat): (j: nat)
    requires k <= |rates|
    ensures k <= j <= |rates|
    ensures forall i :: k <= i < j ==> rates[i] <= rate
    ensures j < |rates| ==> rates[j] > rate
    decreases |rates| - k
  {
    if k == |rates| || rates[k] > rate then k else FirstAbove(rates, rate, k + 1)
  }

  /** `getNextHigherOptimalSampleRate` with a device: the first listed rate
      above the given one, else the last listed rate. An empty list makes
      the final `sampleRates[sampleRates.length - 1]` throw. */
  function NextHigher(rates: seq<i32>, rate: i32): Result<i32>
  {
    var j := FirstAbove(rates, rate, 0);
    if j < |rates| then Returned(rates[j])
    else if rates == [] then Threw(ArrayIndexOutOfBoundsException)
    else Returned(rates[|rates| - 1])
  }

  /** `getNextLowerOptimalSampleRate` with a device: the rate just before
      the first rate above the given one, the search starting at the
      second entry, else the last listed rate. */
  function NextLower(rates: seq<i32>, rate: i32): Result<i32>
  {
    if rates == [] then Threw(ArrayIndexOutOfBoundsException)
    else
      var j := FirstAbove(rates, rate, 1);
      if j < |rates| then Returned(rates[j - 1]) else Returned(rates[|rates| - 1])
  }

  predicate Ascending(rates: seq<i32>)
  {
    forall i, j :: 0 <= i < j < |rates| ==> rates[i] < rates[j]
  }

  /** On an ascending list, stepping up gives the smallest listed rate
      strictly above the given one, or the largest listed rate when none
      is above it; it fails only on an empty list. */
  lemma NextHigherIsLeastAbove(rates: seq<i32>, rate: i32)
    requires Ascending(rates)
    ensures NextHigher(rates, rate).Threw? <==> rates == []
    ensures NextHigher(rates, rate).Returned? ==> NextHigher(rates, rate).value in rates
    ensures (exists i :: 0 <= i < |rates| && rates[i] > rate) ==>
              var v := NextHigher(rates, rate).value;
              v > rate && forall i :: 0 <= i < |rates| && rates[i] > rate ==> v <= rates[i]
    ensures rates != [] && (forall i :: 0 <= i < |rates| ==> rates[i] <= rate) ==>
              forall i :: 0 <= i < |rates| ==> rates[i] <= NextHigher(rates, rate).value
  {
    var j := FirstAbove(rates, rate, 0);
    if j < |rates| {
      forall i | 0 <= i < |rates| && rates[i] > rate
        ensures rates[j] <= rates[i]
      {
      }
    }
  }

  /** On an ascending list, stepping down gives the largest listed rate at
      or below the given one, or the smallest listed rate when all of them
      are above it; it fails only on an empty list. */
  lemma NextLowerIsGreatestBelow(rates: seq<i32>, rate: i32)
    requires Ascending(rates)
    ensures NextLower(rates, rate).Threw? <==> rates == []
    ensures NextLower(rates, rate).Returned? ==> NextLower(rates, rate).value in rates
    ensures (exists i :: 0 <= i < |rates| && rates[i] <= rate) ==>
              var v := NextLower(rates, rate).value;
              v <= rate && forall i :: 0 <= i < |rates| && rates[i] <= rate ==> rates[i] <= v
    ensures rates != [] && (forall i :: 0 <= i < |rates| ==> rates[i] > rate) ==>
              NextLower(rates, rate).value == rates[0]
  {
    if rates != [] {
      var j := FirstAbove(rates, rate, 1);
      if exists i :: 0 <= i < |rates| && rates[i] <= rate {
        var i0 :| 0 <= i0 < |rates| && rates[i0] <= rate;
        assert rates[0] <= rate by {
          if i0 > 0 {
            assert rates[0] < rates[i0];
          }
        }
        forall i | 0 <= i < |rates| && rates[i] <= rate
          ensures rates[i] <= rates[j - 1] && rates[j - 1] <= rate
        {
          if j < |rates| && i >= j {
            assert false;
          }
          if i < j - 1 {
            assert rates[i] < rates[j - 1];
          }
        }
      } else if |rates| > 1 {
        assert rates[1] > rate;
      }
    }
  }

  // ---------------------------------------------------------------------
  // The worker

  /** What the device does while the worker waits for samples: a wait
      that times out, or a completed request carrying the bytes received,
      together with whether the request could be queued again. */
  datatype Arrival = TimedOut | Completed(data: Buffer, requeued: bool)

  /** How the worker loop ended. `Running` means the arrivals ran out
      while it was still going. */
  datatype RunEnd =
    | Running
    | NeverLooped
    | TimedOutTooOften
    | RequeueFailed
    | Crashed(exception: Exception)

  /** The worker's state: the delivery queue, the return pool, the count
      of consecutive timeouts, the device's call log, the buffers the
      completed requests handed over (in order) and how the loop ended. */
  datatype Worker = Worker(queue: seq<Buffer>, pool: seq<Buffer>, timeouts: nat, calls: seq<Call>,
                           taken: seq<Buffer>, end: RunEnd)

  /** One pass of the worker loop on one arrival. A timeout bumps the
      count and ends the loop at the tenth in a row. A completed request
      resets the count, offers its buffer to the queue, takes a buffer from
      the pool (or allocates one of packet size when the pool is empty) and
      queues the request again with it; a failed re-queue ends the loop. */
  function Process(w: Worker, a: Arrival, packetSize: int): Worker
    requires w.end == Running
  {
    match a
    case TimedOut =>
      var count := w.timeouts + 1;
      w.(timeouts := count, calls := w.calls + [SamplesAwaited],
         end := if count == MAX_TIMEOUTS then TimedOutTooOften else Running)
    case Completed(data, requeued) =>
      var served := w.(queue := Offer(w.queue, data), timeouts := 0, calls := w.calls + [SamplesAwaited],
                       taken := w.taken + [data]);
      var ending := if requeued then Running else RequeueFailed;
      if w.pool != [] then
        served.(pool := w.pool[1..], calls := served.calls + [RequestQueued(w.pool[0])], end := ending)
      else if packetSize < 0 then
        served.(end := Crashed(NegativeArraySizeException))
      else
        served.(calls := served.calls + [RequestQueued(Zeros(packetSize))], end := ending)
  }

  /** The worker after the arrivals `t`, from `start`: arrivals after the
      loop has ended change nothing. */
  function Fold(start: Worker, t: seq<Arrival>, packetSize: int): Worker
    decreases |t|
  {
    if t == [] then start
    else
      var w := Fold(start, t[..|t| - 1], packetSize);
      if w.end != Running then w else Process(w, t[|t| - 1], packetSize)
  }

  lemma FoldNext(start: Worker, t: seq<Arrival>, i: nat, packetSize: int)
    requires i < |t| && Fold(start, t[..i], packetSize).end == Running
    ensures Fold(start, t[..i + 1], packetSize) == Process(Fold(start, t[..i], packetSize), t[i], packetSize)
  {
    assert t[..i + 1][..i] == t[..i];
  }

  /** Once the loop has ended, the rest of the arrivals are never looked at. */
  lemma {:induction false} FoldStopped(start: Worker, t: seq<Arrival>, i: nat, packetSize: int)
    requires i <= |t| && Fold(start, t[..i], packetSize).end != Running
    ensures Fold(start, t, packetSize) == Fold(start, t[..i], packetSize)
    decreases |t|
  {
    if i == |t| {
      assert t[..i] == t;
    } else {
      var init := t[..|t| - 1];
      assert init[..i] == t[..i];
      FoldStopped(start, init, i, packetSize);
    }
  }

  /** The number of timeouts at the end of `t`. */
  function Trailing(t: seq<Arrival>): nat
  {
    if t == [] || !t[|t| - 1].TimedOut? then 0 else Trailing(t[..|t| - 1]) + 1
  }

  /** The buffers of the completed requests in `t`, in order. */
  function Payloads(t: seq<Arrival>): seq<Buffer>
  {
    if t == [] then []
    else Payloads(t[..|t| - 1]) + (if t[|t| - 1].Completed? then [t[|t| - 1].data] else [])
  }

  /** A worker at the top of its loop. */
  predicate Fresh(w: Worker)
  {
    w.timeouts == 0 && w.taken == [] && w.end == Running
  }

  /** While the loop runs, its counter is the number of timeouts since the
      last completed request, and that number never reaches ten. */
  lemma {:induction false} FoldCounts(start: Worker, t: seq<Arrival>, packetSize: int)
    requires Fresh(start)
    ensures Fold(start, t, packetSize).end == Running ==>
              Fold(start, t, packetSize).timeouts == Trailing(t) < MAX_TIMEOUTS
    decreases |t|
  {
    if t != [] {
      FoldCounts(start, t[..|t| - 1], packetSize);
    }
  }

  /** A running loop ends on the next timeout exactly when it is the tenth
      in a row. */
  lemma TenthTimeoutEnds(start: Worker, t: seq<Arrival>, packetSize: int)
    requires Fresh(start) && Fold(start, t, packetSize).end == Running
    ensures Fold(start, t + [TimedOut], packetSize).end == TimedOutTooOften <==>
              Trailing(t + [TimedOut]) == MAX_TIMEOUTS
    ensures Fold(start, t + [TimedOut], packetSize).end != TimedOutTooOften ==>
              Fold(start, t + [TimedOut], packetSize).end == Running
  {
    FoldCounts(start, t, packetSize);
    assert (t + [TimedOut])[..|t|] == t;
  }

  /** While the loop runs, the completed requests it has served are exactly
      those of the arrivals, in order. */
  lemma {:induction false} FoldTakes(start: Worker, t: seq<Arrival>, packetSize: int)
    requires Fresh(start)
    ensures Fold(start, t, packetSize).end == Running ==> Fold(start, t, packetSize).taken == Payloads(t)
    decreases |t|
  {
    if t != [] {
      FoldTakes(start, t[..|t| - 1], packetSize);
    }
  }

  function Min(a: int, b: int): int
  {
    if a <= b then a else b
  }

  /** The queue keeps the handed-over buffers that fit and drops the rest,
      so it never holds more than 1024; the pool gives up one buffer per
      completed request until it runs dry. */
  lemma {:induction false} FoldQueues(start: Worker, t: seq<Arrival>, packetSize: int)
    requires Fresh(start) && |start.queue| <= QUEUE_SIZE
    ensures var w := Fold(start, t, packetSize);
            w.queue == (start.queue + w.taken)[..Min(QUEUE_SIZE, |start.queue| + |w.taken|)] &&
            w.pool == start.pool[Min(|start.pool|, |w.taken|)..]
    decreases |t|
  {
    if t != [] {
      var w := Fold(start, t[..|t| - 1], packetSize);
      FoldQueues(start, t[..|t| - 1], packetSize);
      if w.end == Running && t[|t| - 1].Completed? {
        var data := t[|t| - 1].data;
        assert start.queue + (w.taken + [data]) == (start.queue + w.taken) + [data];
      }
    }
  }

  /** A buffer the worker queues a request with comes from the pool, or is
      freshly allocated at packet size. */
  predicate FromPoolOrNew(b: Buffer, pool: seq<Buffer>, packetSize: int)
  {
    b in pool || (packetSize >= 0 && b == Zeros(packetSize))
  }

  lemma {:induction false} FoldRequeues(start: Worker, t: seq<Arrival>, packetSize: int)
    ensures var w := Fold(start, t, packetSize);
            start.calls <= w.calls &&
            (forall b :: b in w.pool ==> b in start.pool) &&
            forall j :: |start.calls| <= j < |w.calls| && w.calls[j].RequestQueued? ==>
              FromPoolOrNew(w.calls[j].buffer, start.pool, packetSize)
    decreases |t|
  {
    if t != [] {
      var w := Fold(start, t[..|t| - 1], packetSize);
      FoldRequeues(start, t[..|t| - 1], packetSize);
      if w.end == Running && t[|t| - 1].Completed? && w.pool != [] {
        assert w.pool[0] in start.pool;
        forall b | b in w.pool[1..] ensures b in start.pool {
          assert b in w.pool;
        }
      }
    }
  }

  // ---------------------------------------------------------------------
  // The source

  class Source {
    var sampleRate: i32
    var frequency: i64
    var agc: bool
    var gain: i32
    const converter: IqConverter.Converter
    var queue: seq<Buffer>
    var pool: seq<Buffer>
    var device: Device?
    var isSampling: bool

    /** Sampling needs a device, and the queue and pool stay within their
        capacity. */
    ghost predicate Valid()
      reads this
    {
      (isSampling ==> device != null) && |queue| <= QUEUE_SIZE && |pool| <= QUEUE_SIZE
    }

    constructor (converter: IqConverter.Converter)
      ensures Valid() && this.converter == converter
      ensures sampleRate == 0 && frequency == 0 && agc && gain == UNSET_GAIN
      ensures queue == [] && pool == [] && device == null && !isSampling
    {
      this.converter := converter;
      sampleRate := 0;
      frequency := 0;
      agc := true;
      gain := UNSET_GAIN;
      queue := [];
      pool := [];
      device := null;
      isSampling := false;
    }

    /** `open`: fresh, empty queue and pool, and the device that is being
        opened; `answer` is what the device's own `open` answers. */
    method Open(d: Device, answer: bool) returns (ok: bool)
      requires Valid()
      modifies this
      ensures Valid() && ok == answer
      ensures queue == [] && pool == [] && device == d
      ensures sampleRate == old(sampleRate) && frequency == old(frequency)
      ensures agc == old(agc) && gain == old(gain) && isSampling == old(isSampling)
    {
      queue := [];
      pool := [];
      device := d;
      ok := answer;
    }

    /** The callback the device calls once it is open. On success, every
        setting still at its initial value is read from the device. */
    method OnOpened(error: bool) returns (c: Completion)
      requires Valid()
      modifies this
      ensures Valid() && device == old(device) && queue == old(queue) && pool == old(pool)
      ensures isSampling == old(isSampling)
      ensures c.Raised? <==>
                !error && device == null &&
                (old(sampleRate) == 0 || old(frequency) == 0 || old(gain) == UNSET_GAIN)
      ensures c.Raised? ==> c.exception == NullPointerException && unchanged(this)
      ensures c.Normal? ==>
                sampleRate == (if !error && old(sampleRate) == 0 then device.reportedRate else old(sampleRate)) &&
                frequency == (if !error && old(frequency) == 0 then device.reportedFrequency else old(frequency)) &&
                (if !error && old(gain) == UNSET_GAIN
                 then agc == !device.reportedManualGain && gain == device.reportedGain
                 else agc == old(agc) && gain == old(gain))
    {
      if error {
        return Normal;
      }
      if device == null {
        if sampleRate == 0 || frequency == 0 || gain == UNSET_GAIN {
          return Raised(NullPointerException);
        }
        return Normal;
      }
      if sampleRate == 0 {
        sampleRate := device.reportedRate;
      }
      if frequency == 0 {
        frequency := device.reportedFrequency;
      }
      if gain == UNSET_GAIN {
        agc := !device.reportedManualGain;
        gain := device.reportedGain;
      }
      return Normal;
    }

    predicate IsOpen()
      reads this
    {
      device != null
    }

    /** `setSampleRate`: a new rate is stored and given to the converter,
        and to the device only while sampling; the same rate changes
        nothing. */
    method SetSampleRate(rate: i32)
      modifies this, device, converter
      ensures device == old(device)
      ensures rate == old(sampleRate) ==>
                unchanged(this, converter) && (device != null ==> device.log == old(device.log))
      ensures rate != old(sampleRate) ==>
                sampleRate == rate && converter.sampleRate == rate &&
                converter.frequency == old(converter.frequency) &&
                (device != null ==> device.log == old(device.log) + (if isSampling then [RateSet(rate)] else []))
      ensures frequency == old(frequency) && agc == old(agc) && gain == old(gain)
      ensures queue == old(queue) && pool == old(pool) && isSampling == old(isSampling)
      ensures converter.lookupTable == old(converter.lookupTable)
      ensures converter.cosineReal == old(converter.cosineReal) && converter.cosineImag == old(converter.cosineImag)
      ensures converter.cosineIndex == old(converter.cosineIndex)
      ensures converter.cosineFrequency == old(converter.cosineFrequency)
      ensures converter.cosineRate == old(converter.cosineRate)
    {
      if rate != sampleRate {
        sampleRate := rate;
        if device != null && isSampling {
          device.SetSampleRate(rate);
        }
        converter.SetSampleRate(rate);
      }
    }

    /** `setFrequency`: the rounded frequency, when new, is stored and given
        to the device (silently) and to the converter. */
    method SetFrequency(f: i64)
      modifies this, device, converter
      ensures device == old(device)
      ensures var g := RoundedFrequency(f);
              (g == old(frequency) ==>
                 unchanged(this, converter) && (device != null ==> device.log == old(device.log))) &&
              (g != old(frequency) ==>
                 frequency == g && converter.frequency == g &&
                 converter.sampleRate == old(converter.sampleRate) &&
                 (device != null ==> device.log == old(device.log) + [FrequencySet(g, true)]))
      ensures sampleRate == old(sampleRate) && agc == old(agc) && gain == old(gain)
      ensures queue == old(queue) && pool == old(pool) && isSampling == old(isSampling)
      ensures converter.lookupTable == old(converter.lookupTable)
      ensures converter.cosineReal == old(converter.cosineReal) && converter.cosineImag == old(converter.cosineImag)
      ensures converter.cosineIndex == old(converter.cosineIndex)
      ensures converter.cosineFrequency == old(converter.cosineFrequency)
      ensures converter.cosineRate == old(converter.cosineRate)
    {
      var g := f;
      if JavaRem(g, 2) == 1 {
        g := ToI64(g as int + 1);
      }
      if g != frequency {
        frequency := g;
        if device != null {
          device.SetFrequency(g, true);
        }
        converter.SetFrequency(g);
      }
    }

    /** `setGain`: a new gain is stored and given to the device. */
    method SetGain(g: i32)
      modifies this, device
      ensures device == old(device)
      ensures g == old(gain) ==> unchanged(this) && (device != null ==> device.log == old(device.log))
      ensures g != old(gain) ==>
                gain == g && (device != null ==> device.log == old(device.log) + [GainSet(g)])
      ensures sampleRate == old(sampleRate) && frequency == old(frequency) && agc == old(agc)
      ensures queue == old(queue) && pool == old(pool) && isSampling == old(isSampling)
    {
      if g != gain {
        gain := g;
        if device != null {
          device.SetGain(g);
        }
      }
    }

    /** `setAGC`: a new mode is stored and given to the device as manual
        gain being its opposite. */
    method SetAgc(on: bool)
      modifies this, device
      ensures device == old(device)
      ensures on == old(agc) ==> unchanged(this) && (device != null ==> device.log == old(device.log))
      ensures on != old(agc) ==>
                agc == on && (device != null ==> device.log == old(device.log) + [ManualGainSet(!on)])
      ensures sampleRate == old(sampleRate) && frequency == old(frequency) && gain == old(gain)
      ensures queue == old(queue) && pool == old(pool) && isSampling == old(isSampling)
    {
      if on != agc {
        agc := on;
        if device != null {
          device.SetManualGain(!on);
        }
      }
    }

    /** `getNextHigherOptimalSampleRate`: without a device the rate itself;
        with one, the first supported rate above it, else the last. */
    method NextHigherOptimalSampleRate(rate: i32) returns (r: Result<i32>)
      ensures device == null ==> r == Returned(rate)
      ensures device != null ==> r == NextHigher(device.supportedRates, rate)
    {
      if device == null {
        return Returned(rate);
      }
      var rates := device.supportedRates;
      for k := 0 to |rates|
        invariant forall i :: 0 <= i < k ==> rates[i] <= rate
      {
        if rates[k] > rate {
          return Returned(rates[k]);
        }
      }
      if |rates| == 0 {
        return Threw(ArrayIndexOutOfBoundsException);
      }
      return Returned(rates[|rates| - 1]);
    }

    /** `getNextLowerOptimalSampleRate`: without a device the rate itself;
        with one, the supported rate before the first one above it (looking
        from the second), else the last. */
    method NextLowerOptimalSampleRate(rate: i32) returns (r: Result<i32>)
      ensures device == null ==> r == Returned(rate)
      ensures device != null ==> r == NextLower(device.supportedRates, rate)
    {
      if device == null {
        return Returned(rate);
      }
      var rates := device.supportedRates;
      var k := 1;
      while k < |rates|
        invariant k == 1 || k <= |rates|
        invariant forall i :: 1 <= i < k ==> rates[i] <= rate
      {
        if rates[k] > rate {
          return Returned(rates[k - 1]);
        }
        k := k + 1;
      }
      if |rates| == 0 {
        return Threw(ArrayIndexOutOfBoundsException);
      }
      return Returned(rates[|rates| - 1]);
    }

    /** `getPacket`: the oldest packet in the queue, if any. */
    method GetPacket() returns (r: Option<Buffer>)
      requires Valid()
      modifies this
      ensures Valid()
      ensures old(queue) == [] ==> r == None && queue == []
      ensures old(queue) != [] ==> r == Some(old(queue)[0]) && queue == old(queue)[1..]
      ensures sampleRate == old(sampleRate) && frequency == old(frequency) && agc == old(agc)
      ensures gain == old(gain) && pool == old(pool) && device == old(device) && isSampling == old(isSampling)
    {
      if queue == [] {
        return None;
      }
      r := Some(queue[0]);
      queue := queue[1..];
    }

    /** `returnPacket`: a buffer of the device's packet size goes back into
        the pool unless the pool is full; any other buffer is turned away. */
    method ReturnPacket(buffer: Buffer) returns (c: Completion)
      requires Valid()
      modifies this
      ensures Valid()
      ensures c.Raised? <==> old(device) == null
      ensures c.Raised? ==> c.exception == NullPointerException
      ensures pool == (if device != null && |buffer| == device.packetSize as int
                       then Offer(old(pool), buffer) else old(pool))
      ensures sampleRate == old(sampleRate) && frequency == old(frequency) && agc == old(agc)
      ensures gain == old(gain) && queue == old(queue) && device == old(device) && isSampling == old(isSampling)
    {
      if device == null {
        return Raised(NullPointerException);
      }
      if |buffer| == device.packetSize as int {
        pool := Offer(pool, buffer);
      }
      return Normal;
    }

    /** `startSampling`: the queue is emptied; with a device, the settings
        are written to it, reception is enabled and sampling begins. The
        worker that then runs is `Run`. */
    method StartSampling()
      requires Valid()
      modifies this, device
      ensures Valid() && queue == [] && device == old(device)
      ensures isSampling == (device != null || old(isSampling))
      ensures device != null ==>
                device.log == old(device.log) +
                  [FrequencySet(frequency, false), RateSet(sampleRate), ManualGainSet(!agc), GainSet(gain), RxEnabled]
      ensures sampleRate == old(sampleRate) && frequency == old(frequency) && agc == old(agc)
      ensures gain == old(gain) && pool == old(pool)
    {
      queue := [];
      if device == null {
        return;
      }
      device.SetFrequency(frequency, false);
      device.SetSampleRate(sampleRate);
      device.SetManualGain(!agc);
      device.SetGain(gain);
      device.EnableRx();
      isSampling := true;
    }

    /** `stopSampling`: nothing when not sampling; otherwise reception is
        disabled and sampling ends. */
    method StopSampling()
      requires Valid()
      modifies this, device
      ensures Valid() && !isSampling && device == old(device)
      ensures !old(isSampling) ==> unchanged(this) && (device != null ==> device.log == old(device.log))
      ensures old(isSampling) ==> device.log == old(device.log) + [RxDisabled]
      ensures sampleRate == old(sampleRate) && frequency == old(frequency) && agc == old(agc)
      ensures gain == old(gain) && queue == old(queue) && pool == old(pool)
    {
      if !isSampling {
        return;
      }
      device.DisableRx();
      isSampling := false;
    }

    /** `close`: sampling stops and the device is closed and dropped. */
    method Close() returns (r: Result<bool>)
      requires Valid()
      modifies this, device
      ensures Valid() && !isSampling
      ensures r.Threw? <==> old(device) == null
      ensures r.Threw? ==> r.exception == NullPointerException
      ensures r.Returned? ==>
                r.value && device == null &&
                old(device).log == old(device.log) + (if old(isSampling) then [RxDisabled] else []) + [Closed]
      ensures sampleRate == old(sampleRate) && frequency == old(frequency) && agc == old(agc)
      ensures gain == old(gain) && queue == old(queue) && pool == old(pool)
    {
      StopSampling();
      if device == null {
        return Threw(NullPointerException);
      }
      device.Close();
      device := null;
      return Returned(true);
    }

    /** One pass of the worker loop on one arrival, as `Process` states it. */
    method Serve(a: Arrival, timeouts: nat, ghost taken: seq<Buffer>) returns (count: nat, end: RunEnd)
      requires device != null
      modifies this, device
      ensures device == old(device)
      ensures var w := Process(Worker(old(queue), old(pool), timeouts, old(device.log), taken, Running),
                               a, device.packetSize as int);
              queue == w.queue && pool == w.pool && count == w.timeouts && device.log == w.calls && end == w.end
      ensures sampleRate == old(sampleRate) && frequency == old(frequency) && agc == old(agc)
      ensures gain == old(gain) && isSampling == old(isSampling)
    {
      device.AwaitSamples();
      match a
      case TimedOut =>
        count := timeouts + 1;
        end := if count == MAX_TIMEOUTS then TimedOutTooOften else Running;
      case Completed(data, requeued) =>
        count := 0;
        queue := Offer(queue, data);
        var buffer;
        if pool != [] {
          buffer := pool[0];
          pool := pool[1..];
        } else if device.packetSize < 0 {
          return 0, Crashed(NegativeArraySizeException);
        } else {
          buffer := Zeros(device.packetSize as int);
        }
        device.QueueRequest(buffer);
        end := if requeued then Running else RequeueFailed;
    }

    /** `run`, the worker: set up the requests (none set up ends sampling),
        serve arrivals while sampling, and cancel the requests once the
        loop has ended. */
    method Run(trace: seq<Arrival>) returns (end: RunEnd)
      requires Valid() && device != null
      modifies this, device
      ensures Valid() && device == old(device)
      ensures var n := device.requestCount(old(device.log));
              var looping := n > 0 && old(isSampling);
              var w := Fold(Worker(old(queue), old(pool), 0, old(device.log) + [RequestsInitialized], [], Running),
                            trace, device.packetSize as int);
              isSampling == looping &&
              (!looping ==>
                 end == NeverLooped && queue == old(queue) && pool == old(pool) &&
                 device.log == old(device.log) + [RequestsInitialized, RequestsCancelled(n)]) &&
              (looping ==>
                 end == w.end && queue == w.queue && pool == w.pool &&
                 device.log == w.calls + (if end == Running then [] else [RequestsCancelled(n)]))
      ensures sampleRate == old(sampleRate) && frequency == old(frequency) && agc == old(agc)
      ensures gain == old(gain)
    {
      var n := device.InitializeRequests();
      if n == 0 {
        isSampling := false;
      }
      if !isSampling {
        device.CancelRequests(n);
        return NeverLooped;
      }
      ghost var packetSize := device.packetSize as int;
      ghost var start := Worker(queue, pool, 0, device.log, [], Running);
      ghost var taken: seq<Buffer> := [];
      var timeouts: nat := 0;
      var i := 0;
      end := Running;
      while end == Running && i < |trace|
        invariant 0 <= i <= |trace|
        invariant device == old(device) && isSampling
        invariant sampleRate == old(sampleRate) && frequency == old(frequency) && agc == old(agc)
        invariant gain == old(gain)
        invariant Fold(start, trace[..i], packetSize) == Worker(queue, pool, timeouts, device.log, taken, end)
      {
        ghost var w := Fold(start, trace[..i], packetSize);
        timeouts, end := Serve(trace[i], timeouts, taken);
        taken := Process(w, trace[i], packetSize).taken;
        FoldNext(start, trace, i, packetSize);
        i := i + 1;
      }
      if end != Running {
        FoldStopped(start, trace, i, packetSize);
        device.CancelRequests(n);
      } else {
        assert trace[..i] == trace;
      }
      FoldQueues(start, trace, packetSize);
      FoldRequeues(start, trace, packetSize);
    }
  }
}
