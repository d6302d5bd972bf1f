/** The Android USB connection as the driver sees it. Every call is
    recorded in the connection's `log`; what the device answers is an
    oracle, a fixed function of the calls made before it. */
module Usb {
  import opened JavaTypes

  /** One call into the USB stack. */
  datatype Event =
    | BulkOut(data: seq<i8>, timeout: int)
    | BulkIn(length: int, timeout: int)
    | ControlIn(request: int, value: int, length: int, timeout: int)
    | ReleaseInterface
    | CloseConnection
    | RequestInitialize(slot: int)
    | RequestQueue(slot: int, size: int)
    | RequestCancel(slot: int)

  /** What a transfer reports: a negative status on failure, otherwise the
      byte count; for an inbound transfer also the bytes the device sent. */
  datatype Transfer = Transfer(status: int, data: seq<i8>)

  /** A value computed by a sequence of calls, with the log they leave. */
  datatype Step<T> = Step(value: T, log: seq<Event>)

  /** The buffer after the device's bytes have been written over its start. */
  function Overlay(buffer: seq<i8>, data: seq<i8>): seq<i8>
  {
    if |data| < |buffer| then data + buffer[|data|..] else data[..|buffer|]
  }

  /** Each byte of the overlaid buffer comes from the device where it sent
      one, and from the old buffer elsewhere. */
  lemma OverlayAt(buffer: seq<i8>, data: seq<i8>, i: int)
    requires 0 <= i < |buffer|
    ensures |Overlay(buffer, data)| == |buffer|
    ensures Overlay(buffer, data)[i] == if i < |data| then data[i] else buffer[i]
  {
  }

  /** The outbound bulk transfers of a log, in order. */
  function Sent(log: seq<Event>): (r: seq<Event>)
    ensures |r| <= |log|
  {
    if log == [] then []
    else Sent(log[..|log| - 1]) + (if log[|log| - 1].BulkOut? then [log[|log| - 1]] else [])
  }

  lemma {:induction false} SentAppend(a: seq<Event>, b: seq<Event>)
    ensures Sent(a + b) == Sent(a) + Sent(b)
    decreases |b|
  {
    if b == [] {
      assert a + b == a;
    } else {
      var b' := b[..|b| - 1];
      assert (a + b)[..|a + b| - 1] == a + b';
      SentAppend(a, b');
      assert Sent(b) == Sent(b') + (if b[|b| - 1].BulkOut? then [b[|b| - 1]] else []) by {
        assert b[..|b| - 1] == b';
      }
    }
  }

  /** Events other than outbound bulk transfers add nothing to `Sent`. */
  lemma {:induction false} SentSkips(h: seq<Event>, extra: seq<Event>)
    requires forall i :: 0 <= i < |extra| ==> !extra[i].BulkOut?
    ensures Sent(h + extra) == Sent(h)
    decreases |extra|
  {
    if extra == [] {
      assert h + extra == h;
    } else {
      var init := extra[..|extra| - 1];
      SentSkips(h, init);
      assert (h + extra)[..|h + extra| - 1] == h + init;
    }
  }

  /** Extending a log extends the bulk transfers it sent. */
  lemma SentPrefix(a: seq<Event>, b: seq<Event>)
    requires a <= b
    ensures Sent(a) <= Sent(b)
  {
    assert b == a + b[|a|..];
    SentAppend(a, b[|a|..]);
  }

  lemma PrefixTrans<T>(a: seq<T>, b: seq<T>, c: seq<T>)
    requires a <= b && b <= c
    ensures a <= c
  {
    assert c[..|a|] == b[..|a|];
  }

  /** `n` copies of `e`. */
  function Repeat(e: Event, n: nat): (r: seq<Event>)
    ensures |r| == n && forall i :: 0 <= i < n ==> r[i] == e
  {
    if n == 0 then [] else Repeat(e, n - 1) + [e]
  }

  class Connection {
    const bulkOutStatus: seq<Event> -> int
    const bulkInReply: seq<Event> -> Transfer
    const controlReply: seq<Event> -> Transfer
    const requestInitializes: seq<Event> -> bool
    const requestQueues: seq<Event> -> bool
    var log: seq<Event>

    constructor (bulkOutStatus: seq<Event> -> int, bulkInReply: seq<Event> -> Transfer,
                 controlReply: seq<Event> -> Transfer, requestInitializes: seq<Event> -> bool,
                 requestQueues: seq<Event> -> bool)
      ensures this.bulkOutStatus == bulkOutStatus && this.bulkInReply == bulkInReply
      ensures this.controlReply == controlReply
      ensures this.requestInitializes == requestInitializes && this.requestQueues == requestQueues
      ensures log == []
    {
      this.bulkOutStatus := bulkOutStatus;
      this.bulkInReply := bulkInReply;
      this.controlReply := controlReply;
      this.requestInitializes := requestInitializes;
      this.requestQueues := requestQueues;
      log := [];
    }

    /** `bulkTransfer` towards the device: the buffer's bytes go out. */
    method BulkTransferOut(buffer: array<i8>, timeout: int) returns (status: int)
      modifies this
      ensures log == old(log) + [BulkOut(buffer[..], timeout)]
      ensures status == bulkOutStatus(old(log))
    {
      status := bulkOutStatus(log);
      log := log + [BulkOut(buffer[..], timeout)];
    }

    /** `bulkTransfer` from the device: on success its bytes overwrite the
        start of the buffer. */
    method BulkTransferIn(buffer: array<i8>, timeout: int) returns (status: int)
      modifies this, buffer
      ensures log == old(log) + [BulkIn(buffer.Length, timeout)]
      ensures status == bulkInReply(old(log)).status
      ensures buffer[..] == if status < 0 then old(buffer[..])
                            else Overlay(old(buffer[..]), bulkInReply(old(log)).data)
    {
      var reply := bulkInReply(log);
      log := log + [BulkIn(buffer.Length, timeout)];
      status := reply.status;
      if status >= 0 {
        Fill(buffer, reply.data);
      }
    }

    /** A vendor `controlTransfer` from the device into the buffer. */
    method ControlTransferIn(request: int, value: int, buffer: array<i8>, timeout: int)
      returns (status: int)
      modifies this, buffer
      ensures log == old(log) + [ControlIn(request, value, buffer.Length, timeout)]
      ensures status == controlReply(old(log)).status
      ensures buffer[..] == if status < 0 then old(buffer[..])
                            else Overlay(old(buffer[..]), controlReply(old(log)).data)
    {
      var reply := controlReply(log);
      log := log + [ControlIn(request, value, buffer.Length, timeout)];
      status := reply.status;
      if status >= 0 {
        Fill(buffer, reply.data);
      }
    }

    method Release()
      modifies this
      ensures log == old(log) + [ReleaseInterface]
    {
      log := log + [ReleaseInterface];
    }

    method Close()
      modifies this
      ensures log == old(log) + [CloseConnection]
    {
      log := log + [CloseConnection];
    }

    /** `UsbRequest.initialize` of the request in the given slot. */
    method InitializeRequest(slot: int) returns (ok: bool)
      modifies this
      ensures log == old(log) + [RequestInitialize(slot)]
      ensures ok == requestInitializes(old(log))
    {
      ok := requestInitializes(log);
      log := log + [RequestInitialize(slot)];
    }

    /** `UsbRequest.queue` of a buffer of the given size. */
    method QueueRequest(slot: int, size: int) returns (ok: bool)
      modifies this
      ensures log == old(log) + [RequestQueue(slot, size)]
      ensures ok == requestQueues(old(log))
    {
      ok := requestQueues(log);
      log := log + [RequestQueue(slot, size)];
    }

    /** `UsbRequest.cancel`. */
    method CancelRequest(slot: int)
      modifies this
      ensures log == old(log) + [RequestCancel(slot)]
    {
      log := log + [RequestCancel(slot)];
    }
  }

  /** Writes `data` over the start of `buffer`. */
  method Fill(buffer: array<i8>, data: seq<i8>)
    modifies buffer
    ensures buffer[..] == Overlay(old(buffer[..]), data)
  {
    forall i | 0 <= i < buffer.Length && i < |data| {
      buffer[i] := data[i];
    }
    forall i | 0 <= i < buffer.Length
      ensures buffer[i] == Overlay(old(buffer[..]), data)[i]
    {
      OverlayAt(old(buffer[..]), data, i);
    }
  }
}
