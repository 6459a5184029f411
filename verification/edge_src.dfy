/**
 The subscribing element (edgesrc). The transport's event callback pushes
 each received edge data item onto the element's message queue; the
 pipeline's `create` call pops one item per call and turns its segments
 into the memories of a new buffer. Around that path: `start` sets up the
 transport handle, finalize drains the queue, `get_times` chooses the
 buffer's timestamps, and the host/port/connect-type properties.
 */
module EdgeSrcElement {
  import opened EdgeCommon
  import opened Transport
  import Decimal

  /** The `GstFlowReturn` values `create` can give. */
  datatype FlowReturn = FlowOk | FlowError

  /** One edge data item: its memory segments, in index order. */
  datatype EdgeData = EdgeData(segments: seq<Segment>)

  datatype EventKind = NewDataReceived | OtherEvent

  /**
   A transport event: the result of asking its type, its type, and the
   data item it carries when it is a new-data event.
   */
  datatype Event = Event(typeRc: Status, kind: EventKind, payload: EdgeData)

  /** A wrapped memory: `size` bytes of `data` starting at `offset`. */
  datatype Memory = Memory(data: seq<Byte>, offset: nat, size: nat)

  /** The bytes a memory exposes. */
  function Bytes(m: Memory): seq<Byte> {
    if m.offset + m.size <= |m.data| then m.data[m.offset..m.offset + m.size] else []
  }

  datatype Buffer = Buffer(memories: seq<Memory>)

  /** A private copy of a segment, wrapped whole (offset 0, size its length). */
  function WrapCopy(seg: Segment): (m: Memory)
    ensures m.size == |seg| && Bytes(m) == seg
  {
    Memory(seg, 0, |seg|)
  }

  /** One wrapped copy per segment, in index order. */
  function Wrapped(segs: seq<Segment>): seq<Memory>
  {
    seq(|segs|, i requires 0 <= i < |segs| => WrapCopy(segs[i]))
  }

  /** The size of a buffer: the sum of the sizes of its memories. */
  function TotalSize(ms: seq<Memory>): nat {
    if ms == [] then 0 else TotalSize(ms[..|ms| - 1]) + ms[|ms| - 1].size
  }

  /** The sum of the lengths of the segments. */
  function SegmentsLength(segs: seq<Segment>): nat {
    if segs == [] then 0 else SegmentsLength(segs[..|segs| - 1]) + |segs[|segs| - 1]|
  }

  /** Copying the segments keeps their total length. */
  lemma {:induction false} WrappedSize(segs: seq<Segment>)
    ensures TotalSize(Wrapped(segs)) == SegmentsLength(segs)
    decreases |segs|
  {
    if segs != [] {
      var n := |segs|;
      assert Wrapped(segs)[..n - 1] == Wrapped(segs[..n - 1]);
      WrappedSize(segs[..n - 1]);
    }
  }

  /**
   The buffer `create` makes of a popped item, or `None` when it makes
   none: the segment-count query failed or the item has no segments.
   */
  function Produce(d: EdgeData, countRc: Status): (r: Option<Buffer>)
    ensures r.Some? <==> countRc == ErrorNone && |d.segments| > 0
    ensures r.Some? ==> |r.value.memories| == |d.segments|
    ensures r.Some? ==> forall i :: 0 <= i < |d.segments| ==>
      r.value.memories[i].size == |d.segments[i]| && Bytes(r.value.memories[i]) == d.segments[i]
  {
    if countRc == ErrorNone && |d.segments| > 0 then Some(Buffer(Wrapped(d.segments))) else None
  }

  /** A produced buffer is as large as all segments of its item together. */
  lemma ProducedSize(d: EdgeData)
    requires |d.segments| > 0
    ensures Produce(d, ErrorNone).Some?
    ensures TotalSize(Produce(d, ErrorNone).value.memories) == SegmentsLength(d.segments)
  {
    WrappedSize(d.segments);
  }

  /**
   An item of two segments of 4 and 8 bytes gives a buffer of 12 bytes made
   of exactly those two segments, in order.
   */
  lemma TwoSegmentFrame(a: Segment, b: Segment)
    requires |a| == 4 && |b| == 8
    ensures var r := Produce(EdgeData([a, b]), ErrorNone);
      && r.Some? && |r.value.memories| == 2
      && Bytes(r.value.memories[0]) == a && Bytes(r.value.memories[1]) == b
      && TotalSize(r.value.memories) == 12
  {
    ProducedSize(EdgeData([a, b]));
    assert [a, b][..1] == [a] && [a][..0] == [];
    assert SegmentsLength([a]) == 4;
  }

  /** `GST_CLOCK_TIME_NONE`: all 64 bits set. */
  const CLOCK_TIME_NONE: uint64 := 0xFFFF_FFFF_FFFF_FFFF

  predicate IsValidTime(t: uint64) {
    t != CLOCK_TIME_NONE
  }

  /** Unsigned 64-bit addition of clock times, wrapping around. */
  function ClockAdd(a: uint64, b: uint64): uint64 {
    ((a as int + b as int) % 0x1_0000_0000_0000_0000) as uint64
  }

  /** What `get_times` writes: `None` for an out-parameter it leaves alone. */
  datatype Times = Times(start: Option<uint64>, end: Option<uint64>)

  /**
   The timestamps of a buffer: the sync time is the DTS when valid, else
   the PTS; a valid sync time is the start, and the end is start plus
   duration when the duration is valid too.
   */
  function GetTimes(dts: uint64, pts: uint64, duration: uint64): (t: Times)
    ensures t.start.Some? <==> IsValidTime(dts) || IsValidTime(pts)
    ensures IsValidTime(dts) ==> t.start == Some(dts)
    ensures !IsValidTime(dts) && IsValidTime(pts) ==> t.start == Some(pts)
    ensures t.end.Some? <==> t.start.Some? && IsValidTime(duration)
    ensures t.end.Some? ==>
      t.end.value as int == (t.start.value as int + duration as int) % 0x1_0000_0000_0000_0000
    ensures t.end.Some? && t.start.value as int + duration as int <= CLOCK_TIME_NONE as int ==>
      t.end.value as int == t.start.value as int + duration as int
  {
    var syncTs := if IsValidTime(dts) then dts else pts;
    if IsValidTime(syncTs) then
      Times(Some(syncTs), if IsValidTime(duration) then Some(ClockAdd(syncTs, duration)) else None)
    else
      Times(None, None)
  }

  class EdgeSrc {
    var host: Option<string>
    var port: uint16
    var connectType: ConnectType
    /** The message queue; `None` once finalize has released it. */
    var msgQueue: Option<seq<EdgeData>>
    var edgeH: Option<Handle>

    /** Every item the queue has accepted, in arrival order. */
    ghost var enqueued: seq<EdgeData>
    /** Every item destroyed after leaving the queue, in order. */
    ghost var destroyed: seq<EdgeData>
    /** Every handle released, in order. */
    ghost var released: seq<Handle>

    function QueueContents(): seq<EdgeData>
      reads this
    {
      if msgQueue.Some? then msgQueue.value else []
    }

    /**
     Each accepted item is either still queued or has been destroyed, once,
     and the queue keeps arrival order.
     */
    ghost predicate Valid()
      reads this
    {
      enqueued == destroyed + QueueContents()
    }

    /** A new element: default properties, an empty queue, no handle. */
    constructor (defaultHost: string, defaultPort: uint16, defaultConnectType: ConnectType)
      ensures Valid()
      ensures host == Some(defaultHost) && port == defaultPort && connectType == defaultConnectType
      ensures msgQueue == Some([]) && edgeH == None
      ensures enqueued == [] && destroyed == [] && released == []
    {
      host := Some(defaultHost);
      port := defaultPort;
      msgQueue := Some([]);
      connectType := defaultConnectType;
      edgeH := None;
      enqueued, destroyed, released := [], [], [];
    }

    /** `g_async_queue_push`: appends at the back; a released queue takes nothing. */
    method Push(d: EdgeData)
      requires Valid()
      modifies this`msgQueue, this`enqueued
      ensures Valid()
      ensures old(msgQueue).Some? ==> msgQueue == Some(old(msgQueue).value + [d]) && enqueued == old(enqueued) + [d]
      ensures old(msgQueue).None? ==> msgQueue.None? && enqueued == old(enqueued)
    {
      if msgQueue.Some? {
        msgQueue := Some(msgQueue.value + [d]);
        enqueued := enqueued + [d];
      }
    }

    /**
     The transport's event callback. A new-data event queues exactly its
     item at the back; any other event changes nothing; both return
     `ErrorNone`. When the event type cannot be read, the callback returns
     `ErrorUnknown` and changes nothing.
     */
    method EventCallback(ev: Event) returns (ret: Status)
      requires Valid()
      modifies this`msgQueue, this`enqueued
      ensures Valid()
      ensures ret == if ev.typeRc == ErrorNone then ErrorNone else ErrorUnknown
      ensures var pushed := ev.typeRc == ErrorNone && ev.kind == NewDataReceived && old(msgQueue).Some?;
        && msgQueue == (if pushed then Some(old(msgQueue).value + [ev.payload]) else old(msgQueue))
        && enqueued == old(enqueued) + (if pushed then [ev.payload] else [])
    {
      if ev.typeRc != ErrorNone {
        return ErrorUnknown;
      }
      ret := ErrorNone;
      match ev.kind
      case NewDataReceived =>
        var data := ev.payload;
        Push(data);
      case OtherEvent =>
    }

    /**
     The pipeline's `create`: pops one item and, when its segment count can
     be read and is not zero, builds a buffer with one copied memory per
     segment in index order. The popped item is destroyed on every path.
     `outBuf` is `None` exactly when the call fails and writes no buffer.
     */
    method Create(countRc: Status) returns (flow: FlowReturn, outBuf: Option<Buffer>)
      requires Valid()
      requires msgQueue != Some([])
      modifies this`msgQueue, this`destroyed
      ensures Valid()
      ensures flow == FlowOk <==> outBuf.Some?
      ensures old(msgQueue).None? ==>
        && flow == FlowError && msgQueue.None? && destroyed == old(destroyed)
      ensures old(msgQueue).Some? ==>
        && msgQueue == Some(old(msgQueue).value[1..])
        && destroyed == old(destroyed) + [old(msgQueue).value[0]]
        && outBuf == Produce(old(msgQueue).value[0], countRc)
    {
      // g_async_queue_pop: the head, or NULL from a released queue
      var dataH: Option<EdgeData> := None;
      if msgQueue.Some? {
        dataH := Some(msgQueue.value[0]);
        msgQueue := Some(msgQueue.value[1..]);
      }
      var buffer: Option<Buffer> := None;
      if dataH.Some? {
        var segs := dataH.value.segments;
        if countRc == ErrorNone && |segs| != 0 {
          var memories: seq<Memory> := [];
          var i := 0;
          while i < |segs|
            invariant 0 <= i <= |segs|
            invariant |memories| == i
            invariant forall k :: 0 <= k < i ==> memories[k] == WrapCopy(segs[k])
          {
            memories := memories + [WrapCopy(segs[i])];
            i := i + 1;
          }
          assert memories == Wrapped(segs);
          buffer := Some(Buffer(memories));
        }
        destroyed := destroyed + [dataH.value];
      }
      if buffer.None? {
        return FlowError, None;
      }
      return FlowOk, buffer;
    }

    /**
     The pipeline's `start`. A failed handle creation releases whatever
     handle the element held and fails with no handle. Otherwise the new
     receiving handle gets DEST_HOST and DEST_PORT (the port in decimal),
     the event callback, then `start` and, only if that succeeded,
     `connect`; the call succeeds exactly when both do. A failed start or
     connect keeps the handle.
     */
    method Start(createRc: Status, startRc: Status, connectRc: Status) returns (ok: bool)
      modifies this`edgeH, this`released
      ensures ok <==> createRc == ErrorNone && startRc == ErrorNone && connectRc == ErrorNone
      ensures createRc != ErrorNone ==>
        && edgeH.None?
        && released == old(released) + (if old(edgeH).Some? then [old(edgeH).value] else [])
      ensures createRc == ErrorNone ==>
        && released == old(released)
        && edgeH.Some?
        && edgeH.value.id == "TEMP_ID"
        && edgeH.value.connectType == connectType
        && edgeH.value.flag == FlagRecv
        && GetInfo(edgeH.value, "DEST_HOST") == host
        && GetInfo(edgeH.value, "DEST_PORT") == Some(Decimal.DecimalString(port as nat))
        && (forall k :: k != "DEST_HOST" && k != "DEST_PORT" ==> GetInfo(edgeH.value, k).None?)
        && edgeH.value.calls ==
             [ SetInfoCall("DEST_HOST", host, if host.Some? then ErrorNone else ErrorOther),
               SetInfoCall("DEST_PORT", Some(Decimal.DecimalString(port as nat)), ErrorNone),
               SetEventCallbackCall,
               StartCall(startRc) ]
             + (if startRc == ErrorNone then [ConnectCall(host, port, connectRc)] else [])
    {
      if createRc != ErrorNone {
        if edgeH.Some? {
          released := released + [edgeH.value];
          edgeH := None;
        }
        return false;
      }
      var h := CreateHandle("TEMP_ID", connectType, FlagRecv);
      h := SetInfo(h, "DEST_HOST", host, if host.Some? then ErrorNone else ErrorOther);
      var portText := Decimal.DecimalString(port as nat);
      h := SetInfo(h, "DEST_PORT", Some(portText), ErrorNone);
      h := Record(h, SetEventCallbackCall);
      h := Record(h, StartCall(startRc));
      edgeH := Some(h);
      if startRc != ErrorNone {
        return false;
      }
      edgeH := Some(Record(h, ConnectCall(host, port, connectRc)));
      if connectRc != ErrorNone {
        return false;
      }
      return true;
    }

    /** The pipeline's `stop`: it succeeds and changes nothing. */
    method Stop() returns (ok: bool)
      ensures ok
    {
      ok := true;
    }

    /**
     Finalize: frees the host, destroys every item still queued in queue
     order, releases the queue, then releases the handle if there is one.
     */
    method Finalize()
      requires Valid()
      modifies this`host, this`msgQueue, this`edgeH, this`destroyed, this`released
      ensures Valid()
      ensures host.None? && msgQueue.None? && edgeH.None?
      ensures destroyed == old(destroyed) + old(QueueContents())
      ensures released == old(released) + (if old(edgeH).Some? then [old(edgeH).value] else [])
    {
      if host.Some? {
        host := None;
      }
      if msgQueue.Some? {
        // g_async_queue_try_pop until it yields NULL, destroying each item
        while msgQueue.value != []
          invariant msgQueue.Some? && host.None?
          invariant edgeH == old(edgeH) && released == old(released)
          invariant Valid()
          decreases |msgQueue.value|
        {
          var dataH := msgQueue.value[0];
          msgQueue := Some(msgQueue.value[1..]);
          destroyed := destroyed + [dataH];
        }
        msgQueue := None;
      }
      if edgeH.Some? {
        released := released + [edgeH.value];
        edgeH := None;
      }
    }

    function GetHost(): Option<string>
      reads this
    {
      host
    }

    /** The host becomes a copy of the argument, NULL included. */
    method SetHost(newHost: Option<string>)
      modifies this`host
      ensures GetHost() == newHost
    {
      host := newHost;
    }

    function GetPort(): uint16
      reads this
    {
      port
    }

    method SetPort(newPort: uint16)
      modifies this`port
      ensures GetPort() == newPort
    {
      port := newPort;
    }

    function GetConnectType(): ConnectType
      reads this
    {
      connectType
    }

    method SetConnectType(newType: ConnectType)
      modifies this`connectType
      ensures GetConnectType() == newType
    {
      connectType := newType;
    }
  }

  /**
   Items delivered by new-data events in the order `frames`, then one
   `create` per item: the buffers come out in the same order, each made of
   its own item, every item destroyed once, and the queue ends empty.
   */
  method DeliverThenCreate(src: EdgeSrc, frames: seq<EdgeData>)
      returns (flows: seq<FlowReturn>, buffers: seq<Option<Buffer>>)
    requires src.Valid() && src.msgQueue == Some([])
    modifies src`msgQueue, src`enqueued, src`destroyed
    ensures src.Valid() && src.msgQueue == Some([])
    ensures |flows| == |frames| && |buffers| == |frames|
    ensures forall i :: 0 <= i < |frames| ==>
      && buffers[i] == Produce(frames[i], ErrorNone)
      && (flows[i] == FlowOk <==> |frames[i].segments| > 0)
    ensures src.destroyed == old(src.destroyed) + frames
  {
    var i := 0;
    while i < |frames|
      invariant 0 <= i <= |frames|
      invariant src.Valid() && src.msgQueue == Some(frames[..i])
      invariant src.destroyed == old(src.destroyed)
    {
      var ret := src.EventCallback(Event(ErrorNone, NewDataReceived, frames[i]));
      assert frames[..i + 1] == frames[..i] + [frames[i]];
      i := i + 1;
    }
    assert frames[..i] == frames;
    flows, buffers := [], [];
    var j := 0;
    while j < |frames|
      invariant 0 <= j <= |frames|
      invariant src.Valid() && src.msgQueue == Some(frames[j..])
      invariant src.destroyed == old(src.destroyed) + frames[..j]
      invariant |flows| == j && |buffers| == j
      invariant forall k :: 0 <= k < j ==>
        && buffers[k] == Produce(frames[k], ErrorNone)
        && (flows[k] == FlowOk <==> |frames[k].segments| > 0)
    {
      var flow, buf := src.Create(ErrorNone);
      flows, buffers := flows + [flow], buffers + [buf];
      assert frames[..j + 1] == frames[..j] + [frames[j]];
      j := j + 1;
    }
    assert frames[..j] == frames;
  }
}
