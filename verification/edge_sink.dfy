/**
 The publishing element (edgesink): its host and port properties, and the
 caps negotiation hook, which keeps the whole history of negotiated caps in
 the "CAPS" entry of the transport handle's info store.
 */
module EdgeSinkElement {
  import opened EdgeCommon
  import opened Transport

  /** The info key under which the caps history is kept. */
  const CAPS_KEY: string := "CAPS"

  /** The token written in front of every negotiated caps string. */
  const CAPS_DELIMITER: string := "@edge_sink_caps@"

  /** The previous history: an absent "CAPS" entry counts as empty. */
  function PreviousCaps(stored: Option<string>): string {
    stored.GetOr("")
  }

  /**
   The history after one more negotiation: the old history, then the
   16-character delimiter, then the new caps string, each at its place.
   */
  function NewCaps(prev: string, capsStr: string): (r: string)
    ensures |CAPS_DELIMITER| == 16
    ensures |r| == |prev| + 16 + |capsStr|
    ensures r[..|prev|] == prev
    ensures r[|prev|..|prev| + 16] == CAPS_DELIMITER
    ensures r[|prev| + 16..] == capsStr
  {
    prev + CAPS_DELIMITER + capsStr
  }

  /** The history string of the caps `ds`, each behind its own delimiter. */
  function History(ds: seq<string>): string {
    if ds == [] then "" else CAPS_DELIMITER + ds[0] + History(ds[1..])
  }

  /** The number of characters the caps `ds` add to the history. */
  function HistoryLength(ds: seq<string>): nat {
    if ds == [] then 0 else 16 + |ds[0]| + HistoryLength(ds[1..])
  }

  /** The "CAPS" value after negotiating `ds` in order, starting from `prev`. */
  function Accumulate(prev: string, ds: seq<string>): string
    decreases |ds|
  {
    if ds == [] then prev else Accumulate(NewCaps(prev, ds[0]), ds[1..])
  }

  /** Successive negotiations never overwrite: they append to the history. */
  lemma {:induction false} AccumulateIsHistory(prev: string, ds: seq<string>)
    ensures Accumulate(prev, ds) == prev + History(ds)
    decreases |ds|
  {
    if ds != [] {
      AccumulateIsHistory(NewCaps(prev, ds[0]), ds[1..]);
      assert NewCaps(prev, ds[0]) + History(ds[1..]) == prev + History(ds);
    }
  }

  /** The old value is a prefix of the new one, which grows by 16 + |d| per caps d. */
  lemma {:induction false} AccumulateExtends(prev: string, ds: seq<string>)
    ensures |Accumulate(prev, ds)| == |prev| + HistoryLength(ds)
    ensures Accumulate(prev, ds)[..|prev|] == prev
    decreases |ds|
  {
    if ds != [] {
      var next := NewCaps(prev, ds[0]);
      AccumulateExtends(next, ds[1..]);
      assert Accumulate(prev, ds)[..|next|] == next;
      assert next[..|prev|] == prev;
    }
  }

  /** Appending one caps string to a list appends one delimited entry to its history. */
  lemma {:induction false} HistorySnoc(ds: seq<string>, d: string)
    ensures History(ds + [d]) == History(ds) + CAPS_DELIMITER + d
  {
    if ds != [] {
      assert (ds + [d])[1..] == ds[1..] + [d];
      HistorySnoc(ds[1..], d);
    }
  }

  /** The first negotiation, with no "CAPS" entry yet, starts with the delimiter. */
  lemma FirstNegotiation(capsStr: string)
    ensures NewCaps(PreviousCaps(None), capsStr) == CAPS_DELIMITER + capsStr
  {
  }

  /**
   Two negotiations from an absent entry: both caps strings are kept, each
   behind its own delimiter, the first one included.
   */
  lemma TwoNegotiations()
    ensures Accumulate("", ["video/x-raw,width=640", "video/x-raw,width=1280"])
         == CAPS_DELIMITER + "video/x-raw,width=640" + CAPS_DELIMITER + "video/x-raw,width=1280"
  {
  }

  class EdgeSink {
    var host: Option<string>
    var port: uint16
    var edgeH: Option<Handle>

    /** A new element holds the default host and port and no handle. */
    constructor (defaultHost: string, defaultPort: uint16)
      ensures host == Some(defaultHost) && port == defaultPort && edgeH == None
    {
      host := Some(defaultHost);
      port := defaultPort;
      edgeH := None;
    }

    function GetHost(): Option<string>
      reads this
    {
      host
    }

    /** A NULL host is refused with a warning; any other host is copied in. */
    method SetHost(newHost: Option<string>)
      modifies this`host
      ensures newHost.None? ==> host == old(host)
      ensures newHost.Some? ==> GetHost() == newHost
    {
      if newHost.None? {
        return;
      }
      host := newHost;
    }

    function GetPort(): uint16
      reads this
    {
      port
    }

    /** Setting the port is read back unchanged by `GetPort`. */
    method SetPort(newPort: uint16)
      modifies this`port
      ensures GetPort() == newPort
    {
      port := newPort;
    }

    /**
     The set_caps hook: read "CAPS" (absent as ""), append the delimiter and
     `capsStr`, write the result back under "CAPS". Success is exactly the
     success of that write; no other key of the store changes.
     */
    method SetCaps(capsStr: string, setRc: Status) returns (ok: bool)
      requires edgeH.Some?
      modifies this`edgeH
      ensures ok <==> setRc == ErrorNone
      ensures edgeH.Some?
      ensures edgeH.value.id == old(edgeH.value.id)
      ensures edgeH.value.connectType == old(edgeH.value.connectType)
      ensures edgeH.value.flag == old(edgeH.value.flag)
      ensures var written := NewCaps(PreviousCaps(GetInfo(old(edgeH.value), CAPS_KEY)), capsStr);
        && GetInfo(edgeH.value, CAPS_KEY) == (if ok then Some(written) else GetInfo(old(edgeH.value), CAPS_KEY))
        && edgeH.value.calls == old(edgeH.value.calls) + [SetInfoCall(CAPS_KEY, Some(written), setRc)]
      ensures forall k :: k != CAPS_KEY ==> GetInfo(edgeH.value, k) == GetInfo(old(edgeH.value), k)
    {
      var prev := PreviousCaps(GetInfo(edgeH.value, CAPS_KEY));
      var newCaps := NewCaps(prev, capsStr);
      edgeH := Some(SetInfo(edgeH.value, CAPS_KEY, Some(newCaps), setRc));
      ok := setRc == ErrorNone;
    }
  }

  /**
   A pipeline that negotiates the caps `ds` in order on an element whose
   handle has no "CAPS" entry, every write succeeding, leaves the history
   of all of them under "CAPS".
   */
  method NegotiateAll(sink: EdgeSink, ds: seq<string>)
    requires sink.edgeH.Some? && CAPS_KEY !in sink.edgeH.value.info
    modifies sink`edgeH
    ensures sink.edgeH.Some?
    ensures GetInfo(sink.edgeH.value, CAPS_KEY) == if ds == [] then None else Some(History(ds))
    ensures GetInfo(sink.edgeH.value, CAPS_KEY).GetOr("") == Accumulate("", ds)
  {
    var i := 0;
    while i < |ds|
      invariant 0 <= i <= |ds|
      invariant sink.edgeH.Some?
      invariant GetInfo(sink.edgeH.value, CAPS_KEY) == if i == 0 then None else Some(History(ds[..i]))
    {
      var ok := sink.SetCaps(ds[i], ErrorNone);
      HistorySnoc(ds[..i], ds[i]);
      assert ds[..i + 1] == ds[..i] + [ds[i]];
      i := i + 1;
    }
    assert ds[..i] == ds;
    AccumulateIsHistory("", ds);
  }
}
