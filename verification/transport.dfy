/**
 The nnstreamer-edge transport handle, reduced to what the edge elements can
 observe of it: its identity and direction, a string key/value info store,
 and the ordered record of the calls made on it. Networking is not modelled;
 each call's result code is supplied by the caller of the model.
 */
module Transport {
  import opened EdgeCommon

  /** Direction requested when the handle is created. */
  datatype Flag = FlagRecv | FlagSend

  /** One call made on a handle, with its arguments and result. */
  datatype HandleCall =
    | SetInfoCall(key: string, value: Option<string>, rc: Status)
    | SetEventCallbackCall
    | StartCall(rc: Status)
    | ConnectCall(host: Option<string>, port: uint16, rc: Status)

  datatype Handle = Handle(
    id: string,
    connectType: ConnectType,
    flag: Flag,
    info: map<string, string>,
    calls: seq<HandleCall>)

  /** A freshly created handle: an empty store and no calls yet. */
  function CreateHandle(id: string, connectType: ConnectType, flag: Flag): Handle
  {
    Handle(id, connectType, flag, map[], [])
  }

  /**
   The value stored under `key`, or `None` when the key is absent.
   */
  function GetInfo(h: Handle, key: string): Option<string>
  {
    if key in h.info then Some(h.info[key]) else None
  }

  /**
   `nns_edge_set_info`: the store takes the value only when the call
   returns `ErrorNone`; a NULL value is refused and stores nothing.
   */
  function SetInfo(h: Handle, key: string, value: Option<string>, rc: Status): (r: Handle)
    ensures r.id == h.id && r.connectType == h.connectType && r.flag == h.flag
    ensures r.calls == h.calls + [SetInfoCall(key, value, rc)]
    ensures forall k :: k != key ==> GetInfo(r, k) == GetInfo(h, k)
    ensures GetInfo(r, key) == if rc == ErrorNone && value.Some? then value else GetInfo(h, key)
  {
    var info := if rc == ErrorNone && value.Some? then h.info[key := value.value] else h.info;
    h.(info := info, calls := h.calls + [SetInfoCall(key, value, rc)])
  }

  /** Appends one call that does not touch the store. */
  function Record(h: Handle, call: HandleCall): Handle
  {
    h.(calls := h.calls + [call])
  }
}
