/**
 Types shared by the edge source and the edge sink: the optional value used
 for C pointers that may be NULL, the transport's result codes, the
 connection types, and the fixed-width integers of the GStreamer properties.
 */
module EdgeCommon {

  /** A value or nothing; `None` stands for a NULL pointer. */
  datatype Option<+T> = None | Some(value: T) {
    function GetOr(default: T): T {
      match this
      case Some(v) => v
      case None => default
    }
  }

  /**
   Result codes of the transport calls. `ErrorNone` is the transport's
   success code, whose numeric value is 0; every other code the transport
   can return other than `ErrorUnknown` is collapsed into `ErrorOther`.
   */
  datatype Status = ErrorNone | ErrorUnknown | ErrorOther

  /**
   Connection types of the transport. Only `Tcp` is registered as a value
   of the "connect-type" property; the others are reserved.
   */
  datatype ConnectType = Tcp | Udp | Mqtt | Hybrid

  /** The `guint16` of the "port" property (0 means "any free port"). */
  newtype uint16 = x: int | 0 <= x < 0x1_0000

  /** The `guint64` underlying `GstClockTime`. */
  newtype uint64 = x: int | 0 <= x < 0x1_0000_0000_0000_0000

  /** A byte of frame data, and one memory segment of an edge data item. */
  type Byte = bv8
  type Segment = seq<Byte>
}
