# Edge source and sink adapters of nnstreamer, in Dafny

This project models the adapter logic of the two GStreamer edge elements of
nnstreamer:

- **edgesrc** (`gst/edge/edge_src.c`), the subscriber. The nnstreamer-edge
  transport calls an event callback for each received data item, and the
  callback pushes the item onto the element's message queue. The pipeline's
  `create` call pops one item per call. It copies the item's segments, one
  memory per segment in index order, into a new buffer, and it destroys the
  item on every path. `start` creates and configures the transport handle.
  Finalize drains the queue. `get_times` picks the buffer's timestamps. The
  element also has host, port and connect-type properties.
- **edgesink** (`gst/edge/edge_sink.c`), the publisher. Its `set_caps` hook
  keeps the whole history of negotiated caps in the "CAPS" entry of the
  handle's info store. Each negotiation appends `"@edge_sink_caps@"` and the
  new caps string. The element also has host and port properties.

The transport handle is a value (`Transport.Handle`). It holds an info
store (`map<string, string>`) and the ordered list of calls made on it.
Each transport result code is a parameter of the model (`Status`, where
`ErrorNone` is the transport's success code 0). The GLib async queue is a
`seq` field of the element. `None` stands for the NULL queue left after
finalize. Ghost logs of enqueued, destroyed and released objects let the
contracts say that each item is consumed exactly once.

Some functions are plain definitions, and the contracts of other members
state what they promise:
- `Transport.CreateHandle` builds a new handle with an empty store and no calls.
- `Transport.GetInfo` reads a key of the store, giving `None` when the key is absent.
- `EdgeSrcElement.Wrapped` is the closed form of the copy loop in `create`:
  one wrapped copy per segment.

Files: `edge_common.dfy` (shared types), `transport.dfy` (the handle),
`decimal.dfy` (the `%d` text of the port), `edge_src.dfy`, `edge_sink.dfy`.

## Model

| member | source | states |
|---|---|---|
| `EdgeSrcElement.EdgeSrc.EventCallback` | gst/edge/edge_src.c:254-280 | A new-data event appends exactly its item at the back of the queue and returns ErrorNone. Any other event leaves the queue unchanged and returns ErrorNone. An unreadable event type returns ErrorUnknown and changes nothing. The queue invariant (enqueued = destroyed ++ queued) is kept. |
| `EdgeSrcElement.EdgeSrc.Push` | gst/edge/edge_src.c:272 | Appends the item at the back of the queue and to the enqueued log. A released (NULL) queue takes nothing. |
| `EdgeSrcElement.EdgeSrc.Create` | gst/edge/edge_src.c:405-458 | Removes exactly the head of the queue and destroys it, on success and on failure. The result is FlowOk exactly when a buffer is written. The buffer is `Produce(head, countRc)`. With a NULL queue the call fails, writes no buffer and destroys nothing. |
| `EdgeSrcElement.Produce` | gst/edge/edge_src.c:426-444 | A buffer is made exactly when the count query succeeds and the item has at least one segment. It then has one memory per segment. Memory i has segment i's length and bytes. |
| `EdgeSrcElement.WrapCopy` | gst/edge/edge_src.c:439-443 | A wrapped copy exposes exactly the segment's bytes, and its size is the segment's length. |
| `EdgeSrcElement.WrappedSize` | gst/edge/edge_src.c:433-444 | The total size of the copies is the sum of the segment lengths. |
| `EdgeSrcElement.ProducedSize` | gst/edge/edge_src.c:432-444 | An item with at least one segment, whose count query succeeds, gives a buffer whose size is the sum of its segment lengths. |
| `EdgeSrcElement.TwoSegmentFrame` | gst/edge/edge_src.c:432-444 | Segments of 4 and 8 bytes give a 12-byte buffer made of exactly those segments, in order. |
| `EdgeSrcElement.DeliverThenCreate` | gst/edge/edge_src.c:266-273 | Items delivered by n new-data events come out of n `create` calls in the same FIFO order. Each buffer is made from its own item. Every item is destroyed exactly once, and the queue ends empty. Host, port, connect type and handle are not touched. |
| `EdgeSrcElement.GetTimes` | gst/edge/edge_src.c:369-389 | The sync time is DTS if valid, else PTS. Start is written exactly when the sync time is valid. End is written exactly when start is written and the duration is valid. End is start + duration modulo 2^64, and it is the plain sum when that does not overflow. |
| `EdgeSrcElement.EdgeSrc.Start` | gst/edge/edge_src.c:286-328 | If creation fails, any handle held is released and the call returns false with no handle. Otherwise a receiving "TEMP_ID" handle with the element's connect type gets DEST_HOST = host and DEST_PORT = the decimal text of port, and nothing else. A NULL host is recorded as a refused DEST_HOST write. Then, in this order, the callback is registered, start is called, and connect is called only if start succeeded. The call succeeds exactly when all three steps succeed. A failed start or connect keeps the handle. |
| `EdgeSrcElement.EdgeSrc.Stop` | gst/edge/edge_src.c:333-341 | Returns TRUE and changes nothing. |
| `EdgeSrcElement.EdgeSrc.Finalize` | gst/edge/edge_src.c:195-219 | Destroys every queued item, in queue order. It leaves host, queue and handle NULL, and releases the handle if there was one. |
| `EdgeSrcElement.EdgeSrc.constructor` | gst/edge/edge_src.c:126-138 | Default host, port and connect type; an empty queue; no handle. |
| `EdgeSrcElement.EdgeSrc.SetHost` | gst/edge/edge_src.c:485-490 | The host becomes a copy of the argument, NULL included. |
| `EdgeSrcElement.EdgeSrc.SetPort` | gst/edge/edge_src.c:504-508 | The getter returns the port just set. Nothing else changes. |
| `EdgeSrcElement.EdgeSrc.SetConnectType` | gst/edge/edge_src.c:522-527 | The getter returns the connect type just set. Nothing else changes. |
| `Decimal.DecimalString` | gst/edge/edge_src.c:310 | The `%d` text of the port is a non-empty string of digits. It starts with '0' only for zero. |
| `Decimal.DecimalRoundTrip` | gst/edge/edge_src.c:310-311 | Reading the DEST_PORT text back as a decimal number gives the port. |
| `Decimal.DecimalStringInjective` | gst/edge/edge_src.c:310-311 | Different ports give different DEST_PORT texts. |
| `Transport.SetInfo` | gst/edge/edge_sink.c:248 | Only the given key can change. It takes the value exactly when the call succeeds and the value is not NULL. The call is recorded. |
| `EdgeSinkElement.NewCaps` | gst/edge/edge_sink.c:247 | The new value is the previous value, then the 16-character delimiter "@edge_sink_caps@", then the caps string. Its length is \|prev\| + 16 + \|caps\|. |
| `EdgeSinkElement.FirstNegotiation` | gst/edge/edge_sink.c:243-247 | When CAPS is absent, the first value is the delimiter followed by the caps string, so it has a leading delimiter. |
| `EdgeSinkElement.AccumulateIsHistory` | gst/edge/edge_sink.c:243-248 | Negotiating d1..dn from `prev` leaves `prev` followed by "@edge_sink_caps@"·di for each i in order. The history is never overwritten. |
| `EdgeSinkElement.AccumulateExtends` | gst/edge/edge_sink.c:247 | The old value is a prefix of the new one. The length grows by 16 + \|di\| for each negotiation. |
| `EdgeSinkElement.HistorySnoc` | gst/edge/edge_sink.c:247 | One more negotiation appends exactly one delimited entry to the history. |
| `EdgeSinkElement.TwoNegotiations` | gst/edge/edge_sink.c:243-248 | Negotiating "video/x-raw,width=640" then "video/x-raw,width=1280" from absent gives both caps strings, each behind a delimiter. |
| `EdgeSinkElement.EdgeSink.SetCaps` | gst/edge/edge_sink.c:235-255 | Returns true exactly when the store write returns ErrorNone. CAPS becomes NewCaps(previous CAPS or "", caps) when the write succeeds, and stays as it was otherwise. No other key changes, and the handle's identity is kept. |
| `EdgeSinkElement.NegotiateAll` | gst/edge/edge_sink.c:235-255 | Successful negotiations of d1..dn, starting with no CAPS entry, leave CAPS = the concatenation of "@edge_sink_caps@"·di for i = 1..n. |
| `EdgeSinkElement.EdgeSink.constructor` | gst/edge/edge_sink.c:117-123 | Default host and port, no handle. |
| `EdgeSinkElement.EdgeSink.SetHost` | gst/edge/edge_sink.c:267-274 | A NULL host leaves the host unchanged. Any other host is copied in. |
| `EdgeSinkElement.EdgeSink.SetPort` | gst/edge/edge_sink.c:279-288 | `GetPort` returns the port just set. Ports are 16-bit (0..65535). |

## Notes on the source

- The first negotiation in `gst_edgesink_set_caps` (gst/edge/edge_sink.c:244-247)
  writes a leading delimiter, because an absent CAPS entry is read as "".
  The model follows the code. The history after two negotiations starts with
  "@edge_sink_caps@"; it is not `d1` DELIM `d2`.
- `gst_edgesink_set_host` tests `g_value_get_string (value)`, but `value` is
  not declared in that function (gst/edge/edge_sink.c:268). The model takes
  the evident intent: a NULL check on the `host` argument.
- `gst_edgesrc_start` does not release the handle when start or connect
  fails (gst/edge/edge_src.c:316-325). The model keeps the handle on those
  paths, as the code does.
- `gst_edgesrc_stop` neither drains the queue nor unblocks a pending
  `create` (gst/edge/edge_src.c:333-341). The model's `Stop` changes nothing.
  Draining happens only in finalize.
- `gst/edge/edge_sink.c` does not compile as written. Besides the `value`
  typo, it has an undeclared `self` in `gst_edgesink_init` (:120) and
  misspelled type and variable names at :46, :65, :75, :154, :156 and :279.
  Every member of `EdgeSinkElement` models the evident intent of that code.
- `nns_edge_create_handle` is taken to leave `edge_h` as it was when it
  fails. So a failed creation releases the handle from an earlier start, if
  there was one, as the code at gst/edge/edge_src.c:301-304 does.

## Left out

- EdgeSrcElement.EdgeSrc.Create: the blocking pop on an empty queue, which waits for another thread's push, is excluded by a precondition. Threads and unblocking are not modelled.
- EdgeSrcElement.EdgeSrc.Create: the segment-count query is a parameter (`countRc`). A successful count is taken to be the number of segments. The per-segment `nns_edge_data_get` calls, whose results the code ignores, are taken to succeed.
- EdgeSrcElement.Produce: items are taken to be what the transport delivers: every segment non-empty, and at most 16 segments. Two behaviours of the GLib/GStreamer libraries are not modelled. `_g_memdup` of an empty segment gives NULL, and that memory is then dropped. A buffer with more than 16 memories (GST_BUFFER_MEM_MAX) merges them.
- EdgeSrcElement.EdgeSrc.EventCallback: parsing the new-data payload (`nns_edge_event_parse_new_data`, result ignored) is taken to succeed. The parsed item is the event's `payload`.
- EdgeSrcElement.EdgeSrc.Start: the code ignores the results of its two `nns_edge_set_info` calls. The DEST_PORT write is taken to succeed. A NULL host is taken to be refused by the store: that call is recorded with a non-success code (`ErrorOther`), and nothing is written.
- EdgeSinkElement.EdgeSink.SetCaps: requires a handle. With a NULL handle, the code reads an uninitialised pointer after `nns_edge_get_info` fails. `gst_caps_to_string` is not modelled: the caps arrive as their string.
- Concurrency of the GLib async queue, and thread safety between the callback and `create`: the queue is a sequential `seq`.
- Memory ownership (`g_free`, `_g_memdup`, wrapped-memory destroy notifiers) is reduced to a byte-for-byte copy. Destroying and releasing are recorded in ghost logs.
- The transport itself (networking, event delivery, the meaning of `start` and `connect`) is external. Its result codes are parameters.
- `gst/edge/edge_common.c` only registers the GLib enum type of the connect-type property. That is a foreign call, so it is modelled only as the `ConnectType` datatype.
- GObject/GStreamer boilerplate is not modelled: class_init, pad templates, the property dispatch switches, `gst_edgesrc_change_state` (an empty switch around the parent call), `gst_edgesrc_query` (delegates), `gst_edgesrc_is_seekable` (constant FALSE) and `gst_edgesrc_get_caps` (a GstCaps library intersection).
- edgesink's start, stop, query, render, render_list and event are stubs without a body. `gst_edgesink_finalize` only frees the host string. The default host and port are header constants that are not part of this model, so the constructors take them as parameters.
