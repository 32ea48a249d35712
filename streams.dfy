/** The WebSocket wrapper (`Stream`) and its two flavours: a connection that
    buffers messages until the socket is open, rotates through its hosts on
    every connect and backs off between reconnects; `BinaryStream`, which
    routes frames by their first byte; and `JsonStream`, which parses text
    frames and hands the result to every registered callback.

    The socket itself is abstracted to its `readyState` and a log of what
    was given to its `send`; the events it raises (open, close) and the
    reconnect timer firing are methods the environment calls. */
module Streams {
  import opened Wrappers
  import opened JsValues

  /** `MAX_RETRY_ATTEMPTS`. */
  const MaxRetryAttempts: nat := 5
  /** The step of the growing reconnect delay, in milliseconds. */
  const RetryStep: nat := 3000
  /** The reconnect delay once the attempts are used up, in milliseconds. */
  const LongDelay: nat := 120000
  /** The default ports of `BinaryStream` and `JsonStream`. */
  const BinaryPort: nat := 8002
  const JsonPort: nat := 8001
  /** What a template literal makes of `undefined`. */
  const UndefinedText: string := "undefined"

  /** `wsState`: the WebSocket ready states. */
  datatype ReadyState = Connecting | Open | Closing | Closed {
    function Code(): (r: nat)
      ensures r < 4
      ensures r == 1 <==> this == Open
    {
      match this
      case Connecting => 0
      case Open => 1
      case Closing => 2
      case Closed => 3
    }
  }

  /** `getDefaultHosts`: the page's `ip` parameter (or its host name) and
      `localhost` in a browser, `localhost` alone elsewhere. `pageHost` is
      what `Utils.getParam('ip', window.location.hostname)` gives, and
      `None` outside a browser. */
  function DefaultHosts(pageHost: Option<string>): (r: seq<string>)
    ensures r != [] && r[|r| - 1] == "localhost"
    ensures |r| == if pageHost.Some? then 2 else 1
    ensures pageHost.Some? ==> r[0] == pageHost.value
  {
    if pageHost.Some? then [pageHost.value, "localhost"] else ["localhost"]
  }

  /** A decimal digit. */
  function DigitChar(d: nat): (c: char)
    requires d < 10
    ensures '0' <= c <= '9'
    ensures c as int - '0' as int == d
  {
    (d + '0' as int) as char
  }

  /** The number a string of decimal digits spells, most significant digit
      first. */
  function DigitsValue(s: string): nat
    requires forall i :: 0 <= i < |s| ==> '0' <= s[i] <= '9'
  {
    if s == [] then 0 else DigitsValue(s[..|s| - 1]) * 10 + (s[|s| - 1] as int - '0' as int)
  }

  /** A port number as a template literal writes it: the digits that spell
      it, with no leading zero. */
  function Decimal(n: nat): (r: string)
    ensures r != []
    ensures forall i :: 0 <= i < |r| ==> '0' <= r[i] <= '9'
    ensures n < 10 <==> |r| == 1
    ensures |r| > 1 ==> r[0] != '0'
    ensures DigitsValue(r) == n
  {
    if n < 10 then [DigitChar(n)]
    else
      var r := Decimal(n / 10) + [DigitChar(n % 10)];
      assert r[..|r| - 1] == Decimal(n / 10);
      r
  }

  /** `ws://${host}:${port}`. */
  function Uri(host: string, port: nat): (r: string)
    ensures |r| == 6 + |host| + |Decimal(port)|
    ensures r[..5] == "ws://" && r[5..5 + |host|] == host && r[5 + |host|] == ':'
    ensures r[6 + |host|..] == Decimal(port)
  {
    "ws://" + host + ":" + Decimal(port)
  }

  /** `hosts.push(hosts.splice(0, 1)[0])`: the first host moves to the end.
      On an empty list `splice` yields nothing and `undefined` is pushed. */
  function RotateLeft(hs: seq<string>): (r: seq<string>)
    ensures |r| == if hs == [] then 1 else |hs|
    ensures hs == [] ==> r == [UndefinedText]
    ensures hs != [] ==> r[|r| - 1] == hs[0]
    ensures forall i :: 0 <= i < |hs| - 1 ==> r[i] == hs[i + 1]
  {
    if hs == [] then [UndefinedText] else hs[1..] + [hs[0]]
  }

  /** `hs` rotated left `k` times. */
  function Rotated(hs: seq<string>, k: nat): seq<string> {
    if k == 0 then hs else RotateLeft(Rotated(hs, k - 1))
  }

  /** One rotation of the list started at `offset` starts one further on,
      wrapping at the end. */
  lemma {:induction false} RotateStep(ring: seq<string>, offset: nat)
    requires offset < |ring|
    ensures var next := if offset + 1 == |ring| then 0 else offset + 1;
            RotateLeft(ring[offset..] + ring[..offset]) == ring[next..] + ring[..next]
  {
    var hs := ring[offset..] + ring[..offset];
    assert hs[0] == ring[offset];
    assert hs[1..] == ring[offset + 1..] + ring[..offset];
    if offset + 1 == |ring| {
      assert ring[offset + 1..] + ring[..offset] + [ring[offset]] == ring[..offset + 1];
      assert ring[..offset + 1] == ring;
    } else {
      assert ring[..offset] + [ring[offset]] == ring[..offset + 1];
    }
  }

  /** After `k` rotations (with `k` at most the length) the list starts at
      the `k`-th host; after as many rotations as there are hosts it is back
      to where it was. */
  lemma {:induction false} RotatedBy(hs: seq<string>, k: nat)
    requires k <= |hs|
    ensures Rotated(hs, k) == hs[k..] + hs[..k]
    ensures k == |hs| ==> Rotated(hs, k) == hs
  {
    if k == 0 {
      assert hs[0..] + hs[..0] == hs;
    } else {
      RotatedBy(hs, k - 1);
      RotateStep(hs, k - 1);
      if k == |hs| {
        assert hs[0..] + hs[..0] == hs;
        assert hs[k..] + hs[..k] == hs;
      }
    }
  }

  /** The delay of the reconnect a close schedules and the attempt counter
      it leaves. */
  datatype Retry = Retry(delay: nat, count: nat)

  /** The `_onclose` delay rule for the attempt counter `count`. */
  function Backoff(count: nat): (r: Retry)
    ensures RetryStep <= r.delay <= LongDelay
    ensures r.count <= MaxRetryAttempts || r.count == count
    ensures count < MaxRetryAttempts <==> r.count == count + 1
  {
    if count < MaxRetryAttempts then Retry((count + 1) * RetryStep, count + 1) else Retry(LongDelay, count)
  }

  /** The attempt counter after `k` closes in a row, starting from an open. */
  function CountAfter(k: nat): nat {
    if k == 0 then 0 else Backoff(CountAfter(k - 1)).count
  }

  /** The `k`-th close in a row after an open waits `3000 * k` ms while
      `k <= 5`, and 120000 ms from then on. */
  lemma {:induction false} ConsecutiveCloses(k: nat)
    requires k >= 1
    ensures CountAfter(k - 1) == if k - 1 <= MaxRetryAttempts then k - 1 else MaxRetryAttempts
    ensures Backoff(CountAfter(k - 1)).delay == if k <= MaxRetryAttempts then RetryStep * k else LongDelay
  {
    if k > 1 {
      ConsecutiveCloses(k - 1);
    }
  }

  /** The connection shared by both stream flavours. `hosts` is the list
      the caller passed; `ring` is that list as it was first used and
      `offset` how far it has been rotated. */
  class Stream {
    const port: nat
    var hosts: seq<string>
    var uri: string
    var retryCount: nat
    /** Messages waiting for the socket to open. */
    var wsBuffer: seq<string>
    var readyState: ReadyState
    /** Everything handed to the socket's `send`, across reconnects. */
    var sent: seq<string>
    /** Whether the socket's close handler is still `_onclose`, which
        schedules a reconnect; `close()` replaces it. */
    var reconnecting: bool
    /** Whether a reconnect timer (`retryId`) is pending, and its delay. */
    var retryPending: bool
    var retryDelay: nat
    ghost var ring: seq<string>
    ghost var offset: nat
    /** Every message given to `send`, in order. */
    ghost var accepted: seq<string>

    /** The host list is `ring` rotated by `offset` (or still the empty list
        the caller passed, before the first connect), the attempt counter
        stays at most five, nothing waits while the socket is open, no
        message is lost or reordered, and a reconnect is only pending after
        a close the stream did not ask for. */
    ghost predicate Valid()
      reads this
    {
      && ring != [] && offset < |ring|
      && (hosts == ring[offset..] + ring[..offset] || (hosts == [] && ring == [UndefinedText] && offset == 0))
      && retryCount <= MaxRetryAttempts
      && (readyState == Open ==> wsBuffer == [])
      && sent + wsBuffer == accepted
      && (retryPending ==> readyState == Closed && reconnecting)
    }

    /** `new Stream(port, hosts)`: the field initialisers, then `connect`. */
    constructor (port: nat, hosts: seq<string>)
      ensures Valid()
      ensures this.port == port && ring == (if hosts == [] then [UndefinedText] else hosts)
      ensures this.hosts == RotateLeft(hosts)
      ensures uri == Uri(if hosts == [] then UndefinedText else hosts[0], port)
      ensures readyState == Connecting && reconnecting && !retryPending
      ensures retryCount == 0 && wsBuffer == [] && sent == [] && accepted == []
    {
      this.port := port;
      this.hosts := hosts;
      retryCount := 0;
      wsBuffer := [];
      sent := [];
      accepted := [];
      readyState := Closed;
      reconnecting := true;
      retryPending := false;
      retryDelay := 0;
      ring := if hosts == [] then [UndefinedText] else hosts;
      offset := 0;
      uri := "";
      new;
      assert ring[0..] + ring[..0] == ring;
      Connect();
    }

    /** `nextUri`: the uri of the first host, which then moves to the end
        of the list. */
    method NextUri() returns (r: string)
      requires Valid()
      modifies this
      ensures Valid()
      ensures r == uri && uri == Uri(old(ring[offset]), port)
      ensures hosts == RotateLeft(old(hosts))
      ensures offset == if old(offset) + 1 == |ring| then 0 else old(offset) + 1
      ensures unchanged(this`wsBuffer, this`sent, this`accepted, this`readyState, this`retryCount)
      ensures unchanged(this`reconnecting, this`retryPending, this`retryDelay, this`ring)
    {
      var host := if hosts == [] then UndefinedText else hosts[0];
      ghost var next := if offset + 1 == |ring| then 0 else offset + 1;
      if hosts != [] {
        RotateStep(ring, offset);
      } else {
        assert RotateLeft(hosts) == ring[next..] + ring[..next];
      }
      assert host == ring[offset];
      uri := Uri(host, port);
      r := uri;
      hosts := RotateLeft(hosts);
      offset := next;
    }

    /** `connect`: a new socket for the next uri, with the stream's own
        handlers. */
    method Connect()
      requires Valid() && !retryPending
      modifies this
      ensures Valid()
      ensures uri == Uri(old(ring[offset]), port) && hosts == RotateLeft(old(hosts))
      ensures offset == if old(offset) + 1 == |ring| then 0 else old(offset) + 1
      ensures readyState == Connecting && reconnecting && !retryPending
      ensures unchanged(this`wsBuffer, this`sent, this`accepted, this`retryCount, this`retryDelay, this`ring)
    {
      var u := NextUri();
      readyState := Connecting;
      reconnecting := true;
    }

    /** `_sendBuffered` (behind `send`): straight to the socket when it is
        open, into the buffer otherwise. */
    method Send(msg: string)
      requires Valid()
      modifies this
      ensures Valid()
      ensures accepted == old(accepted) + [msg]
      ensures old(readyState) == Open ==> sent == old(sent) + [msg] && wsBuffer == old(wsBuffer)
      ensures old(readyState) != Open ==> wsBuffer == old(wsBuffer) + [msg] && sent == old(sent)
      ensures unchanged(this`hosts, this`uri, this`readyState, this`retryCount, this`reconnecting)
      ensures unchanged(this`retryPending, this`retryDelay, this`ring, this`offset)
    {
      accepted := accepted + [msg];
      if readyState.Code() != Open.Code() {
        wsBuffer := wsBuffer + [msg];
      } else {
        sent := sent + [msg];
      }
    }

    /** The loop of `_onopen`: every buffered message to the socket, oldest
        first. */
    method FlushBuffer()
      modifies this`sent
      ensures sent == old(sent) + wsBuffer
    {
      var i := 0;
      while i < |wsBuffer|
        invariant 0 <= i <= |wsBuffer|
        invariant sent == old(sent) + wsBuffer[..i]
      {
        sent := sent + [wsBuffer[i]];
        i := i + 1;
      }
      assert wsBuffer[..i] == wsBuffer;
    }

    /** `_onopen`, when the socket opens: the buffer is flushed in order and
        emptied, and the attempt counter starts again. */
    method OnOpen()
      requires Valid() && readyState == Connecting
      modifies this
      ensures Valid()
      ensures readyState == Open && sent == old(sent) + old(wsBuffer) && wsBuffer == []
      ensures retryCount == 0
      ensures unchanged(this`hosts, this`uri, this`accepted, this`reconnecting, this`retryPending)
      ensures unchanged(this`retryDelay, this`ring, this`offset)
    {
      readyState := Open;
      FlushBuffer();
      retryCount := 0;
      wsBuffer := [];
    }

    /** The socket's close event. With `_onclose` still in place a
        reconnect is scheduled after the backoff delay; after `close()` only
        the user callback runs. */
    method OnClose()
      requires Valid() && readyState != Closed
      modifies this
      ensures Valid()
      ensures readyState == Closed
      ensures old(reconnecting) ==>
                && retryPending
                && retryDelay == Backoff(old(retryCount)).delay
                && retryCount == Backoff(old(retryCount)).count
      ensures !old(reconnecting) ==> unchanged(this`retryPending, this`retryDelay, this`retryCount)
      ensures unchanged(this`hosts, this`uri, this`wsBuffer, this`sent, this`accepted, this`reconnecting)
      ensures unchanged(this`ring, this`offset)
    {
      readyState := Closed;
      if reconnecting {
        var retry := Backoff(retryCount);
        retryCount := retry.count;
        retryDelay := retry.delay;
        retryPending := true;
      }
    }

    /** The reconnect timer fires: `connect` again. */
    method OnRetryTimer()
      requires Valid() && retryPending
      modifies this
      ensures Valid()
      ensures uri == Uri(old(ring[offset]), port) && hosts == RotateLeft(old(hosts))
      ensures readyState == Connecting && !retryPending
      ensures unchanged(this`wsBuffer, this`sent, this`accepted, this`retryCount, this`ring)
    {
      retryPending := false;
      Connect();
    }

    /** `close`: the socket's close handler becomes the user callback, the
        socket starts closing, and a pending reconnect is cancelled. */
    method Close()
      requires Valid()
      modifies this
      ensures Valid()
      ensures !reconnecting && !retryPending
      ensures readyState == if old(readyState) == Connecting || old(readyState) == Open then Closing else old(readyState)
      ensures unchanged(this`hosts, this`uri, this`wsBuffer, this`sent, this`accepted, this`retryCount)
      ensures unchanged(this`ring, this`offset)
    {
      reconnecting := false;
      if readyState == Connecting || readyState == Open {
        readyState := Closing;
      }
      retryPending := false;
    }
  }

  /** The stream can never reconnect once closed: a close event then
      leaves no reconnect pending. */
  method ClosedStaysClosed(s: Stream)
    requires s.Valid() && s.readyState != Closed
    modifies s
    ensures s.Valid() && s.readyState == Closed && !s.retryPending
  {
    s.Close();
    s.OnClose();
  }

  /** `BinaryDataType`: the first byte of a binary frame. */
  datatype Channel = ImageData | SkeletonData | ThumbnailData | HeatmapData | DepthmapData

  /** The type byte of each channel. */
  function TypeCode(c: Channel): (r: Byte)
    ensures 1 <= r <= 5
  {
    match c
    case ImageData => 1
    case SkeletonData => 2
    case ThumbnailData => 3
    case HeatmapData => 4
    case DepthmapData => 5
  }

  /** `this.cbs[type]` being defined: the channel of a type byte. */
  function ChannelOf(t: Byte): (r: Option<Channel>)
    ensures r.Some? <==> 1 <= t <= 5
    ensures r.Some? ==> TypeCode(r.value) == t
  {
    if t == 1 then Some(ImageData)
    else if t == 2 then Some(SkeletonData)
    else if t == 3 then Some(ThumbnailData)
    else if t == 4 then Some(HeatmapData)
    else if t == 5 then Some(DepthmapData)
    else None
  }

  /** Every channel is reached by its own code and by no other. */
  lemma ChannelCodes(c: Channel, t: Byte)
    ensures ChannelOf(TypeCode(c)) == Some(c)
    ensures ChannelOf(t) == Some(c) <==> t == TypeCode(c)
  {
  }

  /** Where a frame goes: the channel of its first byte with the rest of
      the bytes, or nowhere (a warning) for an empty frame or an unknown
      type. */
  datatype Routing = Route(channel: Channel, payload: seq<Byte>) | Unexpected

  function Dispatch(data: seq<Byte>): (r: Routing)
    ensures r.Route? <==> data != [] && 1 <= data[0] <= 5
    ensures r.Route? ==> TypeCode(r.channel) == data[0] && r.payload == data[1..] && [data[0]] + r.payload == data
  {
    if data == [] then Unexpected
    else match ChannelOf(data[0])
      case Some(c) => Route(c, data[1..])
      case None => Unexpected
  }

  /** The five `on…` callbacks, each named by an identifier; 0 is the
      empty function they start as. */
  datatype Handlers = Handlers(image: nat, skeleton: nat, thumbnail: nat, heatmap: nat, depthmap: nat) {
    function Get(c: Channel): nat {
      match c
      case ImageData => image
      case SkeletonData => skeleton
      case ThumbnailData => thumbnail
      case HeatmapData => heatmap
      case DepthmapData => depthmap
    }

    function With(c: Channel, h: nat): (r: Handlers)
      ensures r.Get(c) == h
      ensures forall d :: d != c ==> r.Get(d) == Get(d)
    {
      match c
      case ImageData => this.(image := h)
      case SkeletonData => this.(skeleton := h)
      case ThumbnailData => this.(thumbnail := h)
      case HeatmapData => this.(heatmap := h)
      case DepthmapData => this.(depthmap := h)
    }
  }

  /** One callback invocation with the bytes it received. */
  datatype Delivery = Delivery(handler: nat, payload: seq<Byte>)

  class BinaryStream {
    const conn: Stream
    /** The current `onimage`, `onskeleton`, … */
    var handlers: Handlers
    /** `cbs`: the callbacks as bound by the first frame. */
    var cbs: Option<Handlers>
    var delivered: seq<Delivery>
    var warnings: nat

    /** `new BinaryStream(port, hosts)`. */
    constructor (port: nat, hosts: seq<string>)
      ensures fresh(conn) && conn.Valid() && conn.port == port && conn.hosts == RotateLeft(hosts)
      ensures handlers == Handlers(0, 0, 0, 0, 0) && cbs.None? && delivered == [] && warnings == 0
    {
      conn := new Stream(port, hosts);
      handlers := Handlers(0, 0, 0, 0, 0);
      cbs := None;
      delivered := [];
      warnings := 0;
    }

    /** Assigning `onimage`, `onskeleton`, … */
    method SetHandler(c: Channel, h: nat)
      modifies this`handlers
      ensures handlers == old(handlers).With(c, h)
    {
      handlers := handlers.With(c, h);
    }

    /** `onmessage`: the callbacks are bound on the first frame, then the
        frame is routed by its first byte. */
    method OnMessage(data: seq<Byte>)
      modifies this`cbs, this`delivered, this`warnings
      ensures cbs == Some(if old(cbs).None? then handlers else old(cbs).value)
      ensures Dispatch(data).Route? ==>
                delivered == old(delivered) + [Delivery(cbs.value.Get(Dispatch(data).channel), data[1..])]
                && warnings == old(warnings)
      ensures Dispatch(data).Unexpected? ==> delivered == old(delivered) && warnings == old(warnings) + 1
    {
      if cbs.None? {
        cbs := Some(handlers);
      }
      var routing := Dispatch(data);
      match routing
      case Route(c, payload) =>
        delivered := delivered + [Delivery(cbs.value.Get(c), payload)];
      case Unexpected =>
        warnings := warnings + 1;
    }
  }

  /** What a `JsonStream` frame carries: text, with what `JSON.parse`
      makes of it (`None` when it throws), or binary data, with what
      msgpack `decode` makes of it. */
  datatype Frame = TextFrame(text: string, parsed: Option<Json>) | BinaryFrame(bytes: seq<Byte>, decoded: Json)

  /** What the callbacks receive: the raw event or the decoded value. */
  datatype Passed = RawEvent(frame: Frame) | Value(json: Json)

  /** The value `onmessage` passes on for a frame. */
  function Payload(f: Frame): (r: Passed)
    ensures r.RawEvent? <==> f.TextFrame? && f.parsed.None?
    ensures r.RawEvent? ==> r.frame == f
    ensures r.Value? && f.TextFrame? ==> Some(r.json) == f.parsed
    ensures f.BinaryFrame? ==> r == Value(f.decoded)
  {
    match f
    case TextFrame(_, parsed) => if parsed.Some? then Value(parsed.value) else RawEvent(f)
    case BinaryFrame(_, decoded) => Value(decoded)
  }

  /** One callback invocation with the value it received. */
  datatype Call = Call(callback: nat, value: Passed)

  /** Each callback called once with `v`, in registration order. */
  function CallsOf(cbs: seq<nat>, v: Passed): (r: seq<Call>)
    ensures |r| == |cbs|
    ensures forall i :: 0 <= i < |cbs| ==> r[i] == Call(cbs[i], v)
  {
    if cbs == [] then [] else [Call(cbs[0], v)] + CallsOf(cbs[1..], v)
  }

  class JsonStream {
    const conn: Stream
    /** `_callbacks`, each named by an identifier. */
    var callbacks: seq<nat>
    var calls: seq<Call>

    /** `new JsonStream(port, hosts)`. */
    constructor (port: nat, hosts: seq<string>)
      ensures fresh(conn) && conn.Valid() && conn.port == port && conn.hosts == RotateLeft(hosts)
      ensures callbacks == [] && calls == []
    {
      conn := new Stream(port, hosts);
      callbacks := [];
      calls := [];
    }

    /** `addCallback`. */
    method AddCallback(f: nat)
      modifies this`callbacks
      ensures callbacks == old(callbacks) + [f]
    {
      callbacks := callbacks + [f];
    }

    /** `onmessage`: the frame's value handed to every callback, in the
        order they were added. */
    method OnMessage(f: Frame)
      modifies this`calls
      ensures calls == old(calls) + CallsOf(callbacks, Payload(f))
    {
      var json := Payload(f);
      var i := 0;
      while i < |callbacks|
        invariant 0 <= i <= |callbacks|
        invariant calls == old(calls) + CallsOf(callbacks[..i], json)
      {
        assert callbacks[..i + 1] == callbacks[..i] + [callbacks[i]];
        CallsOfAppend(callbacks[..i], [callbacks[i]], json);
        calls := calls + [Call(callbacks[i], json)];
        i := i + 1;
      }
      assert callbacks[..i] == callbacks;
    }
  }

  lemma {:induction false} CallsOfAppend(a: seq<nat>, b: seq<nat>, v: Passed)
    ensures CallsOf(a + b, v) == CallsOf(a, v) + CallsOf(b, v)
  {
    var l, r := CallsOf(a + b, v), CallsOf(a, v) + CallsOf(b, v);
    assert |l| == |r|;
    forall i | 0 <= i < |l| ensures l[i] == r[i] {
      if i < |a| {
        assert (a + b)[i] == a[i];
      } else {
        assert (a + b)[i] == b[i - |a|];
      }
    }
  }
}
