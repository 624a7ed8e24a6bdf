/** The SharedWorker message router: a list of connected ports, at most one port
    registered as the iframe, and a handler per port that routes `registerIframe`,
    `frame` and `result` messages. `postMessage` is modelled as appending a delivery
    to one global send log, so both each port's outbox and the order of sends across
    ports are visible. */
module FaceBridge {

  import opened Wrappers
  import opened JsValues

  /** The identity of a MessagePort. */
  type Port = nat

  datatype Delivery = Delivery(to: Port, message: Value)

  datatype BridgeState = BridgeState(ports: seq<Port>, iframePort: Option<Port>, sent: seq<Delivery>)

  /** How the handler routes one incoming `event.data`. */
  datatype Route = Threw | RegisterIframe | Frame(data: Value) | Result(data: Value) | Ignored

  ghost predicate Distinct(ps: seq<Port>) {
    forall i, j :: 0 <= i < j < |ps| ==> ps[i] != ps[j]
  }

  /** What a bridge reachable from the empty one satisfies: every port connected once,
      and the iframe port, when there is one, is a connected port. */
  ghost predicate Wellformed(s: BridgeState) {
    Distinct(s.ports) && (s.iframePort.Some? ==> s.iframePort.value in s.ports)
  }

  const Initial := BridgeState([], None, [])

  /** The messages delivered to port p, in the order they were posted: p's outbox. */
  function SentTo(log: seq<Delivery>, p: Port): (r: seq<Value>)
    ensures |r| <= |log|
  {
    if |log| == 0 then []
    else
      var last := log[|log| - 1];
      SentTo(log[..|log| - 1], p) + (if last.to == p then [last.message] else [])
  }

  /** The ports in connection order, without the iframe port. */
  function Except(ps: seq<Port>, iframe: Option<Port>): (r: seq<Port>)
    ensures |r| <= |ps|
  {
    if |ps| == 0 then []
    else
      var last := ps[|ps| - 1];
      Except(ps[..|ps| - 1], iframe) + (if Some(last) == iframe then [] else [last])
  }

  /** The sends of the `result` loop after it has visited the ports `ps`. */
  function ResultDeliveries(ps: seq<Port>, iframe: Option<Port>, m: Value): (r: seq<Delivery>)
    ensures |r| <= |ps|
  {
    if |ps| == 0 then []
    else
      var last := ps[|ps| - 1];
      ResultDeliveries(ps[..|ps| - 1], iframe, m) + (if Some(last) == iframe then [] else [Delivery(last, m)])
  }

  /** `{ type: "frame", ...data }`, forwarded to the iframe. */
  function FrameMessage(data: Value): (r: Value)
    ensures r.Obj? && "type" in r.fields
    ensures forall k :: k in SpreadFields(data) ==> k in r.fields && r.fields[k] == SpreadFields(data)[k]
    ensures "type" !in SpreadFields(data) ==> r.fields["type"] == Str("frame")
    ensures r.fields.Keys == {"type"} + SpreadFields(data).Keys
  {
    WithSpread("type", Str("frame"), data)
  }

  /** `{ type: "result", data }`, broadcast to the other ports. */
  function ResultMessage(data: Value): (r: Value)
    ensures r.Obj? && r.fields.Keys == {"type", "data"}
    ensures Destructure(r) == Some((Str("result"), data))
  {
    Obj(map["type" := Str("result"), "data" := data])
  }

  /** The branch the handler takes for `event.data`. A `frame` is routed as such even
      when no iframe is registered; the handler then drops it. */
  function Classify(eventData: Value): (r: Route)
    ensures r.Threw? <==> eventData.Undefined? || eventData.Null?
    ensures r.RegisterIframe? ==> Property(eventData, "type") == Str("registerIframe")
    ensures r.Frame? ==> Property(eventData, "type") == Str("frame") && r.data == Property(eventData, "data")
    ensures r.Result? ==> Property(eventData, "type") == Str("result") && r.data == Property(eventData, "data")
    ensures r.Ignored? ==> Property(eventData, "type") !in {Str("registerIframe"), Str("frame"), Str("result")}
  {
    match Destructure(eventData)
    case None => Threw
    case Some((kind, data)) =>
      if kind == Str("registerIframe") then RegisterIframe
      else if kind == Str("frame") then Frame(data)
      else if kind == Str("result") then Result(data)
      else Ignored
  }

  /** `onconnect`: the new port goes to the end of the list. */
  function Connect(s: BridgeState, port: Port): (r: BridgeState)
    ensures r.ports == s.ports + [port]
    ensures r.iframePort == s.iframePort && r.sent == s.sent
    ensures Wellformed(s) && port !in s.ports ==> Wellformed(r)
  {
    s.(ports := s.ports + [port])
  }

  /** One run of port `sender`'s `onmessage` handler. */
  function Handle(s: BridgeState, sender: Port, eventData: Value): (r: BridgeState)
    ensures r.ports == s.ports
    ensures s.sent <= r.sent
    ensures Wellformed(s) && sender in s.ports ==> Wellformed(r)
  {
    match Classify(eventData)
    case RegisterIframe => s.(iframePort := Some(sender))
    case Frame(data) =>
      if s.iframePort.Some? then s.(sent := s.sent + [Delivery(s.iframePort.value, FrameMessage(data))])
      else s
    case Result(data) => s.(sent := s.sent + ResultDeliveries(s.ports, s.iframePort, ResultMessage(data)))
    case _ => s
  }

  lemma {:induction false} SentToAppend(a: seq<Delivery>, b: seq<Delivery>, p: Port)
    ensures SentTo(a + b, p) == SentTo(a, p) + SentTo(b, p)
    decreases |b|
  {
    if |b| == 0 {
      assert a + b == a;
    } else {
      var b' := b[..|b| - 1];
      assert (a + b)[..|a + b| - 1] == a + b';
      SentToAppend(a, b', p);
    }
  }

  /** Without an iframe the result loop visits every port; with one, every port but it. */
  lemma {:induction false} ExceptMembers(ps: seq<Port>, iframe: Option<Port>)
    ensures forall p :: p in Except(ps, iframe) <==> p in ps && Some(p) != iframe
    ensures iframe.None? ==> Except(ps, iframe) == ps
    decreases |ps|
  {
    if |ps| > 0 {
      var ps' := ps[..|ps| - 1];
      ExceptMembers(ps', iframe);
      assert ps == ps' + [ps[|ps| - 1]];
    }
  }

  /** The result loop sends m to the ports that are not the iframe, in connection order. */
  lemma {:induction false} ResultDeliveriesInOrder(ps: seq<Port>, iframe: Option<Port>, m: Value)
    ensures |ResultDeliveries(ps, iframe, m)| == |Except(ps, iframe)|
    ensures forall k :: 0 <= k < |Except(ps, iframe)| ==>
      ResultDeliveries(ps, iframe, m)[k] == Delivery(Except(ps, iframe)[k], m)
    decreases |ps|
  {
    if |ps| > 0 {
      ResultDeliveriesInOrder(ps[..|ps| - 1], iframe, m);
    }
  }

  /** Each connected port other than the iframe receives the result exactly once,
      the iframe and unconnected ports never. */
  lemma {:induction false} ResultDeliveriesSentTo(ps: seq<Port>, iframe: Option<Port>, m: Value, p: Port)
    requires Distinct(ps)
    ensures SentTo(ResultDeliveries(ps, iframe, m), p) == if p in ps && Some(p) != iframe then [m] else []
    decreases |ps|
  {
    if |ps| > 0 {
      var ps' := ps[..|ps| - 1];
      var last := ps[|ps| - 1];
      assert ps == ps' + [last];
      assert Distinct(ps');
      assert last !in ps';
      ResultDeliveriesSentTo(ps', iframe, m, p);
      var r' := ResultDeliveries(ps', iframe, m);
      var tail := if Some(last) == iframe then [] else [Delivery(last, m)];
      SentToAppend(r', tail, p);
      assert SentTo(tail, p) == if last == p && Some(last) != iframe then [m] else [] by {
        if tail != [] { assert tail[..0] == []; }
      }
    }
  }

  /** `registerIframe` makes the sender the iframe port, replacing any earlier one, and sends nothing. */
  lemma RegisterReplacesIframe(s: BridgeState, sender: Port, eventData: Value)
    requires Classify(eventData) == RegisterIframe
    ensures Handle(s, sender, eventData) == s.(iframePort := Some(sender))
  {
  }

  /** A `frame` goes exactly once to the iframe port and to no other port; with no
      iframe registered it is dropped and nothing changes. */
  lemma FrameGoesToIframeOnly(s: BridgeState, sender: Port, data: Value, eventData: Value, p: Port)
    requires Classify(eventData) == Frame(data)
    ensures s.iframePort.None? ==> Handle(s, sender, eventData) == s
    ensures Handle(s, sender, eventData).iframePort == s.iframePort
    ensures SentTo(Handle(s, sender, eventData).sent, p)
      == SentTo(s.sent, p) + (if Some(p) == s.iframePort then [FrameMessage(data)] else [])
  {
    if s.iframePort.Some? {
      var d := [Delivery(s.iframePort.value, FrameMessage(data))];
      SentToAppend(s.sent, d, p);
      assert d[..0] == [];
    }
  }

  /** A `result` goes once to every connected port except the iframe (the sender
      included), in connection order; the iframe port receives nothing. */
  lemma ResultBroadcast(s: BridgeState, sender: Port, data: Value, eventData: Value, p: Port)
    requires Wellformed(s)
    requires Classify(eventData) == Result(data)
    ensures Handle(s, sender, eventData).iframePort == s.iframePort
    ensures SentTo(Handle(s, sender, eventData).sent, p)
      == SentTo(s.sent, p) + (if p in s.ports && Some(p) != s.iframePort then [ResultMessage(data)] else [])
    ensures var added := Handle(s, sender, eventData).sent[|s.sent|..];
      |added| == |Except(s.ports, s.iframePort)| &&
      forall k :: 0 <= k < |added| ==> added[k] == Delivery(Except(s.ports, s.iframePort)[k], ResultMessage(data))
  {
    var added := ResultDeliveries(s.ports, s.iframePort, ResultMessage(data));
    assert Handle(s, sender, eventData).sent == s.sent + added;
    assert (s.sent + added)[|s.sent|..] == added;
    SentToAppend(s.sent, added, p);
    ResultDeliveriesSentTo(s.ports, s.iframePort, ResultMessage(data), p);
    ResultDeliveriesInOrder(s.ports, s.iframePort, ResultMessage(data));
  }

  /** A message that throws on destructuring or has any other type changes nothing. */
  lemma OtherMessagesChangeNothing(s: BridgeState, sender: Port, eventData: Value)
    requires Classify(eventData).Threw? || Classify(eventData).Ignored?
    ensures Handle(s, sender, eventData) == s
  {
  }

  /** The worker's life as a sequence of events. */
  datatype Event = Connected(port: Port) | Message(sender: Port, eventData: Value)

  function Apply(s: BridgeState, e: Event): BridgeState {
    match e
    case Connected(port) => Connect(s, port)
    case Message(sender, eventData) => Handle(s, sender, eventData)
  }

  function Run(s: BridgeState, events: seq<Event>): BridgeState
    decreases |events|
  {
    if |events| == 0 then s else Run(Apply(s, events[0]), events[1..])
  }

  /** The ports of the connect events, in order. */
  function ConnectedPorts(events: seq<Event>): (r: seq<Port>)
    ensures |r| <= |events|
    decreases |events|
  {
    if |events| == 0 then []
    else (if events[0].Connected? then [events[0].port] else []) + ConnectedPorts(events[1..])
  }

  /** The sender of the last `registerIframe` message, if any. */
  function LastRegistered(events: seq<Event>): Option<Port>
    decreases |events|
  {
    if |events| == 0 then None
    else
      var later := LastRegistered(events[1..]);
      if later.Some? then later
      else if events[0].Message? && Classify(events[0].eventData).RegisterIframe? then Some(events[0].sender)
      else None
  }

  /** Over any run: the port list is exactly the connected ports in connection order,
      the send log only grows, and the iframe is the last port that registered. */
  lemma {:induction false} RunShape(s: BridgeState, events: seq<Event>)
    ensures Run(s, events).ports == s.ports + ConnectedPorts(events)
    ensures s.sent <= Run(s, events).sent
    ensures Run(s, events).iframePort == if LastRegistered(events).Some? then LastRegistered(events) else s.iframePort
    decreases |events|
  {
    if |events| > 0 {
      var s' := Apply(s, events[0]);
      RunShape(s', events[1..]);
      assert s.ports + ConnectedPorts(events) == s'.ports + ConnectedPorts(events[1..]);
    }
  }

  /** The worker's module state, updated in place by the handlers. */
  class Bridge {
    var ports: seq<Port>
    var iframePort: Option<Port>
    var sent: seq<Delivery>

    function State(): BridgeState
      reads this
    {
      BridgeState(ports, iframePort, sent)
    }

    ghost predicate Valid()
      reads this
    {
      Wellformed(State())
    }

    constructor ()
      ensures Valid() && State() == Initial
    {
      ports, iframePort, sent := [], None, [];
    }

    /** `onconnect`: each connect event carries a port that has not been seen before. */
    method OnConnect(port: Port)
      requires Valid() && port !in ports
      modifies this
      ensures Valid()
      ensures State() == Connect(old(State()), port)
      ensures ports == old(ports) + [port]
    {
      ports := ports + [port];
    }

    /** `postMessage` on port p. */
    method Post(p: Port, message: Value)
      modifies this`sent
      ensures sent == old(sent) + [Delivery(p, message)]
    {
      sent := sent + [Delivery(p, message)];
    }

    /** The `onmessage` handler installed on the connected port `sender`. */
    method OnMessage(sender: Port, eventData: Value)
      requires Valid() && sender in ports
      modifies this
      ensures Valid()
      ensures State() == Handle(old(State()), sender, eventData)
      ensures ports == old(ports)
    {
      var parts := Destructure(eventData);
      if parts.None? {
        return;
      }
      var (kind, data) := parts.value;
      if kind == Str("registerIframe") {
        iframePort := Some(sender);
      } else if kind == Str("frame") && iframePort.Some? {
        Post(iframePort.value, FrameMessage(data));
      } else if kind == Str("result") {
        var message := ResultMessage(data);
        ghost var before := sent;
        for i := 0 to |ports|
          invariant ports == old(ports) && iframePort == old(iframePort)
          invariant sent == before + ResultDeliveries(ports[..i], iframePort, message)
        {
          if Some(ports[i]) != iframePort {
            Post(ports[i], message);
          }
          assert ports[..i + 1][..i] == ports[..i];
        }
        assert ports[..|ports|] == ports;
      }
    }
  }
}
