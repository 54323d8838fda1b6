/** The sensor subscriber: it subscribes to one topic and serves the latest message it
    received as its readings. Reconnect requests go through a queue shared by the
    reconnect handlers; every reconfiguration starts one more handler and queues a
    forced request. Time is an integer count of milliseconds. A reconnect runs the
    retry loop while holding the component's lock; when the loop never returns (its
    answer is `None`) the lock is held for good, and every later call that needs it
    never returns either. */
module Subscriber {
  import opened Wrappers
  import opened Strings
  import opened Wire
  import opened Ros
  import Messages
  import Publisher
  import SubscriberConfig

  type ValueMap = map<string, Value>

  // ---------------------------------------------------------------------------
  // The log callback

  /** A log line that reports any TCP failure. */
  predicate IsTcpError(msg: string) {
    Contains(msg, "got an error") && Contains(msg, "tcp")
  }

  datatype OnLogResult = OnLogResult(logged: Logged, reconnect: bool)

  /** Forward the line to the matching logger level (an unknown level is dropped), then
      queue a non-forced reconnect on a TCP error. A fatal line ends the process first. */
  function OnLog(level: LogLevel, msg: string): (r: OnLogResult)
    ensures r.reconnect <==> !level.LevelFatal? && IsTcpError(msg)
    ensures level.LevelFatal? ==> r.logged == Exited(msg)
    ensures level.LevelUnknown? ==> r.logged == NotLogged
    ensures !level.LevelFatal? && !level.LevelUnknown? ==> r.logged == LoggedAt(level, msg)
  {
    match level
    case LevelFatal => OnLogResult(Exited(msg), false)
    case LevelUnknown(_) => OnLogResult(NotLogged, IsTcpError(msg))
    case _ => OnLogResult(LoggedAt(level, msg), IsTcpError(msg))
  }

  /** Every line that makes the publisher reconnect makes the subscriber reconnect too. */
  lemma DialErrorIsTcpError(msg: string)
    requires Publisher.IsDialError(msg)
    ensures IsTcpError(msg)
  {
    assert OccursAt("dial tcp", "tcp", 5);
    ContainsTransitive(msg, "dial tcp", "tcp");
  }

  /** The converse fails: the subscriber also reconnects on TCP errors that are not dial
      errors. */
  lemma TcpErrorNeedNotBeDialError()
    ensures IsTcpError("got an error tcp") && !Publisher.IsDialError("got an error tcp")
  {
    var msg := "got an error tcp";
    assert OccursAt(msg, "got an error", 0);
    assert OccursAt(msg, "tcp", 13);
    forall i | 0 <= i <= |msg| - |"dial tcp"|
      ensures !OccursAt(msg, "dial tcp", i)
    {
      assert msg[i] != 'd';
      assert msg[i..i + 8][0] == msg[i];
    }
  }

  // ---------------------------------------------------------------------------
  // State

  /** A reconnect handler, with the time of its last accepted request (initially the time
      it started). A `blocked` handler never returns from its reconnect: it is stuck in
      the retry loop, or waiting for the lock that a stuck handler holds. */
  datatype Handler = Handler(lastReconnect: int, blocked: bool)

  /** The component. `subscriber` and `node` are not cleared by cleanup: after a failed
      connect they still name the closed handles. `queue` holds the pending reconnect
      requests, `true` for a forced one. `stuck` is set once a reconnect's retry loop
      never returns, so the component's lock is never released. */
  datatype State = State(
    conf: Option<SubscriberConfig.RosBridgeConfig>,
    node: Option<Node>,
    subscriber: Option<Subscriber>,
    lastMessage: Option<ValueMap>,
    handlers: seq<Handler>,
    queue: seq<bool>,
    cancelled: bool,
    stuck: bool)

  const Initial: State := State(None, None, None, None, [], [], false, false)

  datatype Effect =
    | CloseSubscriber(subscriber: Subscriber)
    | CloseNode(node: Node)
    | SubscriberConfigFailed(error: Error)
    | SubscriberCreateFailed(err: string)

  datatype Stepped = Stepped(state: State, effects: seq<Effect>)

  /** Close the subscriber, then the node, each only if present; the fields are kept. */
  function Cleanup(st: State): (r: seq<Effect>)
    ensures |r| == (if st.subscriber.Some? then 1 else 0) + (if st.node.Some? then 1 else 0)
    ensures st.subscriber.Some? ==> r[0] == CloseSubscriber(st.subscriber.value)
    ensures st.node.Some? ==> r[|r| - 1] == CloseNode(st.node.value)
  {
    (if st.subscriber.Some? then [CloseSubscriber(st.subscriber.value)] else [])
      + (if st.node.Some? then [CloseNode(st.node.value)] else [])
  }

  /** The latest message, or an empty map before the first one; `None` when the call
      never returns because the lock is held for good. */
  function Readings(st: State): (r: Option<ValueMap>)
    ensures r.Some? <==> !st.stuck
    ensures r.Some? && st.lastMessage.Some? ==> r.value == st.lastMessage.value
    ensures r.Some? && st.lastMessage.None? ==> |r.value| == 0
  {
    if st.stuck then None
    else if st.lastMessage.None? then Some(map[])
    else Some(st.lastMessage.value)
  }

  /** Store a received map, stamped with the receive time in milliseconds. */
  function SetLastMessage(st: State, m: ValueMap, nowMs: int): (r: State)
    ensures r.lastMessage.Some?
    ensures r.lastMessage.value.Keys == m.Keys + {"Timestamp"}
    ensures r.lastMessage.value["Timestamp"] == Num(Whole(nowMs))
    ensures forall k | k in m && k != "Timestamp" :: r.lastMessage.value[k] == m[k]
    ensures r.(lastMessage := st.lastMessage) == st
  {
    st.(lastMessage := Some(m["Timestamp" := Num(Whole(nowMs))]))
  }

  /** Store the configuration, start one more reconnect handler, and queue a forced
      reconnect; `None` when the call never returns because the lock is held for good. */
  function Reconfigure(st: State, conf: SubscriberConfig.RosBridgeConfig, now: int): (r: Option<State>)
    ensures r.Some? <==> !st.stuck
    ensures r.Some? ==>
      && r.value.conf == Some(conf)
      && r.value.handlers == st.handlers + [Handler(now, false)]
      && r.value.queue == st.queue + [true]
      && r.value.(conf := st.conf, handlers := st.handlers, queue := st.queue) == st
  {
    if st.stuck then None
    else Some(st.(conf := Some(conf), handlers := st.handlers + [Handler(now, false)], queue := st.queue + [true]))
  }

  /** Clean up, then wait for the retry loop. If it never returns (`None`) the component
      is stuck with the old (closed) node still referenced. Otherwise bind its node and
      subscribe; a type the registries cannot serve, or a failed subscription, leaves the
      old (closed) subscriber in place. */
  function Connect(st: State, node: Option<Node>, creation: Creation): (c: Stepped)
    requires st.conf.Some? && st.conf.value.sensor.Some?
    ensures c.state.stuck <==> st.stuck || node.None?
    ensures node.None? ==> c.state.node == st.node && c.state.subscriber == st.subscriber && c.effects == Cleanup(st)
    ensures node.Some? ==> c.state.node == node
    ensures |c.effects| >= |Cleanup(st)| && c.effects[..|Cleanup(st)|] == Cleanup(st)
    ensures var typeName := st.conf.value.sensor.value.messageType;
      if node.Some? && Messages.GetMessageType(typeName).Ok? && creation.Ok?
      then c.state.subscriber == Some(Subscriber(st.conf.value.sensor.value.topic, creation.value))
      else c.state.subscriber == st.subscriber
    ensures c.state.(node := st.node, subscriber := st.subscriber, stuck := st.stuck) == st
  {
    var closing := Cleanup(st);
    match node
    case None => Stepped(st.(stuck := true), closing)
    case Some(n) =>
      var bound := st.(node := Some(n));
      var sensor := st.conf.value.sensor.value;
      match Messages.GetSubscriberConfigWithHandler(sensor.messageType)
      case Err(e) => Stepped(bound, closing + [SubscriberConfigFailed(e)])
      case Ok(_) =>
        match creation
        case Err(e) => Stepped(bound, closing + [SubscriberCreateFailed(e)])
        case Ok(h) => Stepped(bound.(subscriber := Some(Subscriber(sensor.topic, h))), closing)
  }

  // ---------------------------------------------------------------------------
  // Events

  datatype Event =
    /** A log line from the library. */
    | Log(level: LogLevel, msg: string)
    /** Handler `h` takes the oldest queued request at `at`; if it acts on it, the retry
        loop answers `node`, subscribing answers `creation`, and it finishes at `finishedAt`. */
    | Take(h: nat, at: int, node: Option<Node>, creation: Creation, finishedAt: int)

  /** The take removes the oldest request: the handler exists, is not blocked, and a
      request is queued. Cancellation does not prevent it: a handler's `select` may pick
      a queued request over the cancelled context, and a handler that took a request
      just before a close runs its reconnect once the close releases the lock. */
  predicate Pops(st: State, e: Event) {
    e.Take? && e.h < |st.handlers| && !st.handlers[e.h].blocked && |st.queue| > 0
  }

  /** A request is acted on when forced, or a full second after the handler's last one. */
  predicate Accepts(st: State, e: Event) {
    Pops(st, e) && (st.queue[0] || e.at - st.handlers[e.h].lastReconnect >= OneSecondMs)
  }

  /** Cancel the handlers, then clean up; `None` when the call never returns because the
      lock is held for good. The closed handles stay referenced, so a later cleanup
      closes the same handles again. */
  function Close(st: State): (c: Option<Stepped>)
    ensures c.Some? <==> !st.stuck
    ensures c.Some? ==> c.value.effects == Cleanup(st)
    ensures c.Some? ==> c.value.state.cancelled && !c.value.state.stuck
    ensures c.Some? ==> Cleanup(c.value.state) == Cleanup(st)
  {
    if st.stuck then None else Some(Stepped(st.(cancelled := true), Cleanup(st)))
  }

  /** One event. A take that does not pop changes nothing; a fatal log line ends the
      process and is not modelled further. A handler that acts on a request while the
      lock is held for good blocks waiting for it. */
  function Step(st: State, e: Event): (s: Stepped)
    requires st.conf.Some? && st.conf.value.sensor.Some?
    ensures e.Log? ==> s.effects == [] && s.state.queue == st.queue + (if OnLog(e.level, e.msg).reconnect then [false] else [])
    ensures e.Take? && !Pops(st, e) ==> s == Stepped(st, [])
    ensures Pops(st, e) ==> s.state.queue == st.queue[1..]
    ensures Pops(st, e) && !Accepts(st, e) ==> s == Stepped(st.(queue := st.queue[1..]), [])
    ensures Accepts(st, e) && st.stuck ==>
      s == Stepped(st.(queue := st.queue[1..], handlers := st.handlers[e.h := st.handlers[e.h].(blocked := true)]), [])
    ensures Accepts(st, e) && !st.stuck && e.node.None? ==>
      && s.state.stuck
      && s.state.handlers == st.handlers[e.h := st.handlers[e.h].(blocked := true)]
      && s.effects == Cleanup(st)
    ensures Accepts(st, e) && !st.stuck && e.node.Some? ==>
      && !s.state.stuck
      && s.state.handlers == st.handlers[e.h := Handler(e.finishedAt, false)]
      && s.state.node == e.node
      && s.effects == Connect(st, e.node, e.creation).effects
    ensures st.stuck ==> s.state.stuck && s.effects == []
    ensures s.state.conf == st.conf && s.state.lastMessage == st.lastMessage && s.state.cancelled == st.cancelled
  {
    match e
    case Log(level, msg) =>
      Stepped(if OnLog(level, msg).reconnect then st.(queue := st.queue + [false]) else st, [])
    case Take(h, at, node, creation, finishedAt) =>
      if !Pops(st, e) then Stepped(st, [])
      else
        var rest := st.(queue := st.queue[1..]);
        if !Accepts(st, e) then Stepped(rest, [])
        else if st.stuck then
          Stepped(rest.(handlers := st.handlers[h := st.handlers[h].(blocked := true)]), [])
        else
          var c := Connect(rest, node, creation);
          if c.state.stuck then
            Stepped(c.state.(handlers := st.handlers[h := st.handlers[h].(blocked := true)]), c.effects)
          else
            Stepped(c.state.(handlers := st.handlers[h := Handler(finishedAt, false)]), c.effects)
  }

  /** A received message, passed through the callback for its type. While the lock is
      held for good the callback blocks and nothing is stored. */
  function Deliver(st: State, cb: Messages.Callback, msg: Typed, nowMs: int): (r: State)
    requires msg.TStruct? && msg.ty == cb.accepts && Conforms(StructK(cb.accepts), msg)
  {
    if st.stuck then st
    else
      match Messages.Invoke(cb, msg)
      case Some(m) => SetLastMessage(st, m, nowMs)
      case None => st
  }

  // ---------------------------------------------------------------------------
  // Properties

  /** After a message arrives the readings are its fields, keyed by Go field name (the
      package marker included), plus the receive time; a message that cannot be
      marshalled leaves the readings as they were. */
  lemma ReadingsAfterDelivery(st: State, cb: Messages.Callback, msg: Typed, nowMs: int)
    requires msg.TStruct? && msg.ty == cb.accepts && Conforms(StructK(cb.accepts), msg)
    ensures var r := Readings(Deliver(st, cb, msg, nowMs));
      && (r.Some? <==> !st.stuck)
      && (!st.stuck && FiniteTyped(msg) ==>
           && r.value.Keys == (set j | 0 <= j < |Schema(msg.ty)| :: Schema(msg.ty)[j].name) + {"Timestamp"}
           && r.value["Timestamp"] == Num(Whole(nowMs)))
      && (!FiniteTyped(msg) ==> r == Readings(st))
  {
  }

  /** A reconfiguration queues its forced request behind every request already pending;
      the new handler starts unblocked. */
  lemma ReconfigureForcesReconnect(st: State, conf: SubscriberConfig.RosBridgeConfig, now: int)
    requires !st.stuck
    ensures var r := Reconfigure(st, conf, now);
      && r.Some?
      && r.value.queue[..|st.queue|] == st.queue
      && r.value.queue[|st.queue|]
      && |r.value.handlers| == |st.handlers| + 1
      && !r.value.handlers[|st.handlers|].blocked
  {
    var r := Reconfigure(st, conf, now).value;
    assert r.queue[..|st.queue|] == st.queue;
  }

  /** When the oldest request is forced, any unblocked handler acts on it, however
      recently that handler last reconnected, and restarts its clock if the retry loop
      returns. */
  lemma ForcedTakeAccepted(st: State, h: nat, at: int, node: Option<Node>, creation: Creation, finishedAt: int)
    requires st.conf.Some? && st.conf.value.sensor.Some?
    requires h < |st.handlers| && !st.handlers[h].blocked && |st.queue| > 0 && st.queue[0]
    ensures Accepts(st, Take(h, at, node, creation, finishedAt))
    ensures var s := Step(st, Take(h, at, node, creation, finishedAt)).state;
      && s.queue == st.queue[1..]
      && (!st.stuck && node.Some? ==> s.node == node && s.handlers[h] == Handler(finishedAt, false))
  {
  }

  /** A reconnect whose retry loop never returns holds the lock for good: readings,
      closing and reconfiguring never return, any handler that later acts on a request
      blocks, and no event changes this. */
  lemma StuckRetryBlocksComponent(st: State, h: nat, at: int, creation: Creation, finishedAt: int,
                                  conf: SubscriberConfig.RosBridgeConfig, now: int, e: Event)
    requires st.conf.Some? && st.conf.value.sensor.Some?
    requires !st.stuck && Accepts(st, Take(h, at, None, creation, finishedAt))
    ensures var s := Step(st, Take(h, at, None, creation, finishedAt)).state;
      && s.stuck && s.handlers[h].blocked
      && Readings(s).None? && Close(s).None? && Reconfigure(s, conf, now).None?
      && Step(s, e).state.stuck && Step(s, e).effects == []
  {
  }

  /** A non-forced request within a second of the handler's last reconnect is dropped. */
  lemma DebounceDropsEarlyRequests(st: State, h: nat, at: int, node: Option<Node>, creation: Creation, finishedAt: int)
    requires st.conf.Some? && st.conf.value.sensor.Some?
    requires h < |st.handlers| && !st.handlers[h].blocked && |st.queue| > 0 && !st.queue[0]
    requires at - st.handlers[h].lastReconnect < OneSecondMs
    ensures Step(st, Take(h, at, node, creation, finishedAt)) == Stepped(st.(queue := st.queue[1..]), [])
  {
  }

  /** When subscribing fails, the subscriber the cleanup closed stays referenced, so the
      next cleanup closes it a second time. */
  lemma FailedConnectClosesSubscriberTwice(st: State, node: Node, err: string)
    requires st.conf.Some? && st.conf.value.sensor.Some? && st.subscriber.Some? && !st.stuck
    ensures var c := Connect(st, Some(node), Err(err));
      && c.effects[0] == CloseSubscriber(st.subscriber.value)
      && Close(c.state).Some?
      && Close(c.state).value.effects[0] == CloseSubscriber(st.subscriber.value)
  {
  }

  // ---------------------------------------------------------------------------
  // Reconnects after close

  /** As written, closing does not stop a handler that takes a request: it closes the
      handles the close already closed, then binds a new node and subscriber that
      nothing closes, on a component that is closed. */
  lemma ReconnectAfterClose(st: State, h: nat, at: int, node: Node, handle: nat, finishedAt: int)
    requires st.conf.Some? && st.conf.value.sensor.Some? && !st.stuck
    requires h < |st.handlers| && !st.handlers[h].blocked && |st.queue| > 0
    requires at - st.handlers[h].lastReconnect >= OneSecondMs
    requires Messages.GetMessageType(st.conf.value.sensor.value.messageType).Ok?
    ensures var closed := Close(st).value;
      var s := Step(closed.state, Take(h, at, Some(node), Ok(handle), finishedAt));
      && s.state.cancelled
      && s.effects == closed.effects
      && s.state.node == Some(node)
      && s.state.subscriber == Some(Subscriber(st.conf.value.sensor.value.topic, handle))
  {
  }

  /** One event when a reconnect first checks for cancellation: on a closed component a
      take only removes its request; every other case is as written. */
  function StepIntended(st: State, e: Event): (s: Stepped)
    requires st.conf.Some? && st.conf.value.sensor.Some?
    ensures !st.cancelled ==> s == Step(st, e)
    ensures st.cancelled ==> s.effects == [] && s.state.(queue := st.queue) == st
    ensures s.state.conf == st.conf
  {
    if !st.cancelled || e.Log? then Step(st, e)
    else if Pops(st, e) then Stepped(st.(queue := st.queue[1..]), [])
    else Stepped(st, [])
  }

  /** A run of events with the corrected step. */
  function RunIntended(st: State, events: seq<Event>): Stepped
    requires st.conf.Some? && st.conf.value.sensor.Some?
    decreases |events|
  {
    if |events| == 0 then Stepped(st, [])
    else
      var first := StepIntended(st, events[0]);
      var rest := RunIntended(first.state, events[1..]);
      Stepped(rest.state, first.effects + rest.effects)
  }

  /** With the corrected step, a cancelled component does nothing whatever events follow:
      only its queue changes. */
  lemma {:induction false} CancelledRunChangesOnlyQueue(st: State, events: seq<Event>)
    requires st.conf.Some? && st.conf.value.sensor.Some? && st.cancelled
    ensures RunIntended(st, events).effects == []
    ensures RunIntended(st, events).state.(queue := st.queue) == st
    decreases |events|
  {
    if |events| > 0 {
      var first := StepIntended(st, events[0]);
      CancelledRunChangesOnlyQueue(first.state, events[1..]);
    }
  }

  /** With the corrected step, once closed the component stays closed: no later event
      closes or binds anything, and the handles the close released are left alone. */
  lemma {:induction false} ClosedComponentStaysClosed(st: State, events: seq<Event>)
    requires st.conf.Some? && st.conf.value.sensor.Some? && !st.stuck
    ensures var closed := Close(st).value.state;
      var r := RunIntended(closed, events);
      && r.effects == []
      && r.state.cancelled && !r.state.stuck
      && r.state.node == st.node && r.state.subscriber == st.subscriber
  {
    CancelledRunChangesOnlyQueue(Close(st).value.state, events);
  }

  /** A sequence of reconfigurations, applied in order; `None` once one never returns. */
  function ReconfigureAll(st: State, confs: seq<SubscriberConfig.RosBridgeConfig>, now: int): Option<State>
    decreases |confs|
  {
    if |confs| == 0 then Some(st)
    else
      match Reconfigure(st, confs[0], now)
      case None => None
      case Some(next) => ReconfigureAll(next, confs[1..], now)
  }

  /** Every reconfiguration adds a handler and none is ever removed; reconfigurations
      return exactly when the lock is not held for good. */
  lemma {:induction false} HandlersAccumulate(st: State, confs: seq<SubscriberConfig.RosBridgeConfig>, now: int)
    ensures ReconfigureAll(st, confs, now).Some? <==> !st.stuck || |confs| == 0
    ensures ReconfigureAll(st, confs, now).Some? ==>
      && |ReconfigureAll(st, confs, now).value.handlers| == |st.handlers| + |confs|
      && ReconfigureAll(st, confs, now).value.handlers[..|st.handlers|] == st.handlers
    decreases |confs|
  {
    if |confs| > 0 && !st.stuck {
      var next := Reconfigure(st, confs[0], now).value;
      HandlersAccumulate(next, confs[1..], now);
      assert next.handlers[..|st.handlers|] == st.handlers;
      var last := ReconfigureAll(next, confs[1..], now);
      if last.Some? {
        assert last.value.handlers[..|st.handlers|] == last.value.handlers[..|next.handlers|][..|st.handlers|];
      }
    }
  }
}
