/** The sensor consumer: like the subscriber, but it takes its node from the shared
    node table and has no reconnect logic. Its cleanup shuts down the whole table. */
module Consumer {
  import opened Wrappers
  import opened Wire
  import opened Ros
  import Messages
  import Rosnode
  import ConsumerConfig

  type ValueMap = map<string, Value>

  /** The component. `subscriber` is not cleared by cleanup; `node` is overwritten by
      every node lookup, with `None` when the lookup fails. */
  datatype State = State(node: Option<Node>, subscriber: Option<Subscriber>, lastMessage: Option<ValueMap>)

  const Initial: State := State(None, None, None)

  datatype Effect =
    | CloseSubscriber(subscriber: Subscriber)
    | ShutdownNodes(closed: set<Node>)

  /** Why a reconfiguration failed. */
  datatype ReconfigureError = NodeError(err: string) | TypeError(error: Error) | SubscribeError(err: string)

  /** The latest map received, verbatim; `None` before the first message. */
  function Readings(st: State): Option<ValueMap> {
    st.lastMessage
  }

  /** Store a received map as it is, with no timestamp added. */
  function SetLastMessage(st: State, m: ValueMap): (r: State)
    ensures r.lastMessage == Some(m)
    ensures r.(lastMessage := st.lastMessage) == st
  {
    st.(lastMessage := Some(m))
  }

  datatype Cleaned = Cleaned(effects: seq<Effect>, table: Rosnode.Table)

  /** Close the subscriber if there is one; if a node is held, shut down every node in
      the shared table, not only this component's. */
  function Cleanup(st: State, table: Rosnode.Table): (r: Cleaned)
    ensures st.node.None? ==> r.table == table
    ensures st.node.Some? ==> r.table == Rosnode.ShutdownNodes(table).table
    ensures |r.effects| == (if st.subscriber.Some? then 1 else 0) + (if st.node.Some? then 1 else 0)
    ensures st.subscriber.Some? ==> r.effects[0] == CloseSubscriber(st.subscriber.value)
    ensures st.node.Some? ==> r.effects[|r.effects| - 1] == ShutdownNodes(Rosnode.ShutdownNodes(table).closed)
  {
    var closeSub := if st.subscriber.Some? then [CloseSubscriber(st.subscriber.value)] else [];
    if st.node.Some? then
      var s := Rosnode.ShutdownNodes(table);
      Cleaned(closeSub + [ShutdownNodes(s.closed)], s.table)
    else Cleaned(closeSub, table)
  }

  datatype Reconfigured = Reconfigured(state: State, table: Rosnode.Table, err: Option<ReconfigureError>, effects: seq<Effect>)

  /** Clean up, get the node for the configured address from the shared table, then
      subscribe. `creation` is what the node constructor answers if the table has no node
      for the address, `subscription` what subscribing answers. */
  function Reconfigure(st: State, table: Rosnode.Table, conf: ConsumerConfig.RosBridgeConfig,
                       creation: Creation, subscription: Creation): (r: Reconfigured)
    requires conf.sensor.Some?
  {
    var c := Cleanup(st, table);
    var g := Rosnode.GetInstance(c.table, conf.primaryUri, creation);
    match g.result
    case Err(e) => Reconfigured(st.(node := None), g.table, Some(NodeError(e)), c.effects)
    case Ok(node) =>
      var bound := st.(node := Some(node));
      match Messages.GetSubscriberConfigWithHandler(conf.sensor.value.typeName)
      case Err(e) => Reconfigured(bound, g.table, Some(TypeError(e)), c.effects)
      case Ok(_) =>
        match subscription
        case Err(e) => Reconfigured(bound, g.table, Some(SubscribeError(e)), c.effects)
        case Ok(h) => Reconfigured(bound.(subscriber := Some(Subscriber(conf.sensor.value.topic, h))), g.table, None, c.effects)
  }

  /** Closing is cleaning up. */
  function Close(st: State, table: Rosnode.Table): Cleaned {
    Cleanup(st, table)
  }

  // ---------------------------------------------------------------------------
  // Properties

  /** Reconfiguration always cleans up first, and its error is the first failing step's:
      node lookup, then type lookup, then subscribing. Only success stores a new
      subscriber; on any error the old one stays referenced. */
  lemma ReconfigureOutcome(st: State, table: Rosnode.Table, conf: ConsumerConfig.RosBridgeConfig,
                           creation: Creation, subscription: Creation)
    requires conf.sensor.Some?
    ensures var r := Reconfigure(st, table, conf, creation, subscription);
      var c := Cleanup(st, table);
      var g := Rosnode.GetInstance(c.table, conf.primaryUri, creation);
      var typeName := conf.sensor.value.typeName;
      && r.effects == c.effects
      && r.table == g.table
      && (g.result.Err? ==> r.err == Some(NodeError(g.result.error)) && r.state.node.None?)
      && (g.result.Ok? ==> r.state.node == Some(g.result.value))
      && (g.result.Ok? && Messages.GetMessageType(typeName).Err? ==> r.err == Some(TypeError(TypeNotFound)))
      && (g.result.Ok? && Messages.GetMessageType(typeName).Ok? && subscription.Err? ==>
            r.err == Some(SubscribeError(subscription.error)))
      && (r.err.None? <==> g.result.Ok? && Messages.GetMessageType(typeName).Ok? && subscription.Ok?)
      && (r.err.None? ==> r.state.subscriber == Some(Subscriber(conf.sensor.value.topic, subscription.value)))
      && (r.err.Some? ==> r.state.subscriber == st.subscriber)
      && r.state.lastMessage == st.lastMessage
  {
  }

  /** A consumer holding a node shuts down every node of the shared table on cleanup,
      including the nodes other components hold. */
  lemma CleanupClosesEveryTableNode(st: State, table: Rosnode.Table, other: Node)
    requires st.node.Some?
    requires exists a | a in table.nodes :: table.nodes[a] == other
    ensures var c := Cleanup(st, table);
      && c.table.nodes == map[]
      && ShutdownNodes(Rosnode.ShutdownNodes(table).closed) in c.effects
      && other in Rosnode.ShutdownNodes(table).closed
  {
  }

  /** Reconfiguring a consumer that holds a node always creates a new node, even for the
      same address, and the new node's name differs from every closed node's name for
      that address. */
  lemma ReconfigureRenewsNode(st: State, table: Rosnode.Table, conf: ConsumerConfig.RosBridgeConfig, h: nat, subscription: Creation)
    requires conf.sensor.Some? && st.node.Some? && Rosnode.Valid(table)
    ensures var r := Reconfigure(st, table, conf, Ok(h), subscription);
      && r.state.node.Some?
      && r.state.node.value.name == Rosnode.NodeName(conf.primaryUri, table.counter)
      && forall n | n in Rosnode.ShutdownNodes(table).closed && n.master == conf.primaryUri ::
           n.name != r.state.node.value.name
  {
    Rosnode.FreshNameAfterShutdown(table, conf.primaryUri, h);
  }

  /** The consumer stores maps verbatim: unlike the subscriber, it adds no timestamp, and
      before the first message its readings are absent rather than empty. */
  lemma ReadingsVerbatim(st: State, m: ValueMap)
    ensures Readings(SetLastMessage(st, m)) == Some(m)
    ensures Readings(Initial).None?
  {
  }
}
