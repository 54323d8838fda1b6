/** The process-wide node table: at most one session per master address, created on
    first request and named from the address and a creation counter that survives
    shutdown. The mutex that guards the table is left out; operations are applied one
    at a time. */
module Rosnode {
  import opened Wrappers
  import opened Strings
  import opened Ros

  datatype Table = Table(nodes: map<string, Node>, counter: nat)

  /** The table at process start. */
  const InitialTable: Table := Table(map[], 0)

  const NamePrefix: string := "viamrosnode_"

  /** The session name for the `i`-th creation, made for address `primary`. */
  function NodeName(primary: string, i: nat): string {
    NamePrefix + primary + NatToString(i)
  }

  /** The answer of `GetInstance` and the table after it. */
  datatype Got = Got(result: Result<Node, string>, table: Table)

  /** Every stored node belongs to the address it is stored under, and was named with a
      counter value already used up. */
  predicate Valid(t: Table) {
    forall a | a in t.nodes ::
      && t.nodes[a].master == a
      && exists c | 0 <= c < t.counter :: t.nodes[a].name == NodeName(a, c)
  }

  /** Get-or-create. `creation` is what the library's node constructor returns when it is
      called; it is ignored on a hit. */
  function GetInstance(t: Table, primary: string, creation: Creation): (r: Got)
    ensures primary in t.nodes ==> r == Got(Ok(t.nodes[primary]), t)
    ensures primary !in t.nodes && creation.Err? ==> r == Got(Err(creation.error), t)
    ensures primary !in t.nodes && creation.Ok? ==>
      && r.result.Ok?
      && r.result.value.name == NodeName(primary, t.counter)
      && r.result.value.master == primary
      && r.table.nodes == t.nodes[primary := r.result.value]
      && r.table.counter == t.counter + 1
  {
    if primary in t.nodes then Got(Ok(t.nodes[primary]), t)
    else
      match creation
      case Err(e) => Got(Err(e), t)
      case Ok(h) =>
        var node := Node(NodeName(primary, t.counter), primary, h);
        Got(Ok(node), Table(t.nodes[primary := node], t.counter + 1))
  }

  /** The nodes closed by `ShutdownNodes` and the table after it. */
  datatype Closed = Closed(closed: set<Node>, table: Table)

  /** Close every stored node, then empty the table; the counter is kept. */
  function ShutdownNodes(t: Table): (r: Closed)
    ensures forall n :: n in r.closed <==> exists a | a in t.nodes :: t.nodes[a] == n
    ensures r.table.nodes == map[] && r.table.counter == t.counter
  {
    Closed(set a | a in t.nodes :: t.nodes[a], Table(map[], t.counter))
  }

  // ---------------------------------------------------------------------------
  // Properties of one call

  /** Two names made for one address with different counter values differ. */
  lemma NodeNameInjective(primary: string, i: nat, j: nat)
    requires NodeName(primary, i) == NodeName(primary, j)
    ensures i == j
  {
    AppendCancel(NamePrefix + primary, NatToString(i), NatToString(j));
    NatToStringInjective(i, j);
  }

  /** `GetInstance` keeps the table valid and never lowers the counter. */
  lemma GetInstancePreservesValid(t: Table, primary: string, creation: Creation)
    requires Valid(t)
    ensures Valid(GetInstance(t, primary, creation).table)
    ensures GetInstance(t, primary, creation).table.counter >= t.counter
  {
    var t' := GetInstance(t, primary, creation).table;
    forall a | a in t'.nodes
      ensures t'.nodes[a].master == a
      ensures exists c | 0 <= c < t'.counter :: t'.nodes[a].name == NodeName(a, c)
    {
      if a in t.nodes && t'.nodes[a] == t.nodes[a] {
        var c :| 0 <= c < t.counter && t.nodes[a].name == NodeName(a, c);
        assert 0 <= c < t'.counter;
      } else {
        assert t'.counter == t.counter + 1;
        assert t'.nodes[a].name == NodeName(a, t.counter);
      }
    }
  }

  /** Once an address has a node, every later request for it returns that node and leaves
      the table alone, whatever the library would have answered. */
  lemma GetInstanceReturnsStoredNode(t: Table, primary: string, first: Creation, second: Creation)
    requires GetInstance(t, primary, first).result.Ok?
    ensures var g := GetInstance(t, primary, first);
      GetInstance(g.table, primary, second) == Got(g.result, g.table)
  {
  }

  /** A node created after a shutdown never reuses the name of a node the shutdown
      closed for the same address, because the counter is not reset. */
  lemma FreshNameAfterShutdown(t: Table, primary: string, h: nat)
    requires Valid(t)
    ensures var s := ShutdownNodes(t);
      var g := GetInstance(s.table, primary, Ok(h));
      && g.result.Ok?
      && forall n | n in s.closed && n.master == primary :: n.name != g.result.value.name
  {
    var s := ShutdownNodes(t);
    var g := GetInstance(s.table, primary, Ok(h));
    forall n | n in s.closed && n.master == primary
      ensures n.name != g.result.value.name
    {
      var a :| a in t.nodes && t.nodes[a] == n;
      var c :| 0 <= c < t.counter && n.name == NodeName(a, c);
      if n.name == g.result.value.name {
        NodeNameInjective(primary, c, t.counter);
      }
    }
  }

  // ---------------------------------------------------------------------------
  // Runs of requests

  datatype Op = Get(primary: string, creation: Creation) | Shutdown

  /** The table after a run of requests, and the nodes created along it, in order. */
  datatype Trace = Trace(table: Table, created: seq<Node>)

  /** One request: the table after it and the node it created, if any. */
  function Apply(t: Table, op: Op): Trace {
    match op
    case Get(a, c) =>
      var g := GetInstance(t, a, c);
      Trace(g.table, if g.table.counter == t.counter then [] else [g.result.value])
    case Shutdown => Trace(ShutdownNodes(t).table, [])
  }

  function Run(t: Table, ops: seq<Op>): (r: Trace)
    decreases |ops|
  {
    if |ops| == 0 then Trace(t, [])
    else
      var step := Apply(t, ops[0]);
      var rest := Run(step.table, ops[1..]);
      Trace(rest.table, step.created + rest.created)
  }

  /** Along a run, the `i`-th created node carries the counter value the run started
      with plus `i`, and the counter ends up raised by exactly the number of creations. */
  lemma {:induction false} RunNamesNodesInOrder(t: Table, ops: seq<Op>)
    ensures var r := Run(t, ops);
      && r.table.counter == t.counter + |r.created|
      && forall i | 0 <= i < |r.created| :: r.created[i].name == NodeName(r.created[i].master, t.counter + i)
    decreases |ops|
  {
    if |ops| > 0 {
      var t1 := Apply(t, ops[0]).table;
      RunNamesNodesInOrder(t1, ops[1..]);
    }
  }

  /** Along a run, the nodes created for one address have pairwise distinct names. */
  lemma RunCreatedNamesDistinct(t: Table, ops: seq<Op>)
    ensures var c := Run(t, ops).created;
      forall i, j | 0 <= i < j < |c| && c[i].master == c[j].master :: c[i].name != c[j].name
  {
    var c := Run(t, ops).created;
    RunNamesNodesInOrder(t, ops);
    forall i, j | 0 <= i < j < |c| && c[i].master == c[j].master
      ensures c[i].name != c[j].name
    {
      if c[i].name == c[j].name {
        NodeNameInjective(c[i].master, t.counter + i, t.counter + j);
      }
    }
  }

  /** Every run keeps the table valid. */
  lemma {:induction false} RunPreservesValid(t: Table, ops: seq<Op>)
    requires Valid(t)
    ensures Valid(Run(t, ops).table)
    decreases |ops|
  {
    if |ops| > 0 {
      var t1 := Apply(t, ops[0]).table;
      if ops[0].Get? {
        GetInstancePreservesValid(t, ops[0].primary, ops[0].creation);
      }
      RunPreservesValid(t1, ops[1..]);
    }
  }
}
