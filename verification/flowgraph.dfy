/** The weighted flow graph that the dashboard service builds and the flow page draws: nodes with
    an id and a colour, and links that carry a value from a source id to a target id. */
module Flows {

  datatype Node = Node(id: string, color: string)

  datatype Link = Link(source: string, target: string, value: int)

  datatype FlowGraph = FlowGraph(nodes: seq<Node>, links: seq<Link>)

  /** Sum of the values of the links (`reduce((s, l) => s + l.value, 0)`). */
  function Total(links: seq<Link>): int {
    if links == [] then 0 else links[0].value + Total(links[1..])
  }

  /** The links that end at `id`, in order. */
  function Incoming(links: seq<Link>, id: string): (r: seq<Link>)
    ensures forall l :: l in r <==> l in links && l.target == id
    ensures |r| <= |links|
  {
    if links == [] then []
    else (if links[0].target == id then [links[0]] else []) + Incoming(links[1..], id)
  }

  /** The links that start at `id`, in order. */
  function Outgoing(links: seq<Link>, id: string): (r: seq<Link>)
    ensures forall l :: l in r <==> l in links && l.source == id
    ensures |r| <= |links|
  {
    if links == [] then []
    else (if links[0].source == id then [links[0]] else []) + Outgoing(links[1..], id)
  }

  function InFlow(links: seq<Link>, id: string): int {
    Total(Incoming(links, id))
  }

  function OutFlow(links: seq<Link>, id: string): int {
    Total(Outgoing(links, id))
  }

  predicate Touches(l: Link, id: string) {
    l.source == id || l.target == id
  }

  /** `id` is the source or the target of some link. */
  predicate IsEndpoint(links: seq<Link>, id: string) {
    exists l :: l in links && Touches(l, id)
  }

  predicate HasNode(nodes: seq<Node>, id: string) {
    exists n :: n in nodes && n.id == id
  }

  predicate DistinctIds(nodes: seq<Node>) {
    forall i, j :: 0 <= i < j < |nodes| ==> nodes[i].id != nodes[j].id
  }

  lemma {:induction false} TotalAppend(a: seq<Link>, b: seq<Link>)
    ensures Total(a + b) == Total(a) + Total(b)
  {
    if a == [] {
      assert a + b == b;
    } else {
      assert (a + b)[1..] == a[1..] + b;
      TotalAppend(a[1..], b);
    }
  }

  /** The flow into and out of `id` of a non-empty list: the first link's share plus the rest's. */
  lemma FlowCons(links: seq<Link>, id: string)
    requires links != []
    ensures InFlow(links, id) == (if links[0].target == id then links[0].value else 0) + InFlow(links[1..], id)
    ensures OutFlow(links, id) == (if links[0].source == id then links[0].value else 0) + OutFlow(links[1..], id)
  {
    var l := links[0];
    TotalAppend(if l.target == id then [l] else [], Incoming(links[1..], id));
    TotalAppend(if l.source == id then [l] else [], Outgoing(links[1..], id));
    assert [l][1..] == [];
  }

  lemma {:induction false} IncomingConcat(a: seq<Link>, b: seq<Link>, id: string)
    ensures Incoming(a + b, id) == Incoming(a, id) + Incoming(b, id)
  {
    if a == [] {
      assert a + b == b;
    } else {
      assert (a + b)[0] == a[0];
      assert (a + b)[1..] == a[1..] + b;
      IncomingConcat(a[1..], b, id);
    }
  }

  /** The flow into `id` of two lists joined is the sum of their flows into it. */
  lemma InFlowConcat(a: seq<Link>, b: seq<Link>, id: string)
    ensures InFlow(a + b, id) == InFlow(a, id) + InFlow(b, id)
  {
    IncomingConcat(a, b, id);
    TotalAppend(Incoming(a, id), Incoming(b, id));
  }

  /** The flow into `id` of a single link. */
  lemma InFlowOne(l: Link, id: string)
    ensures InFlow([l], id) == if l.target == id then l.value else 0
  {
    FlowCons([l], id);
    assert [l][1..] == [];
    assert Incoming([], id) == [];
  }

  lemma {:induction false} TotalPositive(links: seq<Link>)
    requires forall l :: l in links ==> l.value > 0
    ensures Total(links) >= 0
    ensures Total(links) == 0 <==> links == []
  {
    if links != [] {
      TotalPositive(links[1..]);
    }
  }
}
