/** The flow page's stage hiding (`filterSankeyData`): every hidden id is removed in turn, its
    throughput bridged proportionally from its predecessors to its successors, or, when nothing
    enters it, its successors' unexplained outflow redirected into synthetic "At X" sink nodes;
    finally nodes that no link touches are dropped. Also the set of hidden ids the page keeps. */
module Elision {
  import opened Wrappers
  import opened Flows
  import opened Tallies
  import JsNumbers
  import SankeyBuilder

  /** `links.filter((l) => l.source !== id && l.target !== id)`. */
  function Untouched(links: seq<Link>, id: string): (r: seq<Link>)
    ensures forall l :: l in r <==> l in links && !Touches(l, id)
    ensures |r| <= |links|
  {
    if links == [] then []
    else (if Touches(links[0], id) then [] else [links[0]]) + Untouched(links[1..], id)
  }

  /** `nodes.filter((n) => n.id !== id)`. */
  function RemoveNode(nodes: seq<Node>, id: string): (r: seq<Node>)
    ensures forall n :: n in r <==> n in nodes && n.id != id
  {
    if nodes == [] then []
    else (if nodes[0].id == id then [] else [nodes[0]]) + RemoveNode(nodes[1..], id)
  }

  /** `links.filter((l) => l.source === from && l.target !== id)`. */
  function Onward(links: seq<Link>, from: string, id: string): (r: seq<Link>)
    ensures forall l :: l in r <==> l in links && l.source == from && l.target != id
  {
    if links == [] then []
    else (if links[0].source == from && links[0].target != id then [links[0]] else []) + Onward(links[1..], from, id)
  }

  /** `nodes.find((n) => n.id === id)`. */
  function FindNode(nodes: seq<Node>, id: string): (r: Option<Node>)
    ensures r.Some? ==> r.value in nodes && r.value.id == id
    ensures r.None? ==> !HasNode(nodes, id)
  {
    if nodes == [] then None
    else if nodes[0].id == id then Some(nodes[0])
    else FindNode(nodes[1..], id)
  }

  /** Index of `bridged.find((l) => l.source === source && l.target === target)`, or the length
      when there is none. */
  function FindLink(bridged: seq<Link>, source: string, target: string): (k: nat)
    ensures k <= |bridged|
    ensures k < |bridged| ==> bridged[k].source == source && bridged[k].target == target
    ensures forall i :: 0 <= i < k ==> !(bridged[i].source == source && bridged[i].target == target)
  {
    if bridged == [] then 0
    else if bridged[0].source == source && bridged[0].target == target then 0
    else 1 + FindLink(bridged[1..], source, target)
  }

  /** A contribution `v` from `source` to `target`: dropped unless positive, added to an earlier
      bridged link with the same endpoints, appended otherwise. */
  function AddContribution(bridged: seq<Link>, source: string, target: string, v: int): seq<Link> {
    if v <= 0 then bridged
    else
      var k := FindLink(bridged, source, target);
      if k < |bridged| then bridged[k := Link(source, target, bridged[k].value + v)]
      else bridged + [Link(source, target, v)]
  }

  /** `Math.round(out.value * (inc.value / totalIn))`. */
  function Share(out: Link, inc: Link, totalIn: int): int
    requires totalIn > 0
  {
    JsNumbers.Round(out.value * inc.value, totalIn)
  }

  /** The inner loop of the pass-through case: one outgoing link against the incoming links. */
  function BridgeOut(bridged: seq<Link>, incs: seq<Link>, out: Link, totalIn: int): seq<Link>
    requires totalIn > 0
  {
    if incs == [] then bridged
    else
      var inc := incs[|incs| - 1];
      AddContribution(BridgeOut(bridged, incs[..|incs| - 1], out, totalIn), inc.source, out.target, Share(out, inc, totalIn))
  }

  /** The pass-through case: every outgoing link against every incoming link. */
  function PassThrough(incoming: seq<Link>, outs: seq<Link>, totalIn: int): seq<Link>
    requires totalIn > 0
  {
    if outs == [] then []
    else BridgeOut(PassThrough(incoming, outs[..|outs| - 1], totalIn), incoming, outs[|outs| - 1], totalIn)
  }

  /** The id of the sink node that collects what leaves `x` unexplained. */
  function SinkId(x: string): (r: string)
    ensures |r| == |x| + 3
  {
    "At " + x
  }

  /** `nodes.find((n) => n.id === id)?.nodeColor ?? "#94a3b8"`. */
  function ColorOf(nodes: seq<Node>, id: string): string {
    match FindNode(nodes, id)
    case Some(n) => n.color
    case None => "#94a3b8"
  }

  /** What the sink case accumulates: the bridged links and the node list. */
  datatype SinkState = SinkState(bridged: seq<Link>, nodes: seq<Node>)

  /** `out.value` minus the value of the links that leave `out.target` other than back to `id`. */
  function Remainder(links: seq<Link>, out: Link, id: string): int {
    out.value - Total(Onward(links, out.target, id))
  }

  /** One iteration of the sink case. */
  function SinkStep(st: SinkState, links: seq<Link>, out: Link, id: string): SinkState {
    var remainder := Remainder(links, out, id);
    if remainder <= 0 then st
    else
      var sink := SinkId(out.target);
      var bridged := st.bridged + [Link(out.target, sink, remainder)];
      if FindNode(st.nodes, sink).Some? then SinkState(bridged, st.nodes)
      else SinkState(bridged, st.nodes + [Node(sink, ColorOf(st.nodes, out.target))])
  }

  /** The sink case over the outgoing links `outs`. */
  function Sinks(links: seq<Link>, nodes: seq<Node>, outs: seq<Link>, id: string): SinkState {
    if outs == [] then SinkState([], nodes)
    else SinkStep(Sinks(links, nodes, outs[..|outs| - 1], id), links, outs[|outs| - 1], id)
  }

  /** The bridged links and the node list after the case analysis for `id`. */
  function Bridge(g: FlowGraph, id: string): SinkState {
    var incoming := Incoming(g.links, id);
    var outgoing := Outgoing(g.links, id);
    var totalIn := Total(incoming);
    if totalIn > 0 && |outgoing| > 0 then SinkState(PassThrough(incoming, outgoing, totalIn), g.nodes)
    else if totalIn == 0 && |outgoing| > 0 then Sinks(g.links, g.nodes, outgoing, id)
    else SinkState([], g.nodes)
  }

  /** One iteration of the loop over the hidden ids. */
  function ElideOne(g: FlowGraph, id: string): FlowGraph {
    var b := Bridge(g, id);
    FlowGraph(RemoveNode(b.nodes, id), Untouched(g.links, id) + b.bridged)
  }

  /** The loop over the hidden ids, in the set's iteration order. */
  function ElideAll(g: FlowGraph, hidden: seq<string>): FlowGraph {
    if hidden == [] then g
    else ElideOne(ElideAll(g, hidden[..|hidden| - 1]), hidden[|hidden| - 1])
  }

  /** `nodes.filter((n) => linked.has(n.id))`. */
  function KeepLinked(nodes: seq<Node>, links: seq<Link>): (r: seq<Node>)
    ensures forall n :: n in r <==> n in nodes && IsEndpoint(links, n.id)
  {
    if nodes == [] then []
    else (if IsEndpoint(links, nodes[0].id) then [nodes[0]] else []) + KeepLinked(nodes[1..], links)
  }

  /** `filterSankeyData(data, hidden)`. */
  function FilterSankey(g: FlowGraph, hidden: seq<string>): FlowGraph {
    if hidden == [] then g
    else
      var e := ElideAll(g, hidden);
      FlowGraph(KeepLinked(e.nodes, e.links), e.links)
  }

  /** `filterSankeyData(data, hidden)`, with the hidden ids in the set's iteration order. */
  method FilterSankeyData(data: FlowGraph, hidden: seq<string>) returns (r: FlowGraph)
    ensures r == FilterSankey(data, hidden)
    ensures hidden == [] ==> r == data
  {
    if |hidden| == 0 {
      return data;
    }
    var links := data.links;
    var nodes := data.nodes;
    for h := 0 to |hidden|
      invariant FlowGraph(nodes, links) == ElideAll(data, hidden[..h])
    {
      assert hidden[..h + 1][..h] == hidden[..h];
      var id := hidden[h];
      var incoming := Incoming(links, id);
      var outgoing := Outgoing(links, id);
      var totalIn := Total(incoming);
      var bridged: seq<Link> := [];
      if totalIn > 0 && |outgoing| > 0 {
        bridged := BridgeLinks(incoming, outgoing, totalIn);
      } else if totalIn == 0 && |outgoing| > 0 {
        bridged, nodes := SinkLinks(links, nodes, outgoing, id);
      }
      links := Untouched(links, id) + bridged;
      nodes := RemoveNode(nodes, id);
    }
    assert hidden[..|hidden|] == hidden;
    nodes := KeepLinked(nodes, links);
    r := FlowGraph(nodes, links);
  }

  /** The pass-through case: each outgoing link's value is shared among the incoming links in
      proportion to their values, rounded, and credited from each predecessor to the successor. */
  method BridgeLinks(incoming: seq<Link>, outgoing: seq<Link>, totalIn: int) returns (bridged: seq<Link>)
    requires totalIn > 0
    ensures bridged == PassThrough(incoming, outgoing, totalIn)
  {
    bridged := [];
    for i := 0 to |outgoing|
      invariant bridged == PassThrough(incoming, outgoing[..i], totalIn)
    {
      var out := outgoing[i];
      assert outgoing[..i + 1][..i] == outgoing[..i];
      for j := 0 to |incoming|
        invariant bridged == BridgeOut(PassThrough(incoming, outgoing[..i], totalIn), incoming[..j], out, totalIn)
      {
        var inc := incoming[j];
        assert incoming[..j + 1][..j] == incoming[..j];
        var v := JsNumbers.Round(out.value * inc.value, totalIn);
        if v <= 0 {
          continue;
        }
        var k := FindLink(bridged, inc.source, out.target);
        if k < |bridged| {
          bridged := bridged[k := Link(inc.source, out.target, bridged[k].value + v)];
        } else {
          bridged := bridged + [Link(inc.source, out.target, v)];
        }
      }
      assert incoming[..|incoming|] == incoming;
    }
    assert outgoing[..|outgoing|] == outgoing;
  }

  /** The sink case: what an outgoing link carries beyond what leaves its target elsewhere flows
      into the target's "At" sink, whose node is added once, coloured like the target. */
  method SinkLinks(links: seq<Link>, nodes0: seq<Node>, outgoing: seq<Link>, id: string)
    returns (bridged: seq<Link>, nodes: seq<Node>)
    ensures SinkState(bridged, nodes) == Sinks(links, nodes0, outgoing, id)
  {
    bridged := [];
    nodes := nodes0;
    for i := 0 to |outgoing|
      invariant SinkState(bridged, nodes) == Sinks(links, nodes0, outgoing[..i], id)
    {
      var out := outgoing[i];
      assert outgoing[..i + 1][..i] == outgoing[..i];
      var targetOutSum := Total(Onward(links, out.target, id));
      var remainder := out.value - targetOutSum;
      if remainder > 0 {
        var sinkId := SinkId(out.target);
        bridged := bridged + [Link(out.target, sinkId, remainder)];
        if FindNode(nodes, sinkId).None? {
          var color := ColorOf(nodes, out.target);
          nodes := nodes + [Node(sinkId, color)];
        }
      }
    }
    assert outgoing[..|outgoing|] == outgoing;
  }

  /** No two links join the same source to the same target. */
  predicate DistinctPairs(links: seq<Link>) {
    forall i, j :: 0 <= i < j < |links| ==> !(links[i].source == links[j].source && links[i].target == links[j].target)
  }

  lemma {:induction false} TotalUpdate(links: seq<Link>, k: nat, l: Link)
    requires k < |links|
    ensures Total(links[k := l]) == Total(links) - links[k].value + l.value
  {
    if k > 0 {
      assert links[k := l][1..] == links[1..][k - 1 := l];
      TotalUpdate(links[1..], k - 1, l);
    }
  }

  /** A contribution raises the total by its value when positive, merges into the link with the
      same endpoints, and adds no link between other endpoints. */
  lemma AddContributionFacts(bridged: seq<Link>, source: string, target: string, v: int)
    ensures var r := AddContribution(bridged, source, target, v);
      && Total(r) == Total(bridged) + (if v > 0 then v else 0)
      && (DistinctPairs(bridged) ==> DistinctPairs(r))
      && (forall l :: l in r ==> l in bridged || (l.source == source && l.target == target))
      && ((forall l :: l in bridged ==> l.value > 0) ==> forall l :: l in r ==> l.value > 0)
  {
    var r := AddContribution(bridged, source, target, v);
    if v > 0 {
      var k := FindLink(bridged, source, target);
      if k < |bridged| {
        TotalUpdate(bridged, k, Link(source, target, bridged[k].value + v));
      } else {
        TotalAppend(bridged, [Link(source, target, v)]);
      }
    }
  }

  function Positive(v: int): nat {
    if v > 0 then v else 0
  }

  /** The positive rounded shares of `out` over the incoming links `incs`, summed. */
  function Shares(incs: seq<Link>, out: Link, totalIn: int): nat
    requires totalIn > 0
  {
    if incs == [] then 0
    else Shares(incs[..|incs| - 1], out, totalIn) + Positive(Share(out, incs[|incs| - 1], totalIn))
  }

  /** The positive rounded shares of every outgoing link over every incoming link, summed. */
  function Throughput(incoming: seq<Link>, outs: seq<Link>, totalIn: int): nat
    requires totalIn > 0
  {
    if outs == [] then 0
    else Throughput(incoming, outs[..|outs| - 1], totalIn) + Shares(incoming, outs[|outs| - 1], totalIn)
  }

  lemma {:induction false} BridgeOutFacts(bridged: seq<Link>, incs: seq<Link>, out: Link, totalIn: int)
    requires totalIn > 0
    requires DistinctPairs(bridged) && forall l :: l in bridged ==> l.value > 0
    ensures var r := BridgeOut(bridged, incs, out, totalIn);
      && DistinctPairs(r)
      && (forall l :: l in r ==> l.value > 0)
      && (forall l :: l in r ==> l in bridged || (l.target == out.target && exists inc :: inc in incs && inc.source == l.source))
      && Total(r) == Total(bridged) + Shares(incs, out, totalIn)
  {
    if incs != [] {
      var init, inc := incs[..|incs| - 1], incs[|incs| - 1];
      BridgeOutFacts(bridged, init, out, totalIn);
      var b := BridgeOut(bridged, init, out, totalIn);
      AddContributionFacts(b, inc.source, out.target, Share(out, inc, totalIn));
      forall l | l in BridgeOut(bridged, incs, out, totalIn)
        ensures l in bridged || (l.target == out.target && exists i :: i in incs && i.source == l.source)
      {
        if l !in b {
          assert inc in incs;
        } else if l !in bridged {
          var i :| i in init && i.source == l.source;
          assert i in incs;
        }
      }
    }
  }

  /** Every bridged link runs from a predecessor of the hidden id to a successor with a positive
      value; contributions with the same endpoints are merged into one link; and the bridged total
      is the sum of the positive rounded shares. */
  lemma {:induction false} PassThroughFacts(incoming: seq<Link>, outs: seq<Link>, totalIn: int)
    requires totalIn > 0
    ensures var r := PassThrough(incoming, outs, totalIn);
      && DistinctPairs(r)
      && (forall l :: l in r ==> l.value > 0)
      && (forall l :: l in r ==> (exists inc :: inc in incoming && inc.source == l.source) && (exists o :: o in outs && o.target == l.target))
      && Total(r) == Throughput(incoming, outs, totalIn)
  {
    if outs != [] {
      var init, out := outs[..|outs| - 1], outs[|outs| - 1];
      PassThroughFacts(incoming, init, totalIn);
      var p := PassThrough(incoming, init, totalIn);
      BridgeOutFacts(p, incoming, out, totalIn);
      forall l | l in PassThrough(incoming, outs, totalIn)
        ensures exists o :: o in outs && o.target == l.target
      {
        if l in p {
          var o :| o in init && o.target == l.target;
          assert o in outs;
        } else {
          assert out in outs;
        }
      }
    }
  }

  predicate DistinctTargets(links: seq<Link>) {
    forall i, j :: 0 <= i < j < |links| ==> links[i].target != links[j].target
  }

  /** Every outgoing link, now leaving from `source`. */
  function Rerouted(source: string, outs: seq<Link>): (r: seq<Link>)
    ensures |r| == |outs| && forall i :: 0 <= i < |outs| ==> r[i] == Link(source, outs[i].target, outs[i].value)
  {
    seq(|outs|, i requires 0 <= i < |outs| => Link(source, outs[i].target, outs[i].value))
  }

  /** With a single incoming link, hiding passes every outgoing link on unchanged in value, now
      leaving from the predecessor: rounding is exact. */
  lemma {:induction false} SingleIncoming(inc: Link, outs: seq<Link>)
    requires inc.value > 0
    requires forall o :: o in outs ==> o.value > 0
    requires DistinctTargets(outs)
    ensures PassThrough([inc], outs, inc.value) == Rerouted(inc.source, outs)
  {
    if outs != [] {
      var init, out := outs[..|outs| - 1], outs[|outs| - 1];
      SingleIncoming(inc, init);
      var p := PassThrough([inc], init, inc.value);
      assert p == Rerouted(inc.source, init);
      JsNumbers.RoundExact(out.value, inc.value);
      var v := Share(out, inc, inc.value);
      assert v == out.value;
      assert BridgeOut(p, [], out, inc.value) == p;
      assert [inc][..0] == [];
      assert BridgeOut(p, [inc], out, inc.value) == AddContribution(p, inc.source, out.target, v);
      assert forall i :: 0 <= i < |p| ==> p[i].target == init[i].target != out.target;
      assert FindLink(p, inc.source, out.target) == |p|;
      assert AddContribution(p, inc.source, out.target, v) == p + [Link(inc.source, out.target, out.value)];
      assert Rerouted(inc.source, outs) == Rerouted(inc.source, init) + [Link(inc.source, out.target, out.value)];
    }
  }

  /** With a single incoming link every outgoing link's rounded share is its whole value. */
  lemma {:induction false} ThroughputSingle(inc: Link, outs: seq<Link>)
    requires inc.value > 0
    requires forall o :: o in outs ==> o.value > 0
    ensures Throughput([inc], outs, inc.value) == Total(outs)
  {
    if outs != [] {
      var init, out := outs[..|outs| - 1], outs[|outs| - 1];
      assert outs == init + [out];
      ThroughputSingle(inc, init);
      JsNumbers.RoundExact(out.value, inc.value);
      assert [inc][..0] == [];
      assert Shares([inc], out, inc.value) == out.value;
      TotalAppend(init, [out]);
    }
  }

  /** The flow into `t` of a list with one more link at its end. */
  lemma InFlowSnoc(links: seq<Link>, l: Link, t: string)
    ensures InFlow(links + [l], t) == InFlow(links, t) + (if l.target == t then l.value else 0)
  {
    InFlowConcat(links, [l], t);
    InFlowOne(l, t);
  }

  /** Replacing a link by one with the same target changes only that target's inflow, by the
      difference of the two values. */
  lemma InFlowUpdate(links: seq<Link>, k: nat, l: Link, t: string)
    requires k < |links| && l.target == links[k].target
    ensures InFlow(links[k := l], t) == InFlow(links, t) + (if l.target == t then l.value - links[k].value else 0)
  {
    var pre, post := links[..k], links[k + 1..];
    assert links == pre + [links[k]] + post;
    assert links[k := l] == pre + [l] + post;
    InFlowConcat(pre + [links[k]], post, t);
    InFlowSnoc(pre, links[k], t);
    InFlowConcat(pre + [l], post, t);
    InFlowSnoc(pre, l, t);
  }

  /** A contribution to `target` raises the inflow of `target` by its value when positive and
      leaves every other inflow as it was. */
  lemma AddContributionInFlow(bridged: seq<Link>, source: string, target: string, v: int, t: string)
    ensures InFlow(AddContribution(bridged, source, target, v), t) == InFlow(bridged, t) + (if target == t then Positive(v) else 0)
  {
    if v > 0 {
      var k := FindLink(bridged, source, target);
      if k < |bridged| {
        var l := Link(source, target, bridged[k].value + v);
        assert AddContribution(bridged, source, target, v) == bridged[k := l];
        InFlowUpdate(bridged, k, l, t);
      } else {
        var l := Link(source, target, v);
        assert AddContribution(bridged, source, target, v) == bridged + [l];
        InFlowSnoc(bridged, l, t);
      }
    }
  }

  lemma {:induction false} SingleIncomingInFlow(inc: Link, outs: seq<Link>, t: string)
    requires inc.value > 0
    requires forall o :: o in outs ==> o.value > 0
    ensures InFlow(PassThrough([inc], outs, inc.value), t) == InFlow(outs, t)
  {
    if outs == [] {
      assert Incoming([], t) == [];
    } else {
      var init, out := outs[..|outs| - 1], outs[|outs| - 1];
      assert outs == init + [out];
      SingleIncomingInFlow(inc, init, t);
      var p := PassThrough([inc], init, inc.value);
      JsNumbers.RoundExact(out.value, inc.value);
      assert [inc][..0] == [];
      assert BridgeOut(p, [inc], out, inc.value) == AddContribution(p, inc.source, out.target, out.value);
      AddContributionInFlow(p, inc.source, out.target, out.value, t);
      InFlowSnoc(init, out, t);
    }
  }

  /** With a single incoming link, whatever the targets of the outgoing links, hiding loses
      nothing of their total: every bridged link leaves from the predecessor, at most one runs to
      each successor, and each successor receives from it exactly the sum of the outgoing values
      that reached it from the hidden stage. */
  lemma SingleIncomingFlows(inc: Link, outs: seq<Link>)
    requires inc.value > 0
    requires forall o :: o in outs ==> o.value > 0
    ensures var r := PassThrough([inc], outs, inc.value);
      && Total(r) == Total(outs)
      && DistinctPairs(r)
      && (forall l :: l in r ==> l.source == inc.source)
      && (forall t :: InFlow(r, t) == InFlow(outs, t))
  {
    PassThroughFacts([inc], outs, inc.value);
    ThroughputSingle(inc, outs);
    forall t
      ensures InFlow(PassThrough([inc], outs, inc.value), t) == InFlow(outs, t)
    {
      SingleIncomingInFlow(inc, outs, t);
    }
  }

  /** Every sink link runs from the target of an outgoing link to its sink and carries that
      link's positive remainder. */
  lemma {:induction false} SinksBridged(links: seq<Link>, nodes: seq<Node>, outs: seq<Link>, id: string)
    ensures var r := Sinks(links, nodes, outs, id);
      && |r.bridged| <= |outs|
      && (forall l :: l in r.bridged ==> l.value > 0 && l.target == SinkId(l.source))
      && (forall l :: l in r.bridged ==> exists o :: o in outs && o.target == l.source && l.value == Remainder(links, o, id))
  {
    if outs != [] {
      var init, out := outs[..|outs| - 1], outs[|outs| - 1];
      SinksBridged(links, nodes, init, id);
      var st := Sinks(links, nodes, init, id);
      var r := Sinks(links, nodes, outs, id);
      assert out in outs;
      forall l | l in r.bridged
        ensures exists o :: o in outs && o.target == l.source && l.value == Remainder(links, o, id)
      {
        if l in st.bridged {
          var o :| o in init && o.target == l.source && l.value == Remainder(links, o, id);
          assert o in outs;
        }
      }
    }
  }

  /** The sink case only appends nodes, one per sink, and never a second node with the same id. */
  lemma {:induction false} SinksNodes(links: seq<Link>, nodes: seq<Node>, outs: seq<Link>, id: string)
    ensures var r := Sinks(links, nodes, outs, id);
      && |r.nodes| >= |nodes| && r.nodes[..|nodes|] == nodes
      && (forall n :: n in r.nodes[|nodes|..] ==> exists o :: o in outs && n.id == SinkId(o.target))
      && (DistinctIds(nodes) ==> DistinctIds(r.nodes))
  {
    if outs != [] {
      var init, out := outs[..|outs| - 1], outs[|outs| - 1];
      SinksNodes(links, nodes, init, id);
      var st := Sinks(links, nodes, init, id);
      var r := Sinks(links, nodes, outs, id);
      SinkStepNodes(st, links, out, id);
      assert out in outs;
      assert r.nodes[..|nodes|] == st.nodes[..|nodes|];
      forall n | n in r.nodes[|nodes|..]
        ensures exists o :: o in outs && n.id == SinkId(o.target)
      {
        if n in st.nodes[|nodes|..] {
          var o :| o in init && n.id == SinkId(o.target);
          assert o in outs;
        } else {
          assert r.nodes[|nodes|..] == st.nodes[|nodes|..] + r.nodes[|st.nodes|..];
          assert n.id == SinkId(out.target);
        }
      }
    }
  }

  /** One iteration of the sink case appends at most a node for the sink of `out`, and only when
      no node has that id yet. */
  lemma SinkStepNodes(st: SinkState, links: seq<Link>, out: Link, id: string)
    ensures var r := SinkStep(st, links, out, id);
      && |r.nodes| >= |st.nodes| && r.nodes[..|st.nodes|] == st.nodes
      && (forall n :: n in r.nodes[|st.nodes|..] ==> n.id == SinkId(out.target))
      && (DistinctIds(st.nodes) ==> DistinctIds(r.nodes))
  {
  }

  lemma SinksFacts(links: seq<Link>, nodes: seq<Node>, outs: seq<Link>, id: string)
    ensures var r := Sinks(links, nodes, outs, id);
      && |r.bridged| <= |outs|
      && (forall l :: l in r.bridged ==> l.value > 0 && l.target == SinkId(l.source))
      && (forall l :: l in r.bridged ==> exists o :: o in outs && o.target == l.source && l.value == Remainder(links, o, id))
      && |r.nodes| >= |nodes| && r.nodes[..|nodes|] == nodes
      && (forall n :: n in r.nodes[|nodes|..] ==> exists o :: o in outs && n.id == SinkId(o.target))
      && (DistinctIds(nodes) ==> DistinctIds(r.nodes))
  {
    SinksBridged(links, nodes, outs, id);
    SinksNodes(links, nodes, outs, id);
  }


  predicate NoSelfLoop(links: seq<Link>, id: string) {
    forall l :: l in links ==> !(l.source == id && l.target == id)
  }

  /** No link leaves `id` for a target X whose sink "At X" would be `id` itself. */
  predicate NoSinkClash(links: seq<Link>, id: string) {
    forall l :: l in links && l.source == id ==> SinkId(l.target) != id
  }

  /** After its step, a hidden id is neither a node nor the endpoint of a link, provided it has no
      self-loop and is not the sink of one of its own successors. */
  lemma ElideOneClears(g: FlowGraph, id: string)
    requires NoSelfLoop(g.links, id) && NoSinkClash(g.links, id)
    ensures forall l :: l in ElideOne(g, id).links ==> !Touches(l, id)
    ensures !HasNode(ElideOne(g, id).nodes, id)
  {
    var incoming := Incoming(g.links, id);
    var outgoing := Outgoing(g.links, id);
    var totalIn := Total(incoming);
    var b := Bridge(g, id);
    if totalIn > 0 && |outgoing| > 0 {
      PassThroughFacts(incoming, outgoing, totalIn);
      forall l | l in b.bridged ensures !Touches(l, id) {
        var inc :| inc in incoming && inc.source == l.source;
        var o :| o in outgoing && o.target == l.target;
      }
    } else if totalIn == 0 && |outgoing| > 0 {
      SinksFacts(g.links, g.nodes, outgoing, id);
      forall l | l in b.bridged ensures !Touches(l, id) {
        var o :| o in outgoing && o.target == l.source && l.value == Remainder(g.links, o, id);
      }
    }
  }

  lemma {:induction false} RemoveNodeDistinct(nodes: seq<Node>, id: string)
    requires DistinctIds(nodes)
    ensures DistinctIds(RemoveNode(nodes, id))
  {
    if nodes != [] {
      RemoveNodeDistinct(nodes[1..], id);
      var rest := RemoveNode(nodes[1..], id);
      forall n | n in rest ensures n.id != nodes[0].id {
        var j :| 0 <= j < |nodes[1..]| && nodes[1..][j] == n;
        assert nodes[j + 1] == n;
      }
    }
  }

  /** A step removes nothing but the hidden id and the links that touch it, and keeps node ids
      distinct. */
  lemma ElideOneKeeps(g: FlowGraph, id: string)
    ensures forall l :: l in g.links && !Touches(l, id) ==> l in ElideOne(g, id).links
    ensures forall n :: n in g.nodes && n.id != id ==> n in ElideOne(g, id).nodes
    ensures DistinctIds(g.nodes) ==> DistinctIds(ElideOne(g, id).nodes)
  {
    var b := Bridge(g, id);
    SinksFacts(g.links, g.nodes, Outgoing(g.links, id), id);
    assert forall n :: n in g.nodes ==> n in b.nodes by {
      forall n | n in g.nodes ensures n in b.nodes {
        assert b.nodes[..|g.nodes|] == g.nodes;
        var j :| 0 <= j < |g.nodes| && g.nodes[j] == n;
        assert b.nodes[j] == n;
      }
    }
    if DistinctIds(g.nodes) {
      RemoveNodeDistinct(b.nodes, id);
    }
  }

  lemma {:induction false} TotalUntouched(links: seq<Link>, id: string)
    requires NoSelfLoop(links, id)
    ensures Total(links) == Total(Untouched(links, id)) + InFlow(links, id) + OutFlow(links, id)
  {
    if links != [] {
      var l := links[0];
      TotalUntouched(links[1..], id);
      var u, i, o := Untouched(links[1..], id), Incoming(links[1..], id), Outgoing(links[1..], id);
      assert [l] + u == [l] + u && ([l] + u)[1..] == u;
      assert ([l] + i)[1..] == i && ([l] + o)[1..] == o;
      assert [] + u == u && [] + i == i && [] + o == o;
    }
  }

  /** A hidden id with no outgoing link vanishes together with its inflow. */
  lemma HiddenEnd(g: FlowGraph, id: string)
    requires Outgoing(g.links, id) == []
    ensures ElideOne(g, id).links == Untouched(g.links, id)
    ensures Total(ElideOne(g, id).links) == Total(g.links) - InFlow(g.links, id)
  {
    assert forall l :: l in g.links ==> l.source != id;
    TotalUntouched(g.links, id);
    assert Untouched(g.links, id) + [] == Untouched(g.links, id);
  }

  lemma {:induction false} TotalRerouted(source: string, outs: seq<Link>)
    ensures Total(Rerouted(source, outs)) == Total(outs)
  {
    if outs != [] {
      assert Rerouted(source, outs)[1..] == Rerouted(source, outs[1..]);
      TotalRerouted(source, outs[1..]);
    }
  }

  /** Hiding a stage entered by exactly one link reroutes each of its outgoing links, value intact,
      to leave from the predecessor; only the entering link's value is lost from the total. */
  lemma SinglePredecessor(g: FlowGraph, id: string, inc: Link)
    requires Incoming(g.links, id) == [inc] && inc.value > 0
    requires NoSelfLoop(g.links, id)
    requires forall o :: o in Outgoing(g.links, id) ==> o.value > 0
    requires DistinctTargets(Outgoing(g.links, id))
    ensures ElideOne(g, id).links == Untouched(g.links, id) + Rerouted(inc.source, Outgoing(g.links, id))
    ensures Total(ElideOne(g, id).links) == Total(g.links) - inc.value
  {
    var outs := Outgoing(g.links, id);
    assert Total([inc]) == inc.value;
    SingleIncoming(inc, outs);
    if outs == [] {
      assert Rerouted(inc.source, outs) == [];
      assert Untouched(g.links, id) + [] == Untouched(g.links, id);
    }
    TotalUntouched(g.links, id);
    TotalRerouted(inc.source, outs);
    TotalAppend(Untouched(g.links, id), Rerouted(inc.source, outs));
  }

  /** For every stage other than `id`, its inflow is what the untouched links bring plus what the
      links leaving `id` bring. */
  lemma {:induction false} InFlowUntouched(links: seq<Link>, id: string, t: string)
    requires t != id
    ensures InFlow(links, t) == InFlow(Untouched(links, id), t) + InFlow(Outgoing(links, id), t)
  {
    if links == [] {
      assert Incoming([], t) == [];
    } else {
      var l := links[0];
      InFlowUntouched(links[1..], id, t);
      FlowCons(links, t);
      var u := if Touches(l, id) then [] else [l];
      var o := if l.source == id then [l] else [];
      InFlowConcat(u, Untouched(links[1..], id), t);
      InFlowConcat(o, Outgoing(links[1..], id), t);
      InFlowSnoc([], l, t);
      assert [] + [l] == [l];
      assert Incoming([], t) == [];
    }
  }

  /** With a single entering link, hiding bridges by the pass-through case (or bridges nothing
      when nothing leaves). */
  lemma ElideOneSingle(g: FlowGraph, id: string, inc: Link)
    requires Incoming(g.links, id) == [inc] && inc.value > 0
    ensures ElideOne(g, id).links == Untouched(g.links, id) + PassThrough([inc], Outgoing(g.links, id), inc.value)
  {
    assert Total([inc]) == inc.value;
    if Outgoing(g.links, id) == [] {
      assert PassThrough([inc], [], inc.value) == [];
    }
  }

  /** Hiding a stage entered by exactly one link, whatever the targets of its outgoing links:
      the entering link's value is all that is lost from the total, and every other stage
      receives exactly what it received before. */
  lemma SinglePredecessorFlows(g: FlowGraph, id: string, inc: Link)
    requires Incoming(g.links, id) == [inc] && inc.value > 0
    requires NoSelfLoop(g.links, id)
    requires forall o :: o in Outgoing(g.links, id) ==> o.value > 0
    ensures Total(ElideOne(g, id).links) == Total(g.links) - inc.value
    ensures forall t :: t != id ==> InFlow(ElideOne(g, id).links, t) == InFlow(g.links, t)
  {
    var outs := Outgoing(g.links, id);
    var r := PassThrough([inc], outs, inc.value);
    ElideOneSingle(g, id, inc);
    SingleIncomingFlows(inc, outs);
    assert Total([inc]) == inc.value;
    assert InFlow(g.links, id) == inc.value && OutFlow(g.links, id) == Total(r);
    TotalUntouched(g.links, id);
    TotalAppend(Untouched(g.links, id), r);
    forall t | t != id
      ensures InFlow(ElideOne(g, id).links, t) == InFlow(g.links, t)
    {
      InFlowConcat(Untouched(g.links, id), r, t);
      InFlowUntouched(g.links, id, t);
    }
  }

  /** `hasData`: the chart is drawn only when some node and some link are left. */
  predicate HasData(r: FlowGraph) {
    |r.nodes| > 0 && |r.links| > 0
  }

  /** The heading the page shows instead of the chart, or `None` when the chart is drawn. */
  function EmptyHeading(r: FlowGraph, hiddenCount: nat): (h: Option<string>)
    ensures h.None? <==> HasData(r)
  {
    if HasData(r) then None
    else if hiddenCount > 0 then Some("All stages hidden")
    else Some("No flow data yet")
  }

  /** The ids the page hides, kept as an insertion-ordered set of the chips the user switched off. */
  class StageToggles {
    var hidden: seq<string>

    predicate Valid()
      reads this
    {
      NoDuplicates(hidden)
    }

    constructor ()
      ensures Valid() && hidden == []
    {
      hidden := [];
    }

    /** `toggleNode`: a hidden id is shown again, any other id is hidden. */
    method Toggle(id: string)
      requires Valid()
      modifies this
      ensures Valid() && hidden == Toggled(old(hidden), id)
    {
      hidden := Toggled(hidden, id);
    }

    /** The Reset and "Show all stages" buttons. */
    method Reset()
      modifies this
      ensures Valid() && hidden == []
    {
      hidden := [];
    }

    /** The memoised filtered graph the page draws. */
    function Shown(data: FlowGraph): FlowGraph
      reads this
    {
      FilterSankey(data, hidden)
    }
  }

  /** `set.delete(id)`: the other ids keep their order. */
  function Deleted(ids: seq<string>, id: string): (r: seq<string>)
    ensures forall x :: x in r <==> x in ids && x != id
  {
    if ids == [] then []
    else (if ids[0] == id then [] else [ids[0]]) + Deleted(ids[1..], id)
  }

  /** A set's `delete` when `id` is in it and `add` otherwise. */
  function Toggled(ids: seq<string>, id: string): (r: seq<string>)
    ensures forall x :: x in r <==> (if x == id then id !in ids else x in ids)
    ensures NoDuplicates(ids) ==> NoDuplicates(r)
  {
    DeletedDistinct(ids, id);
    if id in ids then Deleted(ids, id) else ids + [id]
  }

  lemma {:induction false} DeletedDistinct(ids: seq<string>, id: string)
    ensures NoDuplicates(ids) ==> NoDuplicates(Deleted(ids, id))
  {
    if ids != [] && NoDuplicates(ids) {
      assert NoDuplicates(ids[1..]);
      DeletedDistinct(ids[1..], id);
      var rest := Deleted(ids[1..], id);
      assert ids[0] !in ids[1..];
      assert ids[0] !in rest;
      var head := if ids[0] == id then [] else [ids[0]];
      forall i, j | 0 <= i < j < |head + rest| ensures (head + rest)[i] != (head + rest)[j] {
        if i < |head| {
          assert (head + rest)[j] in rest;
        }
      }
    }
  }

  lemma {:induction false} DeletedAbsent(ids: seq<string>, id: string)
    requires id !in ids
    ensures Deleted(ids, id) == ids
  {
    if ids != [] {
      DeletedAbsent(ids[1..], id);
      assert ids == [ids[0]] + ids[1..];
    }
  }

  /** Toggling an id twice restores the set; the order too, unless the id was hidden before (it
      then moves to the end of the iteration order). */
  lemma ToggleTwice(ids: seq<string>, id: string)
    ensures forall x :: x in Toggled(Toggled(ids, id), id) <==> x in ids
    ensures id !in ids ==> Toggled(Toggled(ids, id), id) == ids
  {
    if id !in ids {
      DeletedAbsent(ids, id);
      assert id in ids + [id];
      assert Deleted([id], id) == [];
      assert ids + [] == ids;
      assert Deleted(ids + [id], id) == Deleted(ids, id) + Deleted([id], id) by {
        DeletedAppend(ids, [id], id);
      }
    }
  }

  lemma {:induction false} DeletedAppend(a: seq<string>, b: seq<string>, id: string)
    ensures Deleted(a + b, id) == Deleted(a, id) + Deleted(b, id)
  {
    if a == [] {
      assert a + b == b;
    } else {
      assert (a + b)[1..] == a[1..] + b;
      DeletedAppend(a[1..], b, id);
    }
  }

  // The corrected filter: a self-loop at the hidden id is dropped rather than bridged, and no sink
  // is made for a successor that is itself hidden.

  /** The links other than a self-loop at `id`. */
  function WithoutLoop(links: seq<Link>, id: string): (r: seq<Link>)
    ensures forall l :: l in r <==> l in links && !(l.source == id && l.target == id)
  {
    if links == [] then []
    else (if links[0].source == id && links[0].target == id then [] else [links[0]]) + WithoutLoop(links[1..], id)
  }

  /** The links whose target is not hidden. */
  function IntoShown(links: seq<Link>, hidden: seq<string>): (r: seq<Link>)
    ensures forall l :: l in r <==> l in links && l.target !in hidden
  {
    if links == [] then []
    else (if links[0].target in hidden then [] else [links[0]]) + IntoShown(links[1..], hidden)
  }

  function BridgeFixed(g: FlowGraph, id: string, hidden: seq<string>): SinkState {
    var links := WithoutLoop(g.links, id);
    var incoming := Incoming(links, id);
    var outgoing := Outgoing(links, id);
    var totalIn := Total(incoming);
    if totalIn > 0 && |outgoing| > 0 then SinkState(PassThrough(incoming, outgoing, totalIn), g.nodes)
    else if totalIn == 0 && |outgoing| > 0 then Sinks(links, g.nodes, IntoShown(outgoing, hidden), id)
    else SinkState([], g.nodes)
  }

  function ElideOneFixed(g: FlowGraph, id: string, hidden: seq<string>): FlowGraph {
    var b := BridgeFixed(g, id, hidden);
    FlowGraph(RemoveNode(b.nodes, id), Untouched(g.links, id) + b.bridged)
  }

  function ElideAllFixed(g: FlowGraph, ids: seq<string>, hidden: seq<string>): FlowGraph {
    if ids == [] then g
    else ElideOneFixed(ElideAllFixed(g, ids[..|ids| - 1], hidden), ids[|ids| - 1], hidden)
  }

  function FilterSankeyFixed(g: FlowGraph, hidden: seq<string>): FlowGraph {
    if hidden == [] then g
    else
      var e := ElideAllFixed(g, hidden, hidden);
      FlowGraph(KeepLinked(e.nodes, e.links), e.links)
  }

  /** In the corrected filter a hidden id is cleared even when it has a self-loop. */
  lemma ElideOneFixedClears(g: FlowGraph, id: string, hidden: seq<string>)
    requires NoSinkClash(g.links, id)
    ensures forall l :: l in ElideOneFixed(g, id, hidden).links ==> !Touches(l, id)
    ensures !HasNode(ElideOneFixed(g, id, hidden).nodes, id)
  {
    var links := WithoutLoop(g.links, id);
    var incoming := Incoming(links, id);
    var outgoing := Outgoing(links, id);
    var totalIn := Total(incoming);
    var b := BridgeFixed(g, id, hidden);
    if totalIn > 0 && |outgoing| > 0 {
      PassThroughFacts(incoming, outgoing, totalIn);
      forall l | l in b.bridged ensures !Touches(l, id) {
        var inc :| inc in incoming && inc.source == l.source;
        var o :| o in outgoing && o.target == l.target;
      }
    } else if totalIn == 0 && |outgoing| > 0 {
      var shown := IntoShown(outgoing, hidden);
      SinksFacts(links, g.nodes, shown, id);
      forall l | l in b.bridged ensures !Touches(l, id) {
        var o :| o in shown && o.target == l.source && l.value == Remainder(links, o, id);
      }
    }
  }

  /** Links only join hidden ids and climb in `rank` unless they are self-loops. */
  predicate Climbing(links: seq<Link>, hidden: seq<string>, rank: string -> int) {
    forall l :: l in links ==> l.source in hidden && l.target in hidden && (l.source == l.target || rank(l.source) < rank(l.target))
  }

  /** The links bridged past a hidden id join hidden ids in increasing rank and touch no id
      removed before. */
  lemma PassThroughClimbs(links0: seq<Link>, id: string, init: seq<string>, ids: seq<string>, hidden: seq<string>, rank: string -> int)
    requires Climbing(links0, hidden, rank)
    requires forall l, x :: l in links0 && x in init ==> !Touches(l, x)
    requires forall x :: x in ids ==> x in init || x == id
    requires Total(Incoming(WithoutLoop(links0, id), id)) > 0
    ensures var links := WithoutLoop(links0, id);
      var incoming := Incoming(links, id);
      var r := PassThrough(incoming, Outgoing(links, id), Total(incoming));
      forall l :: l in r ==>
        (l.source in hidden && l.target in hidden && rank(l.source) < rank(l.target)
         && forall x :: x in ids ==> !Touches(l, x))
  {
    var links := WithoutLoop(links0, id);
    var incoming := Incoming(links, id);
    var outgoing := Outgoing(links, id);
    var totalIn := Total(incoming);
    PassThroughFacts(incoming, outgoing, totalIn);
    forall l | l in PassThrough(incoming, outgoing, totalIn)
      ensures l.source in hidden && l.target in hidden && rank(l.source) < rank(l.target)
      ensures forall x :: x in ids ==> !Touches(l, x)
    {
      var inc :| inc in incoming && inc.source == l.source;
      var o :| o in outgoing && o.target == l.target;
      assert inc in links0 && o in links0;
      forall x | x in ids ensures !Touches(l, x) {
        if x in init {
          assert !Touches(inc, x) && !Touches(o, x);
        }
      }
    }
  }

  lemma {:induction false} ElideAllFixedInvariant(g: FlowGraph, ids: seq<string>, hidden: seq<string>, rank: string -> int)
    requires Climbing(g.links, hidden, rank)
    ensures Climbing(ElideAllFixed(g, ids, hidden).links, hidden, rank)
    ensures forall l, x :: l in ElideAllFixed(g, ids, hidden).links && x in ids ==> !Touches(l, x)
  {
    if ids != [] {
      var init, id := ids[..|ids| - 1], ids[|ids| - 1];
      assert ids == init + [id];
      ElideAllFixedInvariant(g, init, hidden, rank);
      ElideOneFixedStep(ElideAllFixed(g, init, hidden), id, init, ids, hidden, rank);
      assert ElideAllFixed(g, ids, hidden) == ElideOneFixed(ElideAllFixed(g, init, hidden), id, hidden);
    }
  }

  /** One iteration of the corrected loop keeps the graph climbing and clears `id` besides the
      ids cleared before. */
  lemma ElideOneFixedStep(e: FlowGraph, id: string, init: seq<string>, ids: seq<string>, hidden: seq<string>, rank: string -> int)
    requires ids == init + [id]
    requires Climbing(e.links, hidden, rank)
    requires forall l, x :: l in e.links && x in init ==> !Touches(l, x)
    ensures Climbing(ElideOneFixed(e, id, hidden).links, hidden, rank)
    ensures forall l, x :: l in ElideOneFixed(e, id, hidden).links && x in ids ==> !Touches(l, x)
  {
    BridgeFixedClimbs(e, id, init, ids, hidden, rank);
    var b := BridgeFixed(e, id, hidden);
    var r := ElideOneFixed(e, id, hidden);
    assert r.links == Untouched(e.links, id) + b.bridged;
    forall l | l in r.links
      ensures l.source in hidden && l.target in hidden && (l.source == l.target || rank(l.source) < rank(l.target))
      ensures forall x :: x in ids ==> !Touches(l, x)
    {
      if l in Untouched(e.links, id) {
        assert l in e.links;
      }
    }
  }

  /** What the corrected case analysis bridges climbs and touches no id cleared so far. */
  lemma BridgeFixedClimbs(e: FlowGraph, id: string, init: seq<string>, ids: seq<string>, hidden: seq<string>, rank: string -> int)
    requires ids == init + [id]
    requires Climbing(e.links, hidden, rank)
    requires forall l, x :: l in e.links && x in init ==> !Touches(l, x)
    ensures forall l :: l in BridgeFixed(e, id, hidden).bridged ==>
      l.source in hidden && l.target in hidden && rank(l.source) < rank(l.target)
      && forall x :: x in ids ==> !Touches(l, x)
  {
    var links := WithoutLoop(e.links, id);
    var incoming := Incoming(links, id);
    var outgoing := Outgoing(links, id);
    if Total(incoming) > 0 && |outgoing| > 0 {
      PassThroughClimbs(e.links, id, init, ids, hidden, rank);
    } else if Total(incoming) == 0 && |outgoing| > 0 {
      NoneShown(outgoing, hidden);
    }
  }

  /** Links that all end at hidden ids leave no successor to make a sink for. */
  lemma {:induction false} NoneShown(links: seq<Link>, hidden: seq<string>)
    requires forall l :: l in links ==> l.target in hidden
    ensures IntoShown(links, hidden) == []
  {
    if links != [] {
      assert links[0] in links;
      NoneShown(links[1..], hidden);
    }
  }

  lemma {:induction false} KeepLinkedNone(nodes: seq<Node>)
    ensures KeepLinked(nodes, []) == []
  {
    if nodes != [] {
      KeepLinkedNone(nodes[1..]);
    }
  }

  /** Hiding every id a climbing graph uses leaves nothing to draw in the corrected filter. */
  lemma HideAllFixed(g: FlowGraph, hidden: seq<string>, rank: string -> int)
    requires hidden != [] && Climbing(g.links, hidden, rank)
    ensures FilterSankeyFixed(g, hidden) == FlowGraph([], [])
  {
    ElideAllFixedInvariant(g, hidden, hidden, rank);
    var e := ElideAllFixed(g, hidden, hidden);
    assert e.links == [] by {
      if e.links != [] {
        var l := e.links[0];
        assert l in e.links && l.source in hidden && Touches(l, l.source);
        assert false;
      }
    }
    var kept := KeepLinked(e.nodes, e.links);
    KeepLinkedNone(e.nodes);
    assert FilterSankeyFixed(g, hidden) == FlowGraph(kept, e.links);
  }
  /** In the corrected filter, hiding every stage of a graph the dashboard builds leaves nothing
      to draw, in whatever order the stages were hidden. */
  lemma HideDashboardFixed(apps: seq<SankeyBuilder.AppRecord>, hidden: seq<string>)
    requires hidden != []
    requires forall l :: l in SankeyBuilder.SankeyOf(apps).links ==> l.source in hidden && l.target in hidden
    ensures FilterSankeyFixed(SankeyBuilder.SankeyOf(apps), hidden) == FlowGraph([], [])
  {
    SankeyBuilder.SankeyClimbs(apps);
    HideAllFixed(SankeyBuilder.SankeyOf(apps), hidden, SankeyBuilder.ClimbRank);
  }


  lemma RemoveNodePair(x: Node, y: Node, id: string)
    ensures RemoveNode([x, y], id) == (if x.id == id then [] else [x]) + (if y.id == id then [] else [y])
  {
    assert [x, y][1..] == [y];
    assert [y][1..] == [];
    assert RemoveNode([y], id) == (if y.id == id then [] else [y]) + RemoveNode([], id);
  }

  /** Both ends of a lone link stay on the chart. */
  lemma KeepLinkedPair(x: Node, y: Node, v: int)
    ensures KeepLinked([x, y], [Link(x.id, y.id, v)]) == [x, y]
  {
    var links := [Link(x.id, y.id, v)];
    assert Touches(links[0], x.id) && Touches(links[0], y.id);
    assert [x, y][1..] == [y];
    assert [y][1..] == [];
    assert KeepLinked([y], links) == [y] + KeepLinked([], links);
  }

  lemma FindNodePair(x: Node, y: Node, id: string)
    requires x.id != id
    ensures FindNode([x, y], id) == if y.id == id then Some(y) else None
  {
    assert [x, y][1..] == [y];
    assert [y][1..] == [];
  }

  lemma OneLink(l: Link, id: string)
    ensures Untouched([l], id) == if Touches(l, id) then [] else [l]
    ensures Incoming([l], id) == if l.target == id then [l] else []
    ensures Outgoing([l], id) == if l.source == id then [l] else []
    ensures Onward([l], l.target, id) == if l.source == l.target && l.target != id then [l] else []
  {
    assert [l][1..] == [];
  }

  /** With nothing entering `a`, its lone outgoing link is collected in the target's sink. */
  lemma LoneSink(a: string, b: string, ca: string, cb: string, v: int)
    requires a != b && a != SinkId(b) && v > 0
    ensures var x, y, l := Node(a, ca), Node(b, cb), Link(a, b, v);
      Sinks([l], [x, y], [l], a) == SinkState([Link(b, SinkId(b), v)], [x, y, Node(SinkId(b), cb)])
  {
    var x, y := Node(a, ca), Node(b, cb);
    var l := Link(a, b, v);
    OneLink(l, a);
    FindNodePair(x, y, SinkId(b));
    FindNodePair(x, y, b);
    assert ColorOf([x, y], b) == cb;
    assert Remainder([l], l, a) == v;
    assert [l][..0] == [];
  }

  /** Hiding the source of a lone link turns the link into the target's sink. */
  lemma HideLoneSource(a: string, b: string, ca: string, cb: string, v: int)
    requires a != b && a != SinkId(b) && v > 0
    ensures ElideOne(FlowGraph([Node(a, ca), Node(b, cb)], [Link(a, b, v)]), a)
         == FlowGraph([Node(b, cb), Node(SinkId(b), cb)], [Link(b, SinkId(b), v)])
  {
    var x, y := Node(a, ca), Node(b, cb);
    var l := Link(a, b, v);
    var sink := Node(SinkId(b), cb);
    LoneSourceBridge(a, b, ca, cb, v);
    RemoveFirstOfThree(x, y, sink, a);
    OneLink(l, a);
  }

  /** With nothing entering `a`, the case analysis for `a` takes the sink case. */
  lemma LoneSourceBridge(a: string, b: string, ca: string, cb: string, v: int)
    requires a != b && a != SinkId(b) && v > 0
    ensures Bridge(FlowGraph([Node(a, ca), Node(b, cb)], [Link(a, b, v)]), a)
         == SinkState([Link(b, SinkId(b), v)], [Node(a, ca), Node(b, cb), Node(SinkId(b), cb)])
  {
    OneLink(Link(a, b, v), a);
    LoneSink(a, b, ca, cb, v);
  }

  lemma RemoveFirstOfThree(x: Node, y: Node, z: Node, id: string)
    requires x.id == id && y.id != id && z.id != id
    ensures RemoveNode([x, y, z], id) == [y, z]
  {
    assert [x, y, z][1..] == [y, z];
    RemoveNodePair(y, z, id);
  }

  /** Hiding the target of a lone link leaves its source without links. */
  lemma HideLoneTarget(a: string, b: string, ca: string, cb: string, v: int)
    requires a != b
    ensures ElideOne(FlowGraph([Node(a, ca), Node(b, cb)], [Link(a, b, v)]), b) == FlowGraph([Node(a, ca)], [])
  {
    var g := FlowGraph([Node(a, ca), Node(b, cb)], [Link(a, b, v)]);
    OneLink(Link(a, b, v), b);
    assert Bridge(g, b) == SinkState([], g.nodes);
    RemoveNodePair(Node(a, ca), Node(b, cb), b);
  }

  /** Hiding the last node of a graph without links leaves nothing. */
  lemma HideLastNode(a: string, ca: string)
    ensures ElideOne(FlowGraph([Node(a, ca)], []), a) == FlowGraph([], [])
  {
    assert Bridge(FlowGraph([Node(a, ca)], []), a) == SinkState([], [Node(a, ca)]);
    assert [Node(a, ca)][1..] == [];
    assert RemoveNode([Node(a, ca)], a) == [] + RemoveNode([], a);
    assert Untouched([], a) == [];
  }

  lemma ElideOneOnly(g: FlowGraph, a: string)
    ensures ElideAll(g, [a]) == ElideOne(g, a)
  {
    assert [a][..0] == [];
  }

  lemma ElideTwo(g: FlowGraph, a: string, b: string)
    ensures ElideAll(g, [a, b]) == ElideOne(ElideOne(g, a), b)
  {
    ElideOneOnly(g, a);
    assert [a, b][..1] == [a];
  }

  /** Source first: the lone link becomes a link between two synthetic sinks. */
  lemma SourceFirst(a: string, b: string, ca: string, cb: string, v: int)
    requires a != b && a != SinkId(b) && a != SinkId(SinkId(b)) && v > 0
    ensures FilterSankey(FlowGraph([Node(a, ca), Node(b, cb)], [Link(a, b, v)]), [a, b])
         == FlowGraph([Node(SinkId(b), cb), Node(SinkId(SinkId(b)), cb)], [Link(SinkId(b), SinkId(SinkId(b)), v)])
  {
    var g := FlowGraph([Node(a, ca), Node(b, cb)], [Link(a, b, v)]);
    var s1, s2 := SinkId(b), SinkId(SinkId(b));
    HideLoneSource(a, b, ca, cb, v);
    HideLoneSource(b, s1, cb, cb, v);
    ElideTwo(g, a, b);
    var e := FlowGraph([Node(s1, cb), Node(s2, cb)], [Link(s1, s2, v)]);
    assert ElideAll(g, [a, b]) == e;
    KeepLinkedPair(Node(s1, cb), Node(s2, cb), v);
  }

  /** Target first: nothing is left. */
  lemma TargetFirst(a: string, b: string, ca: string, cb: string, v: int)
    requires a != b
    ensures FilterSankey(FlowGraph([Node(a, ca), Node(b, cb)], [Link(a, b, v)]), [b, a]) == FlowGraph([], [])
  {
    var g := FlowGraph([Node(a, ca), Node(b, cb)], [Link(a, b, v)]);
    HideLoneTarget(a, b, ca, cb, v);
    HideLastNode(a, ca);
    ElideTwo(g, b, a);
  }

  /** As written, the outcome of hiding both ends of a lone link depends on the order: source
      first leaves a chart of two synthetic sinks, target first leaves nothing, and only then
      does the page say that all stages are hidden. */
  lemma HidingOrderMatters(a: string, b: string, ca: string, cb: string, v: int)
    requires a != b && a != SinkId(b) && a != SinkId(SinkId(b)) && v > 0
    ensures var g := FlowGraph([Node(a, ca), Node(b, cb)], [Link(a, b, v)]);
      && HasData(FilterSankey(g, [a, b]))
      && EmptyHeading(FilterSankey(g, [a, b]), 2) == None
      && FilterSankey(g, [b, a]) == FlowGraph([], [])
      && EmptyHeading(FilterSankey(g, [b, a]), 2) == Some("All stages hidden")
  {
    SourceFirst(a, b, ca, cb, v);
    TargetFirst(a, b, ca, cb, v);
  }

  /** The corrected filter reaches the "All stages hidden" notice whichever end is hidden first. */
  lemma HidingOrderFixed(a: string, b: string, ca: string, cb: string, v: int)
    requires a != b
    ensures var g := FlowGraph([Node(a, ca), Node(b, cb)], [Link(a, b, v)]);
      && FilterSankeyFixed(g, [a, b]) == FlowGraph([], [])
      && FilterSankeyFixed(g, [b, a]) == FlowGraph([], [])
      && EmptyHeading(FilterSankeyFixed(g, [a, b]), 2) == Some("All stages hidden")
  {
    var g := FlowGraph([Node(a, ca), Node(b, cb)], [Link(a, b, v)]);
    var rank := (x: string) => if x == a then 0 else 1;
    HideAllFixed(g, [a, b], rank);
    HideAllFixed(g, [b, a], rank);
  }

  /** The dashboard's own case: every application sits in Applied, and the user hides Saved
      and then Applied. */
  lemma SavedThenApplied()
    ensures FilterSankey(FlowGraph([Node("Saved", "#71717a"), Node("Applied", "#6366f1")], [Link("Saved", "Applied", 3)]), ["Saved", "Applied"])
         == FlowGraph([Node("At Applied", "#6366f1"), Node("At At Applied", "#6366f1")], [Link("At Applied", "At At Applied", 3)])
  {
    assert SinkId("Applied") == "At Applied";
    assert SinkId("At Applied") == "At At Applied";
    SourceFirst("Saved", "Applied", "#71717a", "#6366f1", 3);
  }

  /** As written, a stage whose only link is a self-loop keeps that loop after it is hidden,
      although its node is removed: the chart is handed a link to a node it does not have. */
  lemma SelfLoopDangles(g: FlowGraph, id: string, w: int)
    requires w > 0
    requires Incoming(g.links, id) == [Link(id, id, w)] && Outgoing(g.links, id) == [Link(id, id, w)]
    ensures Link(id, id, w) in FilterSankey(g, [id]).links
    ensures !HasNode(FilterSankey(g, [id]).nodes, id)
  {
    var loop := Link(id, id, w);
    SelfLoopBridge(g, id, w);
    var e := ElideOne(g, id);
    assert e.links == Untouched(g.links, id) + [loop];
    assert loop in e.links;
    ElideOneOnly(g, id);
    assert !HasNode(e.nodes, id);
  }

  /** A self-loop that is the only link at `id` passes through `id` onto itself. */
  lemma SelfLoopBridge(g: FlowGraph, id: string, w: int)
    requires w > 0
    requires Incoming(g.links, id) == [Link(id, id, w)] && Outgoing(g.links, id) == [Link(id, id, w)]
    ensures Bridge(g, id) == SinkState([Link(id, id, w)], g.nodes)
  {
    var loop := Link(id, id, w);
    LoopOntoItself(loop);
    TotalOne(loop);
    PassThroughCase(g, id, [loop], [loop]);
  }

  lemma TotalOne(l: Link)
    ensures Total([l]) == l.value
  {
    assert [l][1..] == [];
  }

  /** With something entering and something leaving `id`, the case analysis takes the
      pass-through case. */
  lemma PassThroughCase(g: FlowGraph, id: string, incoming: seq<Link>, outgoing: seq<Link>)
    requires Incoming(g.links, id) == incoming && Outgoing(g.links, id) == outgoing
    requires Total(incoming) > 0 && |outgoing| > 0
    ensures Bridge(g, id) == SinkState(PassThrough(incoming, outgoing, Total(incoming)), g.nodes)
  {
  }


  lemma LoopOntoItself(loop: Link)
    requires loop.source == loop.target && loop.value > 0
    ensures PassThrough([loop], [loop], loop.value) == [loop]
  {
    SingleIncoming(loop, [loop]);
    assert Rerouted(loop.source, [loop]) == [loop];
  }

  /** The corrected filter removes a self-loop of any value with its stage, whatever else leaves
      the stage, so long as no successor's sink would be the stage itself. */
  lemma SelfLoopFixed(g: FlowGraph, id: string, hidden: seq<string>, w: int)
    requires Link(id, id, w) in g.links && NoSinkClash(g.links, id)
    ensures Link(id, id, w) !in ElideOneFixed(g, id, hidden).links
    ensures forall l :: l in ElideOneFixed(g, id, hidden).links ==> !Touches(l, id)
    ensures !HasNode(ElideOneFixed(g, id, hidden).nodes, id)
  {
    ElideOneFixedClears(g, id, hidden);
    assert Touches(Link(id, id, w), id);
  }

  /** The graph the dashboard service returns for one rejected application whose recorded status
      change went from REJECTED to REJECTED, and what hiding Rejected leaves of it. */
  lemma RejectedTwice()
    ensures var g := SankeyBuilder.SankeyOf([SankeyBuilder.AppRecord("REJECTED", Some("REJECTED"))]);
      && g == FlowGraph(
        [Node("Saved", "#71717a"), Node("Applied", "#6366f1"), Node("Rejected", "#ef4444")],
        [Link("Saved", "Applied", 1), Link("Rejected", "Rejected", 1)])
      && Link("Rejected", "Rejected", 1) in FilterSankey(g, ["Rejected"]).links
      && !HasNode(FilterSankey(g, ["Rejected"]).nodes, "Rejected")
  {
    SankeyBuilder.RejectedLoopGraph();
    var g := FlowGraph(
      [Node("Saved", "#71717a"), Node("Applied", "#6366f1"), Node("Rejected", "#ef4444")],
      [Link("Saved", "Applied", 1), Link("Rejected", "Rejected", 1)]);
    assert "Applied" != "Rejected";
    assert Incoming(g.links, "Rejected") == [Link("Rejected", "Rejected", 1)];
    assert Outgoing(g.links, "Rejected") == [Link("Rejected", "Rejected", 1)];
    SelfLoopDangles(g, "Rejected", 1);
  }

}
