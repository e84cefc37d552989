/** `getSankeyData`: every application contributes one path through the stages Saved → Applied →
    Interview → Offer, cut at its current stage, or a path to Rejected leaving from the stage it
    was rejected from. The edges are counted in an insertion-ordered dictionary keyed by the
    status pair, then turned into label-keyed links and nodes in a fixed stage order and colour. */
module SankeyBuilder {
  import opened Wrappers
  import opened Tallies
  import opened Flows
  import Sorting

  /** What the query returns for one application: its status and the `fromStatus` of its most
      recent status change, if there is one. */
  datatype AppRecord = AppRecord(status: string, lastFromStatus: Option<string>)

  /** A key `${from}::${to}` of the edge dictionary. */
  datatype Edge = Edge(from: string, to: string)

  /** `PIPELINE`. */
  const Pipeline: seq<string> := ["SAVED", "APPLIED", "INTERVIEW", "OFFER"]

  /** `pipelineRank.get(s)`. */
  function PipelineRank(s: string): (r: Option<nat>)
    ensures r.Some? ==> r.value < |Pipeline| && Pipeline[r.value] == s
    ensures r.None? ==> s !in Pipeline
  {
    if s == "SAVED" then Some(0)
    else if s == "APPLIED" then Some(1)
    else if s == "INTERVIEW" then Some(2)
    else if s == "OFFER" then Some(3)
    else None
  }

  /** `normalize`: UNDER_REVIEW is drawn as APPLIED. */
  function Normalize(s: string): string {
    if s == "UNDER_REVIEW" then "APPLIED" else s
  }

  /** The `i`-th edge of the stage chain. */
  function ChainEdge(i: nat): Edge
    requires i < |Pipeline| - 1
  {
    Edge(Pipeline[i], Pipeline[i + 1])
  }

  /** The first `r` edges of the chain, from Saved onwards. */
  function Chain(r: nat): (es: seq<Edge>)
    requires r < |Pipeline|
    ensures |es| == r && forall i :: 0 <= i < r ==> es[i] == ChainEdge(i)
  {
    if r == 0 then [] else Chain(r - 1) + [ChainEdge(r - 1)]
  }

  predicate IsRejected(a: AppRecord) {
    Normalize(a.status) == "REJECTED"
  }

  /** The stage a rejected application left, `APPLIED` when no status change is recorded. */
  function FromStatus(a: AppRecord): string {
    Normalize(a.lastFromStatus.GetOr("APPLIED"))
  }

  /** Rank of the stage a rejected application left; a status outside the chain counts as 1. */
  function FromRank(a: AppRecord): (r: nat)
    ensures r < |Pipeline|
  {
    PipelineRank(FromStatus(a)).GetOr(1)
  }

  /** Rank of the current stage; a status outside the chain counts as 0. */
  function Rank(a: AppRecord): (r: nat)
    ensures r < |Pipeline|
  {
    PipelineRank(Normalize(a.status)).GetOr(0)
  }

  /** The `addLink` calls made for one application, in order. */
  function AppEdges(a: AppRecord): seq<Edge> {
    if IsRejected(a) then Chain(FromRank(a)) + [Edge(FromStatus(a), "REJECTED")]
    else Chain(Rank(a))
  }

  /** The `addLink` calls made for all applications, in order. */
  function Emitted(apps: seq<AppRecord>): seq<Edge> {
    if apps == [] then [] else Emitted(apps[..|apps| - 1]) + AppEdges(apps[|apps| - 1])
  }

  /** `STATUS_ORDER`. */
  const StatusOrder: seq<string> := ["SAVED", "APPLIED", "INTERVIEW", "OFFER", "REJECTED"]

  /** `STATUS_LABEL[s] || s`: the label of a status of the table, and any other string as it is. */
  function StatusLabel(s: string): string {
    if s == "SAVED" then "Saved"
    else if s == "APPLIED" then "Applied"
    else if s == "INTERVIEW" then "Interview"
    else if s == "OFFER" then "Offer"
    else if s == "REJECTED" then "Rejected"
    else s
  }

  /** `STATUS_NODE_COLOR[enumKey]` for the first key whose `STATUS_LABEL` is `id`, and
      `"#94a3b8"` when there is none. */
  function NodeColor(id: string): string {
    if id == "Saved" then "#71717a"
    else if id == "Applied" then "#6366f1"
    else if id == "Interview" then "#8b5cf6"
    else if id == "Offer" then "#10b981"
    else if id == "Rejected" then "#ef4444"
    else "#94a3b8"
  }

  /** The labels of the statuses of `order`, in order. */
  function OrderLabels(order: seq<string>): (r: seq<string>)
    ensures |r| == |order| && forall i :: 0 <= i < |order| ==> r[i] == StatusLabel(order[i])
  {
    seq(|order|, i requires 0 <= i < |order| => StatusLabel(order[i]))
  }

  /** Index of the first occurrence of `x` in `xs`, if any. */
  function IndexOf(xs: seq<string>, x: string): (r: Option<nat>)
    ensures r.Some? ==> r.value < |xs| && xs[r.value] == x && x !in xs[..r.value]
    ensures r.None? ==> x !in xs
  {
    if xs == [] then None
    else if xs[0] == x then Some(0)
    else match IndexOf(xs[1..], x)
      case Some(i) =>
        assert xs[..i + 1] == [xs[0]] + xs[1..][..i];
        Some(i + 1)
      case None => None
  }

  /** The keys of `statusOrderMap`, which sends the label of the `i`-th status of `STATUS_ORDER`
      to `i`; `OrderLabelsValue` shows that they are the labels of `STATUS_ORDER`. */
  const StageLabels: seq<string> := ["Saved", "Applied", "Interview", "Offer", "Rejected"]

  /** `statusOrderMap.get(id) ?? 99`. */
  function OrderIndex(id: string): int {
    IndexOf(StageLabels, id).GetOr(99)
  }

  function LinkOf(e: Edge, counts: map<Edge, nat>): Link
    requires e in counts
  {
    Link(StatusLabel(e.from), StatusLabel(e.to), counts[e])
  }

  /** One link per dictionary entry, in the dictionary's order. */
  function LinksOf(keys: seq<Edge>, counts: map<Edge, nat>): (links: seq<Link>)
    requires forall e :: e in keys ==> e in counts
    ensures |links| == |keys| && forall i :: 0 <= i < |keys| ==> links[i] == LinkOf(keys[i], counts)
  {
    seq(|keys|, i requires 0 <= i < |keys| => LinkOf(keys[i], counts))
  }

  /** `nodeIds.add(x)` on a set that iterates in insertion order. */
  function AddId(ids: seq<string>, x: string): seq<string> {
    if x in ids then ids else ids + [x]
  }

  /** The node ids collected from the links, source before target, in first-seen order. */
  function EndpointIds(links: seq<Link>): seq<string> {
    if links == [] then []
    else
      var l := links[|links| - 1];
      AddId(AddId(EndpointIds(links[..|links| - 1]), l.source), l.target)
  }

  function NodeFor(id: string): Node {
    Node(id, NodeColor(id))
  }

  /** Each id with its colour. */
  function NodeList(ids: seq<string>): (nodes: seq<Node>)
    ensures |nodes| == |ids| && forall i :: 0 <= i < |ids| ==> nodes[i] == NodeFor(ids[i])
  {
    seq(|ids|, i requires 0 <= i < |ids| => NodeFor(ids[i]))
  }

  /** The ids sorted by stage order, each with its colour. */
  function NodesOf(ids: seq<string>): seq<Node> {
    NodeList(Sorting.SortByKey(ids, OrderIndex))
  }

  /** The graph `getSankeyData` returns. */
  function SankeyOf(apps: seq<AppRecord>): FlowGraph {
    var t := TallyOf(Emitted(apps));
    TallyOfContents(Emitted(apps));
    if apps == [] || t.keys == [] then FlowGraph([], [])
    else
      var links := LinksOf(t.keys, t.counts);
      FlowGraph(NodesOf(EndpointIds(links)), links)
  }

  lemma EmittedSnoc(apps: seq<AppRecord>, k: nat)
    requires k < |apps|
    ensures Emitted(apps[..k + 1]) == Emitted(apps[..k]) + AppEdges(apps[k])
  {
    assert apps[..k + 1][..k] == apps[..k];
  }

  lemma ChainSnoc(prefix: seq<Edge>, i: nat)
    requires i + 1 < |Pipeline|
    ensures TallyOf(prefix + Chain(i + 1)) == Bump(TallyOf(prefix + Chain(i)), ChainEdge(i))
  {
    assert prefix + Chain(i + 1) == (prefix + Chain(i)) + [ChainEdge(i)];
    TallyOfSnoc(prefix + Chain(i), ChainEdge(i));
  }

  /** A loop `for (let i = 0; i < rank; i++) addLink(PIPELINE[i], PIPELINE[i + 1])`. */
  method AddChainLinks(linkCounts: Tally<Edge>, rank: nat, ghost before: seq<Edge>) returns (t: Tally<Edge>)
    requires rank < |Pipeline|
    requires linkCounts == TallyOf(before)
    ensures t == TallyOf(before + Chain(rank))
  {
    t := linkCounts;
    assert before + Chain(0) == before;
    for i := 0 to rank
      invariant t == TallyOf(before + Chain(i))
    {
      ChainSnoc(before, i);
      t := Bump(t, Edge(Pipeline[i], Pipeline[i + 1]));
    }
  }

  /** The body of the loop over applications: the `addLink` calls for one application. */
  method AddAppLinks(linkCounts: Tally<Edge>, app: AppRecord, ghost before: seq<Edge>) returns (t: Tally<Edge>)
    requires linkCounts == TallyOf(before)
    ensures t == TallyOf(before + AppEdges(app))
  {
    var status := Normalize(app.status);
    if status == "REJECTED" {
      var fromStatus := Normalize(app.lastFromStatus.GetOr("APPLIED"));
      var fromRank := PipelineRank(fromStatus).GetOr(1);
      t := AddChainLinks(linkCounts, fromRank, before);
      var last := Edge(fromStatus, "REJECTED");
      TallyOfSnoc(before + Chain(fromRank), last);
      assert before + Chain(fromRank) + [last] == before + AppEdges(app);
      t := Bump(t, last);
    } else {
      var rank := PipelineRank(status).GetOr(0);
      t := AddChainLinks(linkCounts, rank, before);
    }
  }

  lemma LinksOfSnoc(keys: seq<Edge>, counts: map<Edge, nat>, j: nat)
    requires j < |keys| && forall e :: e in keys ==> e in counts
    ensures LinksOf(keys[..j + 1], counts) == LinksOf(keys[..j], counts) + [LinkOf(keys[j], counts)]
  {
  }

  lemma EndpointIdsSnoc(links: seq<Link>, l: Link)
    ensures EndpointIds(links + [l]) == AddId(AddId(EndpointIds(links), l.source), l.target)
  {
    assert (links + [l])[..|links|] == links;
  }

  /** The loop over the dictionary: one link per entry, and the endpoint labels as node ids. */
  method CollectLinks(keys: seq<Edge>, counts: map<Edge, nat>) returns (links: seq<Link>, nodeIds: seq<string>)
    requires forall e :: e in keys ==> e in counts
    ensures links == LinksOf(keys, counts)
    ensures nodeIds == EndpointIds(links)
  {
    nodeIds := [];
    links := [];
    for j := 0 to |keys|
      invariant links == LinksOf(keys[..j], counts)
      invariant nodeIds == EndpointIds(links)
    {
      var e := keys[j];
      var sourceLabel := StatusLabel(e.from);
      var targetLabel := StatusLabel(e.to);
      nodeIds := AddId(AddId(nodeIds, sourceLabel), targetLabel);
      var l := Link(sourceLabel, targetLabel, counts[e]);
      LinksOfSnoc(keys, counts, j);
      EndpointIdsSnoc(links, l);
      links := links + [l];
    }
    assert keys[..|keys|] == keys;
  }

  /** `getSankeyData` over the records of the user's applications. */
  method BuildSankey(apps: seq<AppRecord>) returns (g: FlowGraph)
    ensures g == SankeyOf(apps)
  {
    if |apps| == 0 {
      return FlowGraph([], []);
    }
    var linkCounts: Tally<Edge> := Tally([], map[]);
    for k := 0 to |apps|
      invariant linkCounts == TallyOf(Emitted(apps[..k]))
    {
      EmittedSnoc(apps, k);
      linkCounts := AddAppLinks(linkCounts, apps[k], Emitted(apps[..k]));
    }
    assert apps[..|apps|] == apps;
    if |linkCounts.keys| == 0 {
      return FlowGraph([], []);
    }
    TallyOfContents(Emitted(apps));
    var links, nodeIds := CollectLinks(linkCounts.keys, linkCounts.counts);
    g := FlowGraph(NodesOf(nodeIds), links);
  }

  /* ------------------------------------------------------------------ properties */

  /** An application that adds no link: its status is SAVED or outside the enumeration. */
  predicate Quiet(a: AppRecord) {
    Normalize(a.status) !in ["APPLIED", "INTERVIEW", "OFFER", "REJECTED"]
  }

  lemma {:induction false} ChainCount(r: nat, i: nat)
    requires r < |Pipeline| && i < |Pipeline| - 1
    ensures multiset(Chain(r))[ChainEdge(i)] == if i < r then 1 else 0
  {
    if r > 0 {
      ChainCount(r - 1, i);
      assert multiset(Chain(r)) == multiset(Chain(r - 1)) + multiset{ChainEdge(r - 1)};
    }
  }

  /** A non-rejected application adds one unit to each of the first `Rank` chain edges and
      nothing else. */
  lemma ActiveContribution(a: AppRecord)
    requires !IsRejected(a)
    ensures |AppEdges(a)| == Rank(a)
    ensures forall i :: 0 <= i < |Pipeline| - 1 ==> multiset(AppEdges(a))[ChainEdge(i)] == if i < Rank(a) then 1 else 0
  {
    forall i | 0 <= i < |Pipeline| - 1
      ensures multiset(AppEdges(a))[ChainEdge(i)] == if i < Rank(a) then 1 else 0
    {
      ChainCount(Rank(a), i);
    }
  }

  /** No chain edge leads to REJECTED. */
  lemma ChainAvoidsRejected(r: nat)
    requires r < |Pipeline|
    ensures forall e :: e in Chain(r) ==> e.to != "REJECTED"
  {
    forall e | e in Chain(r) ensures e.to != "REJECTED" {
      var i :| 0 <= i < r && Chain(r)[i] == e;
      assert e.to == Pipeline[i + 1];
    }
  }

  /** A rejected application adds one unit to each of the first `FromRank` chain edges and one to
      the edge from the stage it left to REJECTED. */
  lemma RejectedContribution(a: AppRecord)
    requires IsRejected(a)
    ensures |AppEdges(a)| == FromRank(a) + 1
    ensures multiset(AppEdges(a))[Edge(FromStatus(a), "REJECTED")] == 1
    ensures forall i :: 0 <= i < |Pipeline| - 1 ==> multiset(AppEdges(a))[ChainEdge(i)] == if i < FromRank(a) then 1 else 0
  {
    var r := FromRank(a);
    var last := Edge(FromStatus(a), "REJECTED");
    var m := multiset(Chain(r)) + multiset{last};
    assert multiset(AppEdges(a)) == m;
    ChainAvoidsRejected(r);
    assert multiset(Chain(r))[last] == 0;
    forall i | 0 <= i < |Pipeline| - 1
      ensures m[ChainEdge(i)] == if i < r then 1 else 0
    {
      ChainCount(r, i);
      assert ChainEdge(i) != last;
    }
  }

  /** SAVED and unknown statuses add nothing, and UNDER_REVIEW counts as APPLIED. */
  lemma QuietContribution(a: AppRecord)
    ensures AppEdges(a) == [] <==> Quiet(a)
    ensures a.status == "UNDER_REVIEW" ==> AppEdges(a) == [Edge("SAVED", "APPLIED")]
  {
    if !IsRejected(a) {
      var st := Normalize(a.status);
      assert Quiet(a) <==> PipelineRank(st).GetOr(0) == 0;
    }
  }

  lemma {:induction false} EmittedEmpty(apps: seq<AppRecord>)
    ensures Emitted(apps) == [] <==> forall a :: a in apps ==> Quiet(a)
  {
    if apps != [] {
      var init, a := apps[..|apps| - 1], apps[|apps| - 1];
      EmittedEmpty(init);
      QuietContribution(a);
      assert apps == init + [a];
    }
  }

  /** The graph is empty exactly when no application adds a link: there are none, or all of them
      are SAVED or outside the enumeration. */
  lemma SankeyEmpty(apps: seq<AppRecord>)
    ensures SankeyOf(apps) == FlowGraph([], []) <==> forall a :: a in apps ==> Quiet(a)
    ensures apps == [] ==> SankeyOf(apps) == FlowGraph([], [])
  {
    EmittedEmpty(apps);
    var es := Emitted(apps);
    var t := TallyOf(es);
    TallyOfContents(es);
    if es != [] {
      assert es[0] in t.keys;
    }
    if apps != [] && t.keys != [] {
      SankeyLinks(apps);
      assert |SankeyOf(apps).links| == |t.keys| > 0;
    }
  }

  /** The links are the dictionary's entries in every case. */
  lemma SankeyLinks(apps: seq<AppRecord>)
    ensures forall e :: e in TallyOf(Emitted(apps)).keys ==> e in TallyOf(Emitted(apps)).counts
    ensures SankeyOf(apps).links == LinksOf(TallyOf(Emitted(apps)).keys, TallyOf(Emitted(apps)).counts)
  {
    TallyOfContents(Emitted(apps));
    if apps == [] {
      assert Emitted(apps) == [];
    }
  }

  lemma LinksOfValues(es: seq<Edge>)
    ensures forall e :: e in TallyOf(es).keys ==> e in TallyOf(es).counts
    ensures forall l :: l in LinksOf(TallyOf(es).keys, TallyOf(es).counts) ==> l.value >= 1
    ensures forall e :: e in es ==>
      Link(StatusLabel(e.from), StatusLabel(e.to), multiset(es)[e]) in LinksOf(TallyOf(es).keys, TallyOf(es).counts)
    ensures forall l :: l in LinksOf(TallyOf(es).keys, TallyOf(es).counts) ==>
      (exists e :: e in es && l == Link(StatusLabel(e.from), StatusLabel(e.to), multiset(es)[e]))
  {
    var t := TallyOf(es);
    TallyOfContents(es);
    var links := LinksOf(t.keys, t.counts);
    forall e | e in es
      ensures Link(StatusLabel(e.from), StatusLabel(e.to), multiset(es)[e]) in links
    {
      var i :| 0 <= i < |t.keys| && t.keys[i] == e;
      assert links[i] == LinkOf(e, t.counts);
    }
    forall l | l in links
      ensures l.value >= 1
      ensures exists e :: e in es && l == Link(StatusLabel(e.from), StatusLabel(e.to), multiset(es)[e])
    {
      var i :| 0 <= i < |links| && links[i] == l;
      assert l == LinkOf(t.keys[i], t.counts);
    }
  }

  /** Every link carries a positive count: the number of `addLink` calls for its status pair,
      and every pair that was added has its link. */
  lemma SankeyLinkValues(apps: seq<AppRecord>)
    ensures forall l :: l in SankeyOf(apps).links ==> l.value >= 1
    ensures forall e :: e in Emitted(apps) ==>
      Link(StatusLabel(e.from), StatusLabel(e.to), multiset(Emitted(apps))[e]) in SankeyOf(apps).links
    ensures forall l :: l in SankeyOf(apps).links ==>
      (exists e :: e in Emitted(apps) && l == Link(StatusLabel(e.from), StatusLabel(e.to), multiset(Emitted(apps))[e]))
  {
    SankeyLinks(apps);
    LinksOfValues(Emitted(apps));
  }

  lemma {:induction false} EndpointIdsFacts(links: seq<Link>)
    ensures NoDuplicates(EndpointIds(links))
    ensures forall x :: x in EndpointIds(links) <==> IsEndpoint(links, x)
  {
    if links != [] {
      var init, l := links[..|links| - 1], links[|links| - 1];
      EndpointIdsFacts(init);
      assert links == init + [l];
      forall x ensures x in EndpointIds(links) <==> IsEndpoint(links, x) {
        assert x in EndpointIds(links) <==> x in EndpointIds(init) || x == l.source || x == l.target;
        if IsEndpoint(init, x) {
          var m :| m in init && Touches(m, x);
          assert m in links;
        }
        if Touches(l, x) {
          assert l in links;
        }
        if IsEndpoint(links, x) && !Touches(l, x) {
          var m :| m in links && Touches(m, x);
          assert m in init;
        }
      }
    }
  }

  /** The nodes are exactly the distinct labels that occur as link endpoints, listed in stage
      order, each with its stage colour; labels outside the stage table keep the order in which
      they were first seen. */
  lemma SankeyNodes(apps: seq<AppRecord>)
    ensures DistinctIds(SankeyOf(apps).nodes)
    ensures forall id :: HasNode(SankeyOf(apps).nodes, id) <==> IsEndpoint(SankeyOf(apps).links, id)
    ensures forall i, j :: 0 <= i < j < |SankeyOf(apps).nodes| ==>
      OrderIndex(SankeyOf(apps).nodes[i].id) <= OrderIndex(SankeyOf(apps).nodes[j].id)
    ensures forall n :: n in SankeyOf(apps).nodes ==> n.color == NodeColor(n.id)
    ensures apps != [] && Emitted(apps) != [] ==>
      Sorting.WithKey(IdsOf(SankeyOf(apps).nodes), OrderIndex, 99) == Sorting.WithKey(EndpointIds(SankeyOf(apps).links), OrderIndex, 99)
  {
    var g := SankeyOf(apps);
    TallyOfContents(Emitted(apps));
    if apps != [] && TallyOf(Emitted(apps)).keys != [] {
      var ids := EndpointIds(g.links);
      EndpointIdsFacts(g.links);
      NodesOfFacts(ids);
      Sorting.SortByKeyStable(ids, OrderIndex, 99);
    }
  }

  function IdsOf(nodes: seq<Node>): (ids: seq<string>)
    ensures |ids| == |nodes| && forall i :: 0 <= i < |nodes| ==> ids[i] == nodes[i].id
  {
    seq(|nodes|, i requires 0 <= i < |nodes| => nodes[i].id)
  }

  lemma NodeListFacts(ids: seq<string>)
    ensures NoDuplicates(ids) ==> DistinctIds(NodeList(ids))
    ensures forall id :: HasNode(NodeList(ids), id) <==> id in ids
    ensures forall n :: n in NodeList(ids) ==> n.color == NodeColor(n.id)
    ensures IdsOf(NodeList(ids)) == ids
  {
    var nodes := NodeList(ids);
    forall id ensures HasNode(nodes, id) <==> id in ids {
      if id in ids {
        var i :| 0 <= i < |ids| && ids[i] == id;
        assert nodes[i].id == id;
      }
    }
  }

  lemma NodesOfFacts(ids: seq<string>)
    requires NoDuplicates(ids)
    ensures DistinctIds(NodesOf(ids))
    ensures forall id :: HasNode(NodesOf(ids), id) <==> id in ids
    ensures forall i, j :: 0 <= i < j < |NodesOf(ids)| ==> OrderIndex(NodesOf(ids)[i].id) <= OrderIndex(NodesOf(ids)[j].id)
    ensures forall n :: n in NodesOf(ids) ==> n.color == NodeColor(n.id)
    ensures IdsOf(NodesOf(ids)) == Sorting.SortByKey(ids, OrderIndex)
  {
    var sorted := Sorting.SortByKey(ids, OrderIndex);
    Sorting.SortByKeySorted(ids, OrderIndex);
    DistinctPermutation(ids, sorted);
    NodeListFacts(sorted);
    forall id ensures id in sorted <==> id in ids {
      assert id in ids <==> id in multiset(ids);
      assert id in sorted <==> id in multiset(sorted);
    }
  }

  lemma OrderLabelsValue()
    ensures OrderLabels(StatusOrder) == StageLabels
  {
  }

  lemma IndexOfDistinct(xs: seq<string>, i: nat)
    requires NoDuplicates(xs) && i < |xs|
    ensures IndexOf(xs, xs[i]) == Some(i)
  {
  }

  lemma StageOrder()
    ensures OrderIndex("Saved") == 0 && OrderIndex("Applied") == 1 && OrderIndex("Interview") == 2
    ensures OrderIndex("Offer") == 3 && OrderIndex("Rejected") == 4
  {
    var labels := StageLabels;
    assert NoDuplicates(labels);
    IndexOfDistinct(labels, 0);
    IndexOfDistinct(labels, 1);
    IndexOfDistinct(labels, 2);
    IndexOfDistinct(labels, 3);
    IndexOfDistinct(labels, 4);
  }

  lemma StageColors()
    ensures NodeColor("Saved") == "#71717a" && NodeColor("Applied") == "#6366f1"
    ensures NodeColor("Interview") == "#8b5cf6" && NodeColor("Offer") == "#10b981"
    ensures NodeColor("Rejected") == "#ef4444"
  {
  }

  lemma UnknownStyle(id: string)
    requires id !in StageLabels
    ensures OrderIndex(id) == 99 && NodeColor(id) == "#94a3b8"
  {
  }

  /** The fixed stage order and colours of the node table; every other label sorts last and is
      grey. */
  lemma NodeStyle(id: string)
    ensures OrderIndex("Saved") == 0 && NodeColor("Saved") == "#71717a"
    ensures OrderIndex("Applied") == 1 && NodeColor("Applied") == "#6366f1"
    ensures OrderIndex("Interview") == 2 && NodeColor("Interview") == "#8b5cf6"
    ensures OrderIndex("Offer") == 3 && NodeColor("Offer") == "#10b981"
    ensures OrderIndex("Rejected") == 4 && NodeColor("Rejected") == "#ef4444"
    ensures id !in StageLabels ==> OrderIndex(id) == 99 && NodeColor(id) == "#94a3b8"
  {
    StageOrder();
    StageColors();
    if id !in StageLabels {
      UnknownStyle(id);
    }
  }

  /** An application rejected with a recorded change from REJECTED to REJECTED emits the first
      chain edge and the edge from Rejected to itself. */
  lemma RejectedLoopEdges(a: AppRecord, rejected: string)
    requires rejected == "REJECTED" && a == AppRecord(rejected, Some(rejected))
    ensures Emitted([a]) == [Edge("SAVED", "APPLIED"), Edge(rejected, rejected)]
  {
    assert IsRejected(a) && FromStatus(a) == rejected;
    assert PipelineRank(rejected) == None;
    assert FromRank(a) == 1;
    assert Chain(1) == [ChainEdge(0)];
    assert [a][..0] == [];
  }

  /** Two distinct edges each counted once, in order. */
  lemma TallyTwo(e1: Edge, e2: Edge)
    requires e1 != e2
    ensures TallyOf([e1, e2]) == Tally([e1, e2], map[e1 := 1, e2 := 1])
  {
    assert [e1, e2][..1] == [e1];
    assert [e1][..0] == [];
    assert TallyOf([e1]) == Tally([e1], map[e1 := 1]);
    assert e2 !in map[e1 := 1];
    assert [e1] + [e2] == [e1, e2];
  }

  /** The node ids of a link between two stages followed by a loop on a third. */
  lemma EndpointIdsLoop(x: string, y: string, z: string, v: int, w: int)
    requires x != y && y != z && x != z
    ensures EndpointIds([Link(x, y, v), Link(z, z, w)]) == [x, y, z]
  {
    assert [Link(x, y, v), Link(z, z, w)][..1] == [Link(x, y, v)];
    assert [Link(x, y, v)][..0] == [];
    assert AddId([], x) == [x] && AddId([x], y) == [x, y];
    assert EndpointIds([Link(x, y, v)]) == [x, y];
    assert AddId([x, y], z) == [x, y, z] && AddId([x, y, z], z) == [x, y, z];
  }

  /** The graph built from applications that emit two distinct edges, once each. */
  lemma SankeyOfTwoEdges(apps: seq<AppRecord>, e1: Edge, e2: Edge)
    requires apps != [] && e1 != e2 && Emitted(apps) == [e1, e2]
    ensures var links := [LinkOf(e1, map[e1 := 1, e2 := 1]), LinkOf(e2, map[e1 := 1, e2 := 1])];
      SankeyOf(apps) == FlowGraph(NodesOf(EndpointIds(links)), links)
  {
    TallyTwo(e1, e2);
    var t := TallyOf(Emitted(apps));
    assert t == Tally([e1, e2], map[e1 := 1, e2 := 1]);
    assert LinksOf(t.keys, t.counts) == [LinkOf(e1, t.counts), LinkOf(e2, t.counts)];
  }

  /** Three ids already in stage order become their nodes, in that order. */
  lemma NodesInOrder(x: string, y: string, z: string)
    requires OrderIndex(x) <= OrderIndex(y) <= OrderIndex(z)
    ensures NodesOf([x, y, z]) == [NodeFor(x), NodeFor(y), NodeFor(z)]
  {
    Sorting.SortThreeInOrder(x, y, z, OrderIndex);
    NodeListThree(x, y, z);
  }

  lemma NodeListThree(x: string, y: string, z: string)
    ensures NodeList([x, y, z]) == [NodeFor(x), NodeFor(y), NodeFor(z)]
  {
    var n := NodeList([x, y, z]);
    assert |n| == 3 && n[0] == NodeFor(x) && n[1] == NodeFor(y) && n[2] == NodeFor(z);
  }

  /** The graph built for one application rejected with a recorded change from REJECTED to
      REJECTED: Saved to Applied once, and a link from Rejected to itself. */
  lemma RejectedLoopGraph()
    ensures SankeyOf([AppRecord("REJECTED", Some("REJECTED"))]) == FlowGraph(
      [Node("Saved", "#71717a"), Node("Applied", "#6366f1"), Node("Rejected", "#ef4444")],
      [Link("Saved", "Applied", 1), Link("Rejected", "Rejected", 1)])
  {
    var a := AppRecord("REJECTED", Some("REJECTED"));
    var e1, e2 := Edge("SAVED", "APPLIED"), Edge("REJECTED", "REJECTED");
    RejectedLoopEdges(a, "REJECTED");
    SankeyOfTwoEdges([a], e1, e2);
    var links := [Link("Saved", "Applied", 1), Link("Rejected", "Rejected", 1)];
    assert [LinkOf(e1, map[e1 := 1, e2 := 1]), LinkOf(e2, map[e1 := 1, e2 := 1])] == links;
    EndpointIdsLoop("Saved", "Applied", "Rejected", 1, 1);
    StageOrder();
    NodesInOrder("Saved", "Applied", "Rejected");
    StageColors();
  }

  /* ------------------------------------------------------------ flow through stages */

  /** Edges whose target is drawn with label `x`. */
  function Into(x: string): Edge -> bool {
    (e: Edge) => StatusLabel(e.to) == x
  }

  /** Edges whose source is drawn with label `x`. */
  function OutOf(x: string): Edge -> bool {
    (e: Edge) => StatusLabel(e.from) == x
  }

  /** Position of a label along the chain Saved, Applied, Interview, Offer; -1 off the chain. */
  function ChainPosition(x: string): int {
    if x == "Saved" then 0
    else if x == "Applied" then 1
    else if x == "Interview" then 2
    else if x == "Offer" then 3
    else -1
  }

  /** The statuses the application service writes into `fromStatus`. */
  const StatusNames: seq<string> := ["SAVED", "APPLIED", "UNDER_REVIEW", "INTERVIEW", "OFFER", "REJECTED"]

  /** The recorded `fromStatus`, if any, is one of the enumeration's statuses. */
  predicate KnownFrom(a: AppRecord) {
    a.lastFromStatus.None? || a.lastFromStatus.value in StatusNames
  }

  lemma PipelineLabels()
    ensures StatusLabel("SAVED") == "Saved" && StatusLabel("APPLIED") == "Applied"
    ensures StatusLabel("INTERVIEW") == "Interview" && StatusLabel("OFFER") == "Offer"
    ensures StatusLabel("REJECTED") == "Rejected"
  {
  }

  lemma {:induction false} InFlowOfLinks(keys: seq<Edge>, counts: map<Edge, nat>, x: string)
    requires forall e :: e in keys ==> e in counts
    ensures InFlow(LinksOf(keys, counts), x) == SumWhere(keys, counts, Into(x))
    ensures OutFlow(LinksOf(keys, counts), x) == SumWhere(keys, counts, OutOf(x))
  {
    if keys != [] {
      InFlowOfLinks(keys[1..], counts, x);
      var links := LinksOf(keys, counts);
      assert links[1..] == LinksOf(keys[1..], counts);
      FlowCons(links, x);
    }
  }

  lemma CountOne(e: Edge, p: Edge -> bool)
    ensures CountWhere([e], p) == if p(e) then 1 else 0
  {
    assert [e][..0] == [];
  }

  lemma ChainEdgeLabels(i: nat)
    requires i < |Pipeline| - 1
    ensures StatusLabel(ChainEdge(i).from) == StageLabels[i]
    ensures StatusLabel(ChainEdge(i).to) == StageLabels[i + 1]
  {
    PipelineLabels();
    if i == 0 {
      assert ChainEdge(i) == Edge("SAVED", "APPLIED");
    } else if i == 1 {
      assert ChainEdge(i) == Edge("APPLIED", "INTERVIEW");
    } else {
      assert ChainEdge(i) == Edge("INTERVIEW", "OFFER");
    }
  }

  lemma ChainPositionOf(x: string, i: nat)
    requires i < |Pipeline|
    ensures ChainPosition(x) == i <==> x == StageLabels[i]
  {
  }

  /** Along the first `r` chain edges, each stage from Applied up to the `r`-th is entered once. */
  lemma {:induction false} ChainInto(r: nat, x: string)
    requires r < |Pipeline|
    ensures CountWhere(Chain(r), Into(x)) == if 1 <= ChainPosition(x) <= r then 1 else 0
  {
    if r > 0 {
      ChainInto(r - 1, x);
      var prev, e := Chain(r - 1), ChainEdge(r - 1);
      assert Chain(r) == prev + [e];
      CountWhereAppend(prev, [e], Into(x));
      CountOne(e, Into(x));
      ChainEdgeEnds(r - 1, x);
    }
  }

  /** The `i`-th chain edge leaves the `i`-th stage and enters the next. */
  lemma ChainEdgeEnds(i: nat, x: string)
    requires i < |Pipeline| - 1
    ensures OutOf(x)(ChainEdge(i)) <==> ChainPosition(x) == i
    ensures Into(x)(ChainEdge(i)) <==> ChainPosition(x) == i + 1
  {
    ChainEdgeLabels(i);
    ChainPositionOf(x, i);
    ChainPositionOf(x, i + 1);
  }

  /** Along the first `r` chain edges, each stage below the `r`-th is left once. */
  lemma {:induction false} ChainOut(r: nat, x: string)
    requires r < |Pipeline|
    ensures CountWhere(Chain(r), OutOf(x)) == if 0 <= ChainPosition(x) < r then 1 else 0
  {
    if r > 0 {
      ChainOut(r - 1, x);
      var prev, e := Chain(r - 1), ChainEdge(r - 1);
      assert Chain(r) == prev + [e];
      CountWhereAppend(prev, [e], OutOf(x));
      CountOne(e, OutOf(x));
      ChainEdgeEnds(r - 1, x);
    }
  }

  /** A stage of the chain, as a status the enumeration writes, has the rank of its label. */
  lemma LabelRank(f: string, x: string)
    requires f in StatusNames && f != "UNDER_REVIEW"
    requires StatusLabel(f) == x && 1 <= ChainPosition(x) <= 3
    ensures PipelineRank(f) == Some(ChainPosition(x) as nat)
  {
  }

  lemma FromStatusKnown(a: AppRecord)
    requires KnownFrom(a)
    ensures FromStatus(a) in StatusNames && FromStatus(a) != "UNDER_REVIEW"
  {
  }

  /** The edge into REJECTED leaves the stage it came from and enters no chain stage. */
  lemma LastEdgeCounts(f: string, x: string)
    requires 1 <= ChainPosition(x) <= 3
    ensures CountWhere([Edge(f, "REJECTED")], Into(x)) == 0
    ensures CountWhere([Edge(f, "REJECTED")], OutOf(x)) == if StatusLabel(f) == x then 1 else 0
  {
    CountOne(Edge(f, "REJECTED"), Into(x));
    CountOne(Edge(f, "REJECTED"), OutOf(x));
  }

  lemma RejectedAppFlow(a: AppRecord, x: string)
    requires KnownFrom(a) && IsRejected(a) && 1 <= ChainPosition(x) <= 3
    ensures CountWhere(AppEdges(a), Into(x)) >= CountWhere(AppEdges(a), OutOf(x))
  {
    var r := FromRank(a);
    var f := FromStatus(a);
    var last := Edge(f, "REJECTED");
    ChainInto(r, x);
    ChainOut(r, x);
    CountWhereAppend(Chain(r), [last], Into(x));
    CountWhereAppend(Chain(r), [last], OutOf(x));
    LastEdgeCounts(f, x);
    if StatusLabel(f) == x {
      FromStatusKnown(a);
      LabelRank(f, x);
    }
  }

  /** One application enters Applied, Interview and Offer at least as often as it leaves them. */
  lemma AppFlow(a: AppRecord, x: string)
    requires KnownFrom(a) && 1 <= ChainPosition(x) <= 3
    ensures CountWhere(AppEdges(a), Into(x)) >= CountWhere(AppEdges(a), OutOf(x))
  {
    if IsRejected(a) {
      RejectedAppFlow(a, x);
    } else {
      ChainInto(Rank(a), x);
      ChainOut(Rank(a), x);
    }
  }

  /** One application enters Rejected once if it is rejected, and never otherwise. */
  lemma AppRejectedFlow(a: AppRecord)
    ensures CountWhere(AppEdges(a), Into("Rejected")) == if IsRejected(a) then 1 else 0
  {
    PipelineLabels();
    if IsRejected(a) {
      var r := FromRank(a);
      var last := Edge(FromStatus(a), "REJECTED");
      ChainInto(r, "Rejected");
      CountWhereAppend(Chain(r), [last], Into("Rejected"));
      CountOne(last, Into("Rejected"));
    } else {
      ChainInto(Rank(a), "Rejected");
    }
  }

  lemma {:induction false} EmittedFlow(apps: seq<AppRecord>, x: string)
    requires forall a :: a in apps ==> KnownFrom(a)
    requires 1 <= ChainPosition(x) <= 3
    ensures CountWhere(Emitted(apps), Into(x)) >= CountWhere(Emitted(apps), OutOf(x))
  {
    if apps != [] {
      var init, a := apps[..|apps| - 1], apps[|apps| - 1];
      EmittedFlow(init, x);
      AppFlow(a, x);
      CountWhereAppend(Emitted(init), AppEdges(a), Into(x));
      CountWhereAppend(Emitted(init), AppEdges(a), OutOf(x));
    }
  }

  lemma {:induction false} EmittedRejected(apps: seq<AppRecord>)
    ensures CountWhere(Emitted(apps), Into("Rejected")) == CountWhere(apps, IsRejected)
  {
    if apps != [] {
      var init, a := apps[..|apps| - 1], apps[|apps| - 1];
      EmittedRejected(init);
      AppRejectedFlow(a);
      CountWhereAppend(Emitted(init), AppEdges(a), Into("Rejected"));
    }
  }

  /** The total value entering Rejected is the number of rejected applications. */
  lemma RejectedInflow(apps: seq<AppRecord>)
    ensures InFlow(SankeyOf(apps).links, "Rejected") == CountWhere(apps, IsRejected)
  {
    var es := Emitted(apps);
    var t := TallyOf(es);
    SankeyLinks(apps);
    InFlowOfLinks(t.keys, t.counts, "Rejected");
    TallyOfSum(es, Into("Rejected"));
    EmittedRejected(apps);
  }

  /** Conservation: as long as every recorded `fromStatus` is a status of the enumeration, the
      value entering Applied, Interview and Offer is at least the value leaving them. */
  lemma StageConservation(apps: seq<AppRecord>, x: string)
    requires forall a :: a in apps ==> KnownFrom(a)
    requires x in ["Applied", "Interview", "Offer"]
    ensures InFlow(SankeyOf(apps).links, x) >= OutFlow(SankeyOf(apps).links, x)
  {
    StageOnChain(x);
    EmittedFlow(apps, x);
    SankeyLinks(apps);
    ConservedFlow(SankeyOf(apps).links, Emitted(apps), x);
  }

  lemma StageOnChain(x: string)
    requires x in ["Applied", "Interview", "Offer"]
    ensures 1 <= ChainPosition(x) <= 3
  {
  }

  /** Links tallied from edges that enter `x` at least as often as they leave it carry at least as
      much into `x` as out of it. */
  lemma ConservedFlow(links: seq<Link>, es: seq<Edge>, x: string)
    requires forall e :: e in TallyOf(es).keys ==> e in TallyOf(es).counts
    requires links == LinksOf(TallyOf(es).keys, TallyOf(es).counts)
    requires CountWhere(es, Into(x)) >= CountWhere(es, OutOf(x))
    ensures InFlow(links, x) >= OutFlow(links, x)
  {
    TallyFlow(es, x);
  }

  /** The links of the tally of `es` carry into and out of `x` as many as `es` has edges. */
  lemma TallyFlow(es: seq<Edge>, x: string)
    ensures forall e :: e in TallyOf(es).keys ==> e in TallyOf(es).counts
    ensures InFlow(LinksOf(TallyOf(es).keys, TallyOf(es).counts), x) == CountWhere(es, Into(x))
    ensures OutFlow(LinksOf(TallyOf(es).keys, TallyOf(es).counts), x) == CountWhere(es, OutOf(x))
  {
    var t := TallyOf(es);
    TallyOfSum(es, Into(x));
    TallyOfSum(es, OutOf(x));
    InFlowOfLinks(t.keys, t.counts, x);
  }

  /* ------------------------------------------------------------ climbing the stage order */

  /** A rank under which every link of the graph climbs: the chain stages in order, Rejected above
      them, and every other label below them. */
  function ClimbRank(x: string): int {
    if x == "Rejected" then 4 else ChainPosition(x)
  }

  /** Every added edge is a chain edge or leads to REJECTED. */
  lemma {:induction false} EmittedEdges(apps: seq<AppRecord>)
    ensures forall e :: e in Emitted(apps) ==> e.to == "REJECTED" || exists i :: 0 <= i < |Pipeline| - 1 && e == ChainEdge(i)
  {
    if apps != [] {
      var init, a := apps[..|apps| - 1], apps[|apps| - 1];
      EmittedEdges(init);
      forall e | e in AppEdges(a)
        ensures e.to == "REJECTED" || exists i :: 0 <= i < |Pipeline| - 1 && e == ChainEdge(i)
      {
        var r := if IsRejected(a) then FromRank(a) else Rank(a);
        if e in Chain(r) {
          var i :| 0 <= i < r && Chain(r)[i] == e;
          assert e == ChainEdge(i);
        }
      }
    }
  }

  /** The labels of a chain edge, or of an edge into REJECTED, climb in `ClimbRank` unless they
      are the same label. */
  lemma EdgeClimbs(e: Edge)
    requires e.to == "REJECTED" || exists i :: 0 <= i < |Pipeline| - 1 && e == ChainEdge(i)
    ensures StatusLabel(e.from) == StatusLabel(e.to) || ClimbRank(StatusLabel(e.from)) < ClimbRank(StatusLabel(e.to))
  {
    if e.to != "REJECTED" {
      var i :| 0 <= i < |Pipeline| - 1 && e == ChainEdge(i);
      ChainEdgeLabels(i);
      ChainPositionOf(StageLabels[i], i);
      ChainPositionOf(StageLabels[i + 1], i + 1);
      assert StageLabels[i + 1] != "Rejected";
    }
  }

  /** Every link of the graph the dashboard builds is a self-loop or climbs in `ClimbRank`. */
  lemma SankeyClimbs(apps: seq<AppRecord>)
    ensures forall l :: l in SankeyOf(apps).links ==> l.source == l.target || ClimbRank(l.source) < ClimbRank(l.target)
  {
    SankeyLinkValues(apps);
    EmittedEdges(apps);
    forall l | l in SankeyOf(apps).links
      ensures l.source == l.target || ClimbRank(l.source) < ClimbRank(l.target)
    {
      var e :| e in Emitted(apps) && l == Link(StatusLabel(e.from), StatusLabel(e.to), multiset(Emitted(apps))[e]);
      EdgeClimbs(e);
    }
  }
}
