# Trackr core logic, modelled in Dafny

Trackr is a job-application tracker. A server holds each user's applications, their status history
and a résumé, and it proxies public internship listings. A web client shows a board, a dashboard and
a job finder. This project models the sequential logic underneath those screens. The web framework,
the database and the rendering are not part of it. The model covers five groups:

- **The status flow graph** (`getSankeyData` in the dashboard service). Every application adds one
  path through Saved → Applied → Interview → Offer, cut at its current stage. A rejected application
  instead adds a path to Rejected that leaves from the status it was rejected from. Edges are counted
  in an insertion-ordered dictionary. Nodes come out in a fixed stage order with fixed colours.
  The headline rates (`getStats`) and the per-day series (`getChartData`) come from the same file.
  The builder is modelled twice: as the loops of the source (`AddChainLinks`, `AddAppLinks`,
  `CollectLinks`) and as functions. Lemmas about the functions prove the counting and
  conservation facts.
- **Stage hiding on the flow page** (`filterSankeyData` and the set of hidden stages). Each hidden
  stage is removed in turn. Its flow is bridged proportionally from its predecessors to its
  successors. When nothing enters it, its flow is redirected into synthetic "At X" sinks. Nodes that
  no link touches are then dropped. `Math.round` is exact integer rounding, `(2·o·i + T) div (2·T)`.
  The page's toggle state is a class whose hidden list follows the iteration order of a JavaScript
  `Set`.
- **The job listing pipeline**. This covers grouping by company and title, the category, role and
  United States filters, the filter/sort/slice body of `searchJobs`, and the one-hour listings cache.
  The cache is a class whose clock and download outcome are parameters. It also covers the page
  arithmetic of the Hiring.Cafe request, how the `GET /jobs` route reads its query string, and the
  job finder page: the "posted … ago" badge, the marking of tracked jobs, and the pager.
- **CSV import and the status tables**. This covers header guessing, the reading of a status cell,
  the mapping of rows to applications, and the preview and import conditions. It also covers the
  status list, the board columns, `boardStatus` and the labels. One quirk of the source is kept:
  the label lookup built by `normalizeStatus` maps "APPLIED" to UNDER_REVIEW, because Under Review
  shares the label "Applied" and is written later (`CsvImport.PaddedApplied`,
  `CsvImport.LabelMapIsLookup`).
- **Small aggregations and classifiers**. These are the location chart (bucketing and the top ten),
  the relative times of the status timeline, and the resume routes' content validation and format
  dispatch.

Shared JavaScript behaviour sits in helper modules:
- `Text`: `trim`, ASCII case mapping, and string order by code point.
- `JsNumbers`: `Math.round`/`floor`/`ceil` of a quotient, `parseInt`, and integer rendering.
- `Seqs`: `filter`, `slice` with negative indices, `Set` insertion order, and `Math.max`.
- `Tallies`: the insertion-ordered counting dictionary.
- `Sorting`: the stable `Array.prototype.sort`, given as an insertion sort.

Where the source changes state step by step, the model does too:
- the counting loops of the builders;
- the rewrite loop of `filterSankeyData`;
- the filter steps of `searchJobs`;
- the tracked-key loop;
- the label-map loop;
- the classes for the hidden stages, the pager and the listings cache.

Each method is proved against a function, and the properties are proved about the functions.

Clocks are parameters in milliseconds or seconds, as the source uses them. A status change
timestamp that does not parse is `None`. Text extracted from an uploaded file is a parameter. So is
the outcome of a network fetch (listings, a failure, or a body that is not a list).

The listings cache is modelled as the source keeps it: a module-level pair of cached listings and
fetch time, updated in place. It is not a generic get-or-fetch store with a key and a lifetime.

Where the source has a defect (see "## Findings"), the members that model its operations do what
the code does. The corrected versions sit beside them, with `Fixed` in their names
(`Elision.FilterSankeyFixed`, `JobsRoute.OptionsFixed`, `JobsRoute.ListJobsFixed`), or with
the corrected limit `JobsRoute.PageLimit`. Lemmas relate the two versions
(`JobsRoute.ListJobsAgree`, `JobsRoute.LimitReadings`).

Two behaviours are modelled as written and not reported as defects:
- The tracked-job set mixes application keys (`company|title`) and application URLs.
  `JobFinder.UrlMatchesKey` shows that a job URL equal to some application's key marks the job as
  tracked. `JobFinder.TrackedMatches` gives the intended "key or URL matches" equivalence whenever
  no URL contains a bar.
- A status change can record REJECTED → REJECTED. The builder then emits a Rejected → Rejected
  self-loop. The conservation facts for Applied, Interview and Offer still hold.

## Model

| member | source | states |
|---|---|---|
| Dashboard.CountStatus | server/src/services/dashboard.service.ts:19-21 | the number of applications with a given status, never more than there are applications |
| Dashboard.GetStats | server/src/services/dashboard.service.ts:9-32 | `totalApplications` is the number of applications; with none every rate is 0; otherwise 0 ≤ rejectionRate ≤ responseRate ≤ 100 and 0 ≤ interviewConversion ≤ 100, which is 0 when nothing has responded |
| Dashboard.RespondedBound | server/src/services/dashboard.service.ts:19-23 | interviews, offers and rejections together never outnumber the applications, so the response rate cannot pass 100 |
| Dashboard.Days | server/src/services/dashboard.service.ts:45 | one day per application, in order: the first ten characters of its ISO timestamp |
| Dashboard.Entries | server/src/services/dashboard.service.ts:49 | one `{date, count}` entry per bucket key, in key order, carrying that key's count |
| Dashboard.ChartData | server/src/services/dashboard.service.ts:42-49 | the bucket loop followed by `Object.entries` yields exactly the series `ChartOf` |
| Dashboard.SumCountsOfEntries | server/src/services/dashboard.service.ts:49 | the counts of the entries add up to the sum of the bucket counts |
| Dashboard.EntriesDates | server/src/services/dashboard.service.ts:49 | over distinct keys the entries have distinct dates, exactly the keys, each with its bucket's count |
| Dashboard.ChartDays | server/src/services/dashboard.service.ts:42-49 | one entry per distinct creation day and for no other day; each count is the number of applications created that day, at least 1 |
| Dashboard.ChartTotal | server/src/services/dashboard.service.ts:44-49 | the counts add up to the number of applications |
| Dashboard.ChartAscending | server/src/services/dashboard.service.ts:39-49 | when the applications come ordered by creation time the dates come out strictly ascending |
| SankeyBuilder.PipelineRank | server/src/services/dashboard.service.ts:93-94 | `pipelineRank.get(s)`: the position of `s` in `PIPELINE` when it is there, nothing otherwise |
| SankeyBuilder.Chain | server/src/services/dashboard.service.ts:111-113 | the first `r` chain edges, `PIPELINE[i] → PIPELINE[i+1]` for each `i < r` |
| SankeyBuilder.FromRank | server/src/services/dashboard.service.ts:108-109 | the rank of the stage a rejected application left is a chain position (unknown statuses count as 1) |
| SankeyBuilder.Rank | server/src/services/dashboard.service.ts:116 | the rank of a current stage is a chain position (unknown statuses count as 0) |
| SankeyBuilder.OrderLabels | server/src/services/dashboard.service.ts:140-142 | the labels of the status order, position by position |
| SankeyBuilder.IndexOf | server/src/services/dashboard.service.ts:140-145 | the first position of a label in the order, or nothing when it is absent |
| SankeyBuilder.LinksOf | server/src/services/dashboard.service.ts:130-137 | one link per dictionary entry, in dictionary order, labelled by `STATUS_LABEL[x]`, or `x` when it has no label, and carrying the entry's count |
| SankeyBuilder.NodeList | server/src/services/dashboard.service.ts:146-151 | one node per id, in order, with that id's colour |
| SankeyBuilder.AddChainLinks | server/src/services/dashboard.service.ts:111-113 | the chain loop leaves the dictionary equal to the tally of everything added before plus the first `rank` chain edges |
| SankeyBuilder.AddAppLinks | server/src/services/dashboard.service.ts:105-120 | the body of the application loop adds exactly that application's edges to the tally |
| SankeyBuilder.CollectLinks | server/src/services/dashboard.service.ts:127-138 | the loop over the dictionary produces the links `LinksOf` and the node ids in first-seen order, source before target |
| SankeyBuilder.BuildSankey | server/src/services/dashboard.service.ts:76-155 | `getSankeyData` returns exactly the graph `SankeyOf` |
| SankeyBuilder.ChainCount | server/src/services/dashboard.service.ts:111-113 | the first `r` chain edges contain the `i`-th edge once when `i < r` and not at all otherwise |
| SankeyBuilder.ActiveContribution | server/src/services/dashboard.service.ts:115-119 | a non-rejected application adds exactly one unit to each of the first `Rank` chain edges and nothing else |
| SankeyBuilder.ChainAvoidsRejected | server/src/services/dashboard.service.ts:93-113 | no chain edge leads to REJECTED |
| SankeyBuilder.RejectedContribution | server/src/services/dashboard.service.ts:107-114 | a rejected application adds one unit to each of the first `FromRank` chain edges and one to `fromStatus → REJECTED` |
| SankeyBuilder.QuietContribution | server/src/services/dashboard.service.ts:102-119 | an application adds no edge exactly when its status is SAVED or unknown; UNDER_REVIEW adds the Saved → Applied edge, as APPLIED does |
| SankeyBuilder.EmittedEmpty | server/src/services/dashboard.service.ts:104-121 | no edge is added at all exactly when every application is SAVED or unknown |
| SankeyBuilder.SankeyEmpty | server/src/services/dashboard.service.ts:89-125 | the graph is `{nodes: [], links: []}` exactly when no application adds a link, in particular when there are no applications |
| SankeyBuilder.SankeyLinks | server/src/services/dashboard.service.ts:123-138 | in every case the links are the dictionary's entries |
| SankeyBuilder.LinksOfValues | server/src/services/dashboard.service.ts:97-137 | each link of a tally of edges carries the multiplicity of its edge, at least 1, and every added edge has its link |
| SankeyBuilder.SankeyLinkValues | server/src/services/dashboard.service.ts:97-137 | every link value is a positive count: the number of `addLink` calls for its status pair; every pair that was added has its link |
| SankeyBuilder.EndpointIdsFacts | server/src/services/dashboard.service.ts:127-136 | the collected node ids are distinct and are exactly the link endpoints |
| SankeyBuilder.SankeyNodes | server/src/services/dashboard.service.ts:127-152 | node ids are distinct and exactly the link endpoints; nodes are in stage order with unknown labels last, keep first-seen order among equals, and carry their stage colour |
| SankeyBuilder.IdsOf | server/src/services/dashboard.service.ts:149 | the ids of a node list, position by position |
| SankeyBuilder.NodeListFacts | server/src/services/dashboard.service.ts:146-151 | the node list keeps the ids, their order and their distinctness, and colours each node by its id |
| SankeyBuilder.NodesOfFacts | server/src/services/dashboard.service.ts:144-152 | sorting and colouring distinct ids gives distinct nodes for exactly those ids, ordered by stage index, each coloured by its id |
| SankeyBuilder.OrderLabelsValue | server/src/services/dashboard.service.ts:52-58 | the keys of `statusOrderMap` are Saved, Applied, Interview, Offer, Rejected (also lines 68-74, 140-142) |
| SankeyBuilder.StageOrder | server/src/services/dashboard.service.ts:140-145 | Saved, Applied, Interview, Offer and Rejected sort at positions 0 to 4 |
| SankeyBuilder.RejectedLoopEdges | server/src/services/dashboard.service.ts:107-114 | an application rejected after a REJECTED → REJECTED change adds Saved → Applied (its from-stage counts as rank 1) and then REJECTED → REJECTED |
| SankeyBuilder.TallyTwo | server/src/services/dashboard.service.ts:97-100 | two distinct edges added once each are the dictionary's two entries, in order, each counted once |
| SankeyBuilder.EndpointIdsLoop | server/src/services/dashboard.service.ts:127-136 | a link between two stages followed by a loop on a third collects the three ids in that order |
| SankeyBuilder.SankeyOfTwoEdges | server/src/services/dashboard.service.ts:123-155 | applications that add two distinct edges once each give the two links with value 1 and the nodes of their endpoints |
| SankeyBuilder.NodesInOrder | server/src/services/dashboard.service.ts:144-152 | three ids already in stage order become their nodes in that order |
| SankeyBuilder.EmittedEdges | server/src/services/dashboard.service.ts:104-121 | every added edge is an edge of the stage chain or leads to REJECTED |
| SankeyBuilder.EdgeClimbs | server/src/services/dashboard.service.ts:107-119 | a chain edge or an edge into REJECTED joins the same label or climbs from a lower rank to a higher one (chain stages in order, Rejected above them, other labels below) |
| SankeyBuilder.SankeyClimbs | server/src/services/dashboard.service.ts:76-155 | every link of the graph the dashboard builds is a self-loop or climbs in that rank |
| SankeyBuilder.RejectedLoopGraph | server/src/services/dashboard.service.ts:76-155 | one application rejected after a REJECTED → REJECTED change gives the nodes Saved, Applied, Rejected with their colours and the links Saved → Applied and Rejected → Rejected, each of value 1 |
| SankeyBuilder.StageColors | server/src/services/dashboard.service.ts:60-66 | the five stage labels get the five stage colours (also lines 147-150) |
| SankeyBuilder.UnknownStyle | server/src/services/dashboard.service.ts:145-150 | any other label sorts at 99 and is drawn in "#94a3b8" |
| SankeyBuilder.NodeStyle | server/src/services/dashboard.service.ts:60-74 | the fixed stage order and colours of the node table, and the fallback for every other label (also lines 140-152) |
| SankeyBuilder.InFlowOfLinks | server/src/services/dashboard.service.ts:130-137 | the value entering (leaving) a label is the sum of the counts of the dictionary entries whose target (source) has that label |
| SankeyBuilder.ChainInto | server/src/services/dashboard.service.ts:111-119 | along the first `r` chain edges each stage from Applied up to the `r`-th is entered exactly once |
| SankeyBuilder.ChainOut | server/src/services/dashboard.service.ts:111-119 | along the first `r` chain edges each stage below the `r`-th is left exactly once |
| SankeyBuilder.LastEdgeCounts | server/src/services/dashboard.service.ts:114 | the edge into REJECTED enters no chain stage and leaves the stage it came from |
| SankeyBuilder.RejectedAppFlow | server/src/services/dashboard.service.ts:107-114 | a rejected application enters Applied, Interview and Offer at least as often as it leaves them |
| SankeyBuilder.AppFlow | server/src/services/dashboard.service.ts:104-121 | any application enters Applied, Interview and Offer at least as often as it leaves them |
| SankeyBuilder.AppRejectedFlow | server/src/services/dashboard.service.ts:107-114 | an application enters Rejected once if it is rejected and never otherwise |
| SankeyBuilder.EmittedFlow | server/src/services/dashboard.service.ts:104-121 | over all applications, Applied, Interview and Offer are entered at least as often as they are left |
| SankeyBuilder.EmittedRejected | server/src/services/dashboard.service.ts:104-121 | the edges into Rejected number the rejected applications |
| SankeyBuilder.RejectedInflow | server/src/services/dashboard.service.ts:107-137 | the total value entering Rejected equals the number of rejected applications |
| SankeyBuilder.StageConservation | server/src/services/dashboard.service.ts:104-137 | for Applied, Interview and Offer the total value entering is at least the total value leaving, when every recorded `fromStatus` is a status of the enumeration |
| SankeyBuilder.ConservedFlow | server/src/services/dashboard.service.ts:130-137 | links tallied from edges that enter a label at least as often as they leave it carry at least as much into it as out of it |
| SankeyBuilder.TallyFlow | server/src/services/dashboard.service.ts:97-137 | the links of a tally carry into and out of a label exactly as many units as there are edges into and out of it |
| Flows.Incoming | client/src/pages/SankeyPage.tsx:129 | exactly the links that end at the id, in order |
| Flows.Outgoing | client/src/pages/SankeyPage.tsx:130 | exactly the links that start at the id, in order |
| Flows.TotalAppend | client/src/pages/SankeyPage.tsx:131-153 | the summed value of two lists joined is the sum of their sums |
| Flows.FlowCons | client/src/pages/SankeyPage.tsx:129-131 | the flow into and out of an id splits into the first link's part and the rest's |
| Flows.InFlowConcat | client/src/pages/SankeyPage.tsx:129-131 | the flow into an id of two lists joined is the sum of their flows into it |
| Flows.TotalPositive | client/src/pages/SankeyPage.tsx:131-135 | with positive values the sum is positive exactly when there is a link |
| Elision.Untouched | client/src/pages/SankeyPage.tsx:167-168 | exactly the links that neither start nor end at the hidden id |
| Elision.RemoveNode | client/src/pages/SankeyPage.tsx:170 | exactly the nodes with another id |
| Elision.Onward | client/src/pages/SankeyPage.tsx:150-152 | exactly the links leaving a successor other than back to the hidden id |
| Elision.FindNode | client/src/pages/SankeyPage.tsx:158-160 | a node with the id when there is one, nothing only when there is none |
| Elision.FindLink | client/src/pages/SankeyPage.tsx:140-142 | the first bridged link with the given endpoints, or the length when there is none |
| Elision.SinkId | client/src/pages/SankeyPage.tsx:156 | the sink of X is "At X", three characters longer |
| Elision.KeepLinked | client/src/pages/SankeyPage.tsx:173-174 | exactly the nodes that are the source or target of some link |
| Elision.FilterSankeyData | client/src/pages/SankeyPage.tsx:119-176 | the loop over the hidden ids computes `FilterSankey`; with nothing hidden the data come back unchanged |
| Elision.BridgeLinks | client/src/pages/SankeyPage.tsx:135-147 | the nested loops of the pass-through case compute `PassThrough` |
| Elision.SinkLinks | client/src/pages/SankeyPage.tsx:148-164 | the loop of the sink case computes `Sinks`: the bridged links and the extended node list |
| Elision.TotalUpdate | client/src/pages/SankeyPage.tsx:143 | raising one link's value changes the total by the same amount |
| Elision.AddContributionFacts | client/src/pages/SankeyPage.tsx:138-145 | a contribution raises the bridged total by its value when positive and by nothing otherwise, never creates a second link between the same endpoints, and keeps every value positive |
| Elision.BridgeOutFacts | client/src/pages/SankeyPage.tsx:137-146 | one outgoing link's contributions keep endpoints distinct and values positive, add links only from a predecessor to its target, and add its positive rounded shares to the total |
| Elision.PassThroughFacts | client/src/pages/SankeyPage.tsx:135-147 | every bridged link runs from a predecessor to a successor of the hidden id with a positive value, no two share endpoints, and the bridged total is the sum of the positive rounded shares |
| Elision.Rerouted | client/src/pages/SankeyPage.tsx:145 | the outgoing links, each now leaving from the given source with its value |
| Elision.SingleIncoming | client/src/pages/SankeyPage.tsx:135-147 | with a single incoming link and outgoing links to distinct targets the rounding is exact: each outgoing link is passed on whole, now from the predecessor (for repeated targets see `Elision.SingleIncomingFlows`) |
| Elision.ThroughputSingle | client/src/pages/SankeyPage.tsx:137-139 | with a single incoming link every outgoing link's rounded share is its whole value |
| Elision.InFlowUpdate | client/src/pages/SankeyPage.tsx:143 | raising one bridged link's value raises its target's inflow by the same amount and no other inflow |
| Elision.AddContributionInFlow | client/src/pages/SankeyPage.tsx:138-145 | a contribution raises the inflow of its target by its value when positive and leaves every other inflow as it was |
| Elision.SingleIncomingInFlow | client/src/pages/SankeyPage.tsx:135-147 | with a single incoming link, every successor receives from the bridged links exactly what the outgoing links brought it |
| Elision.SingleIncomingFlows | client/src/pages/SankeyPage.tsx:135-147 | with a single incoming link and any outgoing links, repeated targets included: the bridged total equals the outgoing total, every bridged link leaves from the predecessor, at most one runs to each successor, and each successor receives the sum of the outgoing values that reached it |
| Elision.SinksBridged | client/src/pages/SankeyPage.tsx:148-157 | at most one sink link per outgoing link, each from the successor to its "At" sink, carrying that link's positive remainder |
| Elision.SinksNodes | client/src/pages/SankeyPage.tsx:156-162 | the sink case only appends nodes, each the sink of some successor, and never a duplicate id |
| Elision.SinkStepNodes | client/src/pages/SankeyPage.tsx:155-162 | one iteration adds at most the node of its own sink, and only when that id is new |
| Elision.SinksFacts | client/src/pages/SankeyPage.tsx:148-164 | the sink links and the sink nodes together, as above |
| Elision.ElideOneClears | client/src/pages/SankeyPage.tsx:128-171 | after its iteration a hidden id without a self-loop (and not the sink of its own successor) is neither a node nor a link endpoint |
| Elision.RemoveNodeDistinct | client/src/pages/SankeyPage.tsx:170 | removing a node keeps ids distinct |
| Elision.ElideOneKeeps | client/src/pages/SankeyPage.tsx:167-170 | an iteration keeps every link that does not touch the id and every other node, and keeps node ids distinct |
| Elision.TotalUntouched | client/src/pages/SankeyPage.tsx:167-168 | without a self-loop, the total splits into the untouched links, the inflow and the outflow of the id |
| Elision.HiddenEnd | client/src/pages/SankeyPage.tsx:129-170 | a hidden id that nothing leaves vanishes together with its inflow, and nothing is bridged |
| Elision.TotalRerouted | client/src/pages/SankeyPage.tsx:145 | rerouting keeps the total |
| Elision.SinglePredecessor | client/src/pages/SankeyPage.tsx:128-171 | hiding a stage entered by one link, whose outgoing links go to distinct targets, reroutes them intact to the predecessor; only the entering link's value leaves the total (for repeated targets see `Elision.SinglePredecessorFlows`) |
| Elision.InFlowUntouched | client/src/pages/SankeyPage.tsx:167-168 | for every other stage, its inflow is what the untouched links bring plus what the hidden stage's outgoing links bring |
| Elision.ElideOneSingle | client/src/pages/SankeyPage.tsx:128-171 | a stage entered by one link is hidden by the pass-through case, or bridges nothing when nothing leaves it |
| Elision.SinglePredecessorFlows | client/src/pages/SankeyPage.tsx:128-171 | hiding a stage entered by one link, whatever the targets of its outgoing links: only the entering link's value leaves the total, and every other stage receives exactly what it received before |
| Elision.EmptyHeading | client/src/pages/SankeyPage.tsx:191-192 | the chart is drawn exactly when a node and a link are left; otherwise "All stages hidden" when something is hidden and "No flow data yet" when not (also lines 313-322) |
| Elision.StageToggles.constructor | client/src/pages/SankeyPage.tsx:184 | the page starts with nothing hidden |
| Elision.StageToggles.Toggle | client/src/pages/SankeyPage.tsx:194-201 | a hidden id is shown again and any other id hidden, and the hidden ids stay distinct |
| Elision.StageToggles.Reset | client/src/pages/SankeyPage.tsx:296-336 | Reset and "Show all stages" empty the hidden set |
| Elision.Deleted | client/src/pages/SankeyPage.tsx:197 | `delete` leaves exactly the other ids |
| Elision.Toggled | client/src/pages/SankeyPage.tsx:196-198 | an id is in the new set exactly when it was not in the old one, every other id as before, without duplicates |
| Elision.DeletedDistinct | client/src/pages/SankeyPage.tsx:197 | deleting keeps the ids distinct |
| Elision.DeletedAbsent | client/src/pages/SankeyPage.tsx:197 | deleting an absent id changes nothing |
| Elision.ToggleTwice | client/src/pages/SankeyPage.tsx:194-201 | toggling twice restores the members, and the order too when the id was not hidden before |
| Elision.DeletedAppend | client/src/pages/SankeyPage.tsx:197 | deleting distributes over concatenation, so the other ids keep their insertion order |
| Elision.HideLoneSource | client/src/pages/SankeyPage.tsx:148-170 | hiding the source of a lone link turns the link into one from its target to the target's sink |
| Elision.LoneSourceBridge | client/src/pages/SankeyPage.tsx:148-164 | with nothing entering, the case analysis takes the sink case and adds the sink node coloured like the target |
| Elision.LoneSink | client/src/pages/SankeyPage.tsx:149-162 | the sink case for a lone link gives one sink link with the whole value and one new sink node |
| Elision.HideLoneTarget | client/src/pages/SankeyPage.tsx:129-170 | hiding the target of a lone link leaves its source without links |
| Elision.HideLastNode | client/src/pages/SankeyPage.tsx:167-170 | hiding the last node of a graph without links leaves nothing |
| Elision.ElideTwo | client/src/pages/SankeyPage.tsx:128 | two hidden ids are handled one after the other, in the set's order |
| Elision.SourceFirst | client/src/pages/SankeyPage.tsx:119-176 | hiding the source and then the target of a lone link leaves a link between two synthetic sinks |
| Elision.TargetFirst | client/src/pages/SankeyPage.tsx:119-176 | hiding the target and then the source leaves nothing |
| Elision.HidingOrderMatters | client/src/pages/SankeyPage.tsx:119-176 | as written, the same hidden set draws a chart or "All stages hidden" depending on the order the chips were switched off (also lines 313-322) |
| Elision.SavedThenApplied | client/src/pages/SankeyPage.tsx:119-176 | hiding Saved and then Applied when every application is in Applied draws "At Applied" → "At At Applied" |
| Elision.SelfLoopDangles | client/src/pages/SankeyPage.tsx:135-170 | as written, a stage whose only link is a self-loop keeps that loop after its node is removed |
| Elision.SelfLoopBridge | client/src/pages/SankeyPage.tsx:135-147 | such a loop passes through its stage onto itself |
| Elision.PassThroughCase | client/src/pages/SankeyPage.tsx:135 | with something entering and something leaving, the pass-through case is taken |
| Elision.LoopOntoItself | client/src/pages/SankeyPage.tsx:136-146 | a loop passed through itself is bridged unchanged |
| Elision.RejectedTwice | client/src/pages/SankeyPage.tsx:119-176 | the graph `SankeyOf` builds for one application rejected after a REJECTED → REJECTED change is Saved → Applied plus a Rejected loop, and hiding Rejected keeps that loop while removing its node |
| Elision.WithoutLoop | client/src/pages/SankeyPage.tsx:129-130 | corrected filter: exactly the links other than a self-loop at the id |
| Elision.IntoShown | client/src/pages/SankeyPage.tsx:149 | corrected filter: exactly the links whose target is not hidden |
| Elision.ElideOneFixedClears | client/src/pages/SankeyPage.tsx:128-171 | corrected filter: a hidden id is cleared from nodes and links even with a self-loop |
| Elision.SelfLoopFixed | client/src/pages/SankeyPage.tsx:128-171 | corrected filter: a self-loop of any value goes with its stage, and no link touches the stage afterwards, whatever else leaves it, when no successor's sink is the stage itself |
| Elision.PassThroughClimbs | client/src/pages/SankeyPage.tsx:135-147 | corrected filter: what is bridged past a hidden id climbs the stage order and touches no id cleared before |
| Elision.BridgeFixedClimbs | client/src/pages/SankeyPage.tsx:135-165 | corrected filter: every bridged link climbs and touches no id cleared so far |
| Elision.ElideOneFixedStep | client/src/pages/SankeyPage.tsx:128-171 | corrected filter: one iteration keeps the graph climbing and clears its id besides the earlier ones |
| Elision.ElideAllFixedInvariant | client/src/pages/SankeyPage.tsx:128-171 | corrected filter: the loop keeps the graph climbing and no link touches an id already handled |
| Elision.NoneShown | client/src/pages/SankeyPage.tsx:149-164 | corrected filter: when every successor is hidden no sink is made |
| Elision.KeepLinkedNone | client/src/pages/SankeyPage.tsx:173-174 | without links no node is kept |
| Elision.HideDashboardFixed | client/src/pages/SankeyPage.tsx:119-176 | corrected filter: hiding every stage of a graph the dashboard builds leaves nothing to draw, in any order |
| Elision.HideAllFixed | client/src/pages/SankeyPage.tsx:119-176 | corrected filter: hiding every stage of a graph whose links climb the stage order leaves nothing, in any order |
| Elision.HidingOrderFixed | client/src/pages/SankeyPage.tsx:119-176 | corrected filter: hiding both ends of a lone link leaves nothing in either order, and the page says "All stages hidden" (also lines 313-322) |
| JobFinder.FormatPostedAgo | client/src/pages/JobFinderPage.tsx:32-42 | the badge is empty exactly for a job without a date |
| JobFinder.PostedToday | client/src/pages/JobFinderPage.tsx:34-37 | "Today" exactly within the first day after the posting |
| JobFinder.PostedDays | client/src/pages/JobFinderPage.tsx:36-39 | from one day up to a week, and for a date in the future, the number of whole days elapsed (floored), never 0, followed by "d ago" |
| JobFinder.PostedWeeks | client/src/pages/JobFinderPage.tsx:36-40 | from a week up to 30 days, the number of whole weeks, 1 to 4, followed by "w ago" |
| JobFinder.PostedMonths | client/src/pages/JobFinderPage.tsx:36-41 | from 30 days on, the number of whole 30-day months followed by "mo ago" |
| JobFinder.PostedAgoMeaning | client/src/pages/JobFinderPage.tsx:32-42 | the four cases together: every dated posting gets the phrase of the range its age falls in |
| JobFinder.UnionOfMembers | client/src/pages/JobFinderPage.tsx:164-169 | a string is in the union exactly when some element contributes it |
| JobFinder.TrackedKeys | client/src/pages/JobFinderPage.tsx:163-171 | the loop builds the set `TrackedSet` of the applications |
| JobFinder.TrackedSetMembers | client/src/pages/JobFinderPage.tsx:163-171 | the set holds exactly each application's key (lower-cased, trimmed company and title joined by a vertical bar) and its non-empty url |
| JobFinder.KeyHasBar | client/src/pages/JobFinderPage.tsx:166-174 | every key holds the vertical-bar separator |
| JobFinder.BarBetween | client/src/pages/JobFinderPage.tsx:166 | a text joined with a vertical bar holds the separator |
| JobFinder.TrackedMatches | client/src/pages/JobFinderPage.tsx:163-176 | when no url holds a vertical bar, a job is tracked exactly when an application has its key or, for a job with a url, the same url |
| JobFinder.UrlMatchesKey | client/src/pages/JobFinderPage.tsx:163-176 | because keys and urls share one set, a job whose url equals an application's key is shown as tracked |
| JobFinder.LastPage | client/src/pages/JobFinderPage.tsx:320-324 | `Math.ceil(total / 25)`: the least page count whose pages hold every job |
| JobFinder.PagesStayInRange | client/src/pages/JobFinderPage.tsx:312-325 | Previous and Next keep the page between 1 and the last page, each moving by one when its button is enabled and staying put otherwise |
| JobFinder.Pager.constructor | client/src/pages/JobFinderPage.tsx:134 | the page starts at 1 |
| JobFinder.Pager.Reset | client/src/pages/JobFinderPage.tsx:145-147 | a change of search, filter or window returns to page 1 |
| JobFinder.Pager.Previous | client/src/pages/JobFinderPage.tsx:313 | Previous moves to `max(1, page - 1)` |
| JobFinder.Pager.Next | client/src/pages/JobFinderPage.tsx:323 | Next moves to `min(last page, page + 1)` |
| JobFinder.RequestFilters | client/src/pages/JobFinderPage.tsx:153-161 | the route reads back the page's search, category and role type exactly when they are non-empty, the US-only flag as set, and the window always (see also `client/src/hooks/useJobs.ts:30-38`) |
| JobFinder.RequestPaging | client/src/pages/JobFinderPage.tsx:159-160 | the route reads back a limit of 25 and the offset `(page - 1) * 25`, the offset 0 included although it is not sent (see also `client/src/hooks/useJobs.ts:37-38`) |
| JobFinder.ShowingMatchesPage | client/src/pages/JobFinderPage.tsx:306-309 | on a page from 1 to the last, "Showing first–last" names exactly the jobs the server returns for that page's request |
| JobFinder.LocationLabel | client/src/pages/JobFinderPage.tsx:55-58 | a label exactly when the job has at least one location: the only location, or "N locations" |
| JobFinder.LocationLabelCount | client/src/pages/JobFinderPage.tsx:55-57 | for several locations the label starts with their number, which `parseInt` reads back |
| JobsRoute.OrElse | server/src/routes/jobs.ts:18-19 | a number or a fallback: the number when it is a non-zero number, the fallback for NaN and 0 |
| JobsRoute.ParseWindowName | server/src/routes/jobs.ts:15-17 | each window name is read back as its window, and only the four names are read as a window |
| JobsRoute.LimitAsWritten | server/src/routes/jobs.ts:18 | as written the limit never exceeds 100, but nothing keeps it above zero |
| JobsRoute.PageLimit | server/src/routes/jobs.ts:18 | corrected limit: between 1 and 100, and 50 when the parameter is absent |
| JobsRoute.LimitReadings | server/src/routes/jobs.ts:18 | the written and the corrected limit agree exactly when the written one is positive |
| JobsRoute.LimitAsWrittenOfNumber | server/src/routes/jobs.ts:18 | as written, a limit sent as a decimal number is read as itself up to 100, as 100 above, as 50 for zero, and as itself when negative |
| JobsRoute.PageLimitOfNumber | server/src/routes/jobs.ts:18 | corrected limit: a limit sent as a decimal number is read as itself from 1 to 100, as 100 above and as 50 for zero or below |
| JobsRoute.ParseOffset | server/src/routes/jobs.ts:19 | the offset read by `parseInt`, or 0 when falsy: the number read, 0 when there is none |
| JobsRoute.ParseOffsetOfNumber | server/src/routes/jobs.ts:19 | an offset sent as a decimal number is read back as that number |
| JobsRoute.Options | server/src/routes/jobs.ts:11-29 | as written: `usOnly` is on exactly for the text "true"; the limit is at most 100, and 50 when absent, but may be zero or negative; an offset is always passed |
| JobsRoute.OptionsFixed | server/src/routes/jobs.ts:11-29 | corrected limit: the same options with a limit between 1 and 100 |
| JobsRoute.OptionsAgree | server/src/routes/jobs.ts:18 | the written and the corrected options differ at most in the limit, and are equal exactly when the written limit is positive |
| JobsRoute.OptionsFilters | server/src/routes/jobs.ts:11-17 | category, role type and search reach the search unchanged, and the window only when it is one of the four names |
| JobsRoute.ListJobs | server/src/routes/jobs.ts:9-35 | as written: a failed fetch answers 500 "Failed to fetch job listings"; otherwise the JSON is the search result for the options as written, limit included |
| JobsRoute.ListJobsFixed | server/src/routes/jobs.ts:9-35 | corrected limit: the same route with the corrected options |
| JobsRoute.ListJobsBounded | server/src/routes/jobs.ts:18-30 | corrected limit: no answer of the corrected route holds more than 100 jobs or more than the total it reports |
| JobsRoute.ListJobsAgree | server/src/routes/jobs.ts:18-30 | the route as written answers like the corrected one whenever its limit is positive, and then with at most 100 jobs |
| JobsRoute.NegativeLimitPage | server/src/routes/jobs.ts:18 | as written, the route answers `limit=-1` with every ranked job but the last, which is more than 100 once 102 jobs match (see also `server/src/services/job.service.ts:378-382`) |
| JobsRoute.GetJobs | server/src/routes/jobs.ts:9-35 | the request updates the cache as `fetchListings` does and answers `ListJobs`, the route as written, with the search clock in seconds (see also `server/src/services/job.service.ts:23-40`) |
| JsNumbers.Round | server/src/services/dashboard.service.ts:27-31 | `Math.round` of a quotient: the integer nearest to it, halves rounded up (see also `client/src/pages/SankeyPage.tsx:138`) |
| JsNumbers.RoundExact | client/src/pages/SankeyPage.tsx:138 | rounding a quotient by its own divisor is exact |
| JsNumbers.RoundMonotone | server/src/services/dashboard.service.ts:27-31 | rounding grows with the dividend |
| JsNumbers.RoundPercent | server/src/services/dashboard.service.ts:27-31 | a rounded percentage of a part of a whole lies between 0 and 100 |
| JsNumbers.FloorDiv | client/src/pages/JobFinderPage.tsx:34-41 | `Math.floor(a / b)`: the integer below the quotient, for either sign of the divisor (see also `client/src/components/applications/StatusTimeline.tsx:9-15`) |
| JsNumbers.CeilDiv | client/src/pages/JobFinderPage.tsx:320-324 | `Math.ceil(a / b)`: the least integer not below the quotient |
| JsNumbers.DigitRun | server/src/routes/jobs.ts:18-19 | `parseInt` reads the longest run of digits and stops at the first non-digit |
| JsNumbers.ParseIntNeedsDigit | server/src/routes/jobs.ts:18-19 | a text with no decimal digit is NaN to `parseInt` |
| JsNumbers.NatToString | client/src/hooks/useJobs.ts:37-38 | `String(n)` of a natural number is a non-empty run of decimal digits |
| JsNumbers.ParseIntOfIntToString | client/src/hooks/useJobs.ts:37-38 | `parseInt` reads back every integer `String` renders (see also `server/src/routes/jobs.ts:18-19`) |
| JsNumbers.ParseIntOfNumberPrefix | client/src/pages/JobFinderPage.tsx:57 | `parseInt` reads the number at the head of a text, ignoring what follows it (see also `server/src/routes/jobs.ts:18-19`) |
| JsNumbers.ParseIntUnsigned | server/src/routes/jobs.ts:18-19 | a text that starts with a digit is read as its leading run of digits |
| JsNumbers.IntToStringInjective | client/src/components/applications/StatusTimeline.tsx:12-16 | distinct integers render as distinct texts |
| StatusTimeline.JustNowMeaning | client/src/components/applications/StatusTimeline.tsx:9-10 | "just now" exactly when less than a minute has passed, a time in the future included |
| StatusTimeline.MinutesMeaning | client/src/components/applications/StatusTimeline.tsx:9-12 | "m minutes ago" exactly when between m and m + 1 whole minutes have passed, for m from 1 to 59 |
| StatusTimeline.HoursMeaning | client/src/components/applications/StatusTimeline.tsx:9-14 | "h hours ago" exactly when between h and h + 1 whole hours have passed, for h from 1 to 23 |
| StatusTimeline.DaysMeaning | client/src/components/applications/StatusTimeline.tsx:9-16 | "d days ago" exactly when between d and d + 1 whole days have passed, for d from 1 to 29 |
| StatusTimeline.CalendarMeaning | client/src/components/applications/StatusTimeline.tsx:9-17 | the calendar date exactly from thirty days on, or when the date does not parse |
| StatusTimeline.TimeAgoMonotone | client/src/components/applications/StatusTimeline.tsx:8-18 | as the clock moves on, what a change shows never goes back to a more recent phrase |
| StatusTimeline.Phrase | client/src/components/applications/StatusTimeline.tsx:10-17 | every relative age has a text; only the calendar date is left to the locale |
| StatusTimeline.NumberedPhrase | client/src/components/applications/StatusTimeline.tsx:12-16 | a numbered phrase is the number, the unit letter and " ago" |
| StatusTimeline.NumberedNotJustNow | client/src/components/applications/StatusTimeline.tsx:10-16 | no numbered phrase reads "just now" |
| StatusTimeline.PhraseInjective | client/src/components/applications/StatusTimeline.tsx:10-16 | different ages read differently |
| StatusTimeline.LabelOf | client/src/components/applications/StatusTimeline.tsx:38-40 | `STATUS_LABELS[x]`: a label exactly for a status name, that status's label (see also `client/src/lib/constants.ts:44-51`) |
| StatusTimeline.TimelineEmpty | client/src/components/applications/StatusTimeline.tsx:21-24 | "No status changes yet." exactly when the history is missing or empty |
| StatusTimeline.TimelineEntries | client/src/components/applications/StatusTimeline.tsx:28-42 | otherwise every change is listed once, in order, with the labels of its statuses and its age |
| StatusTimeline.ConnectorsButLast | client/src/components/applications/StatusTimeline.tsx:30-32 | lines joined except the last have one connector fewer than lines |
| StatusTimeline.TimelineConnectors | client/src/components/applications/StatusTimeline.tsx:28-32 | a connector under every change but the last |
| Statuses.Without | client/src/lib/constants.ts:12-18 | exactly the other statuses, in their order |
| Statuses.FromName | client/src/lib/constants.ts:1-8 | the status with the given name, nothing for any other text |
| Statuses.StatusesListed | client/src/lib/constants.ts:1-8 | every status is listed, and each name is read back as its own status |
| Statuses.BoardStatusColumn | client/src/lib/constants.ts:12-24 | `boardStatus` always gives a board column, moves exactly UNDER_REVIEW (to APPLIED), and is idempotent |
| Statuses.BoardIsApplicationWithoutUnderReview | client/src/lib/constants.ts:1-18 | the board columns are the statuses without UNDER_REVIEW, in the same order |
| Statuses.BoardStatusKeepsLabel | client/src/lib/constants.ts:22-51 | a status shows the label of its board column |
| Statuses.SharedLabels | client/src/lib/constants.ts:44-51 | APPLIED and UNDER_REVIEW are the only two statuses sharing a label |
| CsvImport.LowerAll | client/src/components/applications/ImportModal.tsx:36 | each header lower-cased and then trimmed, position by position |
| CsvImport.HeaderIndex | client/src/components/applications/ImportModal.tsx:50 | `findIndex`: a header position, or -1 |
| CsvImport.HeaderIndexFacts | client/src/components/applications/ImportModal.tsx:50 | -1 exactly when no header matches the field's pattern, and otherwise the first header that does |
| CsvImport.MappingOfMembers | client/src/components/applications/ImportModal.tsx:49-52 | the fields tried and matched are the fields mapped, each to the original spelling of its first matching header |
| CsvImport.MapFields | client/src/components/applications/ImportModal.tsx:49-52 | the loop over the pattern table computes `MappingOf` |
| CsvImport.GuessMapping | client/src/components/applications/ImportModal.tsx:34-55 | `guessMapping` returns `GuessedMapping` |
| CsvImport.MappingMeaning | client/src/components/applications/ImportModal.tsx:38-52 | a field among those tried is mapped exactly when some header matches its anchored, case-insensitive pattern, and then to the first one |
| CsvImport.GuessedMappingMeaning | client/src/components/applications/ImportModal.tsx:34-55 | every field is mapped exactly when some header matches its pattern, and then to the first matching header |
| CsvImport.MatchesFromNotEmpty | client/src/components/applications/ImportModal.tsx:38-47 | only a non-empty text matches alternatives that begin with a word |
| CsvImport.PatternsNotEmpty | client/src/components/applications/ImportModal.tsx:38-47 | every alternative of every pattern begins with a non-empty word |
| CsvImport.MatchedNotEmpty | client/src/components/applications/ImportModal.tsx:36-50 | a header that matches a field is not blank |
| CsvImport.GuessedNotEmpty | client/src/components/applications/ImportModal.tsx:34-55 | a guessed field is mapped to a non-empty header |
| CsvImport.GuessedCanProceed | client/src/components/applications/ImportModal.tsx:111 | with the guessed mapping, Preview is enabled exactly when some header reads as a title and some header reads as a company (also lines 150, 228) |
| CsvImport.DropLeading | client/src/components/applications/ImportModal.tsx:59 | a suffix of the text, strictly shorter when it started with a separator |
| CsvImport.CollapseRunsShape | client/src/components/applications/ImportModal.tsx:59 | no separator survives `replace(/[\s-]+/g, "_")`, and a text without separators is left as it is |
| CsvImport.CollapseSingle | client/src/components/applications/ImportModal.tsx:59 | a text without two separators in a row has each separator replaced by one underscore |
| CsvImport.CollapseFirst | client/src/components/applications/ImportModal.tsx:59 | a leading separator becomes a leading underscore |
| CsvImport.BuildLabelMap | client/src/components/applications/ImportModal.tsx:61-62 | the `labelMap` loop builds `LabelMapOf` over the statuses in order |
| CsvImport.LabelMapStep | client/src/components/applications/ImportModal.tsx:62 | each iteration sets the key of the status's board column name to the status |
| CsvImport.LabelIsBoardName | client/src/components/applications/ImportModal.tsx:62 | the upper-cased label of a status is the name of its board column (see also `client/src/lib/constants.ts:22-24, 44-51`) |
| CsvImport.LabelLookup | client/src/components/applications/ImportModal.tsx:61-63 | the status a label key names, never APPLIED, and nothing for a key that is no board column's name |
| CsvImport.LabelMapSteps | client/src/components/applications/ImportModal.tsx:62 | the maps the loop builds, status by status; UNDER_REVIEW overwrites the "APPLIED" entry |
| CsvImport.LabelMapIsLookup | client/src/components/applications/ImportModal.tsx:61-63 | the map the loop builds is `LabelLookup`: "APPLIED" goes to UNDER_REVIEW |
| CsvImport.NormalizeStatus | client/src/components/applications/ImportModal.tsx:57-64 | `normalizeStatus` returns `NormalizedStatus` |
| CsvImport.NamesAreNameLike | client/src/lib/constants.ts:1-8 | status names are capital letters joined by single underscores |
| CsvImport.Hyphenated | client/src/components/applications/ImportModal.tsx:59 | the lower-case, hyphenated spelling of a name, position by position |
| CsvImport.SeparatorUpper | client/src/components/applications/ImportModal.tsx:59 | upper-casing leaves separators alone |
| CsvImport.HyphenatedChar | client/src/components/applications/ImportModal.tsx:59 | a hyphenated, re-upper-cased character is a separator exactly when it was an underscore |
| CsvImport.NameLikeUnchanged | client/src/components/applications/ImportModal.tsx:59-60 | a name-like cell passes the upper-casing and the separator replacement unchanged |
| CsvImport.HyphenatedUnderscored | client/src/components/applications/ImportModal.tsx:59 | a hyphenated lower-case name reads back as the name |
| CsvImport.NormalizedStatusOfName | client/src/components/applications/ImportModal.tsx:57-60 | a cell holding a status name, in upper or lower case or hyphenated, is read back as that status |
| CsvImport.NormalizedStatusOfLabel | client/src/components/applications/ImportModal.tsx:57-63 | a cell holding a label is read as the status's board column |
| CsvImport.UnderscoreNotNamed | client/src/components/applications/ImportModal.tsx:60 | no status name begins with an underscore |
| CsvImport.LeadingSeparatorNotNamed | client/src/components/applications/ImportModal.tsx:59-60 | a cell that begins with white space or a hyphen is never read by name |
| CsvImport.UpperPadded | client/src/components/applications/ImportModal.tsx:59-63 | padding a name with white space does not change its upper case |
| CsvImport.ReadAsLabel | client/src/components/applications/ImportModal.tsx:60-63 | a cell not read by name is looked up as a label |
| CsvImport.TrimUpperPadded | client/src/components/applications/ImportModal.tsx:63 | a padded name trims back to itself once upper-cased |
| CsvImport.PaddedNameLike | client/src/components/applications/ImportModal.tsx:57-63 | a name-like text with white space before it is looked up as a label, not read by name |
| CsvImport.PaddedName | client/src/components/applications/ImportModal.tsx:57-63 | a status name with white space before it is looked up as a label |
| CsvImport.PaddedApplied | client/src/components/applications/ImportModal.tsx:57-63 | so " APPLIED " is read as UNDER_REVIEW, and " UNDER_REVIEW " is not recognised |
| CsvImport.NormalizedStatusMeaning | client/src/components/applications/ImportModal.tsx:57-64 | a status is found only for a non-empty cell that reads as its name, or as the label the map keeps for it, and it is a listed status |
| CsvImport.Trimmed | client/src/components/applications/ImportModal.tsx:132-143 | the trimmed cell, or `undefined` when that is falsy: a value exactly for a cell that is not blank, and then trimmed and non-empty |
| CsvImport.SalaryCell | client/src/components/applications/ImportModal.tsx:139-140 | a salary cell only when its field is mapped to a non-empty header whose cell is not empty |
| CsvImport.MapRow | client/src/components/applications/ImportModal.tsx:131-145 | a row is skipped exactly when its trimmed title or company is missing or empty; a mapped row has trimmed, non-empty title and company, and no empty optional text |
| CsvImport.GetMapped | client/src/components/applications/ImportModal.tsx:129-147 | never more mapped rows than rows |
| CsvImport.GetMappedMembers | client/src/components/applications/ImportModal.tsx:129-147 | the mapped rows are exactly the mappings of the rows that are not skipped |
| CsvImport.GetMappedCount | client/src/components/applications/ImportModal.tsx:129-147 | one mapped row per row not skipped (also lines 241-242) |
| CsvImport.GetMappedOrder | client/src/components/applications/ImportModal.tsx:130-146 | the mapped rows keep the rows' order: a concatenation maps part by part |
| CsvImport.PreviewShape | client/src/components/applications/ImportModal.tsx:240-283 | the preview shows at most 50 rows, the first ones; shown, "more" and skipped add up to the rows parsed; import is enabled exactly when nothing is pending and some row maps |
| CsvImport.PreviewFacts | client/src/components/applications/ImportModal.tsx:149 | the same for the rows and mapping of the modal, the skipped count being the rows without title or company (also lines 240-283) |
| ResumeRoute.PutResume | server/src/routes/resume.ts:17-28 | for missing or string content, the answer is a stored resume or the 400 "Resume content is required" |
| ResumeRoute.PutResumeStores | server/src/routes/resume.ts:21-26 | content is stored exactly when it holds something other than white space |
| ResumeRoute.PutResumeTrims | server/src/routes/resume.ts:26 | what is stored is the content trimmed: non-empty and with no white space at either end |
| ResumeRoute.PutResumeIdempotent | server/src/routes/resume.ts:17-28 | storing the stored text again stores the same text |
| ResumeRoute.WordPatternMeaning | server/src/routes/resume.ts:40-42 | the Word name pattern (a dot, then `docx?` or `doc`, at the end, ignoring case) accepts a name exactly when it ends in ".doc" or ".docx", in any case |
| ResumeRoute.FormatOrder | server/src/routes/resume.ts:58-81 | each reader is chosen exactly when its test passes and no earlier test does: PDF, then Word, then plain text |
| ResumeRoute.PdfNameWins | server/src/routes/resume.ts:36-58 | a name ending in ".pdf" is read as a PDF whatever type the client claimed |
| ResumeRoute.LowerKeepsLowerSuffix | server/src/routes/resume.ts:37 | lower-casing keeps a lower-case suffix |
| ResumeRoute.FormatIgnoresCase | server/src/routes/resume.ts:37-76 | the choice depends on the name only up to the case of its letters |
| ResumeRoute.LowerOfUpperSuffix | server/src/routes/resume.ts:37-76 | an upper-cased extension is found again after lower-casing |
| ResumeRoute.LastLetter | server/src/routes/resume.ts:37-76 | a name ends in an extension only if its last letter is the extension's |
| ResumeRoute.FormatByExtension | server/src/routes/resume.ts:36-81 | an upload typed "application/octet-stream" is read by its extension in any case: ".pdf" as PDF, ".doc"/".docx" as Word, ".txt" as text |
| ResumeRoute.OctetStreamUntyped | server/src/routes/resume.ts:30-76 | the generic binary type is none of the types the handler recognises |
| ResumeRoute.OtherExtension | server/src/routes/resume.ts:37-76 | extensions with different last letters exclude each other |
| ResumeRoute.UploadOutcomes | server/src/routes/resume.ts:44-95 | no file is 400 "No file uploaded"; an unknown format is 400 "Only PDF, DOCX, DOC, and TXT files are supported"; a PDF that fails to parse is the PDF 400; a Word reader that throws is the 500, and nothing else is |
| ResumeRoute.UploadMatchesPut | server/src/routes/resume.ts:83-91 | an upload is stored exactly when a known reader produced non-blank text, and then stored as `PUT /` would store it, with the file's name |
| ResumeRoute.BlankUpload | server/src/routes/resume.ts:83-88 | a readable file of blank text is refused as having no text |
| JobListings.KeysOf | server/src/services/job.service.ts:60 | the key of every listing (lower-cased, trimmed company and title joined by a vertical bar), in order |
| JobListings.Bucket | server/src/services/job.service.ts:59-64 | exactly the listings with the key |
| JobListings.FlatLocationsMembers | server/src/services/job.service.ts:68 | `flatMap` holds exactly the locations of the group's listings |
| JobListings.GroupsBy | server/src/services/job.service.ts:57-82 | one group per distinct key |
| JobListings.BucketNonEmpty | server/src/services/job.service.ts:59-64 | the bucket of a key that occurs is not empty |
| JobListings.BucketEmpty | server/src/services/job.service.ts:59-64 | a key that does not occur has no listings |
| JobListings.BucketSnoc | server/src/services/job.service.ts:59-64 | one more listing joins only its own key's bucket, at the end |
| JobListings.GroupByCompanyAndTitle | server/src/services/job.service.ts:57-82 | `groupByCompanyAndTitle` returns `Grouped` |
| JobListings.GroupBy | server/src/services/job.service.ts:57-82 | the two loops of the grouping compute `GroupsBy` |
| JobListings.GroupEach | server/src/services/job.service.ts:65-81 | the second loop gives, position by position, the group of each bucket in the `Map`'s key order |
| JobListings.GroupAt | server/src/services/job.service.ts:66-80 | the j-th key of the `Map` has a non-empty bucket, whose group is the j-th group |
| JobListings.FillBuckets | server/src/services/job.service.ts:58-64 | the first loop leaves the keys in insertion order and every listing in its key's bucket |
| JobListings.FillStep | server/src/services/job.service.ts:59-64 | one more listing: its key joins the order if new, and the listing joins its bucket |
| JobListings.BucketsOfSnoc | server/src/services/job.service.ts:61-63 | `get ?? []`, `push`, `set` for one listing |
| JobListings.BucketsOfKeys | server/src/services/job.service.ts:58-64 | the `Map` has a bucket for exactly the keys that occur |
| JobListings.BucketsOfContents | server/src/services/job.service.ts:58-64 | each bucket holds the listings with its key, in input order |
| JobListings.BucketHead | server/src/services/job.service.ts:67 | the first member of a bucket is the first listing with that key |
| JobListings.NonEmptyMembers | server/src/services/job.service.ts:68 | `filter(Boolean)` keeps exactly the non-empty strings |
| JobListings.NonEmptyDistinct | server/src/services/job.service.ts:68 | and keeps them distinct |
| JobListings.GroupOfFacts | server/src/services/job.service.ts:67-79 | a group's locations are sorted, distinct, non-empty and exactly its listings' locations; its date is the latest of theirs, a missing date counting as 0 |
| JobListings.GroupsByFacts | server/src/services/job.service.ts:57-82 | one group per distinct key, in the order keys first occur, each with the id, company, title, url and category of the first listing with its key |
| JobListings.GroupedFrom | server/src/services/job.service.ts:57-82 | every group comes from listings of the input |
| JobListings.PrefixContained | server/src/services/job.service.ts:87-92 | a text that starts with a word contains it |
| JobListings.MatchesCategory | server/src/services/job.service.ts:84-112 | an unrecognised category matches every listing; "software" matches exactly the listings whose category mentions software |
| JobListings.MatchesRoleType | server/src/services/job.service.ts:138-183 | an unrecognised role type matches every listing |
| JobListings.UsPatternIsWord | server/src/services/job.service.ts:128 | `/\b,?\s*us\b/` matches exactly when "us" occurs as a whole word |
| JobListings.UsPatternWord | server/src/services/job.service.ts:128 | a match ends in the word "us" |
| JobListings.IsUSLocation | server/src/services/job.service.ts:123-131 | a non-US pattern anywhere rules a location out; otherwise a state code as a whole word rules it in |
| JobListings.HasUSLocation | server/src/services/job.service.ts:133-136 | true for a listing without locations, and otherwise exactly when some location is in the United States |
| JobListings.UsWordCounts | server/src/services/job.service.ts:123-131 | without a non-US pattern, the word "us" classifies a location as in the United States |
| JobListings.SearchJobs | server/src/services/job.service.ts:341-382 | `searchJobs` for the Simplify source returns `Search` |
| JobListings.RankJobs | server/src/services/job.service.ts:341-379 | filtering, grouping, the group filters and the sort compute `Ranked` |
| JobListings.FilterSteps | server/src/services/job.service.ts:344-367 | the filter steps keep exactly the listings that pass every filter applied |
| JobListings.FilterAndSort | server/src/services/job.service.ts:370-378 | the group filters and the sort compute `RankGroups` |
| JobListings.FilterListingsMembers | server/src/services/job.service.ts:344-367 | a listing reaches the grouping exactly when it is active, not hidden, for Summer 2026 and matches every requested filter |
| JobListings.RankGroupsFacts | server/src/services/job.service.ts:370-378 | the ranked groups are exactly the kept ones, newest first |
| JobListings.PageFacts | server/src/services/job.service.ts:380-382 | a page is a contiguous run of the ranked groups, no longer than a non-negative limit nor than `total`, and stays newest first |
| JobListings.NewestOrderSlice | server/src/services/job.service.ts:378-381 | a run of groups ordered newest first stays so |
| JobListings.SearchShape | server/src/services/job.service.ts:341-382 | at most `limit` jobs and at most `total`, newest first |
| JobListings.SearchProvenance | server/src/services/job.service.ts:341-382 | every returned job is a kept group made from a listing that passes every filter |
| JobListings.SearchWithinWindow | server/src/services/job.service.ts:373-377 | with a window, every returned job was posted at or after the cutoff |
| JobListings.ListingsCache.constructor | server/src/services/job.service.ts:23-24 | the cache starts empty at time 0 |
| JobListings.ListingsCache.FetchListings | server/src/services/job.service.ts:27-40 | a call updates the cache and answers exactly as `FetchStep` |
| JobListings.CacheHit | server/src/services/job.service.ts:28-30 | a fresh cache is returned without a download and unchanged |
| JobListings.CacheMiss | server/src/services/job.service.ts:31-39 | a stale cache downloads, and succeeds exactly when listings arrive, which are stored |
| JobListings.FailureKeepsCache | server/src/services/job.service.ts:32-36 | a failed download leaves the cache as it was and reports an error |
| JobListings.FreshAfterDownload | server/src/services/job.service.ts:25-38 | for an hour after a download every call is served from the cache |
| JobListings.StatusInError | server/src/services/job.service.ts:32 | a failed download's error names its HTTP status |
| JobListings.CafeRequest | server/src/services/job.service.ts:240-303 | with a positive limit the page size is the limit capped at 50; otherwise page 0 |
| JobListings.CafePageHoldsOffset | server/src/services/job.service.ts:240-303 | with a positive limit the requested page holds the offset |
| JobListings.FloorDivExact | server/src/services/job.service.ts:240-303 | dividing a page boundary by the limit gives the page back |
| LocationChart.NormalizeLocation | client/src/components/dashboard/LocationChart.tsx:9-12 | never empty: "Unspecified" for a missing or blank location, otherwise the location trimmed |
| LocationChart.Normalized | client/src/components/dashboard/LocationChart.tsx:17-18 | one normalised location per application |
| LocationChart.Entries | client/src/components/dashboard/LocationChart.tsx:21-22 | one `{location, count}` per key, in key order, with its count |
| LocationChart.CountLocations | client/src/components/dashboard/LocationChart.tsx:16-20 | the counting loop builds the tally of the normalised locations |
| LocationChart.CountStep | client/src/components/dashboard/LocationChart.tsx:18-19 | one more application bumps the count of its location |
| LocationChart.LocationData | client/src/components/dashboard/LocationChart.tsx:15-25 | the memoised data are `ChartOf`: count, sort, keep ten |
| LocationChart.EntriesFacts | client/src/components/dashboard/LocationChart.tsx:21-22 | the entries list each key once with its count |
| LocationChart.TallyEntriesFacts | client/src/components/dashboard/LocationChart.tsx:16-22 | the entries of a tally list each element once, with its multiplicity |
| LocationChart.AllEntriesFacts | client/src/components/dashboard/LocationChart.tsx:16-22 | each entry counts the applications under its location, at least one; the locations are distinct and exactly those counted |
| LocationChart.RankedOrder | client/src/components/dashboard/LocationChart.tsx:23 | the sort is a permutation of the entries by non-increasing count |
| LocationChart.RankedFacts | client/src/components/dashboard/LocationChart.tsx:21-23 | the ranked entries are the entries reordered, each location once |
| LocationChart.ChartFacts | client/src/components/dashboard/LocationChart.tsx:15-25 | at most ten locations, each once, the most frequent first, with their counts; all of them when there are ten or fewer |
| LocationChart.OffTopBelow | client/src/components/dashboard/LocationChart.tsx:23-24 | in a list sorted by count, an entry cut by `slice(0, 10)` counts no more than any kept one |
| LocationChart.ChartIsTop | client/src/components/dashboard/LocationChart.tsx:21-24 | a location left off the chart is counted no more often than any location on it |
| LocationChart.AllEntriesEmpty | client/src/components/dashboard/LocationChart.tsx:16-22 | there are entries exactly when there are applications |
| LocationChart.ChartEmpty | client/src/components/dashboard/LocationChart.tsx:27 | the empty state is shown exactly when there are no applications |
| LocationChart.RankedStable | client/src/components/dashboard/LocationChart.tsx:21-23 | among equally frequent locations the chart keeps the order they first occur in |
| LocationChart.SumCountsPermutation | client/src/components/dashboard/LocationChart.tsx:23 | sorting the entries leaves the sum of their counts unchanged |
| LocationChart.RankedSum | client/src/components/dashboard/LocationChart.tsx:16-23 | before the cut, the counts add up to the number of applications: every application is counted once |
| LocationChart.TopSum | client/src/components/dashboard/LocationChart.tsx:24 | `slice(0, 10)` keeps at most the whole sum, and all of it when there are ten entries or fewer |
| LocationChart.ChartSum | client/src/components/dashboard/LocationChart.tsx:16-24 | the chart accounts for at most every application, and for exactly all of them when there are ten locations or fewer |
| Sorting.SortThreeInOrder | server/src/services/dashboard.service.ts:144-145 | the stable sort leaves three elements already in key order as they are |
| Sorting.SortByKeySorted | server/src/services/job.service.ts:378 | the sort orders the elements by non-decreasing key and is a permutation of its input; with the key negated this is the comparator `(a, b) => key(b) - key(a)` |
| Sorting.SortByKeyStable | server/src/services/job.service.ts:378 | the sort is stable: elements with equal keys keep their relative order |
| Sorting.SortStringsSorted | server/src/services/job.service.ts:68 | the default `sort()` of strings orders them character by character, by code point, and is a permutation of its input |
| Tallies.TallyOfContents | server/src/services/dashboard.service.ts:96-99 | the counting dictionary holds each distinct element once, with its number of occurrences, at least one |
| Tallies.TallyOfOrder | client/src/components/dashboard/LocationChart.tsx:17-21 | the dictionary's entries iterate in the order the keys were first inserted |
| Tallies.TallyOfSum | server/src/services/dashboard.service.ts:44-47 | the counts of the keys that satisfy a test add up to the number of elements that satisfy it |
| Text.TrimShape | client/src/components/dashboard/LocationChart.tsx:10-11 | `trim` gives the empty string exactly for white space, and otherwise a string that starts and ends with a non-space |
| Text.TrimIdempotent | server/src/routes/resume.ts:21-26 | trimming twice is trimming once |
| Text.LowerTrimCommute | server/src/services/job.service.ts:60 | lower-casing and trimming can be done in either order |
| Seqs.Slice | server/src/services/job.service.ts:381 | `slice(start, end)` keeps at most `end - start` elements, and exactly the elements between the two indices when they lie in the list |
| Seqs.FirstSeenFacts | server/src/services/job.service.ts:68 | `[...new Set(xs)]` lists each element of `xs` once, in the order of first occurrence |
| Seqs.Max | server/src/services/job.service.ts:69 | `Math.max` of a non-empty list is one of its elements and no element exceeds it |

## Left out

- The SVG and PNG export of the flow chart, and the nivo chart configuration: they are DOM, canvas and rendering code with floating-point geometry.
- The database-backed services and routes (applications, interviews, notes, tags, the resume GET and DELETE), authentication and middleware: they are storage calls with ownership checks. A status change's `fromStatus` being the prior status is only an assumption about the builder's input.
- The bodies of the listings download and of the Hiring.Cafe search, `mapHiringCafeToGroupedJob`, and the `source` option that selects that search: network calls, generated ids and the wall clock. Only the request's page arithmetic and the outcome of a download are modelled.
- The PDF, Word and UTF-8 readers and the 5 MB upload limit: the text the chosen reader produced, or its exception, is a parameter.
- CSV parsing: the parsed rows are the input of the mapping.
- The react-query hooks other than the query the job finder sends: they are caching and fetching around the modelled routes.
- Floating-point behaviour: `Math.round`, `Math.floor` and `Math.ceil` are taken over exact integers. `Number(...)` of a salary cell is kept as the cell's text.
- `toLocaleDateString`: the calendar date of a change older than thirty days, or one whose date does not parse, is `CalendarDate` with no text (`StatusTimeline.Phrase` is `None` for it).
- Date parsing and `toISOString`: timestamps are integers, and the day of an application is given as its ISO date text.
- Unicode case mapping: `toLowerCase` and `toUpperCase` are modelled on ASCII letters only.
- Strings are sequences of Unicode scalar values, not of UTF-16 code units. Lengths and order for characters outside the Basic Multilingual Plane are not modelled.
- Sorting.SortStringsSorted: orders strings by code point, while JavaScript's `sort()` and `<` compare UTF-16 code units. The two orders agree within the Basic Multilingual Plane. They differ for a character above U+FFFF against one in U+E000 to U+FFFF: "😀" sorts before "Ａ" in JavaScript and after it here. The same holds for `Text.Below`.
- The enumeration order of integer-like keys of a plain object (a location such as "10001" is listed first by JavaScript). Keys that collide with prototype properties are not modelled either. Dictionaries keep insertion order.
- The colours and React keys of the timeline entries, and all layout.
- Non-mutation of the inputs of `filterSankeyData` and the identity of the returned graph: values in the model are immutable, so an unchanged result is stated as equality.
- The JavaScript `Set` of hidden stages is a list without duplicates in insertion order.
- The statuses on the server side are strings. On the client side they are a datatype, reached through `Statuses.FromName`.
- JobFinder.TrackedMatches: states the "key or URL" equivalence only for URLs without a bar. For other URLs, `JobFinder.UrlMatchesKey` shows the mixing.
- Elision.HideAllFixed: proves that hiding every stage leaves nothing only for graphs whose links climb some rank, self-loops allowed. Every graph the dashboard builds does (`SankeyBuilder.SankeyClimbs`, used by `Elision.HideDashboardFixed`). It is proved for the corrected filter, not for the filter as written.
- Request values of a type other than a string: query parameters and the `content` of the resume PUT body are modelled as single strings. Repeated query parameters (arrays), nested objects and non-string JSON content make the handlers throw on `toLowerCase` or `trim`; the jobs route then answers 500, and the resume PUT handler throws with no answer of its own. Neither path is modelled.

## Findings

| source | as written | input that shows it | evidently intended | confidence | as-written member | corrected member |
|---|---|---|---|---|---|---|
| client/src/pages/SankeyPage.tsx:148-164 | the sink step adds an "At X" node for a target even when that target is itself hidden later | links [A→B] with both A and B hidden: hidden order [A, B] leaves "At B" → "At At B" and draws a chart; order [B, A] leaves nothing | the result of hiding a set of stages does not depend on the order in which they were hidden, and hiding every stage leaves nothing | not executed | Elision.HidingOrderMatters | Elision.HidingOrderFixed |
| client/src/pages/SankeyPage.tsx:135-170 | a self-loop on a hidden stage counts as both inflow and outflow, and the bridged loop survives the removal of the stage's node | a REJECTED → REJECTED status change gives a Rejected → Rejected link, and hiding Rejected keeps a link to the removed node | a hidden stage is cleared from both nodes and links | not executed | Elision.SelfLoopDangles | Elision.SelfLoopFixed |
| server/src/routes/jobs.ts:18 | the limit is the smaller of 100 and the parsed parameter, with 50 only for a missing, unparsable or zero value, so a negative limit is kept | `limit=-1` gives `slice(offset, offset - 1)`: every ranked job but the last, more than 100 once 102 jobs match | the page size lies between 1 and 100 | not executed | JobsRoute.NegativeLimitPage | JobsRoute.ListJobsBounded |
