/** The overview's health roll-up over open alerts
    (app/src/components/layout/overview.ts, with monitoring/shared.ts and
    processes/health.ts). */
module HealthRollup {
  import opened Basics

  datatype Health = Failing | Warning | Fine | Unproven

  datatype AlertState = Firing | Acknowledged | Resolved

  datatype Alert = Alert(
    id: string, kind: string, state: AlertState, collection: Option<string>, association: Option<string>,
    connection: Option<string>, process: Option<string>)

  datatype Direction = Ingest | Deliver

  datatype Flow = Flow(id: string, collection: string, connection: string, direction: Direction, items: nat)

  datatype NodeType = CollectionNode | ProcessNode | ConnectionNode

  datatype Node = Node(id: string, nodeType: NodeType, name: string, status: string, deployed: Option<bool>)

  datatype EdgeKind = IngestEdge | DeliverEdge | ProcessSource | ProcessOutput | ExtractorEdge

  datatype Edge = Edge(id: string, kind: EdgeKind, source: string, target: string)

  datatype Graph = Graph(nodes: seq<Node>, edges: seq<Edge>)

  const DEGRADED_ALERT_KINDS: set<string> := {"process_image_flagged"}

  /* ---------------------------------- health ---------------------------------- */

  function Rank(h: Health): nat {
    match h
    case Failing => 3
    case Warning => 2
    case Fine => 1
    case Unproven => 0
  }

  function Worse(a: Health, b: Health): Health {
    if Rank(a) >= Rank(b) then a else b
  }

  function OpenAlertHealth(a: Alert): Health {
    if a.state == Firing && a.kind !in DEGRADED_ALERT_KINDS then Failing else Warning
  }

  function ConnectionHealth(status: string): Health {
    if status == "ok" then Fine else if status == "error" then Failing else Unproven
  }

  // The verdict a set of open alerts amounts to: the worst of them.
  function Join(alerts: seq<Alert>): Health {
    if alerts == [] then Unproven else Worse(OpenAlertHealth(alerts[0]), Join(alerts[1..]))
  }

  function Fails(): Alert -> bool {
    (a: Alert) => OpenAlertHealth(a) == Failing
  }

  lemma {:induction false} JoinIs(alerts: seq<Alert>)
    ensures Join(alerts) == if alerts == [] then Unproven
                            else if exists a :: a in alerts && OpenAlertHealth(a) == Failing then Failing else Warning
  {
    if alerts != [] {
      JoinIs(alerts[1..]);
      assert alerts[0] in alerts;
      assert forall a :: a in alerts <==> a == alerts[0] || a in alerts[1..];
    }
  }

  /** The join does not depend on the order alerts are listed in. */
  lemma {:induction false} JoinIgnoresOrder(a: seq<Alert>, b: seq<Alert>)
    requires multiset(a) == multiset(b)
    ensures Join(a) == Join(b)
  {
    SameElems(a, b);
    JoinIs(a);
    JoinIs(b);
    if a != [] {
      assert a[0] in b;
    }
    if b != [] {
      assert b[0] in a;
    }
  }

  // `array.find(p)`
  function Find<T(!new)>(s: seq<T>, p: T -> bool): (r: Option<T>)
    ensures r.Some? ==> r.value in s && p(r.value)
    ensures r.None? ==> forall x :: x in s ==> !p(x)
  {
    if s == [] then None else if p(s[0]) then Some(s[0]) else Find(s[1..], p)
  }

  function StateIs(state: AlertState): Alert -> bool {
    (a: Alert) => a.state == state
  }

  function FiringDegraded(): Alert -> bool {
    (a: Alert) => a.state == Firing && a.kind in DEGRADED_ALERT_KINDS
  }

  ghost predicate AllOpen(alerts: seq<Alert>) {
    forall a :: a in alerts ==> a.state != Resolved
  }

  /* ---------------------------------- connection chips ---------------------------------- */

  datatype Chip = Chip(id: string, name: string, directions: set<Direction>, health: Health)

  function OnConnection(id: string): Alert -> bool {
    (a: Alert) => a.connection == Some(id) && id != ""
  }

  function ConnectionId(nodeId: string): string {
    RemovePrefix(nodeId, "conn:")
  }

  function ChipFor(node: Node, flows: seq<Flow>, alerts: seq<Alert>): Chip {
    var id := ConnectionId(node.id);
    Chip(id, node.name, set f | f in flows && f.connection == id :: f.direction,
         Worse(ConnectionHealth(node.status), Join(Filter(alerts, OnConnection(id)))))
  }

  function ChipLe(nameLe: (string, string) -> bool): (Chip, Chip) -> bool {
    (a: Chip, b: Chip) => if Rank(a.health) != Rank(b.health) then Rank(a.health) > Rank(b.health) else nameLe(a.name, b.name)
  }

  method DirectionsByConnection(flows: seq<Flow>) returns (directions: map<string, set<Direction>>)
    ensures forall c :: (if c in directions then directions[c] else {}) == set f | f in flows && f.connection == c :: f.direction
  {
    directions := map[];
    for n := 0 to |flows|
      invariant forall c :: (if c in directions then directions[c] else {})
                            == set f | f in flows[..n] && f.connection == c :: f.direction
    {
      var flow := flows[n];
      assert flows[..n + 1] == flows[..n] + [flow];
      var already := if flow.connection in directions then directions[flow.connection] else {};
      directions := directions[flow.connection := already + {flow.direction}];
    }
    assert flows[..|flows|] == flows;
  }

  // `current` carries the join of `alerts`: present exactly when there are any.
  ghost predicate Represents(current: Option<Alert>, alerts: seq<Alert>) {
    && (current.None? <==> alerts == [])
    && (current.Some? ==> OpenAlertHealth(current.value) == Join(alerts))
  }

  lemma {:induction false} RepresentsNext(current: Option<Alert>, alerts: seq<Alert>, a: Alert)
    requires Represents(current, alerts)
    ensures Represents(if current.None? || OpenAlertHealth(a) == Failing then Some(a) else current, alerts + [a])
  {
    JoinIs(alerts);
    JoinIs(alerts + [a]);
    if OpenAlertHealth(a) == Failing {
      assert a in alerts + [a];
    } else {
      assert forall x :: x in alerts + [a] <==> x in alerts || x == a;
    }
  }

  method AlertsByConnection(alerts: seq<Alert>) returns (byConnection: map<string, Alert>)
    ensures forall c :: Represents(Lookup(byConnection, c), Filter(alerts, OnConnection(c)))
  {
    byConnection := map[];
    assert alerts[..0] == [];
    for n := 0 to |alerts|
      invariant forall c :: Represents(Lookup(byConnection, c), Filter(alerts[..n], OnConnection(c)))
    {
      var alert := alerts[n];
      assert alerts[..n + 1] == alerts[..n] + [alert];
      ghost var before := byConnection;
      if alert.connection.Some? && alert.connection.value != "" {
        var id := alert.connection.value;
        if id !in byConnection || OpenAlertHealth(alert) == Failing {
          byConnection := byConnection[id := alert];
        }
      }
      forall c
        ensures Represents(Lookup(byConnection, c), Filter(alerts[..n + 1], OnConnection(c)))
      {
        FilterLast(alerts[..n], alert, OnConnection(c));
        RepresentsNext(Lookup(before, c), Filter(alerts[..n], OnConnection(c)), alert);
      }
    }
    assert alerts[..|alerts|] == alerts;
  }

  function Connections(graph: Graph): seq<Node> {
    Filter(graph.nodes, (n: Node) => n.nodeType == ConnectionNode)
  }

  // The chip loop keeps one alert per connection, yet each chip shows the join over
  // all of that connection's alerts and its own status.
  method BuildConnectionChips(graph: Option<Graph>, flows: seq<Flow>, alerts: seq<Alert>, nameLe: (string, string) -> bool)
    returns (chips: seq<Chip>)
    ensures graph.None? ==> chips == []
    ensures graph.Some? ==> chips == Sort(Map(Connections(graph.value), n => ChipFor(n, flows, alerts)), ChipLe(nameLe))
  {
    if graph.None? {
      return [];
    }
    var directions := DirectionsByConnection(flows);
    var byConnection := AlertsByConnection(alerts);
    var nodes := Connections(graph.value);
    var unsorted: seq<Chip> := [];
    for n := 0 to |nodes|
      invariant |unsorted| == n
      invariant forall k :: 0 <= k < n ==> unsorted[k] == ChipFor(nodes[k], flows, alerts)
    {
      var node := nodes[n];
      var id := ConnectionId(node.id);
      var alert := Lookup(byConnection, id);
      JoinIs(Filter(alerts, OnConnection(id)));
      assert Represents(alert, Filter(alerts, OnConnection(id)));
      var chip := Chip(id, node.name, if id in directions then directions[id] else {},
        Worse(ConnectionHealth(node.status), if alert.Some? then OpenAlertHealth(alert.value) else Unproven));
      unsorted := unsorted + [chip];
    }
    assert unsorted == Map(nodes, n => ChipFor(n, flows, alerts));
    chips := Sort(unsorted, ChipLe(nameLe));
  }

  /* ---------------------------------- product rows ---------------------------------- */

  datatype Collection = Collection(id: string, title: Option<string>)

  datatype ProductInput = ProductInput(
    collections: seq<Collection>, graph: Option<Graph>, flows: seq<Flow>, alerts: seq<Alert>, alertsAreComplete: bool)

  datatype Reason =
    | NoReason
    | OpenKind(kind: string)
    | AcknowledgedKind(kind: string)
    | BehindExpectation(direction: Direction)
    | NoSourcesOrDestinations

  datatype LineageNode = LineageNode(id: string, name: string, health: Health)

  datatype LineageGroup = LineageGroup(nodes: seq<LineageNode>, health: Health)

  datatype ProductRow = ProductRow(
    id: string, title: string, itemsIngested: Option<nat>, health: Health, reason: Reason,
    sources: LineageGroup, processes: LineageGroup, destinations: LineageGroup, onPlatform: bool)

  datatype Rollup = Rollup(rows: seq<ProductRow>, unattributed: seq<Alert>)

  // `new Map(rows.map(r => [r.id, r]))`: the last row of an id wins.
  function FlowById(flows: seq<Flow>): map<string, Flow> {
    if flows == [] then map[] else FlowById(flows[..|flows| - 1])[flows[|flows| - 1].id := flows[|flows| - 1]]
  }

  function NodeById(nodes: seq<Node>): map<string, Node> {
    if nodes == [] then map[] else NodeById(nodes[..|nodes| - 1])[nodes[|nodes| - 1].id := nodes[|nodes| - 1]]
  }

  function Nodes(input: ProductInput): map<string, Node> {
    if input.graph.Some? then NodeById(input.graph.value.nodes) else map[]
  }

  function Edges(input: ProductInput): seq<Edge> {
    if input.graph.Some? then input.graph.value.edges else []
  }

  function CollectionNodeId(c: Collection): string {
    "coll:" + c.id
  }

  function ProcessOf(e: Edge): string {
    if e.kind == ProcessSource then e.target else e.source
  }

  function ProcessId(nodeId: string): string {
    RemovePrefix(nodeId, "proc:")
  }

  function SourceEdges(input: ProductInput, c: Collection): seq<Edge> {
    Filter(Edges(input), (e: Edge) => e.kind == IngestEdge && e.target == CollectionNodeId(c))
  }

  function DestinationEdges(input: ProductInput, c: Collection): seq<Edge> {
    Filter(Edges(input), (e: Edge) => e.kind == DeliverEdge && e.source == CollectionNodeId(c))
  }

  function ProcessEdges(input: ProductInput, c: Collection): seq<Edge> {
    Filter(Edges(input), (e: Edge) =>
      (e.kind == ProcessSource && e.source == CollectionNodeId(c)) || (e.kind == ProcessOutput && e.target == CollectionNodeId(c)))
  }

  function CollectionFlows(input: ProductInput, c: Collection): seq<Flow> {
    Filter(input.flows, (f: Flow) => f.collection == c.id)
  }

  predicate Set(id: Option<string>) {
    id.Some? && id.value != ""
  }

  // The alert belongs to the product: directly, through one of its associations,
  // through a connection it is wired to, or through a process.
  predicate Owns(input: ProductInput, c: Collection, a: Alert) {
    || a.collection == Some(c.id)
    || (Set(a.association) && a.association.value in FlowById(input.flows)
        && FlowById(input.flows)[a.association.value].collection == c.id)
    || (Set(a.connection) && exists f :: f in CollectionFlows(input, c) && f.connection == a.connection.value)
    || (Set(a.process) && exists e :: e in ProcessEdges(input, c) && ProcessId(ProcessOf(e)) == a.process.value)
  }

  function OwnedBy(input: ProductInput, c: Collection): Alert -> bool {
    (a: Alert) => Owns(input, c, a)
  }

  function Own(input: ProductInput, c: Collection): seq<Alert> {
    Filter(input.alerts, OwnedBy(input, c))
  }

  function BreachKind(d: Direction): string {
    if d == Ingest then "ingest_inactivity" else "delivery_slo"
  }

  predicate IsLate(f: Flow, alerts: seq<Alert>) {
    exists a :: a in alerts && a.association == Some(f.id) && a.kind == BreachKind(f.direction) && a.state != Resolved
  }

  function LateFlow(input: ProductInput, c: Collection): Option<Flow> {
    Find(CollectionFlows(input, c), (f: Flow) => IsLate(f, input.alerts))
  }

  predicate OnPlatform(input: ProductInput, c: Collection) {
    CollectionNodeId(c) in Nodes(input)
  }

  function Verdict(input: ProductInput, c: Collection, late: Option<Flow>): (Health, Reason) {
    var own := Own(input, c);
    var firing := Find(own, Fails());
    var degraded := Find(own, FiringDegraded());
    var acknowledged := Find(own, StateIs(Acknowledged));
    var onPlatform := OnPlatform(input, c);
    if firing.Some? then (Failing, OpenKind(firing.value.kind))
    else if degraded.Some? then (Warning, OpenKind(degraded.value.kind))
    else if acknowledged.Some? then (Warning, AcknowledgedKind(acknowledged.value.kind))
    else if late.Some? then (Warning, BehindExpectation(late.value.direction))
    else if onPlatform && SourceEdges(input, c) == [] && DestinationEdges(input, c) == [] && ProcessEdges(input, c) == [] then
      (Unproven, NoSourcesOrDestinations)
    else (if onPlatform && input.alertsAreComplete then Fine else Unproven, NoReason)
  }

  function SumItems(flows: seq<Flow>): nat {
    if flows == [] then 0 else flows[0].items + SumItems(flows[1..])
  }

  function ItemsIngested(input: ProductInput, c: Collection): Option<nat> {
    var ingest := Filter(CollectionFlows(input, c), (f: Flow) => f.direction == Ingest);
    if ingest == [] then None else Some(SumItems(ingest))
  }

  function Label(input: ProductInput, id: string): string {
    if id in Nodes(input) then Nodes(input)[id].name else id
  }

  // A connection in the lineage: the FIRST alert on it, unlike the chip.
  function ConnectionNodeHealth(input: ProductInput, nodeId: string): Health {
    if !StartsWith(nodeId, "conn:") || nodeId == "conn:" then Unproven
    else
      var id := nodeId[5..];
      var status := if nodeId in Nodes(input) then Nodes(input)[nodeId].status else "";
      var alert := Find(input.alerts, (a: Alert) => a.connection == Some(id));
      Worse(ConnectionHealth(status), if alert.Some? then OpenAlertHealth(alert.value) else Unproven)
  }

  function OnProcess(id: string): Alert -> bool {
    (a: Alert) => a.process == Some(id)
  }

  // The three-step find: an error-grade alert, else a firing one, else any.
  function ProcessAlert(alerts: seq<Alert>, id: string): Option<Alert> {
    var failing := Find(alerts, (a: Alert) => a.process == Some(id) && OpenAlertHealth(a) == Failing);
    var firing := Find(alerts, (a: Alert) => a.process == Some(id) && a.state == Firing);
    if failing.Some? then failing else if firing.Some? then firing else Find(alerts, OnProcess(id))
  }

  function ProcessNodeHealth(input: ProductInput, nodeId: string): Health {
    var alert := ProcessAlert(input.alerts, ProcessId(nodeId));
    if alert.Some? then OpenAlertHealth(alert.value)
    else if nodeId in Nodes(input) && Nodes(input)[nodeId].deployed == Some(false) then Warning
    else if input.alertsAreComplete then Fine
    else Unproven
  }

  function GroupHealth(nodes: seq<LineageNode>): Health {
    if nodes == [] then Unproven else Worse(GroupHealth(nodes[..|nodes| - 1]), nodes[|nodes| - 1].health)
  }

  /** A group shows the worst of its nodes: bad evidence wins, and no evidence is no verdict. */
  lemma {:induction false} GroupIsWorst(nodes: seq<LineageNode>)
    ensures forall n :: n in nodes ==> Rank(n.health) <= Rank(GroupHealth(nodes))
    ensures GroupHealth(nodes) != Unproven ==> exists n :: n in nodes && n.health == GroupHealth(nodes)
  {
    if nodes != [] {
      var k := |nodes| - 1;
      GroupIsWorst(nodes[..k]);
      assert nodes == nodes[..k] + [nodes[k]];
      assert nodes[k] in nodes;
      if GroupHealth(nodes[..k]) != Unproven {
        var n :| n in nodes[..k] && n.health == GroupHealth(nodes[..k]);
        assert n in nodes;
      }
    }
  }

  function Group(nodes: seq<LineageNode>): LineageGroup {
    LineageGroup(nodes, GroupHealth(nodes))
  }

  // A process can be wired to a product both ways: the edge's kind tells its nodes apart.
  function ProcessEdgeId(e: Edge): string {
    (if e.kind == ProcessSource then "process_source:" else "process_output:") + e.id
  }

  function RowOf(input: ProductInput, c: Collection): ProductRow {
    var (health, reason) := Verdict(input, c, LateFlow(input, c));
    ProductRow(c.id, if c.title.Some? then c.title.value else c.id, ItemsIngested(input, c), health, reason,
      Group(Map(SourceEdges(input, c), (e: Edge) => LineageNode(e.id, Label(input, e.source), ConnectionNodeHealth(input, e.source)))),
      Group(Map(ProcessEdges(input, c), (e: Edge) => LineageNode(ProcessEdgeId(e), Label(input, ProcessOf(e)), ProcessNodeHealth(input, ProcessOf(e))))),
      Group(Map(DestinationEdges(input, c), (e: Edge) => LineageNode(e.id, Label(input, e.target), ConnectionNodeHealth(input, e.target)))),
      OnPlatform(input, c))
  }

  // The ids some product claims.
  function ClaimedIds(input: ProductInput, collections: seq<Collection>): set<string> {
    set c, a | c in collections && a in input.alerts && Owns(input, c, a) :: a.id
  }

  function Unclaimed(claimed: set<string>): Alert -> bool {
    (a: Alert) => a.id !in claimed
  }

  method ClaimOwn(input: ProductInput, c: Collection, claimed: set<string>) returns (r: set<string>)
    ensures r == claimed + set a | a in input.alerts && Owns(input, c, a) :: a.id
  {
    r := claimed;
    for n := 0 to |input.alerts|
      invariant r == claimed + set a | a in input.alerts[..n] && Owns(input, c, a) :: a.id
    {
      assert input.alerts[..n + 1] == input.alerts[..n] + [input.alerts[n]];
      if Owns(input, c, input.alerts[n]) {
        r := r + {input.alerts[n].id};
      }
    }
    assert input.alerts[..|input.alerts|] == input.alerts;
  }

  lemma {:induction false} ClaimedIdsNext(input: ProductInput, collections: seq<Collection>, c: Collection)
    ensures ClaimedIds(input, collections + [c])
            == ClaimedIds(input, collections) + set a | a in input.alerts && Owns(input, c, a) :: a.id
  {
  }

  function Rows(input: ProductInput, collections: seq<Collection>): seq<ProductRow> {
    Map(collections, c => RowOf(input, c))
  }

  lemma {:induction false} RowsNext(input: ProductInput, collections: seq<Collection>, c: Collection)
    ensures Rows(input, collections + [c]) == Rows(input, collections) + [RowOf(input, c)]
  {
  }

  method BuildProductRows(input: ProductInput) returns (r: Rollup)
    ensures r.rows == Rows(input, input.collections)
    ensures r.unattributed == Filter(input.alerts, Unclaimed(ClaimedIds(input, input.collections)))
  {
    var claimed: set<string> := {};
    var rows: seq<ProductRow> := [];
    for n := 0 to |input.collections|
      invariant claimed == ClaimedIds(input, input.collections[..n])
      invariant rows == Rows(input, input.collections[..n])
    {
      var c := input.collections[n];
      assert input.collections[..n + 1] == input.collections[..n] + [c];
      ClaimedIdsNext(input, input.collections[..n], c);
      RowsNext(input, input.collections[..n], c);
      claimed := ClaimOwn(input, c, claimed);
      var row := RowOf(input, c);
      rows := rows + [row];
    }
    assert input.collections[..|input.collections|] == input.collections;
    r := Rollup(rows, Filter(input.alerts, Unclaimed(claimed)));
  }

  /* ---------------------------------- conservation ---------------------------------- */

  /** No open alert is lost: it is reported as unattributed exactly when no product owns
      it, and every product that owns it shows a warning or an error. */
  lemma {:induction false} AlertConservation(input: ProductInput, a: Alert)
    requires a in input.alerts && AllOpen(input.alerts)
    requires forall x, y :: x in input.alerts && y in input.alerts && x.id == y.id ==> x == y
    ensures a in Filter(input.alerts, Unclaimed(ClaimedIds(input, input.collections)))
            <==> !exists c :: c in input.collections && Owns(input, c, a)
    ensures forall c :: c in input.collections && Owns(input, c, a) ==> RowOf(input, c).health in {Failing, Warning}
  {
    forall c | c in input.collections && Owns(input, c, a)
      ensures RowOf(input, c).health in {Failing, Warning}
    {
      assert a in Own(input, c);
    }
  }

  /** A row that is not a warning or an error owns no open alert. */
  lemma {:induction false} QuietRowOwnsNothing(input: ProductInput, c: Collection)
    requires AllOpen(input.alerts)
    ensures RowOf(input, c).health !in {Failing, Warning} ==> Own(input, c) == []
  {
    var own := Own(input, c);
    if own != [] {
      assert own[0] in own && own[0] in input.alerts;
    }
  }

  lemma {:induction false} FlowFoundById(flows: seq<Flow>, f: Flow)
    requires f in flows && forall g :: g in flows && g.id == f.id ==> g == f
    ensures f.id in FlowById(flows) && FlowById(flows)[f.id] == f
  {
    var n := |flows| - 1;
    assert flows == flows[..n] + [flows[n]];
    if flows[n].id != f.id {
      FlowFoundById(flows[..n], f);
    }
  }

  // An open alert of its own decides a row before lateness is asked about.
  lemma {:induction false} OwnAlertDecides(input: ProductInput, c: Collection, a: Alert, late: Option<Flow>)
    requires a in input.alerts && a.state != Resolved && Owns(input, c, a)
    ensures Verdict(input, c, late) == Verdict(input, c, None)
  {
    assert a in Own(input, c);
    assert Fails()(a) || FiringDegraded()(a) || StateIs(Acknowledged)(a);
  }

  /** The late-flow branch never decides a row: an alert that makes one of its flows
      late is the row's own, and has decided before. */
  lemma {:induction false} LatenessNeverDecides(input: ProductInput, c: Collection)
    requires forall f, g :: f in input.flows && g in input.flows && f.id == g.id ==> f == g
    requires forall f :: f in input.flows ==> f.id != ""
    ensures Verdict(input, c, LateFlow(input, c)) == Verdict(input, c, None)
  {
    var late := LateFlow(input, c);
    if late.Some? {
      var f := late.value;
      var a :| a in input.alerts && a.association == Some(f.id) && a.kind == BreachKind(f.direction) && a.state != Resolved;
      FlowFoundById(input.flows, f);
      assert Owns(input, c, a);
      OwnAlertDecides(input, c, a, late);
    }
  }

  /* ---------------------------------- agreement ---------------------------------- */

  /** The row verdict over open alerts is the join of the row's own alerts. */
  lemma {:induction false} RowVerdictIsJoin(input: ProductInput, c: Collection)
    requires AllOpen(input.alerts) && Own(input, c) != []
    ensures RowOf(input, c).health == Join(Own(input, c))
  {
    var own := Own(input, c);
    JoinIs(own);
    assert own[0] in own && own[0] in input.alerts;
  }

  /** The lineage process node, with an alert on the process, is the join over its alerts. */
  lemma {:induction false} ProcessNodeIsJoin(input: ProductInput, nodeId: string)
    requires Filter(input.alerts, OnProcess(ProcessId(nodeId))) != []
    ensures ProcessNodeHealth(input, nodeId) == Join(Filter(input.alerts, OnProcess(ProcessId(nodeId))))
  {
    var on := Filter(input.alerts, OnProcess(ProcessId(nodeId)));
    JoinIs(on);
    assert on[0] in on;
    assert on[0] in input.alerts && OnProcess(ProcessId(nodeId))(on[0]);
  }

  lemma {:induction false} FindIsFirstOfFilter(alerts: seq<Alert>, p: Alert -> bool)
    ensures Find(alerts, p) == if Filter(alerts, p) == [] then None else Some(Filter(alerts, p)[0])
  {
    if alerts != [] && !p(alerts[0]) {
      FindIsFirstOfFilter(alerts[1..], p);
    }
  }

  lemma {:induction false} ConnectionNodeIs(input: ProductInput, id: string)
    requires id != ""
    ensures var on := Filter(input.alerts, OnConnection(id));
            var status := if ("conn:" + id) in Nodes(input) then Nodes(input)["conn:" + id].status else "";
            ConnectionNodeHealth(input, "conn:" + id)
              == Worse(ConnectionHealth(status), if on == [] then Unproven else OpenAlertHealth(on[0]))
  {
    var nodeId := "conn:" + id;
    assert nodeId[..5] == "conn:" && nodeId[5..] == id;
    var p := (a: Alert) => a.connection == Some(id);
    FindIsFirstOfFilter(input.alerts, p);
    FilterSame(input.alerts, p, OnConnection(id));
  }

  /** A connection in the lineage agrees with its chip exactly when its status already
      fails, its first alert fails, or none does. */
  lemma {:induction false} LineageConnectionAgreesExactly(input: ProductInput, node: Node, id: string)
    requires id != "" && node.id == "conn:" + id && node.id in Nodes(input) && Nodes(input)[node.id] == node
    ensures var on := Filter(input.alerts, OnConnection(id));
            ConnectionNodeHealth(input, node.id) == ChipFor(node, input.flows, input.alerts).health
            <==> (node.status == "error" || on == [] || OpenAlertHealth(on[0]) == Failing
                  || forall a :: a in on ==> OpenAlertHealth(a) != Failing)
  {
    var on := Filter(input.alerts, OnConnection(id));
    ConnectionNodeIs(input, id);
    JoinIs(on);
    assert ConnectionId(node.id) == id by { assert node.id[..5] == "conn:" && node.id[5..] == id; }
    if on != [] {
      assert on[0] in on;
    }
  }

  /** And it does disagree: an acknowledged alert listed before a firing one shows a
      warning in the lineage and an error on the chip. */
  lemma {:induction false} LineageConnectionDisagrees(acknowledged: Alert, firing: Alert, name: string)
    requires acknowledged.connection == Some("a") && acknowledged.state == Acknowledged
    requires firing.connection == Some("a") && firing.state == Firing && firing.kind == "connection_error"
    ensures var node := Node("conn:a", ConnectionNode, name, "ok", None);
            var input := ProductInput([], Some(Graph([node], [])), [], [acknowledged, firing], true);
            ConnectionNodeHealth(input, "conn:a") == Warning && ChipFor(node, [], input.alerts).health == Failing
  {
    var node := Node("conn:a", ConnectionNode, name, "ok", None);
    var input := ProductInput([], Some(Graph([node], [])), [], [acknowledged, firing], true);
    assert [node][..0] == [];
    assert "conn:a" == "conn:" + "a";
    var alerts := [acknowledged, firing];
    assert alerts[1..] == [firing] && [firing][1..] == [];
    assert Filter([firing], OnConnection("a")) == [firing];
    assert Filter(alerts, OnConnection("a")) == alerts;
    ConnectionNodeIs(input, "a");
    JoinIs(alerts);
    assert firing in alerts;
    assert ConnectionId(node.id) == "a" by { assert node.id[..5] == "conn:" && node.id[5..] == "a"; }
  }

  /* ---------------------------------- process verdicts ---------------------------------- */

  datatype Process = Process(id: string, hasRevision: bool, enabled: bool)

  datatype RunStatus = Queued | Running | Succeeded | Failed | Dead

  datatype Run = Run(status: RunStatus, isTest: bool, deferred: bool)

  datatype VerdictLabel = NoRevision | Disabled | NoTrigger | FailingLabel | DegradedLabel | NeverRun | RateLimited | Healthy

  datatype VerdictReason =
    | Silent
    | NothingDeployed
    | WillNotTrigger
    | NoSourceAttached
    | FromAlert(kind: string, acknowledged: bool)
    | DeadRuns(n: nat)
    | Retrying(n: nat)
    | Deferred(n: nat)

  datatype ProcessVerdict = ProcessVerdict(health: Health, badge: VerdictLabel, reason: VerdictReason)

  function LedgerVerdict(runs: seq<Run>): ProcessVerdict {
    var ledger := Filter(runs, (r: Run) => !r.isTest);
    var dead := |Filter(ledger, (r: Run) => r.status == Dead)|;
    var failing := |Filter(ledger, (r: Run) => r.status == Failed)|;
    var deferred := |Filter(ledger, (r: Run) => r.deferred)|;
    if ledger == [] then ProcessVerdict(Unproven, NeverRun, Silent)
    else if dead > 0 then ProcessVerdict(Failing, FailingLabel, DeadRuns(dead))
    else if failing > 0 then ProcessVerdict(Warning, DegradedLabel, Retrying(failing))
    else if deferred > 0 then ProcessVerdict(Warning, RateLimited, Deferred(deferred))
    else ProcessVerdict(Fine, Healthy, Silent)
  }

  function VerdictOf(p: Process, runs: seq<Run>, sourceCount: Option<nat>, alerts: seq<Alert>): ProcessVerdict {
    if !p.hasRevision then ProcessVerdict(Unproven, NoRevision, NothingDeployed)
    else if !p.enabled then ProcessVerdict(Unproven, Disabled, WillNotTrigger)
    else if sourceCount == Some(0) then ProcessVerdict(Unproven, NoTrigger, NoSourceAttached)
    else
      var own := Filter(alerts, OnProcess(p.id));
      var firing := Find(own, Fails());
      var degraded := Find(own, FiringDegraded());
      var acknowledged := Find(own, StateIs(Acknowledged));
      if firing.Some? then ProcessVerdict(Failing, FailingLabel, FromAlert(firing.value.kind, false))
      else if degraded.Some? then ProcessVerdict(Warning, DegradedLabel, FromAlert(degraded.value.kind, false))
      else if acknowledged.Some? then ProcessVerdict(Warning, DegradedLabel, FromAlert(acknowledged.value.kind, true))
      else LedgerVerdict(runs)
  }

  /** For a deployed, enabled, triggered process with an open alert, the process page and
      the overview's lineage show one verdict: the join over its alerts. */
  lemma {:induction false} ProcessPageAgreesWithLineage(input: ProductInput, p: Process, runs: seq<Run>, sourceCount: Option<nat>, nodeId: string)
    requires p.hasRevision && p.enabled && sourceCount != Some(0) && ProcessId(nodeId) == p.id
    requires AllOpen(input.alerts) && Filter(input.alerts, OnProcess(p.id)) != []
    ensures VerdictOf(p, runs, sourceCount, input.alerts).health == Join(Filter(input.alerts, OnProcess(p.id)))
    ensures VerdictOf(p, runs, sourceCount, input.alerts).health == ProcessNodeHealth(input, nodeId)
  {
    var own := Filter(input.alerts, OnProcess(p.id));
    JoinIs(own);
    assert own[0] in own && own[0] in input.alerts;
    ProcessNodeIsJoin(input, nodeId);
  }

  /** A chip ignores the order in which alerts are listed. */
  lemma {:induction false} ChipIgnoresOrder(node: Node, flows: seq<Flow>, alerts: seq<Alert>, reordered: seq<Alert>)
    requires multiset(reordered) == multiset(alerts)
    ensures ChipFor(node, flows, alerts) == ChipFor(node, flows, reordered)
  {
    SameElems(reordered, alerts);
    FilterJoin(alerts, reordered, OnConnection(ConnectionId(node.id)));
  }

  // Whether some alert satisfies `p` does not depend on the order.
  lemma {:induction false} FindsInAnyOrder(a: seq<Alert>, b: seq<Alert>, p: Alert -> bool)
    requires forall x :: x in a <==> x in b
    ensures Find(a, p).Some? <==> Find(b, p).Some?
  {
  }

  lemma {:induction false} LateFlowIgnoresOrder(input: ProductInput, reordered: ProductInput, c: Collection)
    requires reordered == input.(alerts := reordered.alerts) && forall a :: a in reordered.alerts <==> a in input.alerts
    ensures LateFlow(input, c) == LateFlow(reordered, c)
  {
    SameFind(CollectionFlows(input, c), (f: Flow) => IsLate(f, input.alerts), (f: Flow) => IsLate(f, reordered.alerts));
  }

  lemma {:induction false} SameFind(flows: seq<Flow>, p: Flow -> bool, q: Flow -> bool)
    requires forall f :: f in flows ==> p(f) == q(f)
    ensures Find(flows, p) == Find(flows, q)
  {
    if flows != [] {
      SameFind(flows[1..], p, q);
    }
  }

  lemma {:induction false} OwnInAnyOrder(input: ProductInput, reordered: ProductInput, c: Collection)
    requires reordered == input.(alerts := reordered.alerts) && forall a :: a in reordered.alerts <==> a in input.alerts
    ensures forall a :: a in Own(input, c) <==> a in Own(reordered, c)
  {
    assert forall a :: Owns(input, c, a) == Owns(reordered, c, a);
  }

  lemma {:induction false} VerdictInAnyOrder(input: ProductInput, reordered: ProductInput, c: Collection, late: Option<Flow>)
    requires reordered == input.(alerts := reordered.alerts)
    requires forall a :: a in Own(input, c) <==> a in Own(reordered, c)
    ensures Verdict(input, c, late).0 == Verdict(reordered, c, late).0
  {
    FindsInAnyOrder(Own(input, c), Own(reordered, c), Fails());
    FindsInAnyOrder(Own(input, c), Own(reordered, c), FiringDegraded());
    FindsInAnyOrder(Own(input, c), Own(reordered, c), StateIs(Acknowledged));
    SameEdges(input, reordered, c);
  }

  lemma {:induction false} SameEdges(input: ProductInput, reordered: ProductInput, c: Collection)
    requires reordered == input.(alerts := reordered.alerts)
    ensures Nodes(input) == Nodes(reordered) && SourceEdges(input, c) == SourceEdges(reordered, c)
    ensures DestinationEdges(input, c) == DestinationEdges(reordered, c) && ProcessEdges(input, c) == ProcessEdges(reordered, c)
  {
  }

  /** So does every row. */
  lemma {:induction false} RowIgnoresOrder(input: ProductInput, reordered: ProductInput, c: Collection)
    requires reordered == input.(alerts := reordered.alerts) && multiset(reordered.alerts) == multiset(input.alerts)
    ensures RowOf(input, c).health == RowOf(reordered, c).health
  {
    SameElems(reordered.alerts, input.alerts);
    LateFlowIgnoresOrder(input, reordered, c);
    OwnInAnyOrder(input, reordered, c);
    VerdictInAnyOrder(input, reordered, c, LateFlow(input, c));
  }

  /** So does every process in the lineage. */
  lemma {:induction false} ProcessNodeIgnoresOrder(input: ProductInput, reordered: ProductInput, nodeId: string)
    requires reordered == input.(alerts := reordered.alerts) && multiset(reordered.alerts) == multiset(input.alerts)
    ensures ProcessNodeHealth(input, nodeId) == ProcessNodeHealth(reordered, nodeId)
  {
    SameElems(reordered.alerts, input.alerts);
    FilterJoin(input.alerts, reordered.alerts, OnProcess(ProcessId(nodeId)));
    if Filter(input.alerts, OnProcess(ProcessId(nodeId))) != [] {
      ProcessNodeIsJoin(input, nodeId);
      ProcessNodeIsJoin(reordered, nodeId);
    } else {
      NoProcessAlert(input.alerts, ProcessId(nodeId));
      NoProcessAlert(reordered.alerts, ProcessId(nodeId));
    }
  }

  lemma {:induction false} NoProcessAlert(alerts: seq<Alert>, id: string)
    requires Filter(alerts, OnProcess(id)) == []
    ensures ProcessAlert(alerts, id).None?
  {
    forall a | a in alerts
      ensures a.process != Some(id)
    {
      assert OnProcess(id)(a) ==> a in Filter(alerts, OnProcess(id));
    }
  }

  lemma {:induction false} FilterJoin(a: seq<Alert>, b: seq<Alert>, p: Alert -> bool)
    requires forall x :: x in a <==> x in b
    ensures Join(Filter(a, p)) == Join(Filter(b, p)) && (Filter(a, p) == [] <==> Filter(b, p) == [])
  {
    JoinIs(Filter(a, p));
    JoinIs(Filter(b, p));
    if Filter(a, p) != [] {
      assert Filter(a, p)[0] in Filter(b, p);
    }
    if Filter(b, p) != [] {
      assert Filter(b, p)[0] in Filter(a, p);
    }
  }

  /* ---------------------------------- what is shown ---------------------------------- */

  // Firing, and of a kind that does more than degrade.
  ghost predicate Alarming(a: Alert) {
    a.state == Firing && a.kind != "process_image_flagged"
  }

  // The first failing thing decides, then a warning, then a proof.
  ghost predicate Shows(health: Health, failing: bool, warning: bool, proven: bool) {
    health == if failing then Failing else if warning then Warning else if proven then Fine else Unproven
  }

  // `a` is graver than `b`.
  ghost predicate Graver(a: Health, b: Health) {
    (a == Failing && b != Failing) || (a == Warning && b in {Fine, Unproven}) || (a == Fine && b == Unproven)
  }

  /** The grades: failing, warning, fine, unproven; the worse of two is the graver. */
  lemma {:induction false} GradesExactly(a: Health, b: Health)
    ensures Rank(a) > Rank(b) <==> Graver(a, b)
    ensures Shows(Worse(a, b), Failing in {a, b}, Warning in {a, b}, Fine in {a, b})
  {
  }

  lemma {:induction false} AlertGradeExactly(a: Alert)
    ensures Shows(OpenAlertHealth(a), Alarming(a), true, false)
  {
  }

  // The node's id is the prefix and this id, or this id without the prefix.
  ghost predicate IdOf(nodeId: string, prefix: string, id: string) {
    if prefix <= nodeId then nodeId == prefix + id else nodeId == id
  }

  lemma {:induction false} IdOfExactly(nodeId: string, prefix: string, id: string)
    ensures RemovePrefix(nodeId, prefix) == id <==> IdOf(nodeId, prefix, id)
  {
    if prefix <= nodeId {
      assert nodeId == prefix + nodeId[|prefix|..];
      assert (prefix + id)[|prefix|..] == id;
    }
  }

  ghost predicate AlertOn(alerts: seq<Alert>, connection: string, a: Alert) {
    a in alerts && connection != "" && a.connection == Some(connection)
  }

  lemma {:induction false} JoinShows(alerts: seq<Alert>)
    ensures Shows(Join(alerts), exists a :: a in alerts && Alarming(a), alerts != [], false)
  {
    JoinIs(alerts);
    forall a
      ensures OpenAlertHealth(a) == Failing <==> Alarming(a)
    {
      AlertGradeExactly(a);
    }
  }

  /** A chip fails for its connection's status or any alarming alert on it, warns for any
      other alert, is fine on a proven status, and lists the directions of its flows. */
  lemma {:induction false} ChipShows(node: Node, flows: seq<Flow>, alerts: seq<Alert>)
    ensures var chip := ChipFor(node, flows, alerts);
            && IdOf(node.id, "conn:", chip.id) && chip.name == node.name
            && (forall d :: d in chip.directions <==> exists f :: f in flows && f.connection == chip.id && f.direction == d)
            && Shows(chip.health, node.status == "error" || exists a :: AlertOn(alerts, chip.id, a) && Alarming(a),
                     exists a :: AlertOn(alerts, chip.id, a), node.status == "ok")
  {
    var id := ConnectionId(node.id);
    var on := Filter(alerts, OnConnection(id));
    IdOfExactly(node.id, "conn:", id);
    JoinShows(on);
    assert forall a :: a in on <==> AlertOn(alerts, id, a);
    if on != [] {
      assert on[0] in on;
    }
    GradesExactly(ConnectionHealth(node.status), Join(on));
  }

  /** One chip per connection node, the gravest first, alike ones by name. */
  lemma {:induction false} ChipsInOrder(graph: Graph, flows: seq<Flow>, alerts: seq<Alert>, nameLe: (string, string) -> bool)
    requires TotalPreorder(nameLe)
    ensures var chips := Sort(Map(Connections(graph), n => ChipFor(n, flows, alerts)), ChipLe(nameLe));
            && (forall chip :: chip in chips <==> exists n :: n in graph.nodes && n.nodeType == ConnectionNode && chip == ChipFor(n, flows, alerts))
            && forall i, j :: 0 <= i < j < |chips| ==>
                 Graver(chips[i].health, chips[j].health) || (chips[i].health == chips[j].health && nameLe(chips[i].name, chips[j].name))
  {
    var unsorted := Map(Connections(graph), n => ChipFor(n, flows, alerts));
    var chips := Sort(unsorted, ChipLe(nameLe));
    ChipOrder(nameLe);
    SortSorts(unsorted, ChipLe(nameLe));
    SameElems(chips, unsorted);
    ChipsAreOfConnections(graph, flows, alerts, unsorted);
    forall i, j | 0 <= i < j < |chips|
      ensures Graver(chips[i].health, chips[j].health) || (chips[i].health == chips[j].health && nameLe(chips[i].name, chips[j].name))
    {
      assert ChipLe(nameLe)(chips[i], chips[j]);
      ChipLeExactly(nameLe, chips[i], chips[j]);
    }
  }

  lemma {:induction false} ChipLeExactly(nameLe: (string, string) -> bool, a: Chip, b: Chip)
    ensures ChipLe(nameLe)(a, b) <==> Graver(a.health, b.health) || (a.health == b.health && nameLe(a.name, b.name))
  {
    GradesExactly(a.health, b.health);
    GradesExactly(b.health, a.health);
  }

  lemma {:induction false} ChipOrder(nameLe: (string, string) -> bool)
    requires TotalPreorder(nameLe)
    ensures TotalPreorder(ChipLe(nameLe))
  {
    forall a, b
      ensures ChipLe(nameLe)(a, b) <==> Graver(a.health, b.health) || (a.health == b.health && nameLe(a.name, b.name))
    {
      ChipLeExactly(nameLe, a, b);
    }
  }

  lemma {:induction false} ChipsAreOfConnections(graph: Graph, flows: seq<Flow>, alerts: seq<Alert>, chips: seq<Chip>)
    requires chips == Map(Connections(graph), n => ChipFor(n, flows, alerts))
    ensures forall chip :: chip in chips <==> exists n :: n in graph.nodes && n.nodeType == ConnectionNode && chip == ChipFor(n, flows, alerts)
  {
    var nodes := Connections(graph);
    forall n | n in graph.nodes && n.nodeType == ConnectionNode
      ensures ChipFor(n, flows, alerts) in chips
    {
      assert n in nodes;
      var i :| 0 <= i < |nodes| && nodes[i] == n;
      assert chips[i] == ChipFor(n, flows, alerts);
    }
    forall chip | chip in chips
      ensures exists n :: n in graph.nodes && n.nodeType == ConnectionNode && chip == ChipFor(n, flows, alerts)
    {
      var i :| 0 <= i < |chips| && chips[i] == chip;
      assert nodes[i] in nodes;
    }
  }

  /* ---- ownership ---- */

  // The last flow of this id is the collection's.
  ghost predicate FlowOf(flows: seq<Flow>, id: string, c: Collection) {
    exists i :: 0 <= i < |flows| && flows[i].id == id && flows[i].collection == c.id && forall j :: i < j < |flows| ==> flows[j].id != id
  }

  // The edge wires the process to the collection, one way or the other.
  ghost predicate Wires(e: Edge, c: Collection, process: string) {
    || (e.kind == ProcessSource && e.source == "coll:" + c.id && IdOf(e.target, "proc:", process))
    || (e.kind == ProcessOutput && e.target == "coll:" + c.id && IdOf(e.source, "proc:", process))
  }

  // The alert names the product, or something of it: an association, a connection it has a
  // flow on, a process wired to it.
  ghost predicate Concerns(input: ProductInput, c: Collection, a: Alert) {
    || a.collection == Some(c.id)
    || (exists id :: a.association == Some(id) && id != "" && FlowOf(input.flows, id, c))
    || (exists f :: f in input.flows && f.collection == c.id && f.connection != "" && a.connection == Some(f.connection))
    || (exists e, process :: input.graph.Some? && e in input.graph.value.edges && Wires(e, c, process)
          && process != "" && a.process == Some(process))
  }

  lemma {:induction false} FlowByIdIsLast(flows: seq<Flow>, id: string, c: Collection)
    ensures id in FlowById(flows) && FlowById(flows)[id].collection == c.id <==> FlowOf(flows, id, c)
  {
    if flows != [] {
      var n := |flows| - 1;
      FlowByIdIsLast(flows[..n], id, c);
      if flows[n].id != id {
        if FlowOf(flows, id, c) {
          var i :| 0 <= i < |flows| && flows[i].id == id && flows[i].collection == c.id && forall j :: i < j < |flows| ==> flows[j].id != id;
          assert flows[..n][i] == flows[i];
        }
        if FlowOf(flows[..n], id, c) {
          var i :| 0 <= i < n && flows[..n][i].id == id && flows[..n][i].collection == c.id && forall j :: i < j < n ==> flows[..n][j].id != id;
          assert flows[i] == flows[..n][i];
          assert forall j :: i < j < n ==> flows[j] == flows[..n][j];
        }
      }
    }
  }

  lemma {:induction false} ProcessEdgesWire(input: ProductInput, c: Collection, process: string)
    ensures (exists e :: e in ProcessEdges(input, c) && ProcessId(ProcessOf(e)) == process)
            <==> exists e :: input.graph.Some? && e in input.graph.value.edges && Wires(e, c, process)
  {
    forall e
      ensures e in ProcessEdges(input, c) && ProcessId(ProcessOf(e)) == process
              <==> input.graph.Some? && e in input.graph.value.edges && Wires(e, c, process)
    {
      IdOfExactly(e.target, "proc:", process);
      IdOfExactly(e.source, "proc:", process);
    }
  }

  /** A product owns exactly the alerts that concern it. */
  lemma {:induction false} OwnsExactly(input: ProductInput, c: Collection, a: Alert)
    ensures Owns(input, c, a) <==> Concerns(input, c, a)
  {
    if a.association.Some? {
      FlowByIdIsLast(input.flows, a.association.value, c);
    }
    if a.process.Some? {
      ProcessEdgesWire(input, c, a.process.value);
    }
  }

  /* ---- rows ---- */

  ghost predicate HasNode(input: ProductInput, id: string) {
    input.graph.Some? && exists n :: n in input.graph.value.nodes && n.id == id
  }

  lemma {:induction false} NodeByIdExactly(nodes: seq<Node>, id: string)
    ensures id in NodeById(nodes) <==> exists n :: n in nodes && n.id == id
    ensures id in NodeById(nodes) ==> NodeById(nodes)[id] in nodes && NodeById(nodes)[id].id == id
  {
    if nodes != [] {
      var k := |nodes| - 1;
      NodeByIdExactly(nodes[..k], id);
      assert nodes == nodes[..k] + [nodes[k]];
    }
  }

  // The edge touches the product.
  ghost predicate Touches(e: Edge, c: Collection) {
    || (e.kind == IngestEdge && e.target == "coll:" + c.id)
    || (e.kind == DeliverEdge && e.source == "coll:" + c.id)
    || (e.kind == ProcessSource && e.source == "coll:" + c.id)
    || (e.kind == ProcessOutput && e.target == "coll:" + c.id)
  }

  // One of the product's flows has an open alert for breaching its expectation.
  ghost predicate IsBehind(input: ProductInput, c: Collection) {
    exists f, a :: f in input.flows && f.collection == c.id && a in input.alerts && a.association == Some(f.id) && a.state != Resolved
      && a.kind == (if f.direction == Ingest then "ingest_inactivity" else "delivery_slo")
  }

  // An open alert that concerns the product, alarming or not.
  ghost predicate HasAlert(input: ProductInput, c: Collection, alarming: bool) {
    exists a :: a in input.alerts && Concerns(input, c, a) && a.state != Resolved && (alarming ==> Alarming(a))
  }

  lemma {:induction false} BehindExactly(input: ProductInput, c: Collection)
    ensures LateFlow(input, c).Some? <==> IsBehind(input, c)
  {
    if LateFlow(input, c).Some? {
      var f := LateFlow(input, c).value;
      assert f in CollectionFlows(input, c) && IsLate(f, input.alerts);
    }
    if IsBehind(input, c) {
      var f, a :| f in input.flows && f.collection == c.id && a in input.alerts && a.association == Some(f.id) && a.state != Resolved
        && a.kind == (if f.direction == Ingest then "ingest_inactivity" else "delivery_slo");
      assert f in CollectionFlows(input, c) && IsLate(f, input.alerts);
    }
  }

  lemma {:induction false} OwnAlertsExactly(input: ProductInput, c: Collection)
    ensures var own := Own(input, c);
            && (Find(own, Fails()).Some? <==> HasAlert(input, c, true))
            && (Find(own, Fails()).None? ==>
                  (Find(own, FiringDegraded()).Some? || Find(own, StateIs(Acknowledged)).Some? <==> HasAlert(input, c, false)))
  {
    var own := Own(input, c);
    forall a
      ensures a in own <==> a in input.alerts && Concerns(input, c, a)
    {
      OwnsExactly(input, c, a);
    }
    forall a
      ensures Fails()(a) <==> Alarming(a)
    {
      AlertGradeExactly(a);
    }
    if HasAlert(input, c, false) {
      var a :| a in input.alerts && Concerns(input, c, a) && a.state != Resolved;
      assert a in own;
      assert Fails()(a) || FiringDegraded()(a) || StateIs(Acknowledged)(a);
    }
  }

  lemma {:induction false} WiringExactly(input: ProductInput, c: Collection)
    ensures SourceEdges(input, c) == [] && DestinationEdges(input, c) == [] && ProcessEdges(input, c) == []
            <==> !exists e :: e in Edges(input) && Touches(e, c)
  {
    var id := CollectionNodeId(c);
    NoneFiltered(Edges(input), (e: Edge) => e.kind == IngestEdge && e.target == id);
    NoneFiltered(Edges(input), (e: Edge) => e.kind == DeliverEdge && e.source == id);
    NoneFiltered(Edges(input), (e: Edge) => (e.kind == ProcessSource && e.source == id) || (e.kind == ProcessOutput && e.target == id));
    SidesAre(input, c);
  }

  lemma {:induction false} NoneFiltered(edges: seq<Edge>, p: Edge -> bool)
    ensures Filter(edges, p) == [] <==> forall e :: e in edges ==> !p(e)
  {
    if Filter(edges, p) != [] {
      assert Filter(edges, p)[0] in Filter(edges, p);
    }
  }

  lemma {:induction false} SidesAre(input: ProductInput, c: Collection)
    ensures var id := CollectionNodeId(c);
            && SourceEdges(input, c) == Filter(Edges(input), (e: Edge) => e.kind == IngestEdge && e.target == id)
            && DestinationEdges(input, c) == Filter(Edges(input), (e: Edge) => e.kind == DeliverEdge && e.source == id)
            && ProcessEdges(input, c) == Filter(Edges(input), (e: Edge) =>
                 (e.kind == ProcessSource && e.source == id) || (e.kind == ProcessOutput && e.target == id))
  {
    var id := CollectionNodeId(c);
    FilterSame(Edges(input), (e: Edge) => e.kind == IngestEdge && e.target == CollectionNodeId(c), (e: Edge) => e.kind == IngestEdge && e.target == id);
    FilterSame(Edges(input), (e: Edge) => e.kind == DeliverEdge && e.source == CollectionNodeId(c), (e: Edge) => e.kind == DeliverEdge && e.source == id);
    FilterSame(Edges(input),
      (e: Edge) => (e.kind == ProcessSource && e.source == CollectionNodeId(c)) || (e.kind == ProcessOutput && e.target == CollectionNodeId(c)),
      (e: Edge) => (e.kind == ProcessSource && e.source == id) || (e.kind == ProcessOutput && e.target == id));
  }

  /** A row fails for an alarming alert of its own, warns for any other open one or for a flow
      behind its expectation, and is fine only when it is on the platform, something is
      wired to it, and the alert list is complete. */
  lemma {:induction false} RowShows(input: ProductInput, c: Collection)
    ensures Shows(RowOf(input, c).health, HasAlert(input, c, true), HasAlert(input, c, false) || IsBehind(input, c),
                  HasNode(input, "coll:" + c.id) && (exists e :: e in Edges(input) && Touches(e, c)) && input.alertsAreComplete)
  {
    OwnAlertsExactly(input, c);
    BehindExactly(input, c);
    WiringExactly(input, c);
    if input.graph.Some? {
      NodeByIdExactly(input.graph.value.nodes, "coll:" + c.id);
    }
    RowHealthIs(input, c);
  }

  lemma {:induction false} RowHealthIs(input: ProductInput, c: Collection)
    ensures RowOf(input, c).health == Verdict(input, c, LateFlow(input, c)).0
    ensures RowOf(input, c).reason == Verdict(input, c, LateFlow(input, c)).1
  {
  }

  // The first of the listed alerts that concerns the product and is of this sort.
  ghost predicate FirstConcerning(input: ProductInput, c: Collection, sort: Alert -> bool, a: Alert) {
    exists i :: 0 <= i < |input.alerts| && input.alerts[i] == a && Concerns(input, c, a) && sort(a)
      && forall j :: 0 <= j < i && Concerns(input, c, input.alerts[j]) ==> !sort(input.alerts[j])
  }

  lemma {:induction false} FindInFilter(alerts: seq<Alert>, p: Alert -> bool, q: Alert -> bool) returns (i: nat)
    requires Find(Filter(alerts, p), q).Some?
    ensures i < |alerts| && Find(Filter(alerts, p), q) == Some(alerts[i]) && p(alerts[i]) && q(alerts[i])
    ensures forall j :: 0 <= j < i ==> !(p(alerts[j]) && q(alerts[j]))
  {
    assert alerts != [];
    var rest := Filter(alerts[1..], p);
    assert Filter(alerts, p) == (if p(alerts[0]) then [alerts[0]] else []) + rest;
    if p(alerts[0]) && q(alerts[0]) {
      i := 0;
    } else {
      assert p(alerts[0]) ==> Filter(alerts, p)[1..] == rest;
      assert !p(alerts[0]) ==> Filter(alerts, p) == rest;
      var k := FindInFilter(alerts[1..], p, q);
      i := k + 1;
      assert forall j :: 1 <= j < i ==> alerts[j] == alerts[1..][j - 1];
    }
  }

  lemma {:induction false} FindIsFirstConcerning(input: ProductInput, c: Collection, sort: Alert -> bool)
    requires Find(Own(input, c), sort).Some?
    ensures FirstConcerning(input, c, sort, Find(Own(input, c), sort).value)
  {
    var i := FindInFilter(input.alerts, OwnedBy(input, c), sort);
    forall a
      ensures Owns(input, c, a) <==> Concerns(input, c, a)
    {
      OwnsExactly(input, c, a);
    }
  }

  lemma {:induction false} SortsExactly(a: Alert)
    ensures Fails()(a) <==> Alarming(a)
    ensures FiringDegraded()(a) <==> a.state == Firing && a.kind == "process_image_flagged"
    ensures StateIs(Acknowledged)(a) <==> a.state == Acknowledged
  {
    AlertGradeExactly(a);
  }

  // Why a row shows what it shows.
  ghost predicate Explains(input: ProductInput, c: Collection, reason: Reason) {
    match reason
    case OpenKind(kind) =>
      exists a: Alert :: kind == a.kind && (FirstConcerning(input, c, Fails(), a)
                                            || (!HasAlert(input, c, true) && FirstConcerning(input, c, FiringDegraded(), a)))
    case AcknowledgedKind(kind) =>
      !HasAlert(input, c, true) && (forall a :: !FirstConcerning(input, c, FiringDegraded(), a))
      && exists a: Alert :: kind == a.kind && FirstConcerning(input, c, StateIs(Acknowledged), a)
    case BehindExpectation(direction) =>
      !HasAlert(input, c, false) && IsBehind(input, c) && exists f :: LateFlow(input, c) == Some(f) && f.direction == direction
    case NoSourcesOrDestinations =>
      !HasAlert(input, c, false) && !IsBehind(input, c) && HasNode(input, "coll:" + c.id)
      && !exists e :: e in Edges(input) && Touches(e, c)
    case NoReason =>
      !HasAlert(input, c, false) && !IsBehind(input, c)
      && (HasNode(input, "coll:" + c.id) ==> exists e :: e in Edges(input) && Touches(e, c))
  }

  lemma {:induction false} NotFoundNotFirst(input: ProductInput, c: Collection, sort: Alert -> bool)
    requires Find(Own(input, c), sort).None?
    ensures forall a :: !FirstConcerning(input, c, sort, a)
  {
    forall a | a in input.alerts && Concerns(input, c, a)
      ensures !sort(a)
    {
      OwnsExactly(input, c, a);
      assert a in Own(input, c);
    }
  }

  /** A row says why: the first alarming alert, else the first degrading one, else the first
      acknowledged one, else the flow that is behind, else that nothing is wired. */
  lemma {:induction false} RowExplains(input: ProductInput, c: Collection)
    ensures Explains(input, c, RowOf(input, c).reason)
  {
    var own := Own(input, c);
    OwnAlertsExactly(input, c);
    BehindExactly(input, c);
    WiringExactly(input, c);
    if input.graph.Some? {
      NodeByIdExactly(input.graph.value.nodes, "coll:" + c.id);
    }
    RowHealthIs(input, c);
    if Find(own, Fails()).Some? {
      FindIsFirstConcerning(input, c, Fails());
    } else if Find(own, FiringDegraded()).Some? {
      FindIsFirstConcerning(input, c, FiringDegraded());
    } else {
      NotFoundNotFirst(input, c, FiringDegraded());
      if Find(own, StateIs(Acknowledged)).Some? {
        FindIsFirstConcerning(input, c, StateIs(Acknowledged));
      }
    }
  }

  // The node as the graph has it: the last of its id.
  ghost predicate NodeIs(input: ProductInput, id: string, node: Option<Node>) {
    if node.None? then !HasNode(input, id)
    else
      input.graph.Some? &&
      exists i :: 0 <= i < |input.graph.value.nodes| && input.graph.value.nodes[i] == node.value && node.value.id == id
        && forall j :: i < j < |input.graph.value.nodes| ==> input.graph.value.nodes[j].id != id
  }

  lemma {:induction false} NodeByIdIsLast(nodes: seq<Node>, id: string) returns (i: nat)
    requires id in NodeById(nodes)
    ensures i < |nodes| && nodes[i] == NodeById(nodes)[id] && nodes[i].id == id && forall j :: i < j < |nodes| ==> nodes[j].id != id
  {
    var k := |nodes| - 1;
    if nodes[k].id == id {
      i := k;
    } else {
      i := NodeByIdIsLast(nodes[..k], id);
      assert forall j :: 0 <= j < k ==> nodes[..k][j] == nodes[j];
    }
  }

  lemma {:induction false} NodeLookedUp(input: ProductInput, id: string)
    ensures NodeIs(input, id, Lookup(Nodes(input), id))
  {
    if input.graph.Some? {
      NodeByIdExactly(input.graph.value.nodes, id);
      if id in Nodes(input) {
        var i := NodeByIdIsLast(input.graph.value.nodes, id);
      }
    }
  }

  // The first listed alert on the connection, if any.
  ghost predicate FirstOn(alerts: seq<Alert>, connection: string, a: Option<Alert>) {
    if a.None? then forall x :: x in alerts ==> x.connection != Some(connection)
    else exists i :: 0 <= i < |alerts| && alerts[i] == a.value && a.value.connection == Some(connection)
           && forall j :: 0 <= j < i ==> alerts[j].connection != Some(connection)
  }

  // What the lineage shows for one end of an edge to a connection.
  ghost predicate ConnectionShows(input: ProductInput, nodeId: string, health: Health) {
    if "conn:" <= nodeId && nodeId != "conn:" then
      exists node, alert :: NodeIs(input, nodeId, node) && FirstOn(input.alerts, nodeId[5..], alert)
        && Shows(health, (node.Some? && node.value.status == "error") || (alert.Some? && Alarming(alert.value)),
                 alert.Some?, node.Some? && node.value.status == "ok")
    else health == Unproven
  }

  lemma {:induction false} FindFirstOn(alerts: seq<Alert>, connection: string)
    ensures FirstOn(alerts, connection, Find(alerts, (a: Alert) => a.connection == Some(connection)))
  {
    var p := (a: Alert) => a.connection == Some(connection);
    if Find(alerts, p).Some? {
      var i := FirstFound(alerts, p);
    }
  }

  lemma {:induction false} FirstFound(alerts: seq<Alert>, p: Alert -> bool) returns (i: nat)
    requires Find(alerts, p).Some?
    ensures i < |alerts| && Find(alerts, p) == Some(alerts[i]) && p(alerts[i]) && forall j :: 0 <= j < i ==> !p(alerts[j])
  {
    if p(alerts[0]) {
      i := 0;
    } else {
      var k := FirstFound(alerts[1..], p);
      i := k + 1;
      assert forall j :: 1 <= j < i ==> alerts[j] == alerts[1..][j - 1];
    }
  }

  lemma {:induction false} ConnectionNodeShows(input: ProductInput, nodeId: string)
    ensures ConnectionShows(input, nodeId, ConnectionNodeHealth(input, nodeId))
  {
    if "conn:" <= nodeId && nodeId != "conn:" {
      var id := nodeId[5..];
      assert nodeId[..5] == "conn:";
      var node, alert := Lookup(Nodes(input), nodeId), Find(input.alerts, (a: Alert) => a.connection == Some(id));
      NodeLookedUp(input, nodeId);
      FindFirstOn(input.alerts, id);
      if alert.Some? {
        AlertGradeExactly(alert.value);
      }
      assert NodeIs(input, nodeId, node) && FirstOn(input.alerts, nodeId[5..], alert);
    }
  }

  // What the lineage shows for a process: its alerts, then whether it is deployed.
  ghost predicate ProcessShows(input: ProductInput, nodeId: string, health: Health) {
    exists process, node :: IdOf(nodeId, "proc:", process) && NodeIs(input, nodeId, node)
      && Shows(health, exists a :: a in input.alerts && a.process == Some(process) && Alarming(a),
               (exists a :: a in input.alerts && a.process == Some(process)) || (node.Some? && node.value.deployed == Some(false)),
               input.alertsAreComplete)
  }

  lemma {:induction false} ProcessAlertsShow(input: ProductInput, nodeId: string, process: string)
    requires process == ProcessId(nodeId)
    ensures var h := ProcessNodeHealth(input, nodeId);
            if exists a :: a in input.alerts && a.process == Some(process) then
              Shows(h, exists a :: a in input.alerts && a.process == Some(process) && Alarming(a), true, false)
            else Shows(h, false, nodeId in Nodes(input) && Nodes(input)[nodeId].deployed == Some(false), input.alertsAreComplete)
  {
    var on := Filter(input.alerts, OnProcess(process));
    assert forall a :: a in on <==> a in input.alerts && a.process == Some(process);
    if on != [] {
      assert on[0] in on;
      ProcessNodeIsJoin(input, nodeId);
      JoinShows(on);
    } else {
      NoProcessAlert(input.alerts, process);
    }
  }

  lemma {:induction false} ProcessNodeShows(input: ProductInput, nodeId: string)
    ensures ProcessShows(input, nodeId, ProcessNodeHealth(input, nodeId))
  {
    var process, node := ProcessId(nodeId), Lookup(Nodes(input), nodeId);
    IdOfExactly(nodeId, "proc:", process);
    NodeLookedUp(input, nodeId);
    ProcessAlertsShow(input, nodeId, process);
    assert IdOf(nodeId, "proc:", process) && NodeIs(input, nodeId, node);
  }

  ghost predicate LabelIs(input: ProductInput, id: string, name: string) {
    exists node :: NodeIs(input, id, node) && name == if node.Some? then node.value.name else id
  }

  lemma {:induction false} LabelExactly(input: ProductInput, id: string)
    ensures LabelIs(input, id, Label(input, id))
  {
    NodeLookedUp(input, id);
  }

  // The edge as a node of a row's lineage, or none when it is not of that side.
  ghost predicate SourceNode(input: ProductInput, c: Collection, e: Edge, n: LineageNode) {
    && e.kind == IngestEdge && e.target == "coll:" + c.id
    && n.id == e.id && LabelIs(input, e.source, n.name) && ConnectionShows(input, e.source, n.health)
  }

  ghost predicate DestinationNode(input: ProductInput, c: Collection, e: Edge, n: LineageNode) {
    && e.kind == DeliverEdge && e.source == "coll:" + c.id
    && n.id == e.id && LabelIs(input, e.target, n.name) && ConnectionShows(input, e.target, n.health)
  }

  ghost predicate ProcessSideNode(input: ProductInput, c: Collection, e: Edge, n: LineageNode) {
    || (e.kind == ProcessSource && e.source == "coll:" + c.id && n.id == "process_source:" + e.id
        && LabelIs(input, e.target, n.name) && ProcessShows(input, e.target, n.health))
    || (e.kind == ProcessOutput && e.target == "coll:" + c.id && n.id == "process_output:" + e.id
        && LabelIs(input, e.source, n.name) && ProcessShows(input, e.source, n.health))
  }

  // Each wired edge has a node of the row's lineage, and each node such an edge.
  ghost predicate LineageIs(input: ProductInput, c: Collection, row: ProductRow) {
    && (forall e :: e in Edges(input) && e.kind == IngestEdge && e.target == "coll:" + c.id ==>
          exists n :: n in row.sources.nodes && SourceNode(input, c, e, n))
    && (forall n :: n in row.sources.nodes ==> exists e :: e in Edges(input) && SourceNode(input, c, e, n))
    && (forall e :: e in Edges(input) && e.kind == DeliverEdge && e.source == "coll:" + c.id ==>
          exists n :: n in row.destinations.nodes && DestinationNode(input, c, e, n))
    && (forall n :: n in row.destinations.nodes ==> exists e :: e in Edges(input) && DestinationNode(input, c, e, n))
    && (forall e, p :: e in Edges(input) && Wires(e, c, p) ==> exists n :: n in row.processes.nodes && ProcessSideNode(input, c, e, n))
    && (forall n :: n in row.processes.nodes ==> exists e :: e in Edges(input) && ProcessSideNode(input, c, e, n))
  }

  lemma {:induction false} NodesOfEdges(edges: seq<Edge>, make: Edge -> LineageNode)
    ensures forall e :: e in edges ==> make(e) in Map(edges, make)
    ensures forall n :: n in Map(edges, make) ==> exists e :: e in edges && make(e) == n
  {
    forall e | e in edges
      ensures make(e) in Map(edges, make)
    {
      var i :| 0 <= i < |edges| && edges[i] == e;
      assert Map(edges, make)[i] == make(e);
    }
    forall n | n in Map(edges, make)
      ensures exists e :: e in edges && make(e) == n
    {
      var i :| 0 <= i < |Map(edges, make)| && Map(edges, make)[i] == n;
      assert edges[i] in edges;
    }
  }

  lemma {:induction false} SourcesAre(input: ProductInput, c: Collection)
    ensures forall e :: e in Edges(input) && e.kind == IngestEdge && e.target == "coll:" + c.id ==>
              exists n :: n in RowOf(input, c).sources.nodes && SourceNode(input, c, e, n)
    ensures forall n :: n in RowOf(input, c).sources.nodes ==> exists e :: e in Edges(input) && SourceNode(input, c, e, n)
  {
    var make := (e: Edge) => LineageNode(e.id, Label(input, e.source), ConnectionNodeHealth(input, e.source));
    NodesOfEdges(SourceEdges(input, c), make);
    assert RowOf(input, c).sources.nodes == Map(SourceEdges(input, c), make);
    forall e | e in SourceEdges(input, c)
      ensures SourceNode(input, c, e, make(e))
    {
      LabelExactly(input, e.source);
      ConnectionNodeShows(input, e.source);
    }
  }

  lemma {:induction false} DestinationsAre(input: ProductInput, c: Collection)
    ensures forall e :: e in Edges(input) && e.kind == DeliverEdge && e.source == "coll:" + c.id ==>
              exists n :: n in RowOf(input, c).destinations.nodes && DestinationNode(input, c, e, n)
    ensures forall n :: n in RowOf(input, c).destinations.nodes ==> exists e :: e in Edges(input) && DestinationNode(input, c, e, n)
  {
    var make := (e: Edge) => LineageNode(e.id, Label(input, e.target), ConnectionNodeHealth(input, e.target));
    NodesOfEdges(DestinationEdges(input, c), make);
    assert RowOf(input, c).destinations.nodes == Map(DestinationEdges(input, c), make);
    forall e | e in DestinationEdges(input, c)
      ensures DestinationNode(input, c, e, make(e))
    {
      LabelExactly(input, e.target);
      ConnectionNodeShows(input, e.target);
    }
  }

  lemma {:induction false} ProcessesAre(input: ProductInput, c: Collection)
    ensures forall e, p :: e in Edges(input) && Wires(e, c, p) ==>
              exists n :: n in RowOf(input, c).processes.nodes && ProcessSideNode(input, c, e, n)
    ensures forall n :: n in RowOf(input, c).processes.nodes ==> exists e :: e in Edges(input) && ProcessSideNode(input, c, e, n)
  {
    var make := (e: Edge) => LineageNode(ProcessEdgeId(e), Label(input, ProcessOf(e)), ProcessNodeHealth(input, ProcessOf(e)));
    NodesOfEdges(ProcessEdges(input, c), make);
    assert RowOf(input, c).processes.nodes == Map(ProcessEdges(input, c), make);
    forall e | e in ProcessEdges(input, c)
      ensures ProcessSideNode(input, c, e, make(e))
    {
      LabelExactly(input, ProcessOf(e));
      ProcessNodeShows(input, ProcessOf(e));
    }
  }

  // The items of the product's ingest flows, added up.
  function IngestItems(flows: seq<Flow>, c: Collection): nat {
    if flows == [] then 0
    else
      var f := flows[|flows| - 1];
      IngestItems(flows[..|flows| - 1], c) + if f.collection == c.id && f.direction == Ingest then f.items else 0
  }

  ghost predicate Ingests(input: ProductInput, c: Collection) {
    exists f :: f in input.flows && f.collection == c.id && f.direction == Ingest
  }

  function IngestFlows(flows: seq<Flow>, c: Collection): seq<Flow> {
    Filter(Filter(flows, (f: Flow) => f.collection == c.id), (f: Flow) => f.direction == Ingest)
  }

  lemma {:induction false} SumItemsNext(flows: seq<Flow>, f: Flow)
    ensures SumItems(flows + [f]) == SumItems(flows) + f.items
  {
    if flows == [] {
      assert [] + [f] == [f] && [f][1..] == [];
    } else {
      assert (flows + [f])[1..] == flows[1..] + [f];
      SumItemsNext(flows[1..], f);
    }
  }

  lemma {:induction false} ItemsAddUp(flows: seq<Flow>, c: Collection)
    ensures SumItems(IngestFlows(flows, c)) == IngestItems(flows, c)
  {
    if flows != [] {
      var k := |flows| - 1;
      var mine, front := (f: Flow) => f.collection == c.id, Filter(flows[..k], (f: Flow) => f.collection == c.id);
      ItemsAddUp(flows[..k], c);
      assert flows == flows[..k] + [flows[k]];
      FilterLast(flows[..k], flows[k], mine);
      FilterLast(front, flows[k], (f: Flow) => f.direction == Ingest);
      SumItemsNext(IngestFlows(flows[..k], c), flows[k]);
    }
  }

  /** The rest of a row: its title, its ingested items, its lineage edge by edge, and whether
      the platform knows it. */
  lemma {:induction false} RowTells(input: ProductInput, c: Collection)
    ensures var row := RowOf(input, c);
            && row.id == c.id && (c.title.Some? ==> row.title == c.title.value) && (c.title.None? ==> row.title == c.id)
            && row.itemsIngested == (if Ingests(input, c) then Some(IngestItems(input.flows, c)) else None)
            && (row.onPlatform <==> HasNode(input, "coll:" + c.id))
            && LineageIs(input, c, row)
  {
    SourcesAre(input, c);
    DestinationsAre(input, c);
    ProcessesAre(input, c);
    ItemsAre(input, c);
    if input.graph.Some? {
      NodeByIdExactly(input.graph.value.nodes, "coll:" + c.id);
    }
  }

  lemma {:induction false} ItemsAre(input: ProductInput, c: Collection)
    ensures ItemsIngested(input, c) == if Ingests(input, c) then Some(IngestItems(input.flows, c)) else None
  {
    ItemsAddUp(input.flows, c);
    var ingest := Filter(CollectionFlows(input, c), (f: Flow) => f.direction == Ingest);
    assert ingest == IngestFlows(input.flows, c);
    if ingest != [] {
      assert ingest[0] in ingest;
    }
    if Ingests(input, c) {
      var f :| f in input.flows && f.collection == c.id && f.direction == Ingest;
      assert f in ingest;
    }
  }

  /* ---- the process page ---- */

  function RunsThat(runs: seq<Run>, p: Run -> bool): set<nat> {
    set i: nat | i < |runs| && !runs[i].isTest && p(runs[i])
  }

  function NotTest(): Run -> bool {
    (r: Run) => !r.isTest
  }

  lemma {:induction false} RunsThatNext(runs: seq<Run>, r: Run, p: Run -> bool)
    ensures |RunsThat(runs + [r], p)| == |RunsThat(runs, p)| + if !r.isTest && p(r) then 1 else 0
  {
    var k := |runs|;
    if !r.isTest && p(r) {
      assert RunsThat(runs + [r], p) == RunsThat(runs, p) + {k};
    } else {
      assert RunsThat(runs + [r], p) == RunsThat(runs, p);
    }
  }

  lemma {:induction false} FilterCounts(runs: seq<Run>, p: Run -> bool)
    ensures |Filter(Filter(runs, NotTest()), p)| == |RunsThat(runs, p)|
  {
    if runs != [] {
      var k := |runs| - 1;
      FilterCounts(runs[..k], p);
      assert runs == runs[..k] + [runs[k]];
      FilterLast(runs[..k], runs[k], NotTest());
      FilterLast(Filter(runs[..k], NotTest()), runs[k], p);
      RunsThatNext(runs[..k], runs[k], p);
    }
  }

  function Ended(status: RunStatus): Run -> bool {
    (r: Run) => r.status == status
  }

  function PutOff(): Run -> bool {
    (r: Run) => r.deferred
  }

  // What the real runs of a process without open alerts amount to.
  ghost predicate LedgerShows(runs: seq<Run>, v: ProcessVerdict) {
    var dead, failed, deferred := |RunsThat(runs, Ended(Dead))|, |RunsThat(runs, Ended(Failed))|, |RunsThat(runs, PutOff())|;
    if forall r :: r in runs ==> r.isTest then v == ProcessVerdict(Unproven, NeverRun, Silent)
    else if dead > 0 then v == ProcessVerdict(Failing, FailingLabel, DeadRuns(dead))
    else if failed > 0 then v == ProcessVerdict(Warning, DegradedLabel, Retrying(failed))
    else if deferred > 0 then v == ProcessVerdict(Warning, RateLimited, Deferred(deferred))
    else v == ProcessVerdict(Fine, Healthy, Silent)
  }

  lemma {:induction false} LedgerExactly(runs: seq<Run>)
    ensures LedgerShows(runs, LedgerVerdict(runs))
  {
    var ledger := Filter(runs, NotTest());
    FilterSame(runs, NotTest(), (r: Run) => !r.isTest);
    FilterCounts(runs, Ended(Dead));
    FilterCounts(runs, Ended(Failed));
    FilterCounts(runs, PutOff());
    FilterSame(ledger, Ended(Dead), (r: Run) => r.status == Dead);
    FilterSame(ledger, Ended(Failed), (r: Run) => r.status == Failed);
    FilterSame(ledger, PutOff(), (r: Run) => r.deferred);
    if ledger != [] {
      assert ledger[0] in ledger;
    }
  }

  // The verdict the process's open alerts lead to.
  ghost predicate AlertsShow(alerts: seq<Alert>, id: string, v: ProcessVerdict) {
    && (v.health == Failing <==> exists a :: a in alerts && a.process == Some(id) && Alarming(a))
    && (if v.health == Failing then v.badge == FailingLabel else v.health == Warning && v.badge == DegradedLabel)
    && exists a :: a in alerts && a.process == Some(id) && a.state != Resolved && v.reason == FromAlert(a.kind, a.state == Acknowledged)
  }

  lemma {:induction false} PageAlertsShow(p: Process, runs: seq<Run>, sourceCount: Option<nat>, alerts: seq<Alert>)
    requires p.hasRevision && p.enabled && sourceCount != Some(0)
    ensures var v := VerdictOf(p, runs, sourceCount, alerts);
            if exists a :: a in alerts && a.process == Some(p.id) && a.state != Resolved then AlertsShow(alerts, p.id, v)
            else v == LedgerVerdict(runs)
  {
    var own := Filter(alerts, OnProcess(p.id));
    var firing, degraded, acknowledged := Find(own, Fails()), Find(own, FiringDegraded()), Find(own, StateIs(Acknowledged));
    OwnOfProcess(alerts, p.id);
    if firing.Some? {
      SortsExactly(firing.value);
    } else if degraded.Some? {
      SortsExactly(degraded.value);
    }
  }

  lemma {:induction false} OwnOfProcess(alerts: seq<Alert>, id: string)
    ensures var own := Filter(alerts, OnProcess(id));
            && (forall a :: a in own ==> a in alerts && a.process == Some(id))
            && (Find(own, Fails()).Some? <==> exists a :: a in alerts && a.process == Some(id) && Alarming(a))
            && (Find(own, Fails()).Some? || Find(own, FiringDegraded()).Some? || Find(own, StateIs(Acknowledged)).Some?
                <==> exists a :: a in alerts && a.process == Some(id) && a.state != Resolved)
  {
    var own := Filter(alerts, OnProcess(id));
    assert forall a :: a in own <==> a in alerts && a.process == Some(id);
    forall a
      ensures Fails()(a) <==> Alarming(a)
      ensures a.state != Resolved <==> Fails()(a) || FiringDegraded()(a) || StateIs(Acknowledged)(a)
    {
      SortsExactly(a);
    }
  }

  /** The process page: a process that cannot run proves nothing; else its open alerts
      decide; else its real runs do, dead ones before failed ones before deferred ones. */
  lemma {:induction false} PageShows(p: Process, runs: seq<Run>, sourceCount: Option<nat>, alerts: seq<Alert>)
    ensures var v := VerdictOf(p, runs, sourceCount, alerts);
            if !p.hasRevision then v == ProcessVerdict(Unproven, NoRevision, NothingDeployed)
            else if !p.enabled then v == ProcessVerdict(Unproven, Disabled, WillNotTrigger)
            else if sourceCount == Some(0) then v == ProcessVerdict(Unproven, NoTrigger, NoSourceAttached)
            else if exists a :: a in alerts && a.process == Some(p.id) && a.state != Resolved then AlertsShow(alerts, p.id, v)
            else LedgerShows(runs, v)
  {
    if p.hasRevision && p.enabled && sourceCount != Some(0) {
      PageAlertsShow(p, runs, sourceCount, alerts);
      LedgerExactly(runs);
    }
  }
}
