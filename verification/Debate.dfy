/**
 The debate part of the research graph: the edges `setup_graph` builds, the two routers of
 `graph/conditional_logic.py`, and the run they produce from the opening bull speech on.
 */
module Debate {
  import opened Text

  datatype Node =
    | BullResearcher | BearResearcher | ResearchManager
    | SetupPlanner
    | AggressiveAnalyst | ConservativeAnalyst | NeutralAnalyst
    | PortfolioManager | ScenarioPlanner
    | End

  datatype State = State(debateCount: int, currentResponse: string, riskCount: int, latestSpeaker: string)

  // ----- the routers -----

  datatype Limits = Limits(debateRounds: int, riskRounds: int)

  function ShouldContinueDebate(limits: Limits, s: State): Node {
    if s.debateCount >= 2 * limits.debateRounds then ResearchManager
    else if StartsWith(s.currentResponse, "Bull") then BearResearcher
    else BullResearcher
  }

  function ShouldContinueRisk(limits: Limits, s: State): Node {
    if s.riskCount >= 3 * limits.riskRounds then PortfolioManager
    else if StartsWith(s.latestSpeaker, "Aggressive") then ConservativeAnalyst
    else if StartsWith(s.latestSpeaker, "Conservative") then NeutralAnalyst
    else AggressiveAnalyst
  }

  // ----- the graph -----

  datatype RouterKind = DebateRouter | RiskRouter

  datatype Branch = Branch(router: RouterKind, targets: set<Node>)

  datatype Graph = Graph(nodes: set<Node>, edges: map<Node, Node>, branches: map<Node, Branch>)

  class Workflow {
    var nodes: set<Node>
    var edges: map<Node, Node>
    var branches: map<Node, Branch>

    constructor ()
      ensures Built() == Graph({}, map[], map[])
    {
      nodes, edges, branches := {}, map[], map[];
    }

    function Built(): Graph
      reads this
    {
      Graph(nodes, edges, branches)
    }

    method AddNode(n: Node)
      modifies this`nodes
      ensures nodes == old(nodes) + {n}
    {
      nodes := nodes + {n};
    }

    method AddEdge(source: Node, target: Node)
      modifies this`edges
      ensures edges == old(edges)[source := target]
    {
      edges := edges[source := target];
    }

    method AddConditionalEdges(source: Node, router: RouterKind, targets: set<Node>)
      modifies this`branches
      ensures branches == old(branches)[source := Branch(router, targets)]
    {
      branches := branches[source := Branch(router, targets)];
    }
  }

  const SPEAKERS: set<Node> := {
    BullResearcher, BearResearcher, ResearchManager, SetupPlanner, AggressiveAnalyst, ConservativeAnalyst,
    NeutralAnalyst, PortfolioManager, ScenarioPlanner
  }

  /** Every speaker may be followed by the next one of its debate, or by the end of the debate. */
  function Successors(n: Node): set<Node> {
    match n
    case BullResearcher => {BearResearcher, ResearchManager}
    case BearResearcher => {BullResearcher, ResearchManager}
    case ResearchManager => {SetupPlanner}
    case SetupPlanner => {AggressiveAnalyst}
    case AggressiveAnalyst => {ConservativeAnalyst, PortfolioManager}
    case ConservativeAnalyst => {NeutralAnalyst, PortfolioManager}
    case NeutralAnalyst => {AggressiveAnalyst, PortfolioManager}
    case PortfolioManager => {ScenarioPlanner}
    case ScenarioPlanner => {End}
    case End => {}
  }

  function RouterOf(n: Node): Option<RouterKind> {
    match n
    case BullResearcher => Some(DebateRouter)
    case BearResearcher => Some(DebateRouter)
    case AggressiveAnalyst => Some(RiskRouter)
    case ConservativeAnalyst => Some(RiskRouter)
    case NeutralAnalyst => Some(RiskRouter)
    case _ => None
  }

  /** A node has a fixed edge or a branch, never both, to the successors above. */
  ghost predicate WellWired(g: Graph) {
    && g.nodes == SPEAKERS
    && (forall n :: n in g.edges <==> n in g.nodes && RouterOf(n).None?)
    && (forall n :: n in g.branches <==> RouterOf(n).Some?)
    && (forall n | n in g.edges :: Successors(n) == {g.edges[n]})
    && (forall n | n in g.branches :: g.branches[n] == Branch(RouterOf(n).value, Successors(n)))
  }

  function Edges(): map<Node, Node> {
    map[][ResearchManager := SetupPlanner][SetupPlanner := AggressiveAnalyst][PortfolioManager := ScenarioPlanner]
      [ScenarioPlanner := End]
  }

  function Branches(): map<Node, Branch> {
    map[][BullResearcher := Branch(DebateRouter, {BearResearcher, ResearchManager})]
      [BearResearcher := Branch(DebateRouter, {BullResearcher, ResearchManager})]
      [AggressiveAnalyst := Branch(RiskRouter, {ConservativeAnalyst, PortfolioManager})]
      [ConservativeAnalyst := Branch(RiskRouter, {NeutralAnalyst, PortfolioManager})]
      [NeutralAnalyst := Branch(RiskRouter, {AggressiveAnalyst, PortfolioManager})]
  }

  lemma StandardIsWired()
    ensures WellWired(Graph(SPEAKERS, Edges(), Branches()))
  {
    var g := Graph(SPEAKERS, Edges(), Branches());
    forall n
      ensures n in g.edges <==> n in g.nodes && RouterOf(n).None?
      ensures n in g.branches <==> RouterOf(n).Some?
      ensures n in g.edges ==> Successors(n) == {g.edges[n]}
      ensures n in g.branches ==> g.branches[n] == Branch(RouterOf(n).value, Successors(n))
    {
      match n
      case BullResearcher =>
      case BearResearcher =>
      case ResearchManager =>
      case SetupPlanner =>
      case AggressiveAnalyst =>
      case ConservativeAnalyst =>
      case NeutralAnalyst =>
      case PortfolioManager =>
      case ScenarioPlanner =>
      case End =>
    }
  }

  method AddSpeakers(w: Workflow)
    requires w.nodes == {}
    modifies w`nodes
    ensures w.nodes == SPEAKERS
  {
    w.AddNode(BullResearcher);
    w.AddNode(BearResearcher);
    w.AddNode(ResearchManager);
    w.AddNode(SetupPlanner);
    w.AddNode(AggressiveAnalyst);
    w.AddNode(NeutralAnalyst);
    w.AddNode(ConservativeAnalyst);
    w.AddNode(PortfolioManager);
    w.AddNode(ScenarioPlanner);
  }

  /** The debate part of `setup_graph`. */
  method SetupGraph() returns (w: Workflow)
    ensures fresh(w) && WellWired(w.Built())
  {
    hide WellWired;
    w := new Workflow();
    AddSpeakers(w);
    w.AddConditionalEdges(BullResearcher, DebateRouter, {BearResearcher, ResearchManager});
    w.AddConditionalEdges(BearResearcher, DebateRouter, {BullResearcher, ResearchManager});
    w.AddEdge(ResearchManager, SetupPlanner);
    w.AddEdge(SetupPlanner, AggressiveAnalyst);
    w.AddConditionalEdges(AggressiveAnalyst, RiskRouter, {ConservativeAnalyst, PortfolioManager});
    w.AddConditionalEdges(ConservativeAnalyst, RiskRouter, {NeutralAnalyst, PortfolioManager});
    w.AddConditionalEdges(NeutralAnalyst, RiskRouter, {AggressiveAnalyst, PortfolioManager});
    w.AddEdge(PortfolioManager, ScenarioPlanner);
    w.AddEdge(ScenarioPlanner, End);
    assert w.edges == Edges();
    assert w.branches == Branches();
    StandardIsWired();
  }

  // ----- the run -----

  /** What a node writes; `text` is the model's answer. The research manager overwrites the current
      response, the other nodes outside the debates touch none of these fields. */
  function Execute(n: Node, s: State, text: string): State {
    match n
    case BullResearcher => s.(debateCount := s.debateCount + 1, currentResponse := "Bull Analyst: " + text)
    case BearResearcher => s.(debateCount := s.debateCount + 1, currentResponse := "Bear Analyst: " + text)
    case ResearchManager => s.(currentResponse := text)
    case AggressiveAnalyst => s.(riskCount := s.riskCount + 1, latestSpeaker := "Aggressive")
    case ConservativeAnalyst => s.(riskCount := s.riskCount + 1, latestSpeaker := "Conservative")
    case NeutralAnalyst => s.(riskCount := s.riskCount + 1, latestSpeaker := "Neutral")
    case _ => s
  }

  function Routed(kind: RouterKind, limits: Limits, s: State): Node {
    match kind
    case DebateRouter => ShouldContinueDebate(limits, s)
    case RiskRouter => ShouldContinueRisk(limits, s)
  }

  /** `Lost` is a router answer that the edge map of the current node does not contain. */
  datatype Place = At(node: Node, state: State) | Lost

  function Next(g: Graph, limits: Limits, p: Place, text: string): Place {
    match p
    case Lost => Lost
    case At(n, s) =>
      if n == End then p
      else
        var s' := Execute(n, s, text);
        if n in g.edges then At(g.edges[n], s')
        else if n in g.branches && Routed(g.branches[n].router, limits, s') in g.branches[n].targets
        then At(Routed(g.branches[n].router, limits, s'), s')
        else Lost
  }

  function Start(): Place {
    At(BullResearcher, State(0, "", 0, ""))
  }

  /** Where the run is after n nodes, given what each of them writes. */
  function Run(g: Graph, limits: Limits, texts: nat -> string, n: nat): Place {
    if n == 0 then Start() else Next(g, limits, Run(g, limits, texts, n - 1), texts(n - 1))
  }

  /** The bull and the aggressive analyst speak before any limit is looked at. */
  function DebateTurns(limits: Limits): nat {
    if limits.debateRounds < 1 then 1 else 2 * limits.debateRounds
  }

  function RiskTurns(limits: Limits): nat {
    if limits.riskRounds < 1 then 1 else 3 * limits.riskRounds
  }

  /** The agenda: bull and bear in turn, the two managers, the three analysts in turn, the end. */
  function Agenda(limits: Limits, n: nat): Node {
    var d, k := DebateTurns(limits), RiskTurns(limits);
    if n < d then (if n % 2 == 0 then BullResearcher else BearResearcher)
    else if n == d then ResearchManager
    else if n == d + 1 then SetupPlanner
    else if n < d + 2 + k then
      var j := (n - d - 2) % 3;
      if j == 0 then AggressiveAnalyst else if j == 1 then ConservativeAnalyst else NeutralAnalyst
    else if n == d + 2 + k then PortfolioManager
    else if n == d + 3 + k then ScenarioPlanner
    else End
  }

  /** What the counters and the last speaker are when the n-th node is about to run. */
  predicate OnAgenda(limits: Limits, n: nat, s: State) {
    var d, k := DebateTurns(limits), RiskTurns(limits);
    && s.debateCount == (if n < d then n else d)
    && s.riskCount == (if n < d + 2 then 0 else if n < d + 2 + k then n - d - 2 else k)
  }

  lemma Prefixes(text: string)
    ensures StartsWith("Bull Analyst: " + text, "Bull") && !StartsWith("Bear Analyst: " + text, "Bull")
    ensures StartsWith("Aggressive", "Aggressive") && !StartsWith("Conservative", "Aggressive")
    ensures StartsWith("Conservative", "Conservative")
    ensures !StartsWith("Neutral", "Aggressive") && !StartsWith("Neutral", "Conservative")
  {
    var bull, bear := "Bull Analyst: " + text, "Bear Analyst: " + text;
    assert bull[0..4] == "Bull Analyst: "[0..4] == "Bull";
    assert bear[0..4][1] == 'e' && "Bull"[1] == 'u';
    assert "Conservative"[0..10][0] == 'C' && "Aggressive"[0] == 'A';
  }

  /** Wired as above, the run follows the agenda exactly: every router answer is in the edge map of
      its node, each debate has its number of turns in strict rotation, and the scenario planner is
      reached, after which the run ends. */
  lemma {:induction false} RunFollowsAgenda(g: Graph, limits: Limits, texts: nat -> string, n: nat)
    requires WellWired(g)
    ensures var p := Run(g, limits, texts, n);
            p.At? && p.node == Agenda(limits, n) && OnAgenda(limits, n, p.state)
  {
    if n > 0 {
      RunFollowsAgenda(g, limits, texts, n - 1);
      AgendaStep(g, limits, Run(g, limits, texts, n - 1).state, n - 1, texts(n - 1));
    }
  }

  lemma AgendaStep(g: Graph, limits: Limits, s: State, n: nat, text: string)
    requires WellWired(g) && OnAgenda(limits, n, s)
    ensures var p := Next(g, limits, At(Agenda(limits, n), s), text);
            p.At? && p.node == Agenda(limits, n + 1) && OnAgenda(limits, n + 1, p.state)
  {
    Prefixes(text);
    hide StartsWith, Successors, WellWired;
    var node := Agenda(limits, n);
    Wired(g, node);
    Allowed(node);
    var d := DebateTurns(limits);
    TurnParity(n, d);
  }

  lemma Wired(g: Graph, n: Node)
    requires WellWired(g)
    ensures n in g.edges <==> n != End && RouterOf(n).None?
    ensures n in g.edges ==> g.edges[n] in Successors(n)
    ensures n in g.branches <==> RouterOf(n).Some?
    ensures n in g.branches ==> g.branches[n] == Branch(RouterOf(n).value, Successors(n))
  {
    assert n in SPEAKERS <==> n != End;
  }

  lemma Allowed(n: Node)
    ensures n == BullResearcher ==> BearResearcher in Successors(n) && ResearchManager in Successors(n)
    ensures n == BearResearcher ==> BullResearcher in Successors(n) && ResearchManager in Successors(n)
    ensures n == AggressiveAnalyst ==> ConservativeAnalyst in Successors(n) && PortfolioManager in Successors(n)
    ensures n == ConservativeAnalyst ==> NeutralAnalyst in Successors(n) && PortfolioManager in Successors(n)
    ensures n == NeutralAnalyst ==> AggressiveAnalyst in Successors(n) && PortfolioManager in Successors(n)
    ensures forall m :: m in Successors(n) ==>
              && (n == ResearchManager ==> m == SetupPlanner) && (n == SetupPlanner ==> m == AggressiveAnalyst)
              && (n == PortfolioManager ==> m == ScenarioPlanner) && (n == ScenarioPlanner ==> m == End)
  {
  }

  lemma TurnParity(n: nat, d: nat)
    ensures (n + 1) % 2 == 1 - n % 2
    ensures n >= d + 2 ==> (n + 1 - d - 2) % 3 == (if (n - d - 2) % 3 == 2 then 0 else (n - d - 2) % 3 + 1)
  {
  }

  /** With at least one round each, the debates take exactly 2 and 3 turns a round. */
  lemma TurnsPerRound(limits: Limits)
    requires limits.debateRounds >= 1 && limits.riskRounds >= 1
    ensures DebateTurns(limits) == 2 * limits.debateRounds && RiskTurns(limits) == 3 * limits.riskRounds
    ensures Agenda(limits, DebateTurns(limits) + RiskTurns(limits) + 3) == ScenarioPlanner
    ensures Agenda(limits, DebateTurns(limits) - 1) == BearResearcher
    ensures Agenda(limits, DebateTurns(limits) + RiskTurns(limits) + 1) == NeutralAnalyst
  {
  }
}
