/** Where new copies go: eligible nodes ranked by score, taken greedily with a preference for
    failure domains that hold no copy yet. */
module Placement {
  import opened Arithmetic
  import opened Options
  import opened Sorting
  import opened Picking

  type Id = string

  datatype Capacity = Committable | BestEffort | Unknown

  /** The text fields are those of the node's metadata without surrounding blanks. */
  datatype Node = Node(id: Id, enabled: bool, online: bool, capacity: Capacity, total: int, used: int,
                       stability: int, penalty: int,
                       failureDomain: string, provider: string, region: string, rack: string)

  datatype Policy = Policy(n: int, m: int, preferEdge: bool, margin: int)

  datatype PolicyError = NoReplica | NegativeCommittable | MoreCommittableThanReplicas

  /** `tiebreak` stands for the hash of the object's and the node's identifiers. */
  datatype Request = Request(size: int, current: set<Id>, currentCommittable: int, currentTotal: int,
                             reserved: map<Id, int>, desired: map<Id, int>, assignedBytes: map<Id, nat>,
                             policy: Policy, tiebreak: Id -> int)

  datatype Score = Score(freePpm: int, stability: int, penalty: int, load: int, tie: int)

  datatype Result = Chosen(nodes: seq<Node>) | Invalid(error: PolicyError)

  function Get(m: map<Id, int>, id: Id): int {
    if id in m then m[id] else 0
  }

  function Validate(p: Policy): Option<PolicyError> {
    if p.n < 1 then Some(NoReplica)
    else if p.m < 0 then Some(NegativeCommittable)
    else if p.m > p.n then Some(MoreCommittableThanReplicas)
    else None
  }

  function Joined(a: string, b: string): string {
    if a == "" then b else if b == "" then a else a + "/" + b
  }

  function Domain(node: Node): string {
    var place := Joined(Joined(node.provider, node.region), node.rack);
    if node.failureDomain != "" then node.failureDomain
    else if place != "" then place
    else "node:" + node.id
  }

  function FreeBytes(node: Node, reserved: int, margin: int): int {
    if node.total <= 0 then 0 else Max(0, node.total - node.used - Max(0, reserved) - Max(0, margin))
  }

  const MEBIBYTE := 1024 * 1024

  function ScoreOf(r: Request, node: Node): Score {
    var free := FreeBytes(node, Get(r.reserved, node.id), r.policy.margin);
    var bytes := if node.id in r.assignedBytes then r.assignedBytes[node.id] else 0;
    var load := Get(r.desired, node.id) * 1000 + bytes / MEBIBYTE;
    Score(free * 1_000_000 / Max(1, node.total), node.stability, -node.penalty, -load, -r.tiebreak(node.id))
  }

  predicate AtLeast(a: Score, b: Score) {
    a.freePpm > b.freePpm || (a.freePpm == b.freePpm &&
    (a.stability > b.stability || (a.stability == b.stability &&
    (a.penalty > b.penalty || (a.penalty == b.penalty &&
    (a.load > b.load || (a.load == b.load && a.tie >= b.tie)))))))
  }

  function Rank(r: Request): Order<Node> {
    (x: Node, y: Node) => AtLeast(ScoreOf(r, x), ScoreOf(r, y))
  }

  predicate Eligible(r: Request, node: Node) {
    && node.id != "" && node.id !in r.current
    && node.enabled && node.online && !node.capacity.Unknown?
    && FreeBytes(node, Get(r.reserved, node.id), r.policy.margin) >= r.size
  }

  function Filter(nodes: seq<Node>, keep: Node -> bool): seq<Node> {
    if nodes == [] then []
    else (if keep(nodes[0]) then [nodes[0]] else []) + Filter(nodes[1..], keep)
  }

  /** The eligible nodes of one capacity class, best first. */
  function Pool(r: Request, nodes: seq<Node>, capacity: Capacity): seq<Node> {
    Sort(Rank(r), Filter(nodes, (x: Node) => Eligible(r, x) && x.capacity == capacity))
  }

  function Occupied(r: Request, nodes: seq<Node>): set<string> {
    set x | x in nodes && x.id in r.current :: Domain(x)
  }

  // ------------------------------------------------------------ the choice

  const ByDomain := (x: Node) => Domain(x)
  const ById := (x: Node) => x.id

  function NeedCommittable(r: Request): int {
    Max(0, r.policy.m - r.currentCommittable)
  }

  function NeedTotal(r: Request): nat {
    Max(0, r.policy.n - r.currentTotal)
  }

  function ChooseParts(r: Request, comm: seq<Node>, edge: seq<Node>, occupied: set<string>): Parts<Node> {
    Rest(r, edge, Take(ByDomain, comm, occupied, NeedCommittable(r)))
  }

  function Rest(r: Request, edge: seq<Node>, first: Taken<Node, string>): Parts<Node> {
    var need := Max(0, NeedTotal(r) - |first.picks|);
    var excluded := r.current + Images(ById, first.picks);
    if r.policy.preferEdge then FillBoth(ByDomain, ById, first, edge, first.rest, excluded, need)
    else FillBoth(ByDomain, ById, first, first.rest, edge, excluded, need)
  }

  function PartsOf(r: Request, nodes: seq<Node>): Parts<Node> {
    ChooseParts(r, Pool(r, nodes, Committable), Pool(r, nodes, BestEffort), Occupied(r, nodes))
  }

  function Choose(r: Request, nodes: seq<Node>): Result {
    if Validate(r.policy).Some? then Invalid(Validate(r.policy).value)
    else
      var p := PartsOf(r, nodes);
      Chosen(p.required + p.preferred + p.other)
  }

  // ------------------------------------------------------------ the loops

  method PlaceFrom(r: Request, comm: seq<Node>, edge: seq<Node>, occupied0: set<string>) returns (chosen: seq<Node>)
    ensures var p := ChooseParts(r, comm, edge, occupied0); chosen == p.required + p.preferred + p.other
  {
    var required, rest, occupied, excluded, left :=
      TakeLoop(ByDomain, ById, comm, occupied0, r.current, NeedCommittable(r), NeedTotal(r));
    ghost var first := Take(ByDomain, comm, occupied0, NeedCommittable(r));
    var preferred, other;
    if r.policy.preferEdge {
      preferred, other := FillBothLoop(ByDomain, ById, first, edge, rest, occupied, excluded, left);
    } else {
      preferred, other := FillBothLoop(ByDomain, ById, first, rest, edge, occupied, excluded, left);
    }
    chosen := required + preferred + other;
  }

  method ChoosePlacements(r: Request, nodes: seq<Node>) returns (result: Result)
    ensures result == Choose(r, nodes)
  {
    var error := Validate(r.policy);
    if error.Some? { return Invalid(error.value); }
    var chosen := PlaceFrom(r, Pool(r, nodes, Committable), Pool(r, nodes, BestEffort), Occupied(r, nodes));
    result := Chosen(chosen);
  }
}
