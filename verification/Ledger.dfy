/** Deployment accounting: a table of deployments, an append-only table of transitions, and the graph
    that says what can honestly follow what. */
module Ledgers {
  import opened Names

  datatype Stage =
    | Proposed
    | ManifestValidated
    | Compiled
    | SimulationVerified
    | Signed
    | DeliveryAttempted
    | AcceptedByDevice
    | ActiveOnDevice
    | Rejected
    | Reverted
    | RolledBack

  /** What can honestly be said next. */
  function Next(s: Stage): set<Stage> {
    match s
    case Proposed => {ManifestValidated, Rejected}
    case ManifestValidated => {Compiled, Rejected}
    case Compiled => {SimulationVerified, Rejected}
    case SimulationVerified => {Signed, Rejected}
    case Signed => {DeliveryAttempted, Rejected}
    case DeliveryAttempted => {AcceptedByDevice, Rejected}
    case AcceptedByDevice => {ActiveOnDevice, Rejected, Reverted, RolledBack}
    case ActiveOnDevice => {Reverted, RolledBack}
    case _ => {}
  }

  datatype Deployment = Deployment(
    deviceId: string,
    event: string,
    stage: Stage,
    sequence: Option<int>,
    leaseSeconds: Option<int>,
    manifestHash: Option<Hash>,
    artifactHash: Option<Hash>)

  datatype Transition = Transition(id: nat, from: Option<Stage>, to: Stage)

  /** A deployment's id is its position in the table. */
  datatype Book = Book(deployments: seq<Deployment>, transitions: seq<Transition>)

  /** Whatever became known at a step. */
  datatype Facts = Facts(
    sequence: Option<int>,
    leaseSeconds: Option<int>,
    manifestHash: Option<Hash>,
    artifactHash: Option<Hash>)

  const NOTHING_NEW := Facts(None, None, None, None)

  function Newer<T>(now: Option<T>, before: Option<T>): Option<T> { if now.Some? then now else before }

  function Learned(d: Deployment, f: Facts): Deployment {
    d.(sequence := Newer(f.sequence, d.sequence), leaseSeconds := Newer(f.leaseSeconds, d.leaseSeconds),
       manifestHash := Newer(f.manifestHash, d.manifestHash), artifactHash := Newer(f.artifactHash, d.artifactHash))
  }

  function Opened(b: Book, deviceId: string, event: string): Book {
    Book(b.deployments + [Deployment(deviceId, event, Proposed, None, None, None, None)],
         b.transitions + [Transition(|b.deployments|, None, Proposed)])
  }

  /** Whether a move is legal; an illegal one raises. */
  predicate MayMove(b: Book, id: nat, to: Stage) {
    id < |b.deployments| && to in Next(b.deployments[id].stage)
  }

  function Moved(b: Book, id: nat, to: Stage, f: Facts): Book
    requires MayMove(b, id, to)
  {
    Book(b.deployments[id := Learned(b.deployments[id], f).(stage := to)],
         b.transitions + [Transition(id, Some(b.deployments[id].stage), to)])
  }

  /** The highest sequence number ever issued to a device; 0 if none was. */
  function Highest(deployments: seq<Deployment>, deviceId: string): int {
    if deployments == [] then 0
    else
      var last := deployments[|deployments| - 1];
      var before := Highest(deployments[..|deployments| - 1], deviceId);
      if last.deviceId == deviceId && last.sequence.Some? && last.sequence.value > before then last.sequence.value
      else before
  }

  /** A deployment for the same situation that the device already has. */
  predicate LiveFor(d: Deployment, deviceId: string, event: string) {
    d.deviceId == deviceId && d.event == event && (d.stage.AcceptedByDevice? || d.stage.ActiveOnDevice?)
  }

  class Ledger {
    var deployments: seq<Deployment>
    var transitions: seq<Transition>

    function View(): Book
      reads this
    {
      Book(deployments, transitions)
    }

    constructor ()
      ensures View() == Book([], [])
    {
      deployments, transitions := [], [];
    }

    method OpenDeployment(deviceId: string, event: string) returns (id: nat)
      modifies this
      ensures id == old(|deployments|) && View() == Opened(old(View()), deviceId, event)
    {
      id := |deployments|;
      deployments := deployments + [Deployment(deviceId, event, Proposed, None, None, None, None)];
      transitions := transitions + [Transition(id, None, Proposed)];
    }

    /** Move a deployment forward; an illegal transition is refused and leaves no trace. */
    method Advance(id: nat, to: Stage, f: Facts) returns (legal: bool)
      modifies this
      ensures legal <==> MayMove(old(View()), id, to)
      ensures View() == if legal then Moved(old(View()), id, to, f) else old(View())
    {
      if id >= |deployments| || to !in Next(deployments[id].stage) {
        return false;
      }
      var current := deployments[id].stage;
      deployments := deployments[id := Learned(deployments[id], f).(stage := to)];
      transitions := transitions + [Transition(id, Some(current), to)];
      legal := true;
    }

    /** One above every number this server ever issued to the device. */
    method NextSequence(deviceId: string) returns (n: int)
      ensures n == Highest(deployments, deviceId) + 1
    {
      var highest := 0;
      for i := 0 to |deployments|
        invariant highest == Highest(deployments[..i], deviceId)
      {
        assert deployments[..i + 1][..i] == deployments[..i];
        var d := deployments[i];
        if d.deviceId == deviceId && d.sequence.Some? && d.sequence.value > highest {
          highest := d.sequence.value;
        }
      }
      assert deployments[..|deployments|] == deployments;
      n := highest + 1;
    }

    method LiveForEvent(deviceId: string, event: string) returns (live: bool)
      ensures live <==> exists i :: 0 <= i < |deployments| && LiveFor(deployments[i], deviceId, event)
    {
      for i := 0 to |deployments|
        invariant forall j :: 0 <= j < i ==> !LiveFor(deployments[j], deviceId, event)
      {
        if LiveFor(deployments[i], deviceId, event) {
          return true;
        }
      }
      live := false;
    }
  }

  // ----- What the graph guarantees -----

  /** The stages of one deployment, in the order they were recorded. */
  function History(transitions: seq<Transition>, id: nat): seq<Stage> {
    if transitions == [] then []
    else
      var last := transitions[|transitions| - 1];
      History(transitions[..|transitions| - 1], id) + if last.id == id then [last.to] else []
  }

  /** Starts with the proposal and follows the graph. */
  ghost predicate Path(h: seq<Stage>) {
    h != [] && h[0] == Proposed && forall i, j :: 0 <= i < j < |h| && j == i + 1 ==> h[j] in Next(h[i])
  }

  /** Every deployment's history is a path that ends in its present stage. */
  ghost predicate Lawful(b: Book) {
    && (forall t :: 0 <= t < |b.transitions| ==> b.transitions[t].id < |b.deployments|)
    && forall id :: 0 <= id < |b.deployments| ==>
         Path(History(b.transitions, id)) && Last(History(b.transitions, id)) == b.deployments[id].stage
  }

  function Last(h: seq<Stage>): Stage
    requires h != []
  {
    h[|h| - 1]
  }

  lemma HistoryAppend(transitions: seq<Transition>, t: Transition, id: nat)
    ensures History(transitions + [t], id) == History(transitions, id) + if t.id == id then [t.to] else []
  {
    assert (transitions + [t])[..|transitions|] == transitions;
  }

  lemma {:induction false} NoHistoryYet(transitions: seq<Transition>, id: nat)
    requires forall t :: 0 <= t < |transitions| ==> transitions[t].id < id
    ensures History(transitions, id) == []
  {
    if transitions != [] {
      NoHistoryYet(transitions[..|transitions| - 1], id);
    }
  }

  /** Opening a deployment starts its history and touches no other. */
  lemma OpeningIsLawful(b: Book, deviceId: string, event: string)
    requires Lawful(b)
    ensures Lawful(Opened(b, deviceId, event))
    ensures History(Opened(b, deviceId, event).transitions, |b.deployments|) == [Proposed]
    ensures forall id :: 0 <= id < |b.deployments| ==>
      History(Opened(b, deviceId, event).transitions, id) == History(b.transitions, id)
  {
    var c := Opened(b, deviceId, event);
    NoHistoryYet(b.transitions, |b.deployments|);
    forall id | 0 <= id <= |b.deployments|
      ensures History(c.transitions, id)
           == History(b.transitions, id) + if id == |b.deployments| then [Proposed] else []
    {
      HistoryAppend(b.transitions, Transition(|b.deployments|, None, Proposed), id);
    }
  }

  lemma HistoriesAfter(transitions: seq<Transition>, t: Transition, to: Stage)
    requires t.to == to
    ensures History(transitions + [t], t.id) == History(transitions, t.id) + [to]
    ensures forall other: nat :: other != t.id ==> History(transitions + [t], other) == History(transitions, other)
  {
    forall other: nat
      ensures History(transitions + [t], other) == History(transitions, other) + if t.id == other then [to] else []
    {
      HistoryAppend(transitions, t, other);
    }
  }

  lemma PathGrows(h: seq<Stage>, to: Stage)
    requires Path(h) && to in Next(Last(h))
    ensures Path(h + [to]) && Last(h + [to]) == to
  {
  }

  /** A legal move extends one history by one stage and touches no other. */
  lemma MovingIsLawful(b: Book, id: nat, to: Stage, f: Facts)
    requires Lawful(b) && MayMove(b, id, to)
    ensures Lawful(Moved(b, id, to, f))
    ensures History(Moved(b, id, to, f).transitions, id) == History(b.transitions, id) + [to]
    ensures forall other :: 0 <= other < |b.deployments| && other != id ==>
      History(Moved(b, id, to, f).transitions, other) == History(b.transitions, other)
  {
    HistoriesAfter(b.transitions, Transition(id, Some(b.deployments[id].stage), to), to);
    PathGrows(History(b.transitions, id), to);
  }

  /** The only way forward. */
  const LINE := [Proposed, ManifestValidated, Compiled, SimulationVerified, Signed, DeliveryAttempted,
                 AcceptedByDevice, ActiveOnDevice]

  predicate Terminal(s: Stage) { s.Rejected? || s.Reverted? || s.RolledBack? }

  /** The graph is the line and two ways off it: rejection until the device has the program running, a revert
      or a rollback once the device has taken it. Nothing leads back. */
  lemma TheGraphIsTheLine(s: Stage, t: Stage)
    ensures t in Next(s) <==>
      || (exists i :: 0 <= i < 7 && s == LINE[i] && t == LINE[i + 1])
      || (t.Rejected? && s in LINE[..7])
      || ((t.Reverted? || t.RolledBack?) && s in LINE[6..])
  {
    assert LINE[0] == Proposed && LINE[1] == ManifestValidated && LINE[2] == Compiled && LINE[3] == SimulationVerified;
    assert LINE[4] == Signed && LINE[5] == DeliveryAttempted && LINE[6] == AcceptedByDevice && LINE[7] == ActiveOnDevice;
    assert LINE[..7] == [Proposed, ManifestValidated, Compiled, SimulationVerified, Signed, DeliveryAttempted,
                         AcceptedByDevice];
    assert LINE[6..] == [AcceptedByDevice, ActiveOnDevice];
  }

  /** A history is the first `k` stages of the line, or that and one terminal stage. */
  predicate Shape(h: seq<Stage>, k: nat) {
    1 <= k <= 8 && (h == LINE[..k] || (|h| == k + 1 && h[..k] == LINE[..k] && Terminal(h[k])))
  }

  /** Every path through the graph is a stretch of the one line, ended at most by a terminal stage: no
      stage of the line is ever skipped, repeated or reordered. */
  lemma {:induction false} PathShape(h: seq<Stage>) returns (k: nat)
    requires Path(h)
    ensures Shape(h, k)
  {
    if |h| == 1 {
      k := 1;
      assert LINE[..1] == [Proposed];
    } else {
      var before := h[..|h| - 1];
      var j := PathShape(before);
      assert h[|h| - 1] in Next(before[|before| - 1]);
      k := if Terminal(h[|h| - 1]) then j else j + 1;
      assert before == LINE[..j];
      assert k == j + 1 ==> h[j] == LINE[j];
    }
  }

  /** Hence a stage of the line in a history vouches for everything before it. */
  lemma StageVouches(h: seq<Stage>, i: nat)
    requires Path(h) && i < 8 && LINE[i] in h
    ensures |h| > i && h[..i + 1] == LINE[..i + 1]
  {
    var k := PathShape(h);
    var j :| 0 <= j < |h| && h[j] == LINE[i];
    if j < k {
      assert h[j] == h[..k][j] == LINE[j];
    }
    assert j == i;
    assert h[..i + 1] == h[..k][..i + 1];
  }

  /** What the server calls active has been through the whole line: a send is not an arrival, and an
      arrival is not yet running. */
  lemma ActiveHasBeenThroughEverything(b: Book, id: nat)
    requires Lawful(b) && id < |b.deployments| && b.deployments[id].stage.ActiveOnDevice?
    ensures |History(b.transitions, id)| >= 8 && History(b.transitions, id)[..8] == LINE
  {
    var h := History(b.transitions, id);
    assert Last(h) in h;
    StageVouches(h, 7);
    assert LINE[..8] == LINE;
  }

  // ----- Sequence numbers -----

  /** What `Highest` means. */
  lemma {:induction false} HighestBounds(deployments: seq<Deployment>, deviceId: string)
    ensures Highest(deployments, deviceId) >= 0
    ensures forall i :: 0 <= i < |deployments| && deployments[i].deviceId == deviceId && deployments[i].sequence.Some? ==>
      deployments[i].sequence.value <= Highest(deployments, deviceId)
    ensures Highest(deployments, deviceId) > 0 ==>
      exists i :: 0 <= i < |deployments| && deployments[i].deviceId == deviceId
                  && deployments[i].sequence == Some(Highest(deployments, deviceId))
  {
    if deployments != [] {
      HighestBounds(deployments[..|deployments| - 1], deviceId);
    }
  }
}
