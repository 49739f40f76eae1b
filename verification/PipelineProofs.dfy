/** Gate order: what each outcome of a pipeline run leaves in the ledger. */
module PipelineProofs {
  import opened Names
  import opened Manifests
  import opened Programs
  import opened Ledgers
  import opened Packages
  import opened Pipelines

  /** Nothing but deployment `id` has moved, and its history has grown by `more`. */
  ghost predicate Grown(b: Book, after: Book, id: nat, more: seq<Stage>)
    requires id < |b.deployments|
  {
    && Lawful(after)
    && |after.deployments| == |b.deployments|
    && after.deployments == b.deployments[id := after.deployments[id]]
    && after.deployments[id].deviceId == b.deployments[id].deviceId
    && after.deployments[id].event == b.deployments[id].event
    && History(after.transitions, id) == History(b.transitions, id) + more
    && forall other :: 0 <= other < |b.deployments| && other != id ==>
         History(after.transitions, other) == History(b.transitions, other)
  }

  lemma MoveGrows(b: Book, id: nat, to: Stage, f: Facts)
    requires Lawful(b) && MayMove(b, id, to)
    ensures Grown(b, Moved(b, id, to, f), id, [to])
  {
    MovingIsLawful(b, id, to, f);
  }

  lemma GrowthAdds(b: Book, c: Book, after: Book, id: nat, some: seq<Stage>, more: seq<Stage>)
    requires id < |b.deployments| && Grown(b, c, id, some) && Grown(c, after, id, more)
    ensures Grown(b, after, id, some + more)
  {
    assert History(b.transitions, id) + some + more == History(b.transitions, id) + (some + more);
  }

  lemma MovedIsAt(b: Book, id: nat, to: Stage, f: Facts)
    requires MayMove(b, id, to)
    ensures At(Moved(b, id, to, f), id, to)
    ensures Moved(b, id, to, f).deployments[id].sequence == Newer(f.sequence, b.deployments[id].sequence)
  {
  }

  lemma TwoMoves(b: Book, id: nat, first: Stage, f: Facts, second: Stage)
    requires Lawful(b) && MayMove(b, id, first) && second in Next(first)
    ensures var c := Moved(b, id, first, f);
      At(c, id, first) && Grown(b, Moved(c, id, second, NOTHING_NEW), id, [first, second])
  {
    var c := Moved(b, id, first, f);
    MovedIsAt(b, id, first, f);
    MoveGrows(b, id, first, f);
    MoveGrows(c, id, second, NOTHING_NEW);
    TwoGrow(b, c, Moved(c, id, second, NOTHING_NEW), id, first, second);
  }

  lemma TwoGrow(b: Book, c: Book, after: Book, id: nat, first: Stage, second: Stage)
    requires id < |b.deployments| && Grown(b, c, id, [first]) && Grown(c, after, id, [second])
    ensures Grown(b, after, id, [first, second])
  {
    GrowthAdds(b, c, after, id, [first], [second]);
    assert [first] + [second] == [first, second];
  }

  lemma ThreeMoves(b: Book, id: nat, first: Stage, f: Facts, second: Stage, third: Stage)
    requires Lawful(b) && MayMove(b, id, first) && second in Next(first) && third in Next(second)
    ensures var c := Moved(b, id, first, f);
      && At(c, id, first)
      && var d := Moved(c, id, second, NOTHING_NEW);
         && At(d, id, second)
         && var after := Moved(d, id, third, NOTHING_NEW);
            && Grown(b, after, id, [first, second, third])
            && after.deployments[id].sequence == Newer(f.sequence, b.deployments[id].sequence)
  {
    var c := Moved(b, id, first, f);
    TwoMoves(b, id, first, f, second);
    MovedIsAt(b, id, first, f);
    MovedIsAt(c, id, second, NOTHING_NEW);
    var d := Moved(c, id, second, NOTHING_NEW);
    MoveGrows(d, id, third, NOTHING_NEW);
    MovedIsAt(d, id, third, NOTHING_NEW);
    OneMoreGrows(b, d, Moved(d, id, third, NOTHING_NEW), id, first, second, third);
  }

  lemma OneMoreGrows(b: Book, d: Book, after: Book, id: nat, first: Stage, second: Stage, third: Stage)
    requires id < |b.deployments| && Grown(b, d, id, [first, second]) && Grown(d, after, id, [third])
    ensures Grown(b, after, id, [first, second, third])
  {
    GrowthAdds(b, d, after, id, [first, second], [third]);
    assert [first, second] + [third] == [first, second, third];
  }

  predicate Below(d: Deployment, deviceId: string, sequence: int) {
    d.deviceId == deviceId && d.sequence.Some? ==> d.sequence.value < sequence
  }

  /** A package issued from a ledger: signed over that program, with the manifest's lifetime as lease
      and a number above every one this server ever issued to the device. */
  ghost predicate Issues(env: Environment, b: Book, task: Task, m: Manifest, p: Program, clock: int, package: Package) {
    && package == BuildPackage(env.crypto, env.key, p, package.sequence, clock, Some(m.maximumDurationSeconds))
    && package.sequence >= 1
    && forall i :: 0 <= i < |b.deployments| ==> Below(b.deployments[i], task.deviceId, package.sequence)
  }

  lemma NextIsAbove(env: Environment, b: Book, v: Book, id: nat, task: Task, m: Manifest, p: Program, clock: int)
    requires |v.deployments| >= |b.deployments|
    requires forall i :: 0 <= i < |b.deployments| && b.deployments[i].sequence.Some? ==>
      v.deployments[i] == b.deployments[i]
    ensures Issues(env, b, task, m, p, clock, IssuedPackage(env, v, task, m, p, clock))
  {
    HighestBounds(v.deployments, task.deviceId);
  }

  /** Shipping always signs with the next number and attempts delivery; how it ends is the device's word. */
  lemma ShipGrows(env: Environment, b: Book, id: nat, task: Task, m: Manifest, p: Program, clock: int,
                  answer: Package -> Answer)
    requires Lawful(b) && At(b, id, SimulationVerified)
    ensures var (after, result) := Ship(env, b, id, task, m, p, clock, answer);
      var package := IssuedPackage(env, b, task, m, p, clock);
      && result == Report(if answer(package) == Answered(None) then Through else AtDelivery, Some(id), Some(package),
                          answer(package) == Answered(None))
      && Grown(b, after, id,
               [Signed, DeliveryAttempted, if answer(package) == Answered(None) then AcceptedByDevice else Rejected])
      && after.deployments[id].sequence == Some(package.sequence)
  {
    var package := IssuedPackage(env, b, task, m, p, clock);
    var facts := Facts(Some(package.sequence), package.leaseSeconds, None, None);
    var last := if answer(package) == Answered(None) then AcceptedByDevice else Rejected;
    ThreeMoves(b, id, Signed, facts, DeliveryAttempted, last);
  }

  /** The stages a run adds after validation, by the gate it ends at. */
  function AfterValidation(gate: Gate): seq<Stage> {
    match gate
    case AtCompilation => [Rejected]
    case AtVerification => [Compiled, Rejected]
    case AtDelivery => [Compiled, SimulationVerified, Signed, DeliveryAttempted, Rejected]
    case _ => [Compiled, SimulationVerified, Signed, DeliveryAttempted, AcceptedByDevice]
  }

  /** What comes of compiling, verifying and shipping a validated manifest. */
  ghost predicate Outcome(env: Environment, b: Book, id: nat, task: Task, m: Manifest, program: Option<Program>, clock: int,
                          after: Book, result: Report)
    requires id < |b.deployments|
  {
    && result.id == Some(id) && Grown(b, after, id, AfterValidation(result.gate))
    && result.gate == (if program.None? then AtCompilation
                       else if !env.verified(task, program.value) then AtVerification
                       else if result.accepted then Through else AtDelivery)
    && (result.package.Some? <==> program.Some? && env.verified(task, program.value))
    && (result.package.Some? ==>
          && Issues(env, b, task, m, program.value, clock, result.package.value)
          && after.deployments[id].sequence == Some(result.package.value.sequence))
  }

  function CompiledFacts(env: Environment, p: Program): Facts {
    Facts(None, None, None, Some(env.crypto.artifactHash(p)))
  }

  lemma UnverifiedGrows(env: Environment, b: Book, id: nat, task: Task, m: Manifest, p: Program, clock: int)
    requires Lawful(b) && At(b, id, ManifestValidated) && !env.verified(task, p)
    ensures var c := Moved(b, id, Compiled, CompiledFacts(env, p));
      && At(c, id, Compiled)
      && Outcome(env, b, id, task, m, Some(p), clock, Drop(c, id), Report(AtVerification, Some(id), None, false))
  {
    TwoMoves(b, id, Compiled, CompiledFacts(env, p), Rejected);
  }

  lemma ShippedGrows(env: Environment, b: Book, id: nat, task: Task, m: Manifest, p: Program, clock: int,
                     answer: Package -> Answer)
    requires Lawful(b) && At(b, id, ManifestValidated) && b.deployments[id].sequence.None? && env.verified(task, p)
    ensures var c := Moved(b, id, Compiled, CompiledFacts(env, p));
      && At(c, id, Compiled)
      && var (after, result) := Ship(env, Moved(c, id, SimulationVerified, NOTHING_NEW), id, task, m, p, clock, answer);
         Outcome(env, b, id, task, m, Some(p), clock, after, result)
  {
    MoveGrows(b, id, Compiled, CompiledFacts(env, p));
    VerifiedGrows(env, b, Moved(b, id, Compiled, CompiledFacts(env, p)), id, task, m, p, clock, answer);
  }

  lemma CompileGrows(env: Environment, b: Book, id: nat, task: Task, m: Manifest, program: Option<Program>, clock: int,
                     answer: Package -> Answer)
    requires Lawful(b) && At(b, id, ManifestValidated) && b.deployments[id].sequence.None?
    ensures var (after, result) := Proceed(env, b, id, task, m, program, clock, answer);
      Outcome(env, b, id, task, m, program, clock, after, result)
  {
    if program.None? {
      MoveGrows(b, id, Rejected, NOTHING_NEW);
    } else if !env.verified(task, program.value) {
      UnverifiedGrows(env, b, id, task, m, program.value, clock);
    } else {
      ShippedGrows(env, b, id, task, m, program.value, clock, answer);
    }
  }

  lemma VerifiedGrows(env: Environment, b: Book, c: Book, id: nat, task: Task, m: Manifest, p: Program, clock: int,
                      answer: Package -> Answer)
    requires Lawful(b) && id < |b.deployments| && Grown(b, c, id, [Compiled]) && At(c, id, Compiled)
    requires b.deployments[id].sequence.None?
    ensures var v := Moved(c, id, SimulationVerified, NOTHING_NEW);
      var (after, result) := Ship(env, v, id, task, m, p, clock, answer);
      Grown(b, after, id, AfterValidation(result.gate)) && result.id == Some(id) && result.package.Some?
      && result.gate == (if result.accepted then Through else AtDelivery)
      && Issues(env, b, task, m, p, clock, result.package.value)
      && after.deployments[id].sequence == Some(result.package.value.sequence)
  {
    var v := Moved(c, id, SimulationVerified, NOTHING_NEW);
    MoveGrows(c, id, SimulationVerified, NOTHING_NEW);
    MovedIsAt(c, id, SimulationVerified, NOTHING_NEW);
    ShipAfterGrowth(env, b, c, v, id, task, m, p, clock, answer);
  }

  lemma ShipAfterGrowth(env: Environment, b: Book, c: Book, v: Book, id: nat, task: Task, m: Manifest, p: Program,
                        clock: int, answer: Package -> Answer)
    requires id < |b.deployments| && b.deployments[id].sequence.None? && At(v, id, SimulationVerified)
    requires Grown(b, c, id, [Compiled]) && Grown(c, v, id, [SimulationVerified])
    ensures var (after, result) := Ship(env, v, id, task, m, p, clock, answer);
      Grown(b, after, id, AfterValidation(result.gate)) && result.id == Some(id) && result.package.Some?
      && result.gate == (if result.accepted then Through else AtDelivery)
      && Issues(env, b, task, m, p, clock, result.package.value)
      && after.deployments[id].sequence == Some(result.package.value.sequence)
  {
    var (after, result) := Ship(env, v, id, task, m, p, clock, answer);
    ShipGrows(env, v, id, task, m, p, clock, answer);
    NextAfterGrowth(env, b, c, v, id, task, m, p, clock);
    FourGrow(b, c, v, after, id, if result.accepted then AcceptedByDevice else Rejected);
  }

  lemma NextAfterGrowth(env: Environment, b: Book, c: Book, v: Book, id: nat, task: Task, m: Manifest, p: Program,
                        clock: int)
    requires id < |b.deployments| && b.deployments[id].sequence.None?
    requires Grown(b, c, id, [Compiled]) && Grown(c, v, id, [SimulationVerified])
    ensures Issues(env, b, task, m, p, clock, IssuedPackage(env, v, task, m, p, clock))
  {
    NextIsAbove(env, b, v, id, task, m, p, clock);
  }

  lemma FourGrow(b: Book, c: Book, v: Book, after: Book, id: nat, last: Stage)
    requires id < |b.deployments| && Grown(b, c, id, [Compiled]) && Grown(c, v, id, [SimulationVerified])
    requires Grown(v, after, id, [Signed, DeliveryAttempted, last])
    ensures Grown(b, after, id, [Compiled, SimulationVerified, Signed, DeliveryAttempted, last])
  {
    GrowthAdds(b, c, v, id, [Compiled], [SimulationVerified]);
    GrowthAdds(b, v, after, id, [Compiled] + [SimulationVerified], [Signed, DeliveryAttempted, last]);
    assert [Compiled] + [SimulationVerified] + [Signed, DeliveryAttempted, last]
        == [Compiled, SimulationVerified, Signed, DeliveryAttempted, last];
  }

  // ----- The whole run -----

  /** Where a run ends. */
  ghost function EndsAt(env: Environment, b: Book, task: Task, halted: bool, proposal: Option<Manifest>, accepted: bool): Gate
    requires proposal.Some? ==> proposal.value.controlPeriodSeconds > 0.0
  {
    if halted then AtHalt
    else if task.contextTrigger
         && exists i :: 0 <= i < |b.deployments| && LiveFor(b.deployments[i], task.deviceId, task.event) then AtDuplicate
    else if proposal.None? then AtProposal
    else if !Passes(env, task, proposal.value) then AtValidation
    else if CompileFor(env, task, proposal.value).None? then AtCompilation
    else if !env.verified(task, CompileFor(env, task, proposal.value).value) then AtVerification
    else if !accepted then AtDelivery
    else Through
  }

  /** The history a run leaves, by the gate it ended at. */
  function Trail(gate: Gate): seq<Stage> {
    match gate
    case AtHalt => []
    case AtDuplicate => []
    case AtProposal => [Proposed, Rejected]
    case AtValidation => [Proposed, Rejected]
    case AtCompilation => LINE[..2] + [Rejected]
    case AtVerification => LINE[..3] + [Rejected]
    case AtDelivery => LINE[..6] + [Rejected]
    case Through => LINE[..7]
  }

  predicate Signs(gate: Gate) { gate.AtDelivery? || gate.Through? }

  /** A run that opened a deployment: its history says exactly which gate stopped it, and a package was
      signed if and only if every gate before delivery let it through. */
  ghost predicate Tells(env: Environment, b: Book, after: Book, task: Task, proposal: Option<Manifest>, clock: int,
                        result: Report)
    requires proposal.Some? ==> proposal.value.controlPeriodSeconds > 0.0
  {
    var id := |b.deployments|;
    && result.id == Some(id) && Lawful(after)
    && |after.deployments| == id + 1 && after.deployments[..id] == b.deployments
    && after.deployments[id].deviceId == task.deviceId && after.deployments[id].event == task.event
    && History(after.transitions, id) == Trail(result.gate)
    && (forall other :: 0 <= other < id ==> History(after.transitions, other) == History(b.transitions, other))
    && (result.package.Some? <==> Signs(result.gate))
    && (result.package.Some? ==>
          && proposal.Some? && CompileFor(env, task, proposal.value).Some?
          && Issues(env, b, task, proposal.value, CompileFor(env, task, proposal.value).value, clock,
                    result.package.value)
          && after.deployments[id].sequence == Some(result.package.value.sequence))
  }

  lemma TrailIs(gate: Gate)
    requires gate in {AtCompilation, AtVerification, AtDelivery, Through}
    ensures [Proposed, ManifestValidated] + AfterValidation(gate) == Trail(gate)
  {
  }

  lemma DroppedRun(env: Environment, b: Book, task: Task, proposal: Option<Manifest>, clock: int, gate: Gate)
    requires Lawful(b) && (proposal.Some? ==> proposal.value.controlPeriodSeconds > 0.0)
    requires gate.AtProposal? || gate.AtValidation?
    ensures var id := |b.deployments|;
      var proposed := Opened(b, task.deviceId, task.event);
      && MayMove(proposed, id, Rejected)
      && Tells(env, b, Drop(proposed, id), task, proposal, clock, Report(gate, Some(id), None, false))
  {
    OpeningIsLawful(b, task.deviceId, task.event);
    MoveGrows(Opened(b, task.deviceId, task.event), |b.deployments|, Rejected, NOTHING_NEW);
  }

  /** A deployment opened and then grown tells the whole story. */
  lemma GrownTells(b: Book, after: Book, task: Task, gate: Gate)
    requires Lawful(b) && gate in {AtCompilation, AtVerification, AtDelivery, Through}
    requires Grown(Opened(b, task.deviceId, task.event), after, |b.deployments|,
                   [ManifestValidated] + AfterValidation(gate))
    ensures Lawful(after) && |after.deployments| == |b.deployments| + 1
    ensures after.deployments[..|b.deployments|] == b.deployments
    ensures after.deployments[|b.deployments|].deviceId == task.deviceId
    ensures after.deployments[|b.deployments|].event == task.event
    ensures History(after.transitions, |b.deployments|) == Trail(gate)
    ensures forall other :: 0 <= other < |b.deployments| ==>
      History(after.transitions, other) == History(b.transitions, other)
  {
    OpeningIsLawful(b, task.deviceId, task.event);
    TrailIs(gate);
    assert [Proposed] + ([ManifestValidated] + AfterValidation(gate)) == Trail(gate);
  }

  lemma IssuesFromEarlier(env: Environment, b: Book, v: Book, task: Task, m: Manifest, p: Program, clock: int,
                          package: Package)
    requires |v.deployments| >= |b.deployments|
    requires forall i :: 0 <= i < |b.deployments| ==> v.deployments[i] == b.deployments[i]
    requires Issues(env, v, task, m, p, clock, package)
    ensures Issues(env, b, task, m, p, clock, package)
  {
  }

  function Validated(env: Environment, b: Book, task: Task, m: Manifest): Book {
    Moved(Opened(b, task.deviceId, task.event), |b.deployments|, ManifestValidated,
          Facts(None, None, Some(env.hash(m)), None))
  }

  lemma OutcomeTells(env: Environment, b: Book, task: Task, m: Manifest, clock: int, after: Book, result: Report)
    requires Lawful(b) && m.controlPeriodSeconds > 0.0
    requires Outcome(env, Validated(env, b, task, m), |b.deployments|, task, m, CompileFor(env, task, m), clock, after,
                     result)
    ensures Tells(env, b, after, task, Some(m), clock, result)
  {
    var id, proposed, validated := |b.deployments|, Opened(b, task.deviceId, task.event), Validated(env, b, task, m);
    OpeningIsLawful(b, task.deviceId, task.event);
    MoveGrows(proposed, id, ManifestValidated, Facts(None, None, Some(env.hash(m)), None));
    GrowthAdds(proposed, validated, after, id, [ManifestValidated], AfterValidation(result.gate));
    GrownTells(b, after, task, result.gate);
    if result.package.Some? {
      IssuesFromEarlier(env, b, validated, task, m, CompileFor(env, task, m).value, clock, result.package.value);
    }
  }

  lemma ValidatedIsLawful(env: Environment, b: Book, task: Task, m: Manifest)
    requires Lawful(b)
    ensures Lawful(Validated(env, b, task, m))
  {
    OpeningIsLawful(b, task.deviceId, task.event);
    MoveGrows(Opened(b, task.deviceId, task.event), |b.deployments|, ManifestValidated,
              Facts(None, None, Some(env.hash(m)), None));
  }

  /** Gate order, for every run: the gates are tried in one order, the first that fails is the one the
      ledger names, nothing is signed before validation, compilation and verification have passed, and
      no other deployment is touched. */
  lemma {:induction false} GatesAreInOrder(env: Environment, b: Book, task: Task, halted: bool, proposal: Option<Manifest>,
                                           clock: int, answer: Package -> Answer)
    requires Lawful(b) && (proposal.Some? ==> proposal.value.controlPeriodSeconds > 0.0)
    ensures var (after, result) := Run(env, b, task, halted, proposal, clock, answer);
      && result.gate == EndsAt(env, b, task, halted, proposal, result.accepted)
      && (result.gate.AtHalt? || result.gate.AtDuplicate? ==> after == b && result.id.None? && result.package.None?)
      && (!result.gate.AtHalt? && !result.gate.AtDuplicate? ==>
            Tells(env, b, after, task, proposal, clock, result))
  {
    var live := exists i :: 0 <= i < |b.deployments| && LiveFor(b.deployments[i], task.deviceId, task.event);
    if !halted && !(task.contextTrigger && live) {
      if proposal.None? {
        DroppedRun(env, b, task, proposal, clock, AtProposal);
      } else if !Passes(env, task, proposal.value) {
        DroppedRun(env, b, task, proposal, clock, AtValidation);
      } else {
        PassedRun(env, b, task, proposal.value, clock, answer);
      }
    }
  }

  lemma PassedRun(env: Environment, b: Book, task: Task, m: Manifest, clock: int, answer: Package -> Answer)
    requires Lawful(b) && m.controlPeriodSeconds > 0.0
    ensures var program := CompileFor(env, task, m);
      var (after, result) := Proceed(env, Validated(env, b, task, m), |b.deployments|, task, m, program, clock, answer);
      && Tells(env, b, after, task, Some(m), clock, result)
      && result.gate == (if program.None? then AtCompilation
                         else if !env.verified(task, program.value) then AtVerification
                         else if result.accepted then Through else AtDelivery)
  {
    var id, program := |b.deployments|, CompileFor(env, task, m);
    var (after, result) := Proceed(env, Validated(env, b, task, m), id, task, m, program, clock, answer);
    ValidatedIsLawful(env, b, task, m);
    CompileGrows(env, Validated(env, b, task, m), id, task, m, program, clock, answer);
    OutcomeTells(env, b, task, m, clock, after, result);
  }

  // ----- What is recorded along the way -----

  /** The hashes, the number and the lease that a deployment carries, by the gate its run ended at: each is
      there from the gate that established it on, and not before. */
  ghost predicate Carries(env: Environment, d: Deployment, m: Option<Manifest>, p: Option<Program>, result: Report) {
    && d.manifestHash == (if m.Some? && result.gate !in {AtProposal, AtValidation} then Some(env.hash(m.value)) else None)
    && d.artifactHash == (if p.Some? && result.gate !in {AtProposal, AtValidation, AtCompilation}
                          then Some(env.crypto.artifactHash(p.value)) else None)
    && d.sequence == (if result.package.Some? then Some(result.package.value.sequence) else None)
    && d.leaseSeconds == (if result.package.Some? && m.Some? then Some(m.value.maximumDurationSeconds) else None)
    && (result.package.Some? ==> p.Some? && result.package.value.artifact == p.value)
  }

  lemma ShipRecords(env: Environment, b: Book, id: nat, task: Task, m: Manifest, p: Program, clock: int,
                    answer: Package -> Answer)
    requires At(b, id, SimulationVerified)
    ensures var (after, result) := Ship(env, b, id, task, m, p, clock, answer);
      && |after.deployments| == |b.deployments| && result.package.Some?
      && result.package.value.artifact == p
      && after.deployments[id] == b.deployments[id].(
           stage := after.deployments[id].stage, sequence := Some(result.package.value.sequence),
           leaseSeconds := Some(m.maximumDurationSeconds))
  {
  }

  lemma ProceedRecords(env: Environment, b: Book, id: nat, task: Task, m: Manifest, program: Option<Program>, clock: int,
                       answer: Package -> Answer)
    requires At(b, id, ManifestValidated) && b.deployments[id].artifactHash.None?
    requires b.deployments[id].manifestHash == Some(env.hash(m))
    requires b.deployments[id].sequence.None? && b.deployments[id].leaseSeconds.None?
    ensures var (after, result) := Proceed(env, b, id, task, m, program, clock, answer);
      && |after.deployments| == |b.deployments| && result.gate !in {AtHalt, AtDuplicate, AtProposal, AtValidation}
      && (program.None? <==> result.gate == AtCompilation)
      && Carries(env, after.deployments[id], Some(m), program, result)
  {
    if program.Some? && env.verified(task, program.value) {
      var c := Moved(b, id, Compiled, CompiledFacts(env, program.value));
      ShipRecords(env, Moved(c, id, SimulationVerified, NOTHING_NEW), id, task, m, program.value, clock, answer);
    }
  }

  /** A run records what it knows when it knows it. */
  lemma RunsKeepRecords(env: Environment, b: Book, task: Task, halted: bool, proposal: Option<Manifest>, clock: int,
                        answer: Package -> Answer)
    requires proposal.Some? ==> proposal.value.controlPeriodSeconds > 0.0
    ensures var (after, result) := Run(env, b, task, halted, proposal, clock, answer);
      result.id.Some? ==>
        && |after.deployments| == |b.deployments| + 1 && result.id == Some(|b.deployments|)
        && Carries(env, after.deployments[|b.deployments|], proposal,
                   if proposal.Some? then CompileFor(env, task, proposal.value) else None, result)
  {
    if !halted && proposal.Some? && Passes(env, task, proposal.value) {
      var proposed, m := Opened(b, task.deviceId, task.event), proposal.value;
      ProceedRecords(env, Moved(proposed, |b.deployments|, ManifestValidated, Facts(None, None, Some(env.hash(m)), None)),
                     |b.deployments|, task, m, CompileFor(env, task, m), clock, answer);
    }
  }

  /** A deployment stands in the way of another for the same device and situation exactly while it is on
      the device: accepted or active. */
  lemma OnlyWhatIsOnTheDeviceBlocks(d: Deployment, deviceId: string, event: string)
    ensures LiveFor(d, deviceId, event) <==>
      d.deviceId == deviceId && d.event == event && RolledBack in Next(d.stage)
  {
  }
}
