/** Server, link and device together. The link may lose, repeat, reorder and alter packages, and the
    server may be told anything about a delivery; only signatures cannot be made up. */
module Protocol {
  import opened Names
  import opened Manifests
  import opened Programs
  import opened Worlds
  import opened Harness
  import opened Slots
  import opened Packages
  import opened Devices
  import opened DeviceSlots
  import opened DeviceRuns
  import opened DeviceLeases
  import opened Runtime
  import opened Ledgers
  import opened PipelineProofs
  import opened Runs
  import P = Pipelines
  import Validator
  import CompilerProofs
  import Config

  // ----- What a tick leaves of the slots -----

  /** The same content, with the lease charged or taken away, never renewed. */
  predicate SameContent(before: SlotRecord, after: SlotRecord) {
    && after == before.(lease := after.lease)
    && (after.lease.Some? ==> before.lease.Some? && after.lease.value.duration == before.lease.value.duration)
  }

  predicate SameContents(before: DeviceState, after: DeviceState) {
    SameContent(before.a, after.a) && SameContent(before.b, after.b) && after.watermark == before.watermark
  }

  lemma RevertKeepsContents(fx: Fixture, d: Device)
    requires fx.setup.Valid() && d.state.Slot(d.state.lastKnownGood).artifact.Some?
    ensures SameContents(d.state, RevertLocal(fx, d).state)
  {
    RevertOutcome(fx, d);
  }

  lemma ChargeKeepsContents(fx: Fixture, d: Device, wall: real)
    requires fx.setup.Valid() && Coherent(d)
    ensures SameContents(d.state, ChargeLease(fx, d, wall).state)
  {
    if d.state.Running().lease.Some? {
      var charged := d.(state := Charged(d.state, d.plant.world.config.tickSeconds));
      ChargedIsFine(d.state, d.plant.world.config.tickSeconds);
      RevertKeepsContents(fx, charged);
    }
  }

  lemma CandidateFaultKeepsContents(fx: Fixture, d: Device)
    requires fx.setup.Valid() && Coherent(d) && d.state.status.Probation?
    ensures SameContents(d.state, HandleFault(fx, d).state)
  {
    RevertKeepsContents(
      fx, Save(d.(state := d.state.(failures := d.state.failures + 1, status := Slots.Failed))));
  }

  lemma FaultKeepsContents(fx: Fixture, d: Device)
    requires fx.setup.Valid() && Coherent(d)
    ensures SameContents(d.state, HandleFault(fx, d).state)
  {
    if d.state.status.Probation? {
      CandidateFaultKeepsContents(fx, d);
    } else {
      RevertKeepsContents(fx, Save(d.(state := d.state.(failures := d.state.failures + 1))));
    }
  }

  lemma ScoreKeepsContents(fx: Fixture, d: Device)
    requires fx.setup.Valid() && Coherent(d)
    ensures SameContents(d.state, ScoreProbation(fx, d).state)
  {
    if d.state.status.Probation? {
      RevertKeepsContents(fx, Save(d.(state := d.state.(status := Slots.Failed))));
    }
  }

  lemma TickKeepsContents(fx: Fixture, d: Device, draw: Draw, wall: real, crash: bool)
    requires fx.setup.Valid() && Coherent(d)
    ensures SameContents(d.state, Tick(fx, d, draw, wall, crash).state)
  {
    var policed := d.(plant := PolicyPhase(fx.setup, d.plant, draw));
    PolicyFrame(fx.setup, d.plant, draw);
    PolicyIsCoherent(fx, d, draw);
    ChargeIsCoherent(fx, policed, wall);
    ChargeKeepsContents(fx, policed, wall);
    var before := BeforeControl(fx, d, draw, wall);
    ControlIsCoherent(fx, before, crash);
    FaultKeepsContents(fx, Control(fx, before, crash).0);
    ScoreKeepsContents(fx, Control(fx, before, crash).0);
  }

  // ----- The system -----

  /** A package the pipeline has signed, and the deployment it signed it for. */
  datatype Issue = Issue(id: nat, package: Package)

  datatype System = System(book: Book, issued: seq<Issue>, device: Device, accepted: seq<Package>)

  datatype Move =
    | Serve(task: P.Task, halted: bool, proposal: Option<Manifest>, clock: int, answer: Package -> P.Answer)
    | Record(id: nat, to: Stage)
    | Arrive(package: Package, leaseWall: real, recordWall: real)
    | Act(h: Happening)

  ghost function Take(env: P.Environment, fx: Fixture, s: System, move: Move): System
    requires fx.setup.Valid()
  {
    match move
    case Serve(task, halted, proposal, clock, answer) =>
      if proposal.Some? && proposal.value.controlPeriodSeconds <= 0.0 then s
      else
        var (book, report) := P.Run(env, s.book, task, halted, proposal, clock, answer);
        s.(book := book,
           issued := if report.package.Some? then s.issued + [Issue(|s.book.deployments|, report.package.value)]
                     else s.issued)
    case Record(id, to) =>
      if to in {ActiveOnDevice, Reverted, RolledBack} && MayMove(s.book, id, to)
      then s.(book := Moved(s.book, id, to, NOTHING_NEW)) else s
    case Arrive(package, leaseWall, recordWall) =>
      s.(device := Install(fx, s.device, package, leaseWall, recordWall),
         accepted := if Judge(fx, s.device, package).None? then s.accepted + [package] else s.accepted)
    case Act(h) => if h.TickHappens? || h.RestartHappens? then s.(device := Do(fx, s.device, h)) else s
  }

  ghost function Taker(env: P.Environment, fx: Fixture): (System, Move) -> System
    requires fx.setup.Valid()
  {
    (s: System, move: Move) => Take(env, fx, s, move)
  }

  /** Whatever arrives correctly signed was signed by the pipeline. */
  predicate Genuine(fx: Fixture, s: System, move: Move) {
    move.Arrive? && fx.crypto.mac(fx.key, move.package.Payload()) == move.package.signature ==>
      exists i :: 0 <= i < |s.issued| && s.issued[i].package == move.package
  }

  ghost function Unforged(fx: Fixture): (System, Move) -> bool {
    (s: System, move: Move) => Genuine(fx, s, move)
  }

  /** Server and device share the key, and a device's schema is its own. */
  ghost predicate Matched(env: P.Environment, fx: Fixture) {
    && fx.setup.Valid() && env.crypto == fx.crypto && env.key == fx.key
    && forall deviceId :: env.schemaOf(deviceId).deviceId == deviceId
  }

  // ----- What is kept -----

  /** For the device and the situation of its deployment, some manifest was valid, compiled to the
      artifact, and the artifact was verified. */
  ghost predicate Earned(env: P.Environment, deviceId: string, event: string, artifact: Program) {
    exists task: P.Task, m: Manifest ::
      && task.deviceId == deviceId && task.event == event
      && m.controlPeriodSeconds > 0.0 && P.Passes(env, task, m)
      && P.CompileFor(env, task, m) == Some(artifact) && env.verified(task, artifact)
  }

  /** The deployment behind a package has gone through verification, signing and the attempt to deliver,
      in that order, and carries its number. */
  ghost predicate Certified(env: P.Environment, b: Book, issue: Issue) {
    && issue.id < |b.deployments|
    && b.deployments[issue.id].sequence == Some(issue.package.sequence)
    && b.deployments[issue.id].deviceId == issue.package.deviceId
    && |History(b.transitions, issue.id)| >= 6 && History(b.transitions, issue.id)[..6] == LINE[..6]
    && Earned(env, issue.package.deviceId, b.deployments[issue.id].event, issue.package.artifact)
    && issue.package.leaseSeconds == Some(issue.package.artifact.maximumDurationSeconds)
    && issue.package.sequence >= 1
  }

  /** A slot holds the factory image or what an issued package brought, leased no longer than it says. */
  predicate Backed(s: System, fx: Fixture, factory: Program, record: SlotRecord) {
    record.artifact.Some? ==>
      || (record.artifact == Some(factory) && record.lease.None?)
      || exists i :: 0 <= i < |s.issued| && Brought(s.issued[i].package, fx, record)
  }

  predicate Brought(package: Package, fx: Fixture, record: SlotRecord) {
    && package.deviceId == fx.deviceId
    && record.artifact == Some(package.artifact) && record.sequence == Some(package.sequence)
    && LeasePermitted(package.leaseSeconds)
    && (record.lease.Some? ==> package.leaseSeconds == Some(record.lease.value.duration))
  }

  /** Accepted packages were issued, in strictly increasing numbers up to the watermark. */
  predicate Rising(s: System, fx: Fixture) {
    && (forall i, j :: 0 <= i < j < |s.accepted| ==> s.accepted[i].sequence < s.accepted[j].sequence)
    && (forall i :: 0 <= i < |s.accepted| ==>
          s.accepted[i].sequence <= s.device.state.watermark && WasIssued(s, fx, s.accepted[i]))
    && (s.device.state.watermark == 0
        || (s.accepted != [] && s.accepted[|s.accepted| - 1].sequence == s.device.state.watermark))
  }

  predicate WasIssued(s: System, fx: Fixture, package: Package) {
    package.deviceId == fx.deviceId && exists i :: 0 <= i < |s.issued| && s.issued[i].package == package
  }

  ghost predicate Sound(env: P.Environment, fx: Fixture, factory: Program, s: System) {
    && Lawful(s.book) && Coherent(s.device)
    && AllCertified(env, s.book, s.issued)
    && Backed(s, fx, factory, s.device.state.a) && Backed(s, fx, factory, s.device.state.b)
    && Rising(s, fx)
  }

  lemma CertifiedElsewhere(env: P.Environment, b: Book, after: Book, issue: Issue)
    requires Certified(env, b, issue) && |after.deployments| >= |b.deployments|
    requires after.deployments[issue.id].sequence == b.deployments[issue.id].sequence
    requires after.deployments[issue.id].deviceId == b.deployments[issue.id].deviceId
    requires after.deployments[issue.id].event == b.deployments[issue.id].event
    requires History(b.transitions, issue.id) <= History(after.transitions, issue.id)
    ensures Certified(env, after, issue)
  {
  }

  /** A freshly signed package is certified. */
  lemma FreshIssueIsCertified(env: P.Environment, fx: Fixture, b: Book, after: Book, task: P.Task, m: Manifest, clock: int,
                              report: P.Report)
    requires Matched(env, fx) && m.controlPeriodSeconds > 0.0
    requires Tells(env, b, after, task, Some(m), clock, report) && report.package.Some?
    requires P.Passes(env, task, m) && P.CompileFor(env, task, m).Some?
    requires env.verified(task, P.CompileFor(env, task, m).value)
    ensures Certified(env, after, Issue(|b.deployments|, report.package.value))
  {
    var schema, p := env.schemaOf(task.deviceId), P.CompileFor(env, task, m).value;
    CompilerProofs.CompiledFrom(env.hash, m, env.registry, schema, p);
    assert !Validator.Justified(m, env.registry, schema, Validator.WrongDevice);
    assert report.package.value.deviceId == task.deviceId;
    assert P.CompileFor(env, task, m) == Some(p);
    assert Earned(env, task.deviceId, task.event, p);
    TrailStart(report.gate);
  }

  lemma TrailStart(gate: P.Gate)
    requires Signs(gate)
    ensures |Trail(gate)| >= 6 && Trail(gate)[..6] == LINE[..6]
  {
  }

  /** Nothing a device relies on is lost when more is issued or recorded. */
  lemma StillBacked(s: System, t: System, fx: Fixture, factory: Program, record: SlotRecord)
    requires Backed(s, fx, factory, record) && s.issued <= t.issued
    ensures Backed(t, fx, factory, record)
  {
    if record.artifact.Some? && !(record.artifact == Some(factory) && record.lease.None?) {
      var i :| 0 <= i < |s.issued| && Brought(s.issued[i].package, fx, record);
      assert t.issued[i] == s.issued[i];
    }
  }

  lemma StillRising(s: System, t: System, fx: Fixture)
    requires Rising(s, fx) && s.issued <= t.issued && t.accepted == s.accepted
    requires t.device.state.watermark == s.device.state.watermark
    ensures Rising(t, fx)
  {
    forall k | 0 <= k < |t.accepted|
      ensures WasIssued(t, fx, t.accepted[k])
    {
      assert WasIssued(s, fx, s.accepted[k]);
      var i :| 0 <= i < |s.issued| && s.issued[i].package == s.accepted[k];
      assert t.issued[i] == s.issued[i];
    }
  }

  ghost predicate AllCertified(env: P.Environment, b: Book, issued: seq<Issue>) {
    forall i :: 0 <= i < |issued| ==> Certified(env, b, issued[i])
  }

  /** Certificates survive any lawful change of the book that only adds. */
  lemma StillCertified(env: P.Environment, b: Book, after: Book, issued: seq<Issue>)
    requires AllCertified(env, b, issued) && |after.deployments| >= |b.deployments|
    requires forall id :: 0 <= id < |b.deployments| ==>
      && after.deployments[id].sequence == b.deployments[id].sequence
      && after.deployments[id].deviceId == b.deployments[id].deviceId
      && after.deployments[id].event == b.deployments[id].event
      && History(b.transitions, id) <= History(after.transitions, id)
    ensures AllCertified(env, after, issued)
  {
    forall i | 0 <= i < |issued|
      ensures Certified(env, after, issued[i])
    {
      CertifiedElsewhere(env, b, after, issued[i]);
    }
  }

  lemma ServingIsSound(env: P.Environment, fx: Fixture, factory: Program, s: System, move: Move)
    requires Matched(env, fx) && Sound(env, fx, factory, s) && move.Serve?
    ensures Sound(env, fx, factory, Take(env, fx, s, move))
  {
    if !(move.proposal.Some? && move.proposal.value.controlPeriodSeconds <= 0.0) {
      var (book, report) := P.Run(env, s.book, move.task, move.halted, move.proposal, move.clock, move.answer);
      GatesAreInOrder(env, s.book, move.task, move.halted, move.proposal, move.clock, move.answer);
      ServedIsSound(env, fx, factory, s, move, book, report, Take(env, fx, s, move));
    }
  }

  lemma ServedCertificates(env: P.Environment, fx: Fixture, b: Book, issued: seq<Issue>, move: Move, book: Book,
                           report: P.Report)
    requires Matched(env, fx) && AllCertified(env, b, issued) && move.Serve?
    requires move.proposal.Some? ==> move.proposal.value.controlPeriodSeconds > 0.0
    requires report.gate == EndsAt(env, b, move.task, move.halted, move.proposal, report.accepted)
    requires report.gate.AtHalt? || report.gate.AtDuplicate? ==> book == b && report.package.None?
    requires !report.gate.AtHalt? && !report.gate.AtDuplicate? ==>
      Tells(env, b, book, move.task, move.proposal, move.clock, report)
    ensures AllCertified(env, book, if report.package.Some?
                                    then issued + [Issue(|b.deployments|, report.package.value)] else issued)
  {
    assert !report.gate.AtHalt? && !report.gate.AtDuplicate? ==>
      forall id :: 0 <= id < |b.deployments| ==> book.deployments[..|b.deployments|][id] == book.deployments[id];
    StillCertified(env, b, book, issued);
    if report.package.Some? {
      FreshIssueIsCertified(env, fx, b, book, move.task, move.proposal.value, move.clock, report);
    }
  }

  lemma ServedIsSound(env: P.Environment, fx: Fixture, factory: Program, s: System, move: Move, book: Book,
                      report: P.Report, t: System)
    requires Matched(env, fx) && Sound(env, fx, factory, s) && move.Serve?
    requires move.proposal.Some? ==> move.proposal.value.controlPeriodSeconds > 0.0
    requires report.gate == EndsAt(env, s.book, move.task, move.halted, move.proposal, report.accepted)
    requires report.gate.AtHalt? || report.gate.AtDuplicate? ==> book == s.book && report.package.None?
    requires !report.gate.AtHalt? && !report.gate.AtDuplicate? ==>
      Tells(env, s.book, book, move.task, move.proposal, move.clock, report)
    requires t == s.(book := book,
                     issued := if report.package.Some?
                               then s.issued + [Issue(|s.book.deployments|, report.package.value)] else s.issued)
    ensures Sound(env, fx, factory, t)
  {
    ServedCertificates(env, fx, s.book, s.issued, move, book, report);
    StillBacked(s, t, fx, factory, s.device.state.a);
    StillBacked(s, t, fx, factory, s.device.state.b);
    StillRising(s, t, fx);
  }

  lemma MovingCertified(env: P.Environment, b: Book, id: nat, to: Stage, issued: seq<Issue>)
    requires Lawful(b) && AllCertified(env, b, issued) && MayMove(b, id, to)
    ensures Lawful(Moved(b, id, to, NOTHING_NEW)) && AllCertified(env, Moved(b, id, to, NOTHING_NEW), issued)
  {
    MovingIsLawful(b, id, to, NOTHING_NEW);
    StillCertified(env, b, Moved(b, id, to, NOTHING_NEW), issued);
  }

  lemma RecordingIsSound(env: P.Environment, fx: Fixture, factory: Program, s: System, move: Move)
    requires Matched(env, fx) && Sound(env, fx, factory, s) && move.Record?
    ensures Sound(env, fx, factory, Take(env, fx, s, move))
  {
    var t := Take(env, fx, s, move);
    if MayMove(s.book, move.id, move.to) {
      MovingCertified(env, s.book, move.id, move.to, s.issued);
    }
    SameDeviceIsSound(env, fx, factory, s, t);
  }

  lemma SameDeviceIsSound(env: P.Environment, fx: Fixture, factory: Program, s: System, t: System)
    requires Sound(env, fx, factory, s) && t == s.(book := t.book)
    requires Lawful(t.book) && AllCertified(env, t.book, t.issued)
    ensures Sound(env, fx, factory, t)
  {
    StillBacked(s, t, fx, factory, s.device.state.a);
    StillBacked(s, t, fx, factory, s.device.state.b);
    StillRising(s, t, fx);
  }

  /** What acceptance says of a package, and does to the device. */
  lemma AcceptanceMeans(fx: Fixture, d: Device, package: Package, leaseWall: real, recordWall: real)
    requires Judge(fx, d, package).None?
    ensures package.deviceId == fx.deviceId && LeasePermitted(package.leaseSeconds)
    ensures package.sequence > d.state.watermark
    ensures fx.crypto.mac(fx.key, package.Payload()) == package.signature
    ensures Install(fx, d, package, leaseWall, recordWall).state == StagePackage(d.state, package, leaseWall, recordWall)
  {
  }

  lemma ArrivalIsSound(env: P.Environment, fx: Fixture, factory: Program, s: System, move: Move)
    requires Matched(env, fx) && Sound(env, fx, factory, s) && move.Arrive? && Genuine(fx, s, move)
    ensures Sound(env, fx, factory, Take(env, fx, s, move))
  {
    if Judge(fx, s.device, move.package).None? {
      AcceptanceMeans(fx, s.device, move.package, move.leaseWall, move.recordWall);
      InstallIsCoherent(fx, s.device, move.package, move.leaseWall, move.recordWall);
      AcceptedIsSound(env, fx, factory, s, move.package, move.leaseWall, move.recordWall, Take(env, fx, s, move));
    }
  }

  lemma AcceptedIsSound(env: P.Environment, fx: Fixture, factory: Program, s: System, package: Package, leaseWall: real,
                        recordWall: real, t: System)
    requires Sound(env, fx, factory, s) && Coherent(t.device)
    requires package.deviceId == fx.deviceId && LeasePermitted(package.leaseSeconds)
    requires package.sequence > s.device.state.watermark
    requires exists i :: 0 <= i < |s.issued| && s.issued[i].package == package
    requires t.book == s.book && t.issued == s.issued && t.accepted == s.accepted + [package]
    requires t.device.state == StagePackage(s.device.state, package, leaseWall, recordWall)
    ensures Sound(env, fx, factory, t)
  {
    StagedIsBacked(fx, s, factory, package, leaseWall, recordWall, t);
    AcceptanceRises(s, t, fx, package);
  }

  /** Everything in the slots after staging an issued package is backed. */
  lemma StagedIsBacked(fx: Fixture, s: System, factory: Program, package: Package, leaseWall: real, recordWall: real,
                       t: System)
    requires Backed(s, fx, factory, s.device.state.a) && Backed(s, fx, factory, s.device.state.b)
    requires package.deviceId == fx.deviceId && LeasePermitted(package.leaseSeconds)
    requires exists i :: 0 <= i < |s.issued| && s.issued[i].package == package
    requires t.issued == s.issued
    ensures var staged := StagePackage(s.device.state, package, leaseWall, recordWall);
      Backed(t, fx, factory, staged.a) && Backed(t, fx, factory, staged.b)
  {
    var staged := StagePackage(s.device.state, package, leaseWall, recordWall);
    var i :| 0 <= i < |s.issued| && s.issued[i].package == package;
    assert Brought(t.issued[i].package, fx, staged.Slot(s.device.state.InactiveSlot()));
    StillBacked(s, t, fx, factory, s.device.state.a);
    StillBacked(s, t, fx, factory, s.device.state.b);
  }

  lemma AcceptanceRises(s: System, t: System, fx: Fixture, package: Package)
    requires Rising(s, fx) && WasIssued(s, fx, package) && package.sequence > s.device.state.watermark
    requires t.issued == s.issued && t.accepted == s.accepted + [package]
    requires t.device.state.watermark == package.sequence
    ensures Rising(t, fx)
  {
    forall k | 0 <= k < |t.accepted|
      ensures WasIssued(t, fx, t.accepted[k])
    {
      if k < |s.accepted| { assert WasIssued(s, fx, s.accepted[k]); }
    }
  }

  lemma SameIsBacked(s: System, t: System, fx: Fixture, factory: Program, before: SlotRecord, after: SlotRecord)
    requires Backed(s, fx, factory, before) && SameContent(before, after) && t.issued == s.issued
    ensures Backed(t, fx, factory, after)
  {
    if before.artifact.Some? && !(before.artifact == Some(factory) && before.lease.None?) {
      var i :| 0 <= i < |s.issued| && Brought(s.issued[i].package, fx, before);
      assert Brought(t.issued[i].package, fx, after);
    }
  }

  lemma ActingIsSound(env: P.Environment, fx: Fixture, factory: Program, s: System, move: Move)
    requires Matched(env, fx) && Sound(env, fx, factory, s) && move.Act?
    ensures Sound(env, fx, factory, Take(env, fx, s, move))
  {
    var h, t := move.h, Take(env, fx, s, move);
    if h.TickHappens? || h.RestartHappens? {
      HappeningIsCoherent(fx, s.device, h);
      if h.TickHappens? {
        TickKeepsContents(fx, s.device, h.draw, h.wall, h.crash);
      }
      SameIsBacked(s, t, fx, factory, s.device.state.a, t.device.state.a);
      SameIsBacked(s, t, fx, factory, s.device.state.b, t.device.state.b);
      StillRising(s, t, fx);
    }
  }

  lemma MoveIsSound(env: P.Environment, fx: Fixture, factory: Program, s: System, move: Move)
    requires Matched(env, fx) && Sound(env, fx, factory, s) && Genuine(fx, s, move)
    ensures Sound(env, fx, factory, Take(env, fx, s, move))
  {
    match move
    case Serve(_, _, _, _, _) => ServingIsSound(env, fx, factory, s, move);
    case Record(_, _) => RecordingIsSound(env, fx, factory, s, move);
    case Arrive(_, _, _) => ArrivalIsSound(env, fx, factory, s, move);
    case Act(_) => ActingIsSound(env, fx, factory, s, move);
  }

  // ----- Runs -----

  /** A provisioned device, a ledger with nothing in it. */
  function Begin(fx: Fixture, world: World, factory: Program, wall: real): System {
    System(Book([], []), [], Provision(fx, Boot(world, BLANK), factory, wall), [])
  }

  lemma BeginsSound(env: P.Environment, fx: Fixture, world: World, factory: Program, wall: real)
    requires Matched(env, fx) && world.config.tickSeconds > 0.0
    ensures Sound(env, fx, factory, Begin(fx, world, factory, wall))
  {
    AlwaysCoherent(fx, world, factory, wall, []);
  }

  ghost predicate Reached(env: P.Environment, fx: Fixture, factory: Program, s: System) {
    Sound(env, fx, factory, s) && InStep(s.device)
  }

  lemma MoveIsInStep(env: P.Environment, fx: Fixture, s: System, move: Move)
    requires fx.setup.Valid() && InStep(s.device)
    ensures InStep(Take(env, fx, s, move).device)
  {
    match move
    case Arrive(package, leaseWall, recordWall) =>
      HappeningLeads(fx, s.device, PackageArrives(package, leaseWall, recordWall));
    case Act(h) => HappeningLeads(fx, s.device, h);
    case _ =>
  }

  lemma {:induction false} AlwaysSound(env: P.Environment, fx: Fixture, world: World, factory: Program, wall: real,
                                       moves: seq<Move>)
    requires Matched(env, fx) && world.config.tickSeconds > 0.0 && OnTime(world)
    requires Throughout(Taker(env, fx), Unforged(fx), Begin(fx, world, factory, wall), moves)
    ensures Reached(env, fx, factory, Iterate(Taker(env, fx), Begin(fx, world, factory, wall), moves))
  {
    var start, inv := Begin(fx, world, factory, wall), (s: System) => Reached(env, fx, factory, s);
    forall s, move {:trigger Unforged(fx)(s, move)} | inv(s) && Unforged(fx)(s, move)
      ensures inv(Taker(env, fx)(s, move))
    {
      MoveIsSound(env, fx, factory, s, move);
      MoveIsInStep(env, fx, s, move);
    }
    BeginsSound(env, fx, world, factory, wall);
    AlwaysInStep(fx, world, factory, wall, []);
    Carry(Taker(env, fx), inv, Unforged(fx), Unforged(fx), start, moves);
  }

  /** Even without the guard: whatever the link and the clocks do, the program a device is running is the
      factory image or was signed for a deployment whose ledger history begins with validation,
      compilation, verification, signing and the attempt to deliver, in that order. Its lease, if it
      still has one, is its own lifetime and within the ceiling; a revert that lands on a morph has
      taken it away. */
  lemma VerifiedWithoutGuard(env: P.Environment, fx: Fixture, factory: Program, s: System)
    requires Matched(env, fx) && Reached(env, fx, factory, s)
    ensures var p := s.device.controller.value.program;
      var lease := s.device.state.Running().lease;
      || (p == factory && lease.None?)
      || exists i :: 0 <= i < |s.issued| && s.issued[i].package.artifact == p && Certified(env, s.book, s.issued[i])
           && (lease.Some? ==> lease.value.duration == p.maximumDurationSeconds
                               && 0 < lease.value.duration <= Config.MAX_LEASE_SECONDS)
  {
    var record := s.device.state.Running();
    assert Backed(s, fx, factory, record);
    if !(record.artifact == Some(factory) && record.lease.None?) {
      var i :| 0 <= i < |s.issued| && Brought(s.issued[i].package, fx, record);
      assert Certified(env, s.book, s.issued[i]);
    }
  }

  /** A morph that still has its lease does not yield by itself: the lease has sent it home first. */
  lemma LeasedMorphNeverYields(env: P.Environment, fx: Fixture, factory: Program, s: System, draw: Draw, wall: real)
    requires Matched(env, fx) && Reached(env, fx, factory, s)
    ensures var before := BeforeControl(fx, s.device, draw, wall);
      before.state.Running().lease.Some? ==> !Elapsed(before.controller.value, before.plant.world.time)
  {
    var before := BeforeControl(fx, s.device, draw, wall);
    var policed := s.device.(plant := PolicyPhase(fx.setup, s.device.plant, draw));
    PolicyIsCoherent(fx, s.device, draw);
    ChargeKeepsContents(fx, policed, wall);
    ChargeIsCoherent(fx, policed, wall);
    if before.state.Running().lease.Some? {
      LeaseIsLifetime(env, fx, factory, s, before);
      LeaseEndsBeforeYield(fx, s.device, draw, wall);
    }
  }

  lemma LeaseIsLifetime(env: P.Environment, fx: Fixture, factory: Program, s: System, d: Device)
    requires Matched(env, fx) && Sound(env, fx, factory, s)
    requires Coherent(d) && SameContents(s.device.state, d.state) && d.state.Running().lease.Some?
    ensures d.state.Running().lease.value.duration == d.controller.value.program.maximumDurationSeconds > 0
  {
    var t := s.(device := d);
    SameIsBacked(s, t, fx, factory, s.device.state.a, d.state.a);
    SameIsBacked(s, t, fx, factory, s.device.state.b, d.state.b);
    LeasedAsCertified(env, t, fx, factory, d.state.Running());
  }

  lemma LeasedAsCertified(env: P.Environment, s: System, fx: Fixture, factory: Program, record: SlotRecord)
    requires AllCertified(env, s.book, s.issued) && Backed(s, fx, factory, record)
    requires record.lease.Some? && record.artifact.Some?
    ensures record.lease.value.duration == record.artifact.value.maximumDurationSeconds > 0
  {
    var i :| 0 <= i < |s.issued| && Brought(s.issued[i].package, fx, record);
    assert Certified(env, s.book, s.issued[i]);
  }

  // ----- Under the guard -----

  /** Signed by the pipeline if it is signed at all, and accepted only while the active slot is the
      last-known-good one. */
  predicate Careful(fx: Fixture, s: System, move: Move) {
    && Genuine(fx, s, move)
    && (move.Arrive? && Judge(fx, s.device, move.package).None? ==>
          s.device.state.active == s.device.state.lastKnownGood)
  }

  ghost function Carefully(fx: Fixture): (System, Move) -> bool {
    (s: System, move: Move) => Careful(fx, s, move)
  }

  /** Besides the invariant of every run: the factory image underneath, and a lease on whatever runs on
      top of it. */
  ghost predicate Tied(env: P.Environment, fx: Fixture, factory: Program, image: SlotRecord, s: System) {
    && Reached(env, fx, factory, s) && Grounded(s.device.state, image) && image.artifact == Some(factory)
    && Tethered(s.device.state)
  }

  lemma ArrivalIsTied(env: P.Environment, fx: Fixture, factory: Program, image: SlotRecord, s: System, move: Move)
    requires Matched(env, fx) && Tied(env, fx, factory, image, s) && move.Arrive? && Careful(fx, s, move)
    ensures Grounded(Take(env, fx, s, move).device.state, image) && Tethered(Take(env, fx, s, move).device.state)
  {
    if Judge(fx, s.device, move.package).None? {
      AcceptanceMeans(fx, s.device, move.package, move.leaseWall, move.recordWall);
      var i :| 0 <= i < |s.issued| && s.issued[i].package == move.package;
      assert Certified(env, s.book, s.issued[i]);
    }
    GuardedInstallIsGrounded(fx, s.device, move.package, move.leaseWall, move.recordWall, image);
    InstallIsTethered(fx, s.device, move.package, move.leaseWall, move.recordWall, image);
  }

  lemma ActIsTied(env: P.Environment, fx: Fixture, factory: Program, image: SlotRecord, s: System, move: Move)
    requires Matched(env, fx) && Tied(env, fx, factory, image, s) && move.Act?
    ensures Grounded(Take(env, fx, s, move).device.state, image) && Tethered(Take(env, fx, s, move).device.state)
  {
    if move.h.TickHappens? {
      StepIsGrounded(fx, s.device, move.h, image);
      TickIsTethered(fx, s.device, move.h.draw, move.h.wall, move.h.crash, image);
    }
  }

  lemma MoveIsTied(env: P.Environment, fx: Fixture, factory: Program, image: SlotRecord, s: System, move: Move)
    requires Matched(env, fx) && Tied(env, fx, factory, image, s) && Careful(fx, s, move)
    ensures Tied(env, fx, factory, image, Take(env, fx, s, move))
  {
    MoveIsSound(env, fx, factory, s, move);
    MoveIsInStep(env, fx, s, move);
    match move
    case Arrive(_, _, _) => ArrivalIsTied(env, fx, factory, image, s, move);
    case Act(_) => ActIsTied(env, fx, factory, image, s, move);
    case _ =>
  }

  ghost predicate KeepsTied(step: (System, Move) -> System, good: (System, Move) -> bool, env: P.Environment, fx: Fixture,
                            factory: Program, image: SlotRecord)
  {
    forall s, move {:trigger good(s, move)} :: Tied(env, fx, factory, image, s) && good(s, move) ==>
      Tied(env, fx, factory, image, step(s, move))
  }

  lemma SystemKeepsTied(env: P.Environment, fx: Fixture, factory: Program, image: SlotRecord)
    requires Matched(env, fx)
    ensures KeepsTied(Taker(env, fx), Carefully(fx), env, fx, factory, image)
  {
    forall s, move {:trigger Carefully(fx)(s, move)} |
      Tied(env, fx, factory, image, s) && Carefully(fx)(s, move)
      ensures Tied(env, fx, factory, image, Taker(env, fx)(s, move))
    {
      MoveIsTied(env, fx, factory, image, s, move);
    }
  }

  lemma {:induction false} TiedRun(step: (System, Move) -> System, good: (System, Move) -> bool, env: P.Environment,
                                   fx: Fixture, factory: Program, image: SlotRecord, s: System, moves: seq<Move>)
    requires KeepsTied(step, good, env, fx, factory, image) && Tied(env, fx, factory, image, s)
    requires Throughout(step, good, s, moves)
    ensures Tied(env, fx, factory, image, Iterate(step, s, moves))
  {
    Carry(step, (t: System) => Tied(env, fx, factory, image, t), good, (t: System, move: Move) => true, s, moves);
  }

  lemma BeginsTied(env: P.Environment, fx: Fixture, world: World, factory: Program, wall: real)
    requires Matched(env, fx) && world.config.tickSeconds > 0.0 && OnTime(world)
    ensures var start := Begin(fx, world, factory, wall);
      Tied(env, fx, factory, start.device.state.a, start)
  {
    BeginsSound(env, fx, world, factory, wall);
    AlwaysInStep(fx, world, factory, wall, []);
  }

  /** The invariant over every guarded run from provisioning on. */
  lemma {:induction false} AlwaysTied(env: P.Environment, fx: Fixture, world: World, factory: Program, wall: real,
                                      moves: seq<Move>)
    requires Matched(env, fx) && world.config.tickSeconds > 0.0 && OnTime(world)
    requires Throughout(Taker(env, fx), Carefully(fx), Begin(fx, world, factory, wall), moves)
    ensures var start := Begin(fx, world, factory, wall);
      Tied(env, fx, factory, start.device.state.a, Iterate(Taker(env, fx), start, moves))
  {
    var start := Begin(fx, world, factory, wall);
    BeginsTied(env, fx, world, factory, wall);
    SystemKeepsTied(env, fx, factory, start.device.state.a);
    TiedRun(Taker(env, fx), Carefully(fx), env, fx, factory, start.device.state.a, start, moves);
  }

  /** Verified before run: under the guard, whatever the link and the clocks do, a device runs either
      its factory image or a program that was signed for a deployment whose ledger history begins with
      validation, compilation, verification, signing and the attempt to deliver, in that order, on a
      lease that is the program's own lifetime and within the ceiling. */
  lemma VerifiedBeforeRun(env: P.Environment, fx: Fixture, factory: Program, image: SlotRecord, s: System)
    requires Matched(env, fx) && Tied(env, fx, factory, image, s)
    ensures var p := s.device.controller.value.program;
      var lease := s.device.state.Running().lease;
      || (p == factory && s.device.state.Running() == image)
      || (&& lease.Some? && lease.value.duration == p.maximumDurationSeconds
          && 0 < lease.value.duration <= Config.MAX_LEASE_SECONDS
          && exists i :: 0 <= i < |s.issued| && s.issued[i].package.artifact == p
                         && Certified(env, s.book, s.issued[i]))
  {
    VerifiedWithoutGuard(env, fx, factory, s);
  }

  /** Hence under the guard no morph ever yields by itself: on every tick, whatever runs on top of the
      factory image has a lease, and the lease sends it home first. */
  lemma MorphNeverYields(env: P.Environment, fx: Fixture, factory: Program, image: SlotRecord, s: System, draw: Draw,
                         wall: real)
    requires Matched(env, fx) && Tied(env, fx, factory, image, s)
    ensures var before := BeforeControl(fx, s.device, draw, wall);
      || before.state.Running() == image
      || (before.state.Running().lease.Some? && !Elapsed(before.controller.value, before.plant.world.time))
  {
    var before := BeforeControl(fx, s.device, draw, wall);
    TickIsTethered(fx, s.device, draw, wall, false, image);
    BeforeIsGrounded(fx, s.device, draw, wall, image);
    LeasedMorphNeverYields(env, fx, factory, s, draw, wall);
  }

  lemma BeforeIsGrounded(fx: Fixture, d: Device, draw: Draw, wall: real, image: SlotRecord)
    requires fx.setup.Valid() && Coherent(d) && Grounded(d.state, image)
    ensures Grounded(BeforeControl(fx, d, draw, wall).state, image)
  {
    var policed := d.(plant := PolicyPhase(fx.setup, d.plant, draw));
    PolicyIsCoherent(fx, d, draw);
    ChargeFate(fx, policed, wall, image);
  }

  /** Replay safety: accepted numbers strictly increase, so no package is accepted twice, however often
      the link repeats it. */
  lemma NothingIsAcceptedTwice(env: P.Environment, fx: Fixture, factory: Program, s: System)
    requires Reached(env, fx, factory, s)
    ensures forall i, j :: 0 <= i < j < |s.accepted| ==>
      s.accepted[i].sequence < s.accepted[j].sequence && s.accepted[i] != s.accepted[j]
    ensures forall i :: 0 <= i < |s.accepted| ==> Judge(fx, s.device, s.accepted[i]).Some?
  {
    forall i | 0 <= i < |s.accepted|
      ensures Judge(fx, s.device, s.accepted[i]).Some?
    {
      assert WasIssued(s, fx, s.accepted[i]);
    }
  }

  /** And the number the server would sign next is above the watermark: a fresh package is never refused
      as a replay. The device takes it exactly when it was built on what the device runs, for a registry
      it serves, with a permitted lease. */
  lemma FreshIsNeverReplayed(env: P.Environment, fx: Fixture, factory: Program, s: System, task: P.Task, m: Manifest,
                             p: Program, clock: int)
    requires Matched(env, fx) && Reached(env, fx, factory, s)
    requires task.deviceId == fx.deviceId == p.deviceId
    ensures var package := P.IssuedPackage(env, s.book, task, m, p, clock);
      && package.sequence > s.device.state.watermark
      && Judge(fx, s.device, package) != Some(Packages.ReplayedSequence)
      && (Judge(fx, s.device, package).None? <==>
            && (s.device.state.Running().artifactHash.Some? ==>
                  p.sourceFirmwareHash == s.device.state.Running().artifactHash.value)
            && LeasePermitted(Some(m.maximumDurationSeconds)) && p.registryVersion in fx.supported)
  {
    WatermarkIsBelow(env, fx, factory, s);
    BuiltPackageIsJudgedOnFreshness(env.crypto, env.key, p, Highest(s.book.deployments, task.deviceId) + 1, clock,
                                    Some(m.maximumDurationSeconds), fx.deviceId,
                                    s.device.state.Running().artifactHash, s.device.state.watermark, fx.supported);
  }

  /** The watermark never passes what the server has issued. */
  lemma WatermarkIsBelow(env: P.Environment, fx: Fixture, factory: Program, s: System)
    requires Sound(env, fx, factory, s)
    ensures s.device.state.watermark <= Highest(s.book.deployments, fx.deviceId)
  {
    HighestBounds(s.book.deployments, fx.deviceId);
    if s.device.state.watermark != 0 {
      var last := s.accepted[|s.accepted| - 1];
      assert WasIssued(s, fx, last);
      var i :| 0 <= i < |s.issued| && s.issued[i].package == last;
      assert Certified(env, s.book, s.issued[i]);
    }
  }
}
