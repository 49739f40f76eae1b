/** Proposal to device, with every gate in between, and the device's later reports. */
module Pipelines {
  import opened Names
  import opened Manifests
  import opened Registries
  import opened Programs
  import opened Ledgers
  import opened Packages
  import Compiler
  import Validator

  datatype Task = Task(deviceId: string, event: string, contextTrigger: bool)

  /** What the pipeline is built with. `schemaOf` loads a device's schema, `hash` is the manifest's
      content hash, `verified` the verdict of closed-loop simulation. */
  datatype Environment = Environment(
    registry: Registry,
    schemaOf: string -> Schema,
    crypto: Crypto,
    key: Key,
    hash: Manifest -> Hash,
    verified: (Task, Program) -> bool)

  /** What comes back from a delivery. */
  datatype Answer = Unreachable | Answered(rejection: Option<Rejection>)

  datatype Gate = AtHalt | AtDuplicate | AtProposal | AtValidation | AtCompilation | AtVerification | AtDelivery | Through

  datatype Report = Report(gate: Gate, id: Option<nat>, package: Option<Package>, accepted: bool)

  ghost predicate Passes(env: Environment, task: Task, m: Manifest) {
    Validator.Valid(m, env.registry, env.schemaOf(task.deviceId))
  }

  function CompileFor(env: Environment, task: Task, m: Manifest): (r: Option<Program>)
    requires m.controlPeriodSeconds > 0.0
  {
    match Compiler.Compile(env.hash, m, env.registry, env.schemaOf(task.deviceId))
    case Ok(p) => Some(p)
    case Refused(_) => None
  }

  function Drop(b: Book, id: nat): Book
    requires MayMove(b, id, Rejected)
  {
    Moved(b, id, Rejected, NOTHING_NEW)
  }

  /** The package a run signs: the next number for the device, the manifest's own lifetime as lease. */
  function IssuedPackage(env: Environment, b: Book, task: Task, m: Manifest, p: Program, clock: int): Package {
    BuildPackage(env.crypto, env.key, p, Highest(b.deployments, task.deviceId) + 1, clock,
                 Some(m.maximumDurationSeconds))
  }

  predicate At(b: Book, id: nat, stage: Stage) { id < |b.deployments| && b.deployments[id].stage == stage }

  /** Sign, hand over, and record the device's own verdict. */
  function Ship(env: Environment, b: Book, id: nat, task: Task, m: Manifest, p: Program, clock: int,
                answer: Package -> Answer): (Book, Report)
    requires At(b, id, SimulationVerified)
  {
    var package := IssuedPackage(env, b, task, m, p, clock);
    var signed := Moved(b, id, Signed, Facts(Some(package.sequence), package.leaseSeconds, None, None));
    var attempted := Moved(signed, id, DeliveryAttempted, NOTHING_NEW);
    if answer(package) == Answered(None) then
      (Moved(attempted, id, AcceptedByDevice, NOTHING_NEW), Report(Through, Some(id), Some(package), true))
    else (Drop(attempted, id), Report(AtDelivery, Some(id), Some(package), false))
  }

  /** What follows compilation, given what the compiler produced. */
  function Proceed(env: Environment, b: Book, id: nat, task: Task, m: Manifest, program: Option<Program>, clock: int,
                   answer: Package -> Answer): (Book, Report)
    requires At(b, id, ManifestValidated)
  {
    if program.None? then (Drop(b, id), Report(AtCompilation, Some(id), None, false))
    else
      var p := program.value;
      var compiled := Moved(b, id, Compiled, Facts(None, None, None, Some(env.crypto.artifactHash(p))));
      if !env.verified(task, p) then (Drop(compiled, id), Report(AtVerification, Some(id), None, false))
      else Ship(env, Moved(compiled, id, SimulationVerified, NOTHING_NEW), id, task, m, p, clock, answer)
  }

  /** Everything a run does to the ledger. That it is defined says that no move in it is illegal. */
  ghost function Run(env: Environment, b: Book, task: Task, halted: bool, proposal: Option<Manifest>, clock: int,
                     answer: Package -> Answer): (Book, Report)
    requires proposal.Some? ==> proposal.value.controlPeriodSeconds > 0.0
  {
    if halted then (b, Report(AtHalt, None, None, false))
    else if task.contextTrigger
         && exists i :: 0 <= i < |b.deployments| && LiveFor(b.deployments[i], task.deviceId, task.event) then
      (b, Report(AtDuplicate, None, None, false))
    else
      var id := |b.deployments|;
      var proposed := Opened(b, task.deviceId, task.event);
      if proposal.None? then (Drop(proposed, id), Report(AtProposal, Some(id), None, false))
      else
        var m := proposal.value;
        if !Passes(env, task, m) then (Drop(proposed, id), Report(AtValidation, Some(id), None, false))
        else
          Proceed(env, Moved(proposed, id, ManifestValidated, Facts(None, None, Some(env.hash(m)), None)), id, task, m,
                  CompileFor(env, task, m), clock, answer)
  }

  class ManifestPipeline {
    const env: Environment
    const ledger: Ledger

    constructor (env: Environment, ledger: Ledger)
      ensures this.env == env && this.ledger == ledger
    {
      this.env := env;
      this.ledger := ledger;
    }

    method Reject(id: nat, gate: Gate, package: Option<Package>) returns (result: Report)
      requires MayMove(ledger.View(), id, Rejected)
      modifies ledger
      ensures ledger.View() == Drop(old(ledger.View()), id)
      ensures result == Report(gate, Some(id), package, false)
    {
      var legal := ledger.Advance(id, Rejected, NOTHING_NEW);
      result := Report(gate, Some(id), package, false);
    }

    method ShipProgram(id: nat, task: Task, m: Manifest, program: Program, clock: int, answer: Package -> Answer)
      returns (result: Report)
      requires At(ledger.View(), id, SimulationVerified)
      modifies ledger
      ensures (ledger.View(), result) == Ship(env, old(ledger.View()), id, task, m, program, clock, answer)
    {
      var sequence := ledger.NextSequence(task.deviceId);
      var package := BuildPackage(env.crypto, env.key, program, sequence, clock, Some(m.maximumDurationSeconds));
      var legal := ledger.Advance(id, Signed, Facts(Some(sequence), package.leaseSeconds, None, None));
      legal := ledger.Advance(id, DeliveryAttempted, NOTHING_NEW);
      if answer(package) != Answered(None) {
        result := Reject(id, AtDelivery, Some(package));
        return;
      }
      legal := ledger.Advance(id, AcceptedByDevice, NOTHING_NEW);
      result := Report(Through, Some(id), Some(package), true);
    }

    method CompileManifest(id: nat, task: Task, m: Manifest, clock: int, answer: Package -> Answer)
      returns (result: Report)
      requires At(ledger.View(), id, ManifestValidated) && m.controlPeriodSeconds > 0.0
      modifies ledger
      ensures (ledger.View(), result) == Proceed(env, old(ledger.View()), id, task, m, CompileFor(env, task, m), clock,
                                                 answer)
    {
      var compiled := CompileFor(env, task, m);
      if compiled.None? {
        result := Reject(id, AtCompilation, None);
        return;
      }
      var program := compiled.value;
      var legal := ledger.Advance(id, Compiled, Facts(None, None, None, Some(env.crypto.artifactHash(program))));
      if !env.verified(task, program) {
        result := Reject(id, AtVerification, None);
        return;
      }
      legal := ledger.Advance(id, SimulationVerified, NOTHING_NEW);
      result := ShipProgram(id, task, m, program, clock, answer);
    }

    method RunTask(task: Task, halted: bool, proposal: Option<Manifest>, clock: int, answer: Package -> Answer)
      returns (result: Report)
      requires proposal.Some? ==> proposal.value.controlPeriodSeconds > 0.0
      modifies ledger
      ensures (ledger.View(), result) == Run(env, old(ledger.View()), task, halted, proposal, clock, answer)
    {
      if halted {
        return Report(AtHalt, None, None, false);
      }
      if task.contextTrigger {
        var live := ledger.LiveForEvent(task.deviceId, task.event);
        if live {
          return Report(AtDuplicate, None, None, false);
        }
      }
      var id := ledger.OpenDeployment(task.deviceId, task.event);
      if proposal.None? {
        result := Reject(id, AtProposal, None);
        return;
      }
      var m := proposal.value;
      var errors := Validator.Validate(m, env.registry, env.schemaOf(task.deviceId));
      if errors != [] {
        result := Reject(id, AtValidation, None);
        return;
      }
      var legal := ledger.Advance(id, ManifestValidated, Facts(None, None, Some(env.hash(m)), None));
      result := CompileManifest(id, task, m, clock, answer);
    }

    /** What the device says later: it is active, or it has gone back. An impossible report is refused. */
    method Record(id: nat, to: Stage) returns (legal: bool)
      requires to in {ActiveOnDevice, Reverted, RolledBack}
      modifies ledger
      ensures legal <==> MayMove(old(ledger.View()), id, to)
      ensures ledger.View() == if legal then Moved(old(ledger.View()), id, to, NOTHING_NEW) else old(ledger.View())
    {
      legal := ledger.Advance(id, to, NOTHING_NEW);
    }
  }
}
