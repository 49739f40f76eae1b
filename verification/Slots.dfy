/** What the device persists: two slots, the lease on each, the candidate, the replay watermark. */
module Slots {
  import opened Names
  import opened Arithmetic
  import opened Programs

  datatype SlotName = SlotA | SlotB

  /** A bounded permission to run, charged in simulated time and checked against wall time as well. */
  datatype Lease = Lease(duration: int, elapsed: real, installedAtWall: real) {
    function Advance(delta: real): Lease { this.(elapsed := elapsed + delta) }

    /** Whichever clock has advanced further since installation. */
    function Consumed(nowWall: real): real { Max(elapsed, Max(0.0, nowWall - installedAtWall)) }

    predicate Expired(nowWall: real) { Consumed(nowWall) >= duration as real }
  }

  datatype SlotRecord = SlotRecord(
    artifact: Option<Program>,
    artifactHash: Option<Hash>,
    sequence: Option<int>,
    installedAtWall: Option<real>,
    lease: Option<Lease>)

  const EMPTY := SlotRecord(None, None, None, None, None)

  datatype CandidateStatus = NoCandidate | Probation | Activated | Failed

  datatype DeviceState = DeviceState(
    a: SlotRecord,
    b: SlotRecord,
    active: SlotName,
    lastKnownGood: SlotName,
    candidate: Option<SlotName>,
    status: CandidateStatus,
    probationLeft: int,
    failures: nat,
    watermark: int)
  {
    function Slot(name: SlotName): SlotRecord { if name.SlotA? then a else b }

    function WithSlot(name: SlotName, record: SlotRecord): DeviceState {
      if name.SlotA? then this.(a := record) else this.(b := record)
    }

    /** What is executing: the candidate during probation, the active slot otherwise. */
    function RunningSlot(): SlotName {
      if status.Probation? && candidate.Some? then candidate.value else active
    }

    function InactiveSlot(): SlotName { if active.SlotA? then SlotB else SlotA }

    function Running(): SlotRecord { Slot(RunningSlot()) }
  }

  const BLANK := DeviceState(EMPTY, EMPTY, SlotA, SlotA, None, NoCandidate, 0, 0, 0)

  /** The lease rule: nothing that either clock does can lengthen a lease. A lease is over exactly when
      one of the two clocks has used it up, and charging it or letting wall time pass never revives it. */
  lemma LeaseIsNeverExtended(l: Lease, nowWall: real, delta: real, later: real)
    requires l.duration > 0
    ensures l.Expired(nowWall) <==>
      l.elapsed >= l.duration as real || nowWall - l.installedAtWall >= l.duration as real
    ensures l.Expired(nowWall) && delta >= 0.0 && later >= nowWall ==> l.Advance(delta).Expired(later)
    ensures l.elapsed >= l.duration as real && delta >= 0.0 ==> l.Advance(delta).Expired(later)
  {
  }
}
