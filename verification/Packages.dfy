/** Signed firmware packages and the device's acceptance decision. Hashing and signing are
    uninterpreted functions. */
module Packages {
  import opened Names
  import opened Programs
  import Config

  datatype Package = Package(
    deviceId: string,
    manifestHash: Hash,
    artifactHash: Hash,
    baseFirmwareHash: Hash,
    registryVersion: string,
    sequence: int,
    leaseSeconds: Option<int>,
    issuedAt: int,
    artifact: Program,
    signature: string)
  {
    /** Everything the signature covers: the whole package but the signature. */
    function Payload(): Package { this.(signature := "") }
  }

  type Key = string

  /** `artifactHash` is the content hash of an artifact, `mac` the keyed signature of a payload. */
  datatype Crypto = Crypto(artifactHash: Program -> Hash, mac: (Key, Package) -> string)

  datatype Rejection =
    | ArtifactMismatch
    | ManifestMismatch
    | InvalidSignature
    | WrongDevice
    | StaleBaseFirmware
    | ReplayedSequence
    | LeaseTooLong
    | UnsupportedRegistry

  function Sign(crypto: Crypto, key: Key, package: Package): Package {
    package.(signature := crypto.mac(key, package.Payload()))
  }

  function BuildPackage(crypto: Crypto, key: Key, program: Program, sequence: int, issuedAt: int,
                        leaseSeconds: Option<int>): Package
  {
    Sign(crypto, key,
         Package(program.deviceId, program.manifestHash, crypto.artifactHash(program), program.sourceFirmwareHash,
                 program.registryVersion, sequence, leaseSeconds, issuedAt, program, ""))
  }

  predicate LeasePermitted(leaseSeconds: Option<int>) {
    leaseSeconds.Some? ==> 0 < leaseSeconds.value <= Config.MAX_LEASE_SECONDS
  }

  /** The acceptance decision: the first rule broken, in the device's order, or none. */
  function VerifyPackage(crypto: Crypto, key: Key, package: Package, deviceId: string, current: Option<Hash>,
                         watermark: int, supported: set<string>): Option<Rejection>
  {
    if crypto.artifactHash(package.artifact) != package.artifactHash then Some(ArtifactMismatch)
    else if package.artifact.manifestHash != package.manifestHash then Some(ManifestMismatch)
    else if crypto.mac(key, package.Payload()) != package.signature then Some(InvalidSignature)
    else if package.deviceId != deviceId then Some(WrongDevice)
    else if package.artifact.deviceId != deviceId then Some(WrongDevice)
    else if current.Some? && package.baseFirmwareHash != current.value then Some(StaleBaseFirmware)
    else if package.sequence <= watermark then Some(ReplayedSequence)
    else if package.leaseSeconds.Some?
         && (package.leaseSeconds.value <= 0 || package.leaseSeconds.value > Config.MAX_LEASE_SECONDS) then
      Some(LeaseTooLong)
    else if package.registryVersion !in supported then Some(UnsupportedRegistry)
    else None
  }

  /** Whether one of the device's rules is broken, taken by itself. */
  predicate Breaks(crypto: Crypto, key: Key, package: Package, deviceId: string, current: Option<Hash>, watermark: int,
                   supported: set<string>, rule: Rejection)
  {
    match rule
    case ArtifactMismatch => package.artifactHash != crypto.artifactHash(package.artifact)
    case ManifestMismatch => package.manifestHash != package.artifact.manifestHash
    case InvalidSignature => package.signature != crypto.mac(key, package.(signature := ""))
    case WrongDevice => package.deviceId != deviceId || package.artifact.deviceId != deviceId
    case StaleBaseFirmware => current.Some? && current.value != package.baseFirmwareHash
    case ReplayedSequence => watermark >= package.sequence
    case LeaseTooLong => package.leaseSeconds.Some? && !(1 <= package.leaseSeconds.value <= 900)
    case UnsupportedRegistry => package.registryVersion !in supported
  }

  /** The order in which the rules are looked at. */
  function RuleRank(rule: Rejection): nat {
    match rule
    case ArtifactMismatch => 0
    case ManifestMismatch => 1
    case InvalidSignature => 2
    case WrongDevice => 3
    case StaleBaseFirmware => 4
    case ReplayedSequence => 5
    case LeaseTooLong => 6
    case UnsupportedRegistry => 7
  }

  lemma VerdictAgainst(crypto: Crypto, key: Key, package: Package, deviceId: string, current: Option<Hash>,
                       watermark: int, supported: set<string>, rule: Rejection)
    ensures var v := VerifyPackage(crypto, key, package, deviceId, current, watermark, supported);
      && (v.None? ==> !Breaks(crypto, key, package, deviceId, current, watermark, supported, rule))
      && (v == Some(rule) ==> Breaks(crypto, key, package, deviceId, current, watermark, supported, rule))
      && (v.Some? && RuleRank(rule) < RuleRank(v.value) ==>
            !Breaks(crypto, key, package, deviceId, current, watermark, supported, rule))
  {
  }

  /** Whatever package arrives: it is taken exactly when it breaks none of the device's rules, and refused
      for the first one it breaks. */
  lemma RefusedForTheFirstRuleBroken(crypto: Crypto, key: Key, package: Package, deviceId: string,
                                     current: Option<Hash>, watermark: int, supported: set<string>)
    ensures var v := VerifyPackage(crypto, key, package, deviceId, current, watermark, supported);
      && (v.None? <==> forall r :: !Breaks(crypto, key, package, deviceId, current, watermark, supported, r))
      && (v.Some? ==>
            && Breaks(crypto, key, package, deviceId, current, watermark, supported, v.value)
            && forall r :: RuleRank(r) < RuleRank(v.value) ==>
                 !Breaks(crypto, key, package, deviceId, current, watermark, supported, r))
  {
    forall r
      ensures var v := VerifyPackage(crypto, key, package, deviceId, current, watermark, supported);
        && (v.None? ==> !Breaks(crypto, key, package, deviceId, current, watermark, supported, r))
        && (v == Some(r) ==> Breaks(crypto, key, package, deviceId, current, watermark, supported, r))
        && (v.Some? && RuleRank(r) < RuleRank(v.value) ==>
              !Breaks(crypto, key, package, deviceId, current, watermark, supported, r))
    {
      VerdictAgainst(crypto, key, package, deviceId, current, watermark, supported, r);
    }
  }

  /** A package straight from the signer is internally consistent and authentic by construction: the
      device takes it exactly when it is addressed to it, built on what it runs, above its watermark,
      leased within its ceiling and for a registry it serves. */
  lemma BuiltPackageIsJudgedOnFreshness(crypto: Crypto, key: Key, program: Program, sequence: int, issuedAt: int,
                                        leaseSeconds: Option<int>, deviceId: string, current: Option<Hash>,
                                        watermark: int, supported: set<string>)
    ensures var package := BuildPackage(crypto, key, program, sequence, issuedAt, leaseSeconds);
      VerifyPackage(crypto, key, package, deviceId, current, watermark, supported).None? <==>
        && program.deviceId == deviceId
        && (current.Some? ==> program.sourceFirmwareHash == current.value)
        && sequence > watermark
        && LeasePermitted(leaseSeconds)
        && program.registryVersion in supported
  {
    var package := BuildPackage(crypto, key, program, sequence, issuedAt, leaseSeconds);
    assert package.(signature := "")
        == Package(program.deviceId, program.manifestHash, crypto.artifactHash(program), program.sourceFirmwareHash,
                   program.registryVersion, sequence, leaseSeconds, issuedAt, program, "");
  }
}
