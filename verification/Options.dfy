/** The flags that decide what a reconcile does. */
module Options {

  import opened Wrappers
  import opened Annotations
  import opened Secrets
  import opened Environment

  /** Where a program gets and checks tokens. */
  datatype Endpoints = Endpoints(wellKnownUrl: string, issuer: string, jwksUri: string, tokenEndpoint: string)

  datatype Config = Config(
    tenantId: string, tenantName: string, tenantRequired: bool, cleanupOrphans: bool, maxAge: int, cleanup: bool,
    endpoints: Endpoints)

  datatype Flags = Flags(
    ignored: bool,              // the resource is addressed to another tenant
    synchronize: bool,
    azureSynchronize: bool,
    rotate: bool,
    valid: bool,
    cleanup: bool)

  predicate Contains(s: string, sub: string) {
    exists i :: 0 <= i <= |s| && sub <= s[i..]
  }

  function Items(r: Resource): AnnotationMap {
    if r.annotations.Some? then r.annotations.value else map[]
  }

  predicate HasResynchronize(r: Resource) {
    RESYNCHRONIZE_KEY in Items(r)
  }

  predicate HasRotate(r: Resource) {
    ROTATE_KEY in Items(r)
  }

  predicate HashChanged(r: Resource) {
    r.status.hash != r.spec.hash
  }

  predicate SecretNameChanged(r: Resource) {
    r.status.secretName != r.spec.secretName
  }

  predicate HasExpiredSecrets(r: Resource, maxAge: int, now: int) {
    r.status.rotationTime.Some? && now - r.status.rotationTime.value >= maxAge
  }

  predicate IsIgnored(r: Resource, cfg: Config) {
    if r.spec.tenant != "" then r.spec.tenant != cfg.tenantName else cfg.tenantRequired
  }

  function NewOptions(r: Resource, cfg: Config, latest: Option<Set>, now: int): Flags {
    var expired := HasExpiredSecrets(r, cfg.maxAge, now);
    var rotate := SecretNameChanged(r) || HasRotate(r);
    Flags(
      ignored := IsIgnored(r, cfg),
      synchronize := HashChanged(r) || SecretNameChanged(r) || expired || HasResynchronize(r) || HasRotate(r),
      azureSynchronize := HashChanged(r) || HasResynchronize(r),
      rotate := rotate,
      valid := !expired && Contains(r.status.tenant, cfg.tenantId) && latest.Some?,
      cleanup := !rotate && cfg.cleanup)
  }

  /** What validation against the directory makes of the flags. */
  function Validated(o: Flags, validInDirectory: bool): Flags {
    if validInDirectory then o else o.(synchronize := true, valid := false)
  }

  datatype Operation = Created | Updated | NotModified

  function OperationFor(found: bool, o: Flags): Operation {
    if !found then Created else if o.azureSynchronize then Updated else NotModified
  }

  /** The directory is asked about a credential set only if there is one, so that
      an app that does not exist has no valid credentials. */
  predicate CanValidate(found: bool, o: Flags) {
    found && o.valid
  }

  /** Past the check for nothing to do, secrets are always written: the early return of
      the secret step is never taken. */
  lemma SecretIsAlwaysWritten(r: Resource, cfg: Config, latest: Option<Set>, now: int, found: bool, inDirectory: bool)
    requires inDirectory ==> CanValidate(found, NewOptions(r, cfg, latest, now))
    ensures var o := Validated(NewOptions(r, cfg, latest, now), inDirectory);
            o.synchronize ==> !(o.valid && !o.rotate && OperationFor(found, o) == NotModified)
    ensures var o := Validated(NewOptions(r, cfg, latest, now), inDirectory);
            (o.valid ==> latest.Some?) && !(o.cleanup && o.rotate) && (o.valid ==> found)
  {
  }
}
