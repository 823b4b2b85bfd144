/** What the reconciler acts on: the directory's app of one resource, the resource
    itself, and the secrets managed for it. Every call may fail, and a call that
    fails may have taken effect; the failed calls are counted. */
module Environment {

  import opened Wrappers
  import opened Annotations
  import opened Secrets
  import opened Revocation
  import Strings

  // ----------------------------------------------------------------- state

  datatype Application = Application(clientId: string, keys: seq<Credential>, passwords: seq<Credential>)

  /** The hash stands for everything in the spec that the other fields do not hold. */
  datatype Spec = Spec(secretName: string, keyPrefix: string, tenant: string, hash: string)

  datatype Status = Status(secretName: string, hash: string, tenant: string, rotationTime: Option<int>, keyIds: KeyIds)

  datatype Resource = Resource(
    spec: Spec, status: Status, annotations: Option<AnnotationMap>, finalizers: set<string>, deleting: bool)

  /** When a credential ends, and the private key or the client secret that goes with it. */
  datatype Issue = Issue(end: int, secret: string)

  type Issued = map<string, Issue>

  datatype State = State(
    app: Option<Application>,
    issued: Issued,                    // every key ID ever generated, with what it was issued for
    now: int,
    secrets: map<string, Data>,
    inUse: set<string>,                // the secrets that pods refer to
    validApps: string,                 // the apps that may call this one, as the directory lists them
    applied: string,                   // the hash of the spec that the directory's app was last brought to
    resource: Option<Resource>,
    failures: nat)                     // how many calls have failed so far

  /** The app is the same, but for its passwords. */
  predicate OnlyPasswordsDiffer(before: Option<Application>, after: Option<Application>) {
    && after.Some? == before.Some?
    && (before.Some? ==> after.value == before.value.(passwords := after.value.passwords))
  }

  function Keys(app: Option<Application>): seq<Credential> {
    if app.Some? then app.value.keys else []
  }

  function Passwords(app: Option<Application>): seq<Credential> {
    if app.Some? then app.value.passwords else []
  }

  predicate AreIssued(creds: seq<Credential>, issued: Issued) {
    forall c :: c in creds ==> c.keyId in issued && issued[c.keyId].end == c.end
  }

  predicate Consistent(app: Option<Application>, issued: Issued) {
    app.Some? ==> AreIssued(app.value.keys, issued) && AreIssued(app.value.passwords, issued)
  }

  /** Whoever has the secret can use the credential of this ID. */
  predicate Opens(secret: string, id: string, issued: Issued) {
    id in issued && issued[id].secret == secret
  }

  predicate Extends(before: Issued, after: Issued) {
    forall id :: id in before ==> id in after && after[id] == before[id]
  }

  lemma StillIssued(creds: seq<Credential>, before: Issued, after: Issued)
    requires AreIssued(creds, before) && Extends(before, after)
    ensures AreIssued(creds, after)
  {
  }

  // ----------------------------------------------------------------- calls

  class World {
    var app: Option<Application>
    var issued: Issued
    var now: int
    var secrets: map<string, Data>
    var inUse: set<string>
    var validApps: string
    var applied: string
    var resource: Option<Resource>
    ghost var failures: nat

    ghost function View(): State
      reads this
    {
      State(app, issued, now, secrets, inUse, validApps, applied, resource, failures)
    }

    /** How a call ends: one that fails is counted. */
    ghost predicate Counted(before: nat, ok: bool)
      reads this`failures
    {
      failures == if ok then before else before + 1
    }

    ghost method Count(ok: bool)
      modifies this`failures
      ensures Counted(old(failures), ok)
    {
      if !ok {
        failures := failures + 1;
      }
    }

    ghost predicate Valid()
      reads this
    {
      Consistent(app, issued)
    }

    method Now() returns (t: int)
      modifies this`now
      ensures old(now) <= t == now
    {
      var later: int := *;
      if later > now {
        now := later;
      }
      return now;
    }

    /** A key ID that was never used before. */
    method NewKeyId(end: int, secret: string) returns (id: string)
      modifies this`issued
      ensures id != "" && id !in old(issued)
      ensures issued == old(issued)[id := Issue(end, secret)]
    {
      ghost var unused := Strings.UnusedStringExists(issued.Keys);
      id :| id != "" && id !in issued;
      issued := issued[id := Issue(end, secret)];
    }

    method GetApplication() returns (r: Result<Application>)
      modifies this`failures
      ensures r.Ok? ==> app == Some(r.value)
      ensures Counted(old(failures), r.Ok?)
    {
      var fails: bool := *;
      r := if fails || app.None? then Err else Ok(app.value);
      Count(r.Ok?);
    }

    /** Replaces the keys. An empty list is left out of the request, unless it is forced. */
    method PatchKeys(keys: seq<Credential>, forced: bool) returns (ok: bool)
      modifies this`app, this`failures
      ensures app == old(app) || (old(app).Some? && app == Some(old(app).value.(keys := keys)))
      ensures ok && (forced || keys != []) ==> old(app).Some? && app == Some(old(app).value.(keys := keys))
      ensures !forced && keys == [] ==> app == old(app)
      ensures Counted(old(failures), ok)
    {
      var applied: bool, reported: bool := *, *;
      ok := app.Some? && reported && (applied || (!forced && keys == []));
      if app.Some? && applied && (forced || keys != []) {
        app := Some(app.value.(keys := keys));
      }
      Count(ok);
    }

    method AddPassword(displayName: string) returns (r: Result<(Credential, string)>)
      requires Valid()
      modifies this`app, this`issued, this`now, this`failures
      ensures Valid() && Extends(old(issued), issued) && old(now) <= now
      ensures Counted(old(failures), r.Ok?)
      ensures app == old(app) || PasswordAdded(old(app), app, old(issued))
      ensures r.Ok? ==>
                && r.value.0.keyId != "" && r.value.0.keyId !in old(issued) && r.value.0.keyId in issued && r.value.1 != ""
                && Opens(r.value.1, r.value.0.keyId, issued)
                && old(app).Some?
                && app == Some(old(app).value.(passwords := old(app).value.passwords + [r.value.0]))
    {
      var start := Now();
      var fails: bool, applied: bool := *, *;
      if app.None? || (fails && !applied) {
        Count(false);
        return Err;
      }
      var lifetime: nat, text: string := *, *;
      text := if text == "" then "secret" else text;
      var id := NewKeyId(start + lifetime, text);
      var cred := Credential(id, Some(displayName), start, start + lifetime);
      StillIssued(app.value.keys, old(issued), issued);
      StillIssued(app.value.passwords, old(issued), issued);
      app := Some(app.value.(passwords := app.value.passwords + [cred]));
      if fails {
        Count(false);
        return Err;
      }
      return Ok((cred, text));
    }

    /** A failure is not reported to the caller. */
    method RemovePassword(keyId: string)
      requires Valid()
      modifies this`app, this`failures
      ensures Valid() && old(failures) <= failures
      ensures app == old(app) ||
              (old(app).Some? && app == Some(old(app).value.(passwords := Without(old(app).value.passwords, keyId))))
      ensures failures == old(failures) ==> forall c :: c in Passwords(app) ==> c.keyId != keyId
    {
      var applied: bool, reported: bool := *, *;
      if app.Some? && applied {
        WithoutMembers(app.value.passwords, keyId);
        app := Some(app.value.(passwords := Without(app.value.passwords, keyId)));
      }
      Count(applied && reported);
    }

    // ------------------------------------------------- app and resource

    method GetResource() returns (r: Result<Resource>)
      modifies this`failures
      ensures r.Ok? ==> resource == Some(r.value) && failures == old(failures)
      ensures r.Err? && failures == old(failures) ==> resource.None?
      ensures old(failures) <= failures
    {
      var fails: bool := *;
      Count(!fails);
      r := if fails || resource.None? then Err else Ok(resource.value);
    }

    /** The app's client ID, if there is an app. */
    method ApplicationExists() returns (r: Result<Option<string>>)
      modifies this`failures
      ensures r.Ok? ==> r.value == if app.Some? then Some(app.value.clientId) else None
      ensures Counted(old(failures), r.Ok?)
    {
      var fails: bool := *;
      Count(!fails);
      r := if fails then Err else Ok(if app.Some? then Some(app.value.clientId) else None);
    }

    /** The app is brought to the spec of this hash; its credentials are not sent. The apps that may
        call it are returned. An update that fails may have taken effect. */
    method UpdateApplication(hash: string) returns (r: Result<string>)
      modifies this`applied, this`failures
      ensures applied == old(applied) || applied == hash
      ensures r.Ok? ==> r.value == validApps && applied == hash
      ensures Counted(old(failures), r.Ok?)
    {
      var done: bool, reported: bool := *, *;
      if app.Some? && done {
        applied := hash;
      }
      r := if app.Some? && done && reported then Ok(validApps) else Err;
      Count(r.Ok?);
    }

    method GetPreAuthorizedApps() returns (r: Result<string>)
      modifies this`failures
      ensures r.Ok? ==> r.value == validApps
      ensures Counted(old(failures), r.Ok?)
    {
      var reported: bool := *;
      r := if app.Some? && reported then Ok(validApps) else Err;
      Count(r.Ok?);
    }

    /** A new app is registered, from the spec of this hash; its client ID is returned, and the apps
        that may call it. */
    method CreateApplication(hash: string) returns (r: Result<(string, string)>)
      requires Valid() && app.None?
      modifies this`app, this`applied, this`failures
      ensures Valid() && Counted(old(failures), r.Ok?)
      ensures (app.None? && applied == old(applied)) || (app.Some? && applied == hash && Keys(app) == [] && Passwords(app) == [])
      ensures r.Ok? ==> app.Some? && r.value == (app.value.clientId, validApps)
    {
      var done: bool, reported: bool, clientId: string := *, *, *;
      if done {
        app, applied := Some(Application(clientId, [], [])), hash;
      }
      r := if reported && app.Some? then Ok((app.value.clientId, validApps)) else Err;
      Count(r.Ok?);
    }

    method DeleteApplication() returns (ok: bool)
      requires Valid()
      modifies this`app, this`failures
      ensures Valid() && Counted(old(failures), ok)
      ensures app == old(app) || app.None?
      ensures ok ==> app.None?
    {
      var applied: bool, reported: bool := *, *;
      if applied {
        app := None;
      }
      ok := reported && applied;
      Count(ok);
    }

    method UpdateStatus(status: Status) returns (ok: bool)
      modifies this`resource, this`failures
      ensures Counted(old(failures), ok)
      ensures resource == old(resource) || (old(resource).Some? && resource == Some(old(resource).value.(status := status)))
      ensures ok && old(resource).Some? ==> resource == Some(old(resource).value.(status := status))
    {
      var applied: bool, reported: bool := *, *;
      if resource.None? {
        return true;
      }
      if applied {
        resource := Some(resource.value.(status := status));
      }
      ok := applied && reported;
      Count(ok);
    }

    method UpdateAnnotations(annotations: Option<AnnotationMap>) returns (ok: bool)
      modifies this`resource, this`failures
      ensures Counted(old(failures), ok)
      ensures resource == old(resource) ||
              (old(resource).Some? && resource == Some(old(resource).value.(annotations := annotations)))
      ensures ok && old(resource).Some? ==> resource == Some(old(resource).value.(annotations := annotations))
    {
      var applied: bool, reported: bool := *, *;
      if resource.None? {
        return true;
      }
      if applied {
        resource := Some(resource.value.(annotations := annotations));
      }
      ok := applied && reported;
      Count(ok);
    }

    /** The last finalizer of a resource that is being deleted takes the resource with it;
        no finalizer can be added to such a resource. */
    method UpdateFinalizers(finalizers: set<string>) returns (ok: bool)
      modifies this`resource, this`failures
      ensures Counted(old(failures), ok)
      ensures resource == old(resource) || (old(resource).Some? && resource == WithFinalizers(old(resource).value, finalizers))
      ensures ok && old(resource).Some? ==> resource == WithFinalizers(old(resource).value, finalizers)
    {
      var applied: bool, reported: bool := *, *;
      if resource.None? {
        return true;
      }
      applied := applied && !(resource.value.deleting && !(finalizers <= resource.value.finalizers));
      if applied {
        resource := WithFinalizers(resource.value, finalizers);
      }
      ok := applied && reported;
      Count(ok);
    }

    // ------------------------------------------------------------ secrets

    /** The managed secrets, split by whether pods refer to them. */
    method ListSecrets() returns (r: Result<Lists>)
      modifies this`failures
      ensures r.Ok? ==> AreAll(r.value, secrets, inUse)
      ensures Counted(old(failures), r.Ok?)
    {
      var fails: bool := *;
      if fails {
        Count(false);
        return Err;
      }
      var lists := SplitSecrets();
      return Ok(lists);
    }

    method SplitSecrets() returns (lists: Lists)
      ensures AreAll(lists, secrets, inUse)
    {
      var rest := secrets.Keys;
      var used: seq<Secret>, unused: seq<Secret> := [], [];
      while rest != {}
        invariant rest <= secrets.Keys
        invariant forall s :: s in used || s in unused ==>
                    s.name in secrets && s.name !in rest && secrets[s.name] == s.data
        invariant forall n :: n in secrets && n !in rest ==> Secret(n, secrets[n]) in used || Secret(n, secrets[n]) in unused
        invariant forall s :: s in used ==> s.name in inUse
        invariant forall s :: s in unused ==> s.name !in inUse
        decreases rest
      {
        var n :| n in rest;
        if n in inUse {
          used := used + [Secret(n, secrets[n])];
        } else {
          unused := unused + [Secret(n, secrets[n])];
        }
        rest := rest - {n};
      }
      return Lists(used, unused);
    }

    method WriteSecret(name: string, data: Data) returns (ok: bool)
      modifies this`secrets, this`failures
      ensures Counted(old(failures), ok)
      ensures secrets == old(secrets) || secrets == SecretWritten(old(secrets), name, data)
      ensures ok ==> secrets == SecretWritten(old(secrets), name, data)
    {
      var applied: bool, reported: bool := *, *;
      if applied {
        secrets := SecretWritten(secrets, name, data);
      }
      ok := applied && reported;
      Count(ok);
    }

    method DeleteSecret(name: string) returns (ok: bool)
      modifies this`secrets, this`failures
      ensures Counted(old(failures), ok)
      ensures secrets == old(secrets) || secrets == old(secrets) - {name}
      ensures ok ==> secrets == old(secrets) - {name}
    {
      var applied: bool, reported: bool := *, *;
      if applied {
        secrets := secrets - {name};
      }
      ok := applied && reported;
      Count(ok);
    }
  }

  function WithFinalizers(r: Resource, finalizers: set<string>): Option<Resource> {
    if r.deleting && finalizers == {} then None else Some(r.(finalizers := finalizers))
  }

  ghost predicate AreAll(lists: Lists, secrets: map<string, Data>, inUse: set<string>) {
    && (forall s :: s in lists.used || s in lists.unused ==> s.name in secrets && secrets[s.name] == s.data)
    && (forall n :: n in secrets ==> Secret(n, secrets[n]) in lists.used || Secret(n, secrets[n]) in lists.unused)
    && (forall s :: s in lists.used ==> s.name in inUse)
    && (forall s :: s in lists.unused ==> s.name !in inUse)
  }

  /** Writing a secret leaves its other entries in place. */
  function SecretWritten(secrets: map<string, Data>, name: string, data: Data): map<string, Data> {
    secrets[name := (if name in secrets then secrets[name] else map[]) + data]
  }

  /** One password was added, with a key ID that was not issued before. */
  predicate PasswordAdded(before: Option<Application>, after: Option<Application>, issued: Issued) {
    && before.Some?
    && OnlyPasswordsDiffer(before, after)
    && |after.value.passwords| == |before.value.passwords| + 1
    && after.value.passwords[..|before.value.passwords|] == before.value.passwords
    && after.value.passwords[|before.value.passwords|].keyId !in issued
  }

  function Without(creds: seq<Credential>, keyId: string): seq<Credential> {
    if creds == [] then
      []
    else if creds[0].keyId == keyId then
      Without(creds[1..], keyId)
    else
      [creds[0]] + Without(creds[1..], keyId)
  }

  lemma {:induction false} WithoutMembers(creds: seq<Credential>, keyId: string)
    ensures forall c :: c in Without(creds, keyId) <==> c in creds && c.keyId != keyId
  {
    if creds != [] {
      WithoutMembers(creds[1..], keyId);
    }
  }
}
