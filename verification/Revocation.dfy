/** Which registered credentials a rotation or a cleanup keeps, and which it revokes.
    One policy serves the keys, whose kept ones are written back as a list, and the
    passwords, whose revoked ones are removed one by one. */
module Revocation {

  import opened Wrappers

  const AZURERATOR_PREFIX := "azurerator"

  /** A key or password credential, as registered in the directory. */
  datatype Credential = Credential(keyId: string, displayName: Option<string>, start: int, end: int)

  // ------------------------------------------------------- specification

  predicate IsManaged(c: Credential) {
    c.displayName.Some? && AZURERATOR_PREFIX <= c.displayName.value
  }

  predicate HasManaged(creds: seq<Credential>) {
    exists c :: c in creds && IsManaged(c)
  }

  /** The first of the credentials that started last. */
  ghost predicate IsNewest(creds: seq<Credential>, i: int) {
    && 0 <= i < |creds|
    && (forall j :: 0 <= j < |creds| ==> creds[j].start <= creds[i].start)
    && (forall j :: 0 <= j < i ==> creds[j].start < creds[i].start)
  }

  function NewestIndex(creds: seq<Credential>): (i: nat)
    ensures creds != [] ==> IsNewest(creds, i)
  {
    if |creds| <= 1 then
      0
    else
      var n := |creds| - 1;
      var i := NewestIndex(creds[..n]);
      if creds[n].start > creds[i].start then n else i
  }

  /** Those of the first `n` credentials that are in use, or the newest. */
  function InUse(creds: seq<Credential>, ids: set<string>, newest: int, n: nat): seq<Credential>
    requires n <= |creds|
  {
    if n == 0 then
      []
    else
      var rest := InUse(creds, ids, newest, n - 1);
      if creds[n - 1].keyId in ids || n - 1 == newest then rest + [creds[n - 1]] else rest
  }

  function Unused(creds: seq<Credential>, ids: set<string>, newest: int, n: nat): seq<Credential>
    requires n <= |creds|
  {
    if n == 0 then
      []
    else
      var rest := Unused(creds, ids, newest, n - 1);
      if creds[n - 1].keyId in ids || n - 1 == newest then rest else rest + [creds[n - 1]]
  }

  function Kept(creds: seq<Credential>, ids: set<string>): seq<Credential> {
    if HasManaged(creds) then InUse(creds, ids, NewestIndex(creds), |creds|) else creds
  }

  function Revoked(creds: seq<Credential>, ids: set<string>): seq<Credential> {
    if HasManaged(creds) then Unused(creds, ids, NewestIndex(creds), |creds|) else []
  }

  // --------------------------------------------------------------- lemmas

  lemma {:induction false} InUseAndUnusedMakeUpAll(creds: seq<Credential>, ids: set<string>, newest: int, n: nat)
    requires n <= |creds|
    ensures multiset(InUse(creds, ids, newest, n)) + multiset(Unused(creds, ids, newest, n)) == multiset(creds[..n])
  {
    if n > 0 {
      InUseAndUnusedMakeUpAll(creds, ids, newest, n - 1);
      assert creds[..n] == creds[..n - 1] + [creds[n - 1]];
    }
  }

  lemma {:induction false} InUseMembers(creds: seq<Credential>, ids: set<string>, newest: int, n: nat)
    requires n <= |creds|
    ensures forall c :: c in InUse(creds, ids, newest, n) <==>
                        exists i :: 0 <= i < n && c == creds[i] && (creds[i].keyId in ids || i == newest)
  {
    if n > 0 {
      InUseMembers(creds, ids, newest, n - 1);
    }
  }

  lemma {:induction false} UnusedMembers(creds: seq<Credential>, ids: set<string>, newest: int, n: nat)
    requires n <= |creds|
    ensures forall c :: c in Unused(creds, ids, newest, n) <==>
                        exists i :: 0 <= i < n && c == creds[i] && creds[i].keyId !in ids && i != newest
  {
    if n > 0 {
      UnusedMembers(creds, ids, newest, n - 1);
    }
  }

  /** Keeping keys and revoking passwords divide a list between them. Nothing in use
      is revoked, and nothing at all if no credential is managed. */
  lemma KeptAndRevokedAreComplementary(creds: seq<Credential>, ids: set<string>)
    ensures multiset(Kept(creds, ids)) + multiset(Revoked(creds, ids)) == multiset(creds)
    ensures forall c :: c in Revoked(creds, ids) ==> c.keyId !in ids
    ensures forall c :: c in creds && c.keyId in ids ==> c in Kept(creds, ids)
    ensures forall c :: c in Kept(creds, ids) ==> c in creds
    ensures !HasManaged(creds) ==> Kept(creds, ids) == creds && Revoked(creds, ids) == []
  {
    if HasManaged(creds) {
      InUseAndUnusedMakeUpAll(creds, ids, NewestIndex(creds), |creds|);
      assert creds[..|creds|] == creds;
      InUseMembers(creds, ids, NewestIndex(creds), |creds|);
      UnusedMembers(creds, ids, NewestIndex(creds), |creds|);
    }
  }

  /** A newest credential is always kept, so that a list never becomes empty, and
      a credential that is neither newest nor in use is revoked if any is managed. */
  lemma NewestIsKept(creds: seq<Credential>, ids: set<string>)
    requires creds != []
    ensures creds[NewestIndex(creds)] in Kept(creds, ids)
    ensures forall i :: 0 <= i < |creds| && HasManaged(creds) && i != NewestIndex(creds) && creds[i].keyId !in ids ==>
                          creds[i] in Revoked(creds, ids)
  {
    InUseMembers(creds, ids, NewestIndex(creds), |creds|);
    UnusedMembers(creds, ids, NewestIndex(creds), |creds|);
  }

  /** No two are left that are not in use, unless none is managed. */
  predicate LeavesOne(creds: seq<Credential>, ids: set<string>) {
    HasManaged(creds) ==> forall c, d :: c in creds && d in creds && c.keyId !in ids && d.keyId !in ids ==> c == d
  }

  lemma KeptLeavesOne(creds: seq<Credential>, ids: set<string>)
    ensures LeavesOne(Kept(creds, ids), ids)
  {
    if HasManaged(creds) {
      InUseMembers(creds, ids, NewestIndex(creds), |creds|);
    }
  }

  /** Likewise where those to be revoked are gone, by their IDs. */
  lemma RevokingLeavesOne(creds: seq<Credential>, after: seq<Credential>, ids: set<string>)
    requires forall c :: c in after ==> c in creds && forall d :: d in Revoked(creds, ids) ==> c.keyId != d.keyId
    ensures LeavesOne(after, ids)
  {
    if HasManaged(after) {
      var m :| m in after && IsManaged(m);
      assert HasManaged(creds);
      forall c | c in after && c.keyId !in ids
        ensures c == creds[NewestIndex(creds)]
      {
        var i :| 0 <= i < |creds| && creds[i] == c;
        NewestIsKept(creds, ids);
      }
    }
  }

  // ---------------------------------------------------------- operations

  lemma HasManagedStep(creds: seq<Credential>, i: nat)
    requires i < |creds|
    ensures HasManaged(creds[..i + 1]) <==> HasManaged(creds[..i]) || IsManaged(creds[i])
  {
  }

  /** The scan that both operations start with. */
  method Scan(creds: seq<Credential>) returns (newestIndex: nat, hasManaged: bool)
    ensures newestIndex == NewestIndex(creds)
    ensures hasManaged <==> HasManaged(creds)
  {
    var newestStart: Option<int> := None;
    newestIndex := 0;
    hasManaged := false;
    for i := 0 to |creds|
      invariant newestIndex == NewestIndex(creds[..i])
      invariant newestStart == if i == 0 then None else Some(creds[newestIndex].start)
      invariant i > 0 ==> newestIndex < i
      invariant hasManaged <==> HasManaged(creds[..i])
    {
      assert creds[..i + 1][..i] == creds[..i];
      HasManagedStep(creds, i);
      if newestStart.None? || creds[i].start > newestStart.value {
        newestStart := Some(creds[i].start);
        newestIndex := i;
      }
      if creds[i].displayName.None? {
        continue;
      }
      if AZURERATOR_PREFIX <= creds[i].displayName.value {
        hasManaged := true;
      }
    }
    assert creds[..|creds|] == creds;
  }

  method FilterRevokedKeys(creds: seq<Credential>, ids: set<string>) returns (filtered: seq<Credential>)
    ensures filtered == Kept(creds, ids)
    ensures filtered == [] ==> creds == []
    ensures forall c :: c in filtered ==> c in creds
  {
    KeptAndRevokedAreComplementary(creds, ids);
    if creds != [] {
      NewestIsKept(creds, ids);
    }
    var newestIndex, hasManaged := Scan(creds);
    if !hasManaged {
      return creds;
    }
    filtered := [];
    for i := 0 to |creds|
      invariant filtered == InUse(creds, ids, newestIndex, i)
    {
      if creds[i].keyId in ids || i == newestIndex {
        filtered := filtered + [creds[i]];
      }
    }
  }

  method RevocationCandidates(creds: seq<Credential>, ids: set<string>) returns (revoked: seq<Credential>)
    ensures revoked == Revoked(creds, ids)
  {
    var newestIndex, hasManaged := Scan(creds);
    if !hasManaged {
      return [];
    }
    revoked := [];
    for i := 0 to |creds|
      invariant revoked == Unused(creds, ids, newestIndex, i)
    {
      if creds[i].keyId in ids || i == newestIndex {
        continue;
      }
      revoked := revoked + [creds[i]];
    }
  }
}
