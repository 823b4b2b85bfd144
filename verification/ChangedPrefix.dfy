/** A key prefix that is changed back: the secret got a set under "A", then another one under "B",
    and the first one has been revoked since. */
module ChangedPrefix {

  import opened Wrappers
  import opened Secrets
  import opened Revocation
  import opened Environment
  import opened CredentialsClient
  import opened Reconciler
  import opened Runs

  function SetOf(k: string, l: string, p: string, q: string): Set {
    Set(Credentials(Certificate(k, Jwk("a")), Password(p, "x")), Credentials(Certificate(l, Jwk("b")), Password(q, "y")))
  }

  const REVOKED: Set := SetOf("k0", "l0", "p0", "q0")
  const LIVE: Set := SetOf("k1", "l1", "p1", "q1")
  const METADATA := Metadata("c", "", "t", "w", "i", "j", "e")

  const REGISTERED := Application("c", [Credential("k1", None, 0, 9), Credential("l1", None, 0, 9)],
                                  [Credential("p1", None, 0, 9), Credential("q1", None, 0, 9)])

  const ISSUED: Issued := map["k0" := Issue(9, "a"), "l0" := Issue(9, "b"), "p0" := Issue(9, "x"), "q0" := Issue(9, "y"),
                              "k1" := Issue(9, "a"), "l1" := Issue(9, "b"), "p1" := Issue(9, "x"), "q1" := Issue(9, "y")]

  function First(): Data {
    map[] + SecretData(METADATA, REVOKED, NewDataKeys("A"))
  }

  function Both(): Data {
    First() + SecretData(METADATA, LIVE, NewDataKeys("B"))
  }

  function WithPrefix(keyPrefix: string, data: Data): State {
    State(Some(REGISTERED), ISSUED, 0, map["n" := data], {}, "", "h",
          Some(Resource(Spec("n", keyPrefix, "t", "h"), Status("n", "h", "t", None, KeyIds([], [])), None, {FINALIZER}, false)), 0)
  }

  lemma LiveSetIsLatest()
    ensures LatestSet(WithPrefix("B", Both())) == Some(LIVE)
  {
    SecretRoundTrip(First(), METADATA, LIVE, "B");
  }

  lemma KeysLive(data: Data)
    ensures var s := WithPrefix("B", data); forall id :: id in KeyIdsOf(LIVE) ==> Lives(Keys(s.app), id, s.issued, s.now)
  {
    assert REGISTERED.keys[0].keyId == "k1" && REGISTERED.keys[1].keyId == "l1";
  }

  lemma PasswordsLive(data: Data)
    ensures var s := WithPrefix("B", data); forall id :: id in PasswordIdsOf(LIVE) ==> Lives(Passwords(s.app), id, s.issued, s.now)
  {
    assert REGISTERED.passwords[0].keyId == "p1" && REGISTERED.passwords[1].keyId == "q1";
  }

  lemma IsConsistent()
    ensures Consistent(Some(REGISTERED), ISSUED)
  {
  }

  lemma CredentialsHoldBefore()
    ensures CredentialsHold(WithPrefix("B", Both()))
  {
    LiveSetIsLatest();
    KeysLive(Both());
    PasswordsLive(Both());
    IsConsistent();
  }

  lemma OnlyThePrefixChanges(data: Data)
    ensures ChangedByOthers(WithPrefix("B", data), WithPrefix("A", data))
  {
  }

  lemma PrefixesBeginDifferently()
    ensures BeginDifferently("A", "B")
  {
    assert SecretPrefix("A")[0] == 'A' && SecretPrefix("B")[0] == 'B';
  }

  lemma FirstSetIsRevoked()
    ensures "k0" in ISSUED && ISSUED["k0"].end == 9 && forall c :: c in REGISTERED.keys ==> c.keyId != "k0"
  {
  }

  /** Changing the prefix back from "B" to "A" makes the revoked set the latest one, and the next
      validation fails. */
  lemma ChangedBack() returns (s: State, s': State)
    ensures CredentialsHold(s) && ChangedByOthers(s, s') && s'.secrets == s.secrets
    ensures s'.resource.Some? && !s'.resource.value.deleting && LatestSet(s') == Some(REVOKED)
    ensures !IsSafeEdit(s, s') && !CredentialsHold(s') && !SetUnexpired(REVOKED, s'.app, s'.now)
  {
    var data := Both();
    s, s' := WithPrefix("B", data), WithPrefix("A", data);
    CredentialsHoldBefore();
    OnlyThePrefixChanges(data);
    PrefixesBeginDifferently();
    FirstSetIsRevoked();
    ChangingBackFails(s, s', REVOKED, LIVE, map[], METADATA, METADATA, 0);
  }
}
