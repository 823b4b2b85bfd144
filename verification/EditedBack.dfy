/** A spec that is edited and then set back, while a reconcile was interrupted in between: the app stays
    with the edit, and the status says that it has been dealt with. */
module EditedBack {

  import opened Wrappers
  import opened Annotations
  import opened Secrets
  import opened Environment
  import opened CredentialsClient
  import opened Options
  import opened Reconciler
  import opened Runs

  const CONFIG := Config("t", "", false, false, 100, false, Endpoints("w", "i", "j", "e"))

  /** The status has the spec "a"; the present spec, and the one that the app was brought to, are given. */
  function At(spec: string, applied: string, failures: nat): State {
    State(Some(Application("c", [], [])), map[], 0, map[], {}, "", applied,
          Some(Resource(Spec("n", "", "", spec), Status("n", "a", "t", None, KeyIds([], [])), None, {FINALIZER}, false)), failures)
  }

  lemma Edited(from: string, to: string, applied: string, failures: nat)
    ensures Next(At(from, applied, failures), At(to, applied, failures), CONFIG, External)
  {
  }

  /** A reconcile updates the app, and then fails. */
  lemma Interrupted()
    ensures Next(At("b", "a", 0), At("b", "b", 1), CONFIG, Act(Processed(None, false)))
  {
    var s, s' := At("b", "a", 0), At("b", "b", 1);
    assert Keeps(s, s', ProtectedIn(s));
    assert IsApplied(s, s'.applied);
  }

  /** The spec "a" has been dealt with; it is changed to "b", and back to "a" after one reconcile. */
  lemma SetBack() returns (states: seq<State>, actions: seq<Action>)
    ensures Run(states, actions, CONFIG) && |states| == 4 && FollowsSpec(states[0])
    ensures actions == [External, Act(Processed(None, false)), External]
    ensures IsSetBack(states[2], states[3]) && !FollowsSpec(states[3])
  {
    states := [At("a", "a", 0), At("b", "a", 0), At("b", "b", 1), At("a", "b", 1)];
    actions := [External, Act(Processed(None, false)), External];
    Edited("a", "b", "a", 0);
    Interrupted();
    Edited("b", "a", "b", 1);
    assert NextAt(states, actions, CONFIG, 0) && NextAt(states, actions, CONFIG, 1) && NextAt(states, actions, CONFIG, 2);
  }
}
