/** The apps of the directory: how one is looked up, and the cache that remembers which of
    them are managed. */
module Applications {

  import opened Wrappers

  const IAC_APP_TAG := "azurerator_appreg"
  const LEGACY_IAC_APP_TAG := "iac_appreg"

  /** For how many seconds an app is remembered as not managed. */
  const UNMANAGED_TTL := 15 * 60

  datatype App = App(clientId: string, name: string, tags: seq<string>)

  /** The apps, the client IDs of the service principals, and the other way about. */
  datatype Directory = Directory(apps: seq<App>, principals: map<string, string>, principalIds: map<string, string>)

  predicate IsTagged(tags: seq<string>) {
    IAC_APP_TAG in tags || LEGACY_IAC_APP_TAG in tags
  }

  /** Both the tag and its predecessor mark an app as managed. */
  lemma TaggedExactly(tags: seq<string>)
    ensures IsTagged(tags) <==> "azurerator_appreg" in tags || "iac_appreg" in tags
  {
  }

  // ------------------------------------------------------------- the cache

  datatype Item = Item(managed: bool, expires: Option<int>)

  type Items = map<string, Item>

  /** A question put to the cache: an app's ID, and the tags that it had at that time. */
  datatype Question = Question(id: string, tags: seq<string>, now: int)

  predicate IsFresh(items: Items, id: string, now: int) {
    id in items && (items[id].expires.Some? ==> now <= items[id].expires.value)
  }

  function Answer(items: Items, q: Question): bool {
    if IsFresh(items, q.id, q.now) then items[q.id].managed else IsTagged(q.tags)
  }

  function ItemFor(q: Question): Item {
    if IsTagged(q.tags) then Item(true, None) else Item(false, Some(q.now + UNMANAGED_TTL))
  }

  function AfterQuestion(items: Items, q: Question): Items {
    if IsFresh(items, q.id, q.now) then items else items[q.id := ItemFor(q)]
  }

  /** What the cache holds after some questions. */
  function Cached(history: seq<Question>): Items {
    if history == [] then
      map[]
    else
      AfterQuestion(Cached(history[..|history| - 1]), history[|history| - 1])
  }

  /** Every item was written for an earlier question. */
  lemma {:induction false} ItemsWereSeen(history: seq<Question>, id: string)
    requires id in Cached(history)
    ensures exists q :: q in history && q.id == id && Cached(history)[id] == ItemFor(q)
  {
    var init, last := history[..|history| - 1], history[|history| - 1];
    assert history == init + [last];
    if id in Cached(init) && Cached(history)[id] == Cached(init)[id] {
      ItemsWereSeen(init, id);
    } else {
      assert last.id == id && Cached(history)[id] == ItemFor(last);
    }
  }

  /** It was asked about the app when its tags said so, and, if they said that it is not
      managed, no longer than fifteen minutes before `since`. */
  predicate WasSeen(history: seq<Question>, since: int, id: string, managed: bool) {
    exists q :: q in history && q.id == id && IsTagged(q.tags) == managed && (!managed ==> since <= q.now + UNMANAGED_TTL)
  }

  lemma FreshWasSeen(history: seq<Question>, id: string, now: int)
    requires IsFresh(Cached(history), id, now)
    ensures WasSeen(history, now, id, Cached(history)[id].managed)
  {
    ItemsWereSeen(history, id);
    var q :| q in history && q.id == id && Cached(history)[id] == ItemFor(q);
    assert IsTagged(q.tags) == Cached(history)[id].managed;
  }

  /** No answer is made up: the tags said so at this or an earlier question. */
  lemma AnswerWasSeen(history: seq<Question>, q: Question)
    ensures WasSeen(history + [q], q.now, q.id, Answer(Cached(history), q))
  {
    if IsFresh(Cached(history), q.id, q.now) {
      FreshWasSeen(history, q.id, q.now);
      var managed := Answer(Cached(history), q);
      var p :| p in history && p.id == q.id && IsTagged(p.tags) == managed && (!managed ==> q.now <= p.now + UNMANAGED_TTL);
      assert p in history + [q];
    } else {
      assert q in history + [q];
    }
  }

  /** Once fifteen minutes have passed since an app was tagged, it is known to be managed. */
  lemma StaleAnswersEnd(history: seq<Question>, q: Question, since: int)
    requires forall p :: p in history + [q] && p.id == q.id && since <= p.now ==> IsTagged(p.tags)
    requires since + 15 * 60 < q.now
    ensures Answer(Cached(history), q)
  {
  }

  /** Once an app is known to be managed, it stays so, whatever becomes of its tags. */
  lemma {:induction false} ManagedIsForever(history: seq<Question>, more: seq<Question>, id: string)
    requires id in Cached(history) && Cached(history)[id] == Item(true, None)
    ensures id in Cached(history + more) && Cached(history + more)[id] == Item(true, None)
  {
    if more == [] {
      assert history + more == history;
    } else {
      ManagedIsForever(history, more[..|more| - 1], id);
      assert (history + more)[..|history + more| - 1] == history + more[..|more| - 1];
    }
  }

  /** The cache says what the tags say. */
  predicate Agrees(items: Items, apps: seq<App>) {
    forall a :: a in apps && a.clientId in items ==> items[a.clientId].managed == IsTagged(a.tags)
  }

  predicate HasUniqueClientIds(apps: seq<App>) {
    forall i, j :: 0 <= i < j < |apps| ==> apps[i].clientId != apps[j].clientId
  }

  /** Client IDs are unique, and the cache agreed with the tags before. */
  predicate AgreedBefore(dir: Directory, before: seq<Question>) {
    HasUniqueClientIds(dir.apps) && Agrees(Cached(before), dir.apps)
  }

  class Cache {
    var items: Items
    var now: int
    ghost var history: seq<Question>
    ghost var failures: nat

    ghost predicate Valid()
      reads this
    {
      && items == Cached(history)
      && forall q :: q in history ==> q.now <= now
    }

    constructor ()
      ensures Valid() && history == []
    {
      items := map[];
      history := [];
    }

    /** Time passes between any two questions. */
    method Wait()
      requires Valid()
      modifies this`now
      ensures Valid() && old(now) <= now
    {
      var later: int := *;
      if now <= later {
        now := later;
      }
    }

    /** A call to the directory; one that fails is counted. */
    method Call() returns (ok: bool)
      requires Valid()
      modifies this`now, this`failures
      ensures Valid() && old(now) <= now
      ensures failures == if ok then old(failures) else old(failures) + 1
    {
      Wait();
      ok := *;
      if !ok {
        failures := failures + 1;
      }
    }

    method Get(id: string) returns (found: Option<bool>)
      requires Valid()
      modifies this`now
      ensures Valid() && old(now) <= now
      ensures found == if IsFresh(items, id, now) then Some(items[id].managed) else None
    {
      Wait();
      if id in items && (items[id].expires.None? || now <= items[id].expires.value) {
        return Some(items[id].managed);
      }
      return None;
    }

    method IsManaged(app: App) returns (managed: bool)
      requires Valid()
      modifies this
      ensures Valid()
      ensures history == old(history) + [Question(app.clientId, app.tags, now)]
      ensures managed == Answer(old(items), Question(app.clientId, app.tags, now))
      ensures old(now) <= now && failures == old(failures)
    {
      var val := Get(app.clientId);
      ghost var q := Question(app.clientId, app.tags, now);
      assert (history + [q])[..|history|] == history;
      history := history + [q];
      if val.Some? {
        return val.value;
      }
      for i := 0 to |app.tags|
        invariant IAC_APP_TAG !in app.tags[..i] && LEGACY_IAC_APP_TAG !in app.tags[..i]
        invariant items == old(items) && history == old(history) + [q] && failures == old(failures)
      {
        assert app.tags[..i + 1] == app.tags[..i] + [app.tags[i]];
        if app.tags[i] == IAC_APP_TAG || app.tags[i] == LEGACY_IAC_APP_TAG {
          items := items[app.clientId := Item(true, None)];
          return true;
        }
      }
      assert app.tags[..|app.tags|] == app.tags;
      items := items[app.clientId := Item(false, Some(now + UNMANAGED_TTL))];
      return false;
    }
  }

  // ---------------------------------------------------------- agreement

  predicate IsAbout(q: Question, apps: seq<App>) {
    exists a :: a in apps && q.id == a.clientId && q.tags == a.tags
  }

  /** What was asked since concerns apps of the directory, with their tags. */
  predicate AsksOnly(before: seq<Question>, after: seq<Question>, apps: seq<App>) {
    && before <= after
    && forall i :: |before| <= i < |after| ==> IsAbout(after[i], apps)
  }

  lemma SameApp(apps: seq<App>, a: App, b: App)
    requires HasUniqueClientIds(apps) && a in apps && b in apps && a.clientId == b.clientId
    ensures a == b
  {
  }

  lemma OneAnswerAgrees(items: Items, q: Question, apps: seq<App>, a: App)
    requires HasUniqueClientIds(apps) && Agrees(items, apps)
    requires a in apps && q.id == a.clientId && q.tags == a.tags
    ensures Agrees(AfterQuestion(items, q), apps)
    ensures Answer(items, q) == IsTagged(a.tags)
  {
  }

  /** A cache that agrees with the tags goes on to do so. */
  lemma {:induction false} AgreementIsKept(before: seq<Question>, after: seq<Question>, apps: seq<App>)
    requires HasUniqueClientIds(apps) && Agrees(Cached(before), apps) && AsksOnly(before, after, apps)
    ensures Agrees(Cached(after), apps)
    decreases |after|
  {
    if |after| > |before| {
      var init, last := after[..|after| - 1], after[|after| - 1];
      AgreementIsKept(before, init, apps);
      var a :| a in apps && last.id == a.clientId && last.tags == a.tags;
      OneAnswerAgrees(Cached(init), last, apps, a);
    } else {
      assert before == after;
    }
  }

  // ------------------------------------------------------------- lookups

  datatype Filter = ByName(name: string) | ByClientId(id: string)

  predicate Matches(f: Filter, a: App) {
    match f
    case ByName(name) => a.name == name
    case ByClientId(id) => a.clientId == id
  }

  function Matching(apps: seq<App>, f: Filter): (r: seq<App>)
    ensures forall a :: a in r <==> a in apps && Matches(f, a)
  {
    if apps == [] then
      []
    else
      var rest := Matching(apps[1..], f);
      if Matches(f, apps[0]) then [apps[0]] + rest else rest
  }

  /** The one app that matches, if there is one; more than one is an error. */
  function Lookup(apps: seq<App>, f: Filter): (r: Result<Option<App>>)
    ensures r.Ok? && r.value.Some? ==> r.value.value in apps && Matches(f, r.value.value)
    ensures r.Ok? && r.value.None? ==> forall a :: a in apps ==> !Matches(f, a)
  {
    var matches := Matching(apps, f);
    if |matches| == 0 then
      assert forall a :: a in apps && Matches(f, a) ==> a in matches;
      Ok(None)
    else if |matches| > 1 then
      Err
    else
      assert matches[0] in matches;
      Ok(Some(matches[0]))
  }

  predicate IsFound(apps: seq<App>, f: Filter) {
    Lookup(apps, f).Ok? && Lookup(apps, f).value.Some?
  }

  lemma {:induction false} NoneMatch(apps: seq<App>, f: Filter)
    requires forall a :: a in apps ==> !Matches(f, a)
    ensures Matching(apps, f) == []
  {
    if apps != [] {
      assert apps[0] in apps;
      NoneMatch(apps[1..], f);
    }
  }

  /** Where client IDs are unique, looking one up never fails for there being more. */
  lemma {:induction false} ClientIdLookup(apps: seq<App>, a: App)
    requires HasUniqueClientIds(apps) && a in apps
    ensures Matching(apps, ByClientId(a.clientId)) == [a]
  {
    var rest := Matching(apps[1..], ByClientId(a.clientId));
    if apps[0] == a {
      forall b | b in apps[1..]
        ensures !Matches(ByClientId(a.clientId), b)
      {
        var i :| 0 <= i < |apps| - 1 && apps[1..][i] == b;
        assert apps[i + 1] == b;
      }
      NoneMatch(apps[1..], ByClientId(a.clientId));
    } else {
      var i :| 0 <= i < |apps| && apps[i] == a;
      ClientIdLookup(apps[1..], a);
    }
  }

  /** No two apps have the same name, or the same client ID. */
  predicate IsUnambiguous(apps: seq<App>) {
    HasUniqueClientIds(apps) && forall i, j :: 0 <= i < j < |apps| ==> apps[i].name != apps[j].name
  }

  /** Then looking one up never fails for there being more. */
  lemma {:induction false} NeverAmbiguous(apps: seq<App>, f: Filter)
    requires IsUnambiguous(apps)
    ensures Lookup(apps, f).Ok?
    ensures (exists a :: a in apps && Matches(f, a)) ==> IsFound(apps, f)
  {
    if apps != [] {
      var rest := apps[1..];
      NeverAmbiguous(rest, f);
      if Matches(f, apps[0]) {
        NoneMatch(rest, f);
      }
    }
  }

  method GetAll(apps: seq<App>, f: Filter, cache: Cache) returns (r: Result<seq<App>>)
    requires cache.Valid()
    modifies cache
    ensures cache.Valid() && AsksOnly(old(cache.history), cache.history, apps) && old(cache.now) <= cache.now
    ensures r.Ok? ==> r.value == Matching(apps, f)
    ensures cache.failures == if r.Ok? then old(cache.failures) else old(cache.failures) + 1
  {
    var ok := cache.Call();
    if !ok {
      return Err;
    }
    var found := Matching(apps, f);
    for i := 0 to |found|
      invariant cache.Valid() && AsksOnly(old(cache.history), cache.history, apps) && old(cache.now) <= cache.now
      invariant cache.failures == old(cache.failures)
    {
      assert found[i] in found;
      var _ := cache.IsManaged(found[i]);
    }
    return Ok(found);
  }

  method ExistsByFilter(apps: seq<App>, f: Filter, cache: Cache) returns (r: Result<Option<App>>)
    requires cache.Valid()
    modifies cache
    ensures cache.Valid() && AsksOnly(old(cache.history), cache.history, apps) && old(cache.now) <= cache.now
    ensures r.Ok? ==> r == Lookup(apps, f)
    ensures cache.failures == old(cache.failures) ==> r == Lookup(apps, f)
    ensures old(cache.failures) <= cache.failures
  {
    var found :- GetAll(apps, f, cache);
    if |found| == 0 {
      return Ok(None);
    }
    if |found| > 1 {
      return Err;
    }
    return Ok(Some(found[0]));
  }

  /** Here an app that does not exist is an error as well. */
  method GetSingle(apps: seq<App>, f: Filter, cache: Cache) returns (r: Result<App>)
    requires cache.Valid()
    modifies cache
    ensures cache.Valid() && AsksOnly(old(cache.history), cache.history, apps) && old(cache.now) <= cache.now
    ensures r.Ok? ==> Lookup(apps, f) == Ok(Some(r.value))
    ensures cache.failures == old(cache.failures) && r.Err? ==> !IsFound(apps, f)
    ensures old(cache.failures) <= cache.failures
  {
    var found :- GetAll(apps, f, cache);
    if |found| != 1 {
      return Err;
    }
    return Ok(found[0]);
  }
}
