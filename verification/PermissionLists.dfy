/** The entry lists of an app, described for a creation or an update. Both the roles and
    the scopes are handled in this way. The order of a list is that of an iteration over
    a map, which may be any. */
module PermissionLists {

  import opened Permissions

  predicate KeyedPermissions(m: PermissionMap) {
    forall n :: n in m ==> m[n].name == n
  }

  // ------------------------------------------------------------------ maps

  method CollectToCreate(side: Side, m: EntryMap, desired: PermissionMap) returns (toCreate: EntryMap)
    requires KeyedPermissions(desired)
    ensures toCreate == ToCreate(side, m, desired)
  {
    toCreate := map[];
    if ReservedName(side) !in m {
      toCreate := toCreate[ReservedName(side) := DefaultEntry(side)];
    }
    var rest := desired.Keys;
    while rest != {}
      invariant rest <= desired.Keys
      invariant toCreate == ToCreate(side, m, desired - rest)
      decreases rest
    {
      var n :| n in rest;
      OneMoreToCreate(side, m, desired - rest, n, desired[n]);
      assert (desired - rest)[n := desired[n]] == desired - (rest - {n});
      rest := rest - {n};
      if desired[n].name == ReservedName(side) {
        continue;
      }
      if desired[n].name !in m {
        toCreate := toCreate[desired[n].name := NewEntry(side, desired[n].id, desired[n].name)];
      }
    }
    assert desired - rest == desired;
  }

  lemma OneMoreToCreate(side: Side, m: EntryMap, desired: PermissionMap, n: string, p: Permission)
    requires n !in desired && p.name == n
    ensures ToCreate(side, m, desired[n := p]) ==
            if n in m || n == ReservedName(side) then ToCreate(side, m, desired)
            else ToCreate(side, m, desired)[n := NewEntry(side, p.id, n)]
  {
  }

  method CollectToDisable(side: Side, m: EntryMap, desired: PermissionMap) returns (toDisable: EntryMap)
    requires KeyedByName(m)
    ensures toDisable == ToDisable(side, m, desired)
  {
    toDisable := map[];
    var rest := m.Keys;
    while rest != {}
      invariant rest <= m.Keys
      invariant toDisable == map n | n in m && n !in rest && n !in desired :: m[n].(enabled := false)
      decreases rest
    {
      var n :| n in rest;
      rest := rest - {n};
      if m[n].value !in desired {
        toDisable := toDisable[m[n].value := m[n].(enabled := false)];
      }
    }
    toDisable := toDisable - {ReservedName(side)};
  }

  method CollectUnmodified(side: Side, m: EntryMap, toCreate: EntryMap, toDisable: EntryMap) returns (unmodified: EntryMap)
    requires KeyedByName(m)
    ensures unmodified == Unmodified(side, m, toCreate, toDisable)
  {
    unmodified := map[];
    var rest := m.Keys;
    while rest != {}
      invariant rest <= m.Keys
      invariant unmodified == map n | n in m && n !in rest && n !in toCreate && n !in toDisable :: NewEntry(side, m[n].id, n)
      decreases rest
    {
      var n :| n in rest;
      rest := rest - {n};
      if m[n].value in toCreate || m[n].value in toDisable {
        continue;
      }
      unmodified := unmodified[m[n].value := NewEntry(side, m[n].id, m[n].value)];
    }
  }

  // ----------------------------------------------------------------- lists

  method ToSlice(m: EntryMap) returns (entries: seq<Entry>)
    requires KeyedByName(m)
    ensures Lists(entries, m)
  {
    entries := [];
    var rest := m.Keys;
    while rest != {}
      invariant rest <= m.Keys
      invariant Lists(entries, map n | n in m && n !in rest :: m[n])
      decreases rest
    {
      var n :| n in rest;
      ListsOneMore(entries, map k | k in m && k !in rest :: m[k], m[n]);
      assert (map k | k in m && k !in rest :: m[k])[n := m[n]] == map k | k in m && k !in rest - {n} :: m[k];
      rest := rest - {n};
      entries := entries + [m[n]];
    }
    assert m == map n | n in m && n !in rest :: m[n];
  }

  lemma ListsOneMore(entries: seq<Entry>, m: EntryMap, e: Entry)
    requires Lists(entries, m) && e.value !in m
    ensures Lists(entries + [e], m[e.value := e])
  {
  }

  lemma ListsTogether(a: seq<Entry>, b: seq<Entry>, m: EntryMap, k: EntryMap)
    requires Lists(a, m) && Lists(b, k) && m.Keys !! k.Keys
    ensures Lists(a + b, m + k)
  {
  }

  /** The fixes made to a list before it is handed over: the default entry is enabled,
      and every scope requires admin consent. */
  function Fixed(side: Side, e: Entry): Entry {
    var consented := Finished(side, e);
    if e.value == ReservedName(side) then consented.(enabled := true) else consented
  }

  method FixInPlace(side: Side, a: array<Entry>)
    modifies a
    ensures forall i :: 0 <= i < a.Length ==> a[i] == Fixed(side, old(a[i]))
  {
    if side.Scopes? {
      for i := 0 to a.Length
        invariant forall j :: 0 <= j < i ==> a[j] == Finished(side, old(a[j]))
        invariant forall j :: i <= j < a.Length ==> a[j] == old(a[j])
      {
        if a[i].kind != SCOPE_TYPE {
          a[i] := a[i].(kind := SCOPE_TYPE);
        }
      }
    }
    assert forall j :: 0 <= j < a.Length ==> a[j] == Finished(side, old(a[j]));
    for i := 0 to a.Length
      invariant forall j :: 0 <= j < i ==> a[j] == Fixed(side, old(a[j]))
      invariant forall j :: i <= j < a.Length ==> a[j] == Finished(side, old(a[j]))
    {
      if a[i].value == ReservedName(side) && !a[i].enabled {
        a[i] := a[i].(enabled := true);
      }
    }
  }

  function AllFixed(side: Side, m: EntryMap): EntryMap {
    map n | n in m :: Fixed(side, m[n])
  }

  predicate AreFixed(side: Side, entries: seq<Entry>, fixed: seq<Entry>) {
    |fixed| == |entries| && forall i :: 0 <= i < |entries| ==> fixed[i] == Fixed(side, entries[i])
  }

  lemma FixedKeepNames(side: Side, entries: seq<Entry>, fixed: seq<Entry>)
    requires AreFixed(side, entries, fixed)
    ensures forall i :: 0 <= i < |fixed| ==> fixed[i].value == entries[i].value
  {
  }

  lemma FixedIsListed(side: Side, entries: seq<Entry>, fixed: seq<Entry>, e: Entry)
    requires AreFixed(side, entries, fixed) && e in entries
    ensures Fixed(side, e) in fixed
  {
    var i :| 0 <= i < |entries| && entries[i] == e;
    assert fixed[i] == Fixed(side, e);
  }

  lemma ListedIsFixed(side: Side, entries: seq<Entry>, fixed: seq<Entry>, f: Entry) returns (e: Entry)
    requires AreFixed(side, entries, fixed) && f in fixed
    ensures e in entries && f == Fixed(side, e)
  {
    var i :| 0 <= i < |fixed| && fixed[i] == f;
    e := entries[i];
  }

  lemma ListsFixed(side: Side, entries: seq<Entry>, fixed: seq<Entry>, m: EntryMap)
    requires Lists(entries, m) && AreFixed(side, entries, fixed)
    ensures Lists(fixed, AllFixed(side, m))
  {
    FixedKeepNames(side, entries, fixed);
    forall f | f in fixed
      ensures f.value in m && f == Fixed(side, m[f.value])
    {
      var e := ListedIsFixed(side, entries, fixed, f);
    }
    forall n | n in m
      ensures Fixed(side, m[n]) in fixed
    {
      FixedIsListed(side, entries, fixed, m[n]);
    }
  }

  /** The entries to create for a new app. */
  method DescribeCreate(side: Side, desired: PermissionMap) returns (entries: seq<Entry>)
    requires KeyedPermissions(desired)
    ensures Lists(entries, ToCreate(side, map[], desired))
  {
    var toCreate := CollectToCreate(side, map[], desired);
    entries := ToSlice(toCreate);
  }

  lemma PartMakesUpDescribed(side: Side, m: EntryMap, desired: PermissionMap, n: string)
    requires KeyedByName(m)
    ensures var c, d, described := ToCreate(side, m, desired), ToDisable(side, m, desired), Described(side, m, desired);
            var all := Unmodified(side, m, c, d) + c + d;
            (n in described <==> n in all) && (n in all ==> described[n] == Fixed(side, all[n]))
  {
    var c, d := ToCreate(side, m, desired), ToDisable(side, m, desired);
    if n in d {
      assert n !in c;
    } else if n in c {
      assert n !in m;
    } else {
      assert n in Described(side, m, desired) <==> n in m;
    }
  }

  lemma PartsMakeUpDescribed(side: Side, m: EntryMap, desired: PermissionMap)
    requires KeyedByName(m)
    ensures var c, d := ToCreate(side, m, desired), ToDisable(side, m, desired);
            var all := Unmodified(side, m, c, d) + c + d;
            Described(side, m, desired) == AllFixed(side, all)
  {
    forall n {
      PartMakesUpDescribed(side, m, desired, n);
    }
  }

  /** The three parts of the description, one behind the other. */
  function Parts(side: Side, m: EntryMap, desired: PermissionMap): EntryMap {
    var c, d := ToCreate(side, m, desired), ToDisable(side, m, desired);
    Unmodified(side, m, c, d) + c + d
  }

  method CollectParts(side: Side, m: EntryMap, desired: PermissionMap) returns (all: seq<Entry>)
    requires KeyedPermissions(desired) && KeyedByName(m)
    ensures Lists(all, Parts(side, m, desired))
  {
    var toCreate := CollectToCreate(side, m, desired);
    var toDisable := CollectToDisable(side, m, desired);
    var unmodified := CollectUnmodified(side, m, toCreate, toDisable);
    var first := ToSlice(unmodified);
    var second := ToSlice(toCreate);
    var third := ToSlice(toDisable);
    ListsTogether(first, second, unmodified, toCreate);
    ListsTogether(first + second, third, unmodified + toCreate, toDisable);
    all := first + second + third;
  }

  method FixAll(side: Side, entries: seq<Entry>) returns (fixed: seq<Entry>)
    ensures AreFixed(side, entries, fixed)
  {
    var result := new Entry[|entries|](i requires 0 <= i < |entries| => entries[i]);
    FixInPlace(side, result);
    return result[..];
  }

  /** Adds what is missing, and disables what is not desired. */
  method DescribeUpdate(side: Side, desired: PermissionMap, existing: seq<Entry>) returns (entries: seq<Entry>)
    requires KeyedPermissions(desired)
    ensures Lists(entries, Described(side, ToMap(existing), desired))
  {
    var m := ListToMap(existing);
    var all := CollectParts(side, m, desired);
    entries := FixAll(side, all);
    ListsFixed(side, all, entries, Parts(side, m, desired));
    PartsMakeUpDescribed(side, m, desired);
  }

  /** The entries that are enabled, in their order. */
  function Enabled(entries: seq<Entry>): (r: seq<Entry>)
    ensures forall e :: e in r <==> e in entries && e.enabled
  {
    if entries == [] then
      []
    else
      var rest := Enabled(entries[..|entries| - 1]);
      var last := entries[|entries| - 1];
      assert entries == entries[..|entries| - 1] + [last];
      if last.enabled then rest + [last] else rest
  }

  method RemoveDisabled(entries: seq<Entry>) returns (desired: seq<Entry>)
    ensures desired == Enabled(entries)
  {
    desired := [];
    for i := 0 to |entries|
      invariant desired == Enabled(entries[..i])
    {
      assert entries[..i + 1][..i] == entries[..i];
      if entries[i].enabled {
        desired := desired + [entries[i]];
      }
    }
    assert entries[..|entries|] == entries;
  }

  function EnabledIn(m: EntryMap): EntryMap {
    map n | n in m && m[n].enabled :: m[n]
  }

  lemma {:induction false} EnabledAreDistinct(entries: seq<Entry>)
    requires forall i, j :: 0 <= i < j < |entries| ==> entries[i].value != entries[j].value
    ensures forall i, j :: 0 <= i < j < |Enabled(entries)| ==> Enabled(entries)[i].value != Enabled(entries)[j].value
  {
    if entries != [] {
      var init, last := entries[..|entries| - 1], entries[|entries| - 1];
      EnabledAreDistinct(init);
      assert forall e :: e in init ==> e.value != last.value;
      assert forall i :: 0 <= i < |Enabled(init)| ==> Enabled(init)[i] in Enabled(init);
    }
  }

  lemma ListsEnabled(entries: seq<Entry>, m: EntryMap)
    requires Lists(entries, m)
    ensures Lists(Enabled(entries), EnabledIn(m))
  {
    EnabledAreDistinct(entries);
  }
}
