/** Strings, and lists of them. */
module Strings {

  /** What an app is called in the directory, and in events. */
  function QualifiedName(cluster: string, namespace: string, name: string): string {
    cluster + ":" + namespace + ":" + name
  }

  /** The distinct elements of a list, in the order of their first occurrence. */
  function Distinct(list: seq<string>): (r: seq<string>)
    ensures forall x :: x in r <==> x in list
    ensures forall i, j :: 0 <= i < j < |r| ==> r[i] != r[j]
  {
    if list == [] then
      []
    else
      var last := list[|list| - 1];
      assert list == list[..|list| - 1] + [last];
      var rest := Distinct(list[..|list| - 1]);
      if last in rest then rest else rest + [last]
  }

  method RemoveDuplicates(list: seq<string>) returns (filtered: seq<string>)
    ensures filtered == Distinct(list)
  {
    var seen: set<string> := {};
    filtered := [];
    for i := 0 to |list|
      invariant filtered == Distinct(list[..i])
      invariant forall x :: x in seen <==> x in filtered
    {
      assert list[..i + 1][..i] == list[..i];
      if list[i] !in seen {
        seen := seen + {list[i]};
        filtered := filtered + [list[i]];
      }
    }
    assert list[..|list|] == list;
  }

  /** A string that is longer than all of a finite set of strings. */
  lemma {:induction false} UnusedStringExists(used: set<string>) returns (unused: string)
    ensures unused !in used && unused != ""
    ensures forall u :: u in used ==> |u| < |unused|
    decreases used
  {
    if used == {} {
      unused := "0";
    } else {
      var u :| u in used;
      var rest := UnusedStringExists(used - {u});
      unused := if |u| < |rest| then rest else u + "0";
    }
  }
}
