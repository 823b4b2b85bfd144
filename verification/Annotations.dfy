/** The annotations of a Kubernetes object, and the queue that the program
    keeps in one annotation value as a comma-separated string. */
module Annotations {

  import opened Wrappers

  const PRESERVE_KEY := "azure.nais.io/preserve"
  const RESYNCHRONIZE_KEY := "azure.nais.io/resync"
  const ROTATE_KEY := "azure.nais.io/rotate"
  const CORRELATION_ID_KEY := "nais.io/deploymentCorrelationID"

  type AnnotationMap = map<string, string>

  // ------------------------------------------------------------- strings

  /** Splitting at every comma. The empty string has one, empty, segment. */
  function Split(s: string): (parts: seq<string>)
    ensures |parts| >= 1
    ensures forall p :: p in parts ==> ',' !in p
  {
    if s == "" then
      [""]
    else
      var rest := Split(s[1..]);
      if s[0] == ',' then
        [""] + rest
      else
        [[s[0]] + rest[0]] + rest[1..]
  }

  function Join(parts: seq<string>): string {
    if |parts| == 0 then
      ""
    else if |parts| == 1 then
      parts[0]
    else
      parts[0] + "," + Join(parts[1..])
  }

  /** The position of the last comma, or -1. */
  function LastComma(s: string): (i: int)
    ensures -1 <= i < |s|
    ensures i >= 0 ==> s[i] == ','
    ensures forall j :: i < j < |s| ==> s[j] != ','
  {
    if s == "" then
      -1
    else if s[|s| - 1] == ',' then
      |s| - 1
    else
      LastComma(s[..|s| - 1])
  }

  function LastEntry(s: string): string {
    var i := LastComma(s);
    if i >= 0 then s[i + 1..] else s
  }

  lemma {:induction false} JoinUndoesSplit(s: string)
    ensures Join(Split(s)) == s
  {
    if s != "" {
      JoinUndoesSplit(s[1..]);
      var rest := Split(s[1..]);
      if s[0] == ',' {
        assert ([""] + rest)[1..] == rest;
      } else {
        var parts := [[s[0]] + rest[0]] + rest[1..];
        assert parts[1..] == rest[1..];
      }
    }
  }

  lemma {:induction false} SplitOfPlain(s: string)
    requires ',' !in s
    ensures Split(s) == [s]
  {
    if s != "" {
      SplitOfPlain(s[1..]);
      assert [s[0]] + s[1..] == s;
      assert Split(s[1..])[1..] == [];
    }
  }

  lemma SplitStep(s: string, rest: seq<string>)
    requires s != "" && Split(s[1..]) == rest
    ensures Split(s) == if s[0] == ',' then [""] + rest else [[s[0]] + rest[0]] + rest[1..]
  {
  }

  lemma {:induction false} SplitOfConcatenation(s: string, t: string)
    ensures Split(s + "," + t) == Split(s) + Split(t)
  {
    var whole := s + "," + t;
    if s == "" {
      assert whole[1..] == t;
    } else {
      var rest := Split(s[1..]);
      assert Split(whole[1..]) == rest + Split(t) by {
        SplitOfConcatenation(s[1..], t);
        assert whole[1..] == s[1..] + "," + t;
      }
      SplitStep(whole, rest + Split(t));
      SplitStep(s, rest);
    }
  }

  lemma {:induction false} SplitUndoesJoin(parts: seq<string>)
    requires parts != []
    requires forall p :: p in parts ==> ',' !in p
    ensures Split(Join(parts)) == parts
  {
    SplitOfPlain(parts[0]);
    if |parts| > 1 {
      SplitUndoesJoin(parts[1..]);
      SplitOfConcatenation(parts[0], Join(parts[1..]));
    }
  }

  lemma SplitOfJoinedPair(s: string, t: string)
    ensures Split(Join([s, t])) == Split(s) + Split(t)
  {
    assert Join([s, t]) == s + "," + t by {
      assert [s, t][1..] == [t];
    }
    SplitOfConcatenation(s, t);
  }

  lemma LastEntryIsLastSegment(s: string)
    ensures LastEntry(s) == Split(s)[|Split(s)| - 1]
  {
    var i := LastComma(s);
    if i >= 0 {
      assert s == s[..i] + "," + s[i + 1..];
      SplitOfConcatenation(s[..i], s[i + 1..]);
      SplitOfPlain(s[i + 1..]);
    } else {
      SplitOfPlain(s);
    }
  }

  // --------------------------------------------------- the queue of a key

  /** The queue that a key holds. A key that is present never holds an empty queue. */
  function Queue(m: AnnotationMap, key: string): (q: seq<string>)
    ensures q == [] <==> key !in m
  {
    if key in m then Split(m[key]) else []
  }

  /** Appending, unless the last entry is already the same. */
  function Enqueue(q: seq<string>, value: string): seq<string> {
    if q != [] && q[|q| - 1] == value then q else q + Split(value)
  }

  function Dequeue(q: seq<string>): seq<string> {
    if q == [] then [] else q[1..]
  }

  // ------------------------------------------------------ map operations

  function Appended(existing: string, value: string): string {
    if LastEntry(existing) == value then existing else Join([existing, value])
  }

  function AddedTo(m: AnnotationMap, key: string, value: string): AnnotationMap {
    m[key := if key in m then Appended(m[key], value) else value]
  }

  function RemovedFrom(m: AnnotationMap, key: string): AnnotationMap {
    if key !in m then
      m
    else
      var values := Split(m[key]);
      if |values| > 1 then m[key := Join(values[1..])] else m - {key}
  }

  lemma AppendedRefinesEnqueue(existing: string, value: string)
    ensures Split(Appended(existing, value)) == Enqueue(Split(existing), value)
  {
    LastEntryIsLastSegment(existing);
    if LastEntry(existing) != value {
      SplitOfJoinedPair(existing, value);
    }
  }

  /** The string operations refine the queue operations. */
  lemma AddRefinesEnqueue(m: AnnotationMap, key: string, value: string)
    ensures Queue(AddedTo(m, key, value), key) == Enqueue(Queue(m, key), value)
  {
    if key in m {
      AppendedRefinesEnqueue(m[key], value);
      assert AddedTo(m, key, value)[key] == Appended(m[key], value);
    } else {
      assert [] + Split(value) == Split(value);
    }
  }

  lemma RemoveRefinesDequeue(m: AnnotationMap, key: string)
    ensures Queue(RemovedFrom(m, key), key) == Dequeue(Queue(m, key))
  {
    if key in m {
      var values := Split(m[key]);
      if |values| > 1 {
        SplitUndoesJoin(values[1..]);
      }
    }
  }

  /** Neither operation touches another key. */
  lemma OtherKeysUntouched(m: AnnotationMap, key: string, value: string)
    ensures AddedTo(m, key, value) - {key} == m - {key}
    ensures RemovedFrom(m, key) - {key} == m - {key}
  {
  }

  /** A value with commas counts as several entries, and is then never suppressed. */
  lemma EnqueueGrows(q: seq<string>, value: string)
    requires forall e :: e in q ==> ',' !in e
    ensures q <= Enqueue(q, value)
    ensures ',' !in value ==>
              Enqueue(q, value) == if q != [] && q[|q| - 1] == value then q else q + [value]
    ensures ',' in value ==> Enqueue(q, value) == q + Split(value)
    ensures Enqueue(q, value) == q <==> q != [] && q[|q| - 1] == value
  {
    if ',' !in value {
      SplitOfPlain(value);
    }
  }

  // ------------------------------------------------------------- objects

  /** An object with annotations. A decoded object without any annotation has a
      nil map, which reads as empty but cannot be written to. */
  class Object {
    var annotations: Option<AnnotationMap>

    constructor (annotations: Option<AnnotationMap>)
      ensures this.annotations == annotations
    {
      this.annotations := annotations;
    }

    function Items(): AnnotationMap
      reads this
    {
      if annotations.Some? then annotations.value else map[]
    }

    method SetAnnotation(key: string, value: string)
      modifies this
      ensures annotations == Some(old(Items())[key := value])
    {
      var a := if annotations.None? then map[] else annotations.value;
      a := a[key := value];
      annotations := Some(a);
    }

    method AddToAnnotation(key: string, value: string)
      modifies this
      ensures annotations == Some(AddedTo(old(Items()), key, value))
      ensures Queue(Items(), key) == Enqueue(old(Queue(Items(), key)), value)
      ensures Items() - {key} == old(Items()) - {key}
    {
      AddRefinesEnqueue(Items(), key, value);
      if annotations.None? {
        SetAnnotation(key, value);
        return;
      }
      var a := annotations.value;
      if key !in a {
        a := a[key := value];
        annotations := Some(a);
        return;
      }
      var existing := a[key];
      if LastEntry(existing) == value {
        assert a[key := existing] == a;
        return;
      }
      a := a[key := Join([existing, value])];
      annotations := Some(a);
    }

    method RemoveAnnotation(key: string)
      modifies this
      ensures Items() == old(Items()) - {key}
      ensures old(annotations.None?) ==> annotations.None?
      ensures old(annotations.Some?) ==> annotations.Some?
    {
      if key in Items() {
        annotations := Some(annotations.value - {key});
      }
    }

    method RemoveFromAnnotation(key: string)
      modifies this
      ensures Items() == RemovedFrom(old(Items()), key)
      ensures Queue(Items(), key) == Dequeue(old(Queue(Items(), key)))
      ensures Items() - {key} == old(Items()) - {key}
      ensures old(annotations.None?) ==> annotations.None?
      ensures old(annotations.Some?) ==> annotations.Some?
    {
      RemoveRefinesDequeue(Items(), key);
      if key !in Items() {
        return;
      }
      var a := annotations.value;
      var values := Split(a[key]);
      if |values| > 1 {
        a := a[key := Join(values[1..])];
      } else {
        a := a - {key};
      }
      annotations := Some(a);
    }
  }
}
