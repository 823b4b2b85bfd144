/** The last step of a reconcile: the annotations that it has processed are taken
    off the live object, and the rest of its own, older, copy is written over it.
    Other writers may have changed the live object in the meantime. */
module Completion {

  import opened Wrappers
  import opened Annotations

  // ------------------------------------------------------- specification

  /** What `m` keeps once the annotations seen by the reconcile are processed. */
  function Processed(seen: AnnotationMap, m: AnnotationMap): AnnotationMap {
    var popped := if RESYNCHRONIZE_KEY in seen then RemovedFrom(m, RESYNCHRONIZE_KEY) else m;
    if ROTATE_KEY in seen then popped - {ROTATE_KEY} else popped
  }

  function Merged(snapshot: AnnotationMap, live: AnnotationMap): AnnotationMap {
    Processed(snapshot, live) + Processed(snapshot, snapshot)
  }

  /** The queue left by the merge, as a function of the two queues. */
  function Remaining(snapshot: seq<string>, live: seq<string>): seq<string> {
    if snapshot == [] then live else if |snapshot| > 1 then snapshot[1..] else Dequeue(live)
  }

  // ---------------------------------------------------------- operations

  /** Writes the merge into `existing`. Copying into a nil map panics, which is the error here. */
  method UpdateAnnotations(instance: Object, existing: Object) returns (r: Result<()>)
    requires instance != existing
    modifies instance, existing
    ensures r.Err? <==>
            && old(existing.annotations).None?
            && Processed(old(instance.Items()), old(instance.Items())) != map[]
    ensures r.Ok? ==> existing.Items() == Merged(old(instance.Items()), old(existing.Items()))
    ensures r.Ok? ==>
              Queue(existing.Items(), RESYNCHRONIZE_KEY) ==
              Remaining(old(Queue(instance.Items(), RESYNCHRONIZE_KEY)), old(Queue(existing.Items(), RESYNCHRONIZE_KEY)))
  {
    ghost var snapshot, live := instance.Items(), existing.Items();
    MergedQueue(snapshot, live);
    if RESYNCHRONIZE_KEY in instance.Items() {
      instance.RemoveFromAnnotation(RESYNCHRONIZE_KEY);
      existing.RemoveFromAnnotation(RESYNCHRONIZE_KEY);
    }
    assert ROTATE_KEY in instance.Items() <==> ROTATE_KEY in snapshot;
    if ROTATE_KEY in instance.Items() {
      instance.RemoveAnnotation(ROTATE_KEY);
      existing.RemoveAnnotation(ROTATE_KEY);
    }
    assert instance.Items() == Processed(snapshot, snapshot);
    assert existing.Items() == Processed(snapshot, live);
    if existing.annotations.None? {
      if instance.Items() != map[] {
        return Err;
      }
      assert existing.Items() == Merged(snapshot, live);
      return Ok(());
    }
    existing.annotations := Some(existing.annotations.value + instance.Items());
    return Ok(());
  }

  // ------------------------------------------------------- other writers

  /** What other writers do to the live object while the reconcile runs. */
  datatype Write =
    | Request(entry: string, id: string)        // an event of a producer
    | SweepMark                                 // the periodic sweep
    | Edit(key: string, value: string)          // anyone, on another annotation
    | Unset(key: string)

  const SWEEPER := "sweeper"

  predicate LeavesQueueAlone(w: Write) {
    && (w.Edit? ==> w.key != RESYNCHRONIZE_KEY)
    && (w.Unset? ==> w.key != RESYNCHRONIZE_KEY)
  }

  function Written(m: AnnotationMap, w: Write): AnnotationMap {
    match w
    case Request(entry, id) => AddedTo(m, RESYNCHRONIZE_KEY, entry)[CORRELATION_ID_KEY := id]
    case SweepMark => if RESYNCHRONIZE_KEY in m then m else m[RESYNCHRONIZE_KEY := SWEEPER]
    case Edit(key, value) => m[key := value]
    case Unset(key) => m - {key}
  }

  function AllWritten(m: AnnotationMap, ws: seq<Write>): AnnotationMap
    decreases |ws|
  {
    if ws == [] then m else AllWritten(Written(m, ws[0]), ws[1..])
  }

  function Enqueued(q: seq<string>, w: Write): seq<string> {
    match w
    case Request(entry, _) => Enqueue(q, entry)
    case SweepMark => if q != [] then q else [SWEEPER]
    case _ => q
  }

  function AllEnqueued(q: seq<string>, ws: seq<Write>): seq<string>
    decreases |ws|
  {
    if ws == [] then q else AllEnqueued(Enqueued(q, ws[0]), ws[1..])
  }

  // --------------------------------------------------------------- lemmas

  lemma MergedQueue(snapshot: AnnotationMap, live: AnnotationMap)
    ensures Queue(Merged(snapshot, live), RESYNCHRONIZE_KEY) ==
            Remaining(Queue(snapshot, RESYNCHRONIZE_KEY), Queue(live, RESYNCHRONIZE_KEY))
  {
    RemoveRefinesDequeue(snapshot, RESYNCHRONIZE_KEY);
    RemoveRefinesDequeue(live, RESYNCHRONIZE_KEY);
    var own, other := Processed(snapshot, snapshot), Processed(snapshot, live);
    var merged := Merged(snapshot, live);
    if RESYNCHRONIZE_KEY in own {
      assert merged[RESYNCHRONIZE_KEY] == own[RESYNCHRONIZE_KEY];
    } else if RESYNCHRONIZE_KEY in other {
      assert merged[RESYNCHRONIZE_KEY] == other[RESYNCHRONIZE_KEY];
    }
  }

  lemma WrittenQueue(m: AnnotationMap, w: Write)
    requires LeavesQueueAlone(w)
    ensures Queue(Written(m, w), RESYNCHRONIZE_KEY) == Enqueued(Queue(m, RESYNCHRONIZE_KEY), w)
  {
    match w
    case Request(entry, id) =>
      AddRefinesEnqueue(m, RESYNCHRONIZE_KEY, entry);
      assert Written(m, w)[RESYNCHRONIZE_KEY] == AddedTo(m, RESYNCHRONIZE_KEY, entry)[RESYNCHRONIZE_KEY];
    case SweepMark =>
      SplitOfPlain(SWEEPER);
    case _ =>
  }

  lemma {:induction false} AllWrittenQueue(m: AnnotationMap, ws: seq<Write>)
    requires forall w :: w in ws ==> LeavesQueueAlone(w)
    ensures Queue(AllWritten(m, ws), RESYNCHRONIZE_KEY) == AllEnqueued(Queue(m, RESYNCHRONIZE_KEY), ws)
    decreases |ws|
  {
    if ws != [] {
      WrittenQueue(m, ws[0]);
      AllWrittenQueue(Written(m, ws[0]), ws[1..]);
    }
  }

  /** A write that does anything to the queue makes it longer. */
  lemma EnqueuedGrows(q: seq<string>, w: Write)
    ensures q <= Enqueued(q, w)
    ensures Enqueued(q, w) != q ==> |Enqueued(q, w)| > |q|
  {
  }

  lemma {:induction false} AllEnqueuedGrows(q: seq<string>, ws: seq<Write>)
    ensures q <= AllEnqueued(q, ws)
    ensures AllEnqueued(q, ws) != q ==> |AllEnqueued(q, ws)| > |q|
    decreases |ws|
  {
    if ws != [] {
      EnqueuedGrows(q, ws[0]);
      AllEnqueuedGrows(Enqueued(q, ws[0]), ws[1..]);
    }
  }

  /** Writes leave a non-empty queue as it is only if every request repeats its last entry. */
  lemma {:induction false} AllEnqueuedUnchanged(q: seq<string>, ws: seq<Write>)
    requires q != []
    ensures AllEnqueued(q, ws) == q <==>
            forall w :: w in ws && w.Request? ==> w.entry == q[|q| - 1]
  {
    if ws != [] {
      var q' := Enqueued(q, ws[0]);
      assert forall w :: w in ws <==> w == ws[0] || w in ws[1..];
      if q' == q {
        AllEnqueuedUnchanged(q, ws[1..]);
        assert ws[0].Request? ==> ws[0].entry == q[|q| - 1];
      } else {
        EnqueuedGrows(q, ws[0]);
        AllEnqueuedGrows(q', ws[1..]);
        assert ws[0].Request? && ws[0].entry != q[|q| - 1];
      }
    }
  }

  lemma {:induction false} RequestFillsEmptyQueue(ws: seq<Write>, request: Write)
    requires request in ws && request.Request?
    ensures AllEnqueued([], ws) != []
  {
    if Enqueued([], ws[0]) == [] {
      assert ws[0] != request;
      RequestFillsEmptyQueue(ws[1..], request);
    } else {
      AllEnqueuedGrows(Enqueued([], ws[0]), ws[1..]);
    }
  }

  // ---------------------------------------------------------- main results

  /** An entry appended while a reconcile runs leaves the annotation set, so that
      another synchronizing reconcile follows. */
  lemma AppendedEntryWakes(snapshot: AnnotationMap, ws: seq<Write>)
    requires forall w :: w in ws ==> LeavesQueueAlone(w)
    requires Queue(AllWritten(snapshot, ws), RESYNCHRONIZE_KEY) != Queue(snapshot, RESYNCHRONIZE_KEY)
    ensures RESYNCHRONIZE_KEY in Merged(snapshot, AllWritten(snapshot, ws))
  {
    AllWrittenQueue(snapshot, ws);
    AllEnqueuedGrows(Queue(snapshot, RESYNCHRONIZE_KEY), ws);
    MergedQueue(snapshot, AllWritten(snapshot, ws));
  }

  /** Exactly when requests that arrive while a reconcile runs are followed by no other reconcile. */
  lemma LostWakeUp(snapshot: AnnotationMap, ws: seq<Write>)
    requires forall w :: w in ws ==> LeavesQueueAlone(w)
    requires exists w :: w in ws && w.Request?
    ensures RESYNCHRONIZE_KEY !in Merged(snapshot, AllWritten(snapshot, ws)) <==>
            && |Queue(snapshot, RESYNCHRONIZE_KEY)| == 1
            && forall w :: w in ws && w.Request? ==> w.entry == Queue(snapshot, RESYNCHRONIZE_KEY)[0]
  {
    var q := Queue(snapshot, RESYNCHRONIZE_KEY);
    AllWrittenQueue(snapshot, ws);
    MergedQueue(snapshot, AllWritten(snapshot, ws));
    if q == [] {
      var w :| w in ws && w.Request?;
      RequestFillsEmptyQueue(ws, w);
    } else {
      AllEnqueuedUnchanged(q, ws);
      AllEnqueuedGrows(q, ws);
    }
  }

  /** With two or more entries in the snapshot, its own tail is what remains: every
      entry appended in the meantime is dropped, although the wake-up is not. */
  lemma AppendedEntriesAreDropped(snapshot: AnnotationMap, ws: seq<Write>)
    requires |Queue(snapshot, RESYNCHRONIZE_KEY)| > 1
    ensures Queue(Merged(snapshot, AllWritten(snapshot, ws)), RESYNCHRONIZE_KEY) ==
            Queue(snapshot, RESYNCHRONIZE_KEY)[1..]
  {
    MergedQueue(snapshot, AllWritten(snapshot, ws));
  }

  /** The older copy also wins for every other annotation: a removal made in the
      meantime is undone, and a rotation asked for twice is done once. */
  lemma SnapshotWins(snapshot: AnnotationMap, live: AnnotationMap)
    ensures forall k :: k in snapshot && k != RESYNCHRONIZE_KEY && k != ROTATE_KEY ==>
                          k in Merged(snapshot, live) && Merged(snapshot, live)[k] == snapshot[k]
    ensures ROTATE_KEY in Merged(snapshot, live) <==> ROTATE_KEY !in snapshot && ROTATE_KEY in live
    ensures forall k :: k !in snapshot && k != RESYNCHRONIZE_KEY ==>
                          (k in Merged(snapshot, live) <==> k in live)
  {
  }
}
