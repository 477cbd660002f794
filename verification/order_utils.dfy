/**
 `isIdExists`: the existence scan an order runs over the ids it references. The ids are asked
 about one at a time, in order, and the scan stops at the first id the referenced collection does
 not hold.
 */
module OrderUtils {
  import opened Common
  import opened Ids
  import opened Messages
  import opened Http

  /** The position of the first id whose record is absent from `store`. */
  function FirstMissing<R>(store: map<Id, R>, ids: seq<string>): (k: Option<nat>)
    ensures k.None? <==> forall i :: 0 <= i < |ids| ==> Key(ids[i]) in store
    ensures k.Some? ==> && k.value < |ids| && Key(ids[k.value]) !in store
                        && forall i :: 0 <= i < k.value ==> Key(ids[i]) in store
    decreases |ids|
  {
    if |ids| == 0 then None
    else if Key(ids[0]) !in store then Some(0)
    else match FirstMissing(store, ids[1..])
      case None => None
      case Some(i) => Some(i + 1)
  }

  /** `isIdExists(model, ids, res)`: a 400 naming the model and the first absent id, if any. */
  function IsIdExists<R, T>(entity: Entity, store: map<Id, T>, ids: seq<string>): (r: Option<Response<R>>)
    ensures r.None? <==> forall i :: 0 <= i < |ids| ==> Key(ids[i]) in store
    ensures r.Some? ==> exists k :: && 0 <= k < |ids| && Key(ids[k]) !in store
                                    && (forall i :: 0 <= i < k ==> Key(ids[i]) in store)
                                    && r.value == BadRequest(MissingReference(entity, ids[k]))
  {
    match FirstMissing(store, ids)
    case Some(k) => Some(BadRequest(MissingReference(entity, ids[k])))
    case None => None
  }

  /**
   The scan as the loop the source runs: one query per id, stopping at the first miss. It
   reports the same position as `FirstMissing`, after one query per id up to and including the
   first miss.
   */
  method Scan<T>(store: map<Id, T>, ids: seq<string>) returns (missing: Option<nat>, probes: nat)
    ensures missing == FirstMissing(store, ids)
    ensures missing.None? ==> probes == |ids|
    ensures missing.Some? ==> probes == missing.value + 1
  {
    var i := 0;
    probes := 0;
    missing := None;
    while i < |ids|
      invariant 0 <= i <= |ids| && probes == i
      invariant forall j :: 0 <= j < i ==> Key(ids[j]) in store
    {
      probes := probes + 1;
      if Key(ids[i]) !in store {
        missing := Some(i);
        FirstMissingAt(store, ids, i);
        return;
      }
      i := i + 1;
    }
  }

  /** The first miss is at `i` when every earlier id is present and `ids[i]` is not. */
  lemma FirstMissingAt<T>(store: map<Id, T>, ids: seq<string>, i: nat)
    requires i < |ids| && Key(ids[i]) !in store
    requires forall j :: 0 <= j < i ==> Key(ids[j]) in store
    ensures FirstMissing(store, ids) == Some(i)
  {
    var k := FirstMissing(store, ids);
    assert k.Some?;
    if k.value < i {
    } else if k.value > i {
    }
  }

  /** The scan succeeds on the empty list. */
  lemma IsIdExistsEmpty<R, T>(entity: Entity, store: map<Id, T>)
    ensures IsIdExists<R, T>(entity, store, []) == None
  {
  }

  /** Only the ids up to the first miss are asked about: what follows cannot change the result. */
  lemma {:induction false} ScanStopsAtFirstMiss<T>(store: map<Id, T>, ids: seq<string>, rest: seq<string>)
    requires FirstMissing(store, ids).Some?
    ensures FirstMissing(store, ids + rest) == FirstMissing(store, ids)
    decreases |ids|
  {
    if Key(ids[0]) !in store {
    } else {
      assert (ids + rest)[1..] == ids[1..] + rest;
      ScanStopsAtFirstMiss(store, ids[1..], rest);
    }
  }
}
