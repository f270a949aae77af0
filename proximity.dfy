/** Time-based eviction of cached messages (`delete_time_error_data`). */
module Proximity {
  import opened Messages

  /** An entry more than this many seconds older than "now" is stale. */
  const StalenessLimit: real := 3.0

  predicate Stale(e: Received, now: real)
  {
    now - e.timestamp > StalenessLimit
  }

  /** The map the sweep's condition describes: every entry that is not stale. */
  function Unexpired<K>(m: map<K, Received>, now: real): (r: map<K, Received>)
  {
    map k | k in m && !Stale(m[k], now) :: m[k]
  }

  /** `delete_time_error_data(data)`: a dict loses its stale entries, anything
      else is left alone. The source pops from the dict while iterating over
      `data.items()`, which CPython rejects (see SweepAsWritten); this method
      iterates over a snapshot of the keys instead, which removes exactly what
      the condition at line 43 selects. */
  method DeleteTimeErrorData<K>(data: Arg<map<K, Received>>, now: real)
    returns (swept: Arg<map<K, Received>>)
    ensures data.OtherArg? ==> swept == data
    ensures data.DictArg? ==> swept == DictArg(Unexpired(data.dict, now))
  {
    if data.OtherArg? {
      return data;
    }
    var m := data.dict;
    var kept := m;
    var pending := m.Keys;
    while pending != {}
      invariant pending <= m.Keys
      invariant kept.Keys == (set k | k in m && (k in pending || !Stale(m[k], now)))
      invariant forall k :: k in kept ==> kept[k] == m[k]
      decreases pending
    {
      var k :| k in pending;
      if now - m[k].timestamp > StalenessLimit {
        kept := kept - {k};
      }
      pending := pending - {k};
    }
    assert kept.Keys == Unexpired(m, now).Keys;
    assert forall k :: k in kept ==> kept[k] == Unexpired(m, now)[k];
    assert kept == Unexpired(m, now);
    return DictArg(kept);
  }

  /** Exactly the entries at most three seconds old survive, with their values. */
  lemma UnexpiredKeepsFresh<K>(m: map<K, Received>, now: real, k: K)
    ensures k in Unexpired(m, now) <==> k in m && now - m[k].timestamp <= StalenessLimit
    ensures k in Unexpired(m, now) ==> Unexpired(m, now)[k] == m[k]
  {
  }

  /** An entry exactly three seconds old survives the sweep. */
  lemma BoundaryEntrySurvives<K>(m: map<K, Received>, now: real, k: K)
    requires k in m && m[k].timestamp == now - StalenessLimit
    ensures k in Unexpired(m, now)
  {
  }

  /** A peer broadcast received at t is kept by a sweep at t + 2.9 s and
      removed by a sweep at t + 3.1 s. */
  lemma SweepScenario(p: int, e: Received)
    ensures p in Unexpired(map[p := e], e.timestamp + 2.9)
    ensures p !in Unexpired(map[p := e], e.timestamp + 3.1)
  {
  }

  /** Sweeping twice at the same time is the same as sweeping once. */
  lemma SweepIdempotent<K>(m: map<K, Received>, now: real)
    ensures Unexpired(Unexpired(m, now), now) == Unexpired(m, now)
  {
  }

  /** A later sweep keeps a subset of what an earlier one keeps. */
  lemma SweepMonotone<K>(m: map<K, Received>, t1: real, t2: real)
    requires t1 <= t2
    ensures Unexpired(m, t2).Keys <= Unexpired(m, t1).Keys
  {
  }

  /** After a sweep at `now` no stale entry remains. */
  lemma SweptHasNoStale<K>(m: map<K, Received>, now: real)
    ensures forall k :: k in Unexpired(m, now) ==> !Stale(Unexpired(m, now)[k], now)
  {
  }

  // ---------------------------------------------------------------------
  // The loop as written at lines 41-44 pops from the dict it iterates over.
  // CPython's dict iterator compares the dict's size with the size at the
  // start of the iteration on every step, and raises RuntimeError
  // ("dictionary changed size during iteration") when they differ, even when
  // the popped item was the last one. So the loop stops at the first stale
  // entry in iteration order: that entry is gone, the rest are untouched.

  /** What the loop as written leaves behind. */
  datatype LoopOutcome<K> =
    | Completed(dict: map<K, Received>)   // the loop ran to the end
    | Raised(dict: map<K, Received>)      // RuntimeError; the dict as it was then

  /** `order` lists the dict's keys in iteration (insertion) order. */
  predicate IterationOrder<K>(m: map<K, Received>, order: seq<K>)
  {
    && (forall k :: k in m ==> k in order)
    && (forall i :: 0 <= i < |order| ==> order[i] in m)
  }

  /** The loop over the keys still to be visited, `order`, while the dict still
      has its original size: a stale entry is popped, and the iterator's next
      step raises; a fresh one is skipped. */
  function SweepAsWritten<K>(m: map<K, Received>, order: seq<K>, now: real): (r: LoopOutcome<K>)
    requires forall i :: 0 <= i < |order| ==> order[i] in m
    decreases |order|
  {
    if order == [] then Completed(m)
    else if Stale(m[order[0]], now) then Raised(m - {order[0]})
    else SweepAsWritten(m, order[1..], now)
  }

  /** The loop completes, leaving the dict unchanged, exactly when none of the
      visited entries is stale; otherwise it raises after removing only the
      first stale entry in iteration order. */
  lemma {:induction false} AsWrittenOutcome<K>(m: map<K, Received>, order: seq<K>, now: real)
    requires forall i :: 0 <= i < |order| ==> order[i] in m
    ensures SweepAsWritten(m, order, now).Completed? <==>
            forall i :: 0 <= i < |order| ==> !Stale(m[order[i]], now)
    ensures SweepAsWritten(m, order, now).Completed? ==> SweepAsWritten(m, order, now).dict == m
    ensures SweepAsWritten(m, order, now).Raised? ==>
            exists i :: 0 <= i < |order| && Stale(m[order[i]], now)
              && (forall j :: 0 <= j < i ==> !Stale(m[order[j]], now))
              && SweepAsWritten(m, order, now).dict == m - {order[i]}
    decreases |order|
  {
    if order != [] {
      var rest := order[1..];
      AsWrittenOutcome(m, rest, now);
      if !Stale(m[order[0]], now) {
        forall i | 0 <= i < |rest| ensures rest[i] == order[i + 1] { }
        if SweepAsWritten(m, rest, now).Raised? {
          var i :| 0 <= i < |rest| && Stale(m[rest[i]], now)
                   && (forall j :: 0 <= j < i ==> !Stale(m[rest[j]], now))
                   && SweepAsWritten(m, rest, now).dict == m - {rest[i]};
          assert forall j :: 0 <= j < i + 1 ==> !Stale(m[order[j]], now);
        } else {
          assert forall i :: 0 <= i < |order| ==> !Stale(m[order[i]], now);
        }
      } else {
        assert Stale(m[order[0]], now);
      }
    }
  }

  /** Over the whole dict, the loop as written agrees with the intended filter
      exactly when no entry is stale. */
  lemma AsWrittenAgreesOnlyWithoutStale<K>(m: map<K, Received>, order: seq<K>, now: real)
    requires IterationOrder(m, order)
    ensures SweepAsWritten(m, order, now) == Completed(Unexpired(m, now))
            <==> forall k :: k in m ==> !Stale(m[k], now)
  {
    AsWrittenOutcome(m, order, now);
    if forall k :: k in m ==> !Stale(m[k], now) {
      assert Unexpired(m, now) == m;
    } else {
      var k :| k in m && Stale(m[k], now);
      var i :| 0 <= i < |order| && order[i] == k;
    }
  }

  /** Two entries, the first stale: the intended sweep keeps only the second;
      the loop as written removes the first and raises before reaching it. */
  lemma AsWrittenRaisesOnStaleEntry()
    ensures SweepAsWritten(map[7 := Received(7, 0, 0.0), 8 := Received(8, 0, 3.5)], [7, 8], 4.0)
            == Raised(map[8 := Received(8, 0, 3.5)])
    ensures Unexpired(map[7 := Received(7, 0, 0.0), 8 := Received(8, 0, 3.5)], 4.0)
            == map[8 := Received(8, 0, 3.5)]
  {
    var m := map[7 := Received(7, 0, 0.0), 8 := Received(8, 0, 3.5)];
    assert Stale(m[7], 4.0);
    assert m - {7} == map[8 := Received(8, 0, 3.5)];
    assert Unexpired(m, 4.0).Keys == {8};
  }
}
