/**
 * The expiry sweep `cleanupClusters`: select the listed clusters whose
 * timeout has passed, kill each one in its own goroutine, and drain one
 * result per candidate, keeping the first non-nil error.
 *
 * The clock is re-read for every listed cluster, so a sweep receives one
 * reading per cluster (`clock[i]` is the reading taken while visiting
 * `clusters[i]`). The goroutines' kill results arrive in an order the
 * scheduler picks; `schedule[k]` is the candidate whose result is the k-th
 * one received from the channel.
 */
module Sweep {
  import opened Errors
  import opened Clusters

  // ---------------------------------------------------------------------
  // Candidate selection
  // ---------------------------------------------------------------------

  /**
   * The IDs the sweep decides to kill, in listing order. Defined on the last
   * element so that it follows the source's forward loop one step at a time.
   */
  function ExpiredIds(clusters: seq<Cluster>, clock: seq<int>): (ids: seq<string>)
    requires |clock| == |clusters|
    ensures |ids| <= |clusters|
    decreases |clusters|
  {
    if |clusters| == 0 then []
    else
      var n := |clusters| - 1;
      ExpiredIds(clusters[..n], clock[..n]) + (if Expired(clusters[n], clock[n]) then [clusters[n].id] else [])
  }

  /**
   * `positions` lists, in strictly increasing order, exactly the positions of
   * the listing whose cluster was expired at its clock reading.
   */
  ghost predicate EnumeratesExpired(positions: seq<int>, clusters: seq<Cluster>, clock: seq<int>)
    requires |clock| == |clusters|
  {
    && (forall k :: 0 <= k < |positions| ==> 0 <= positions[k] < |clusters|)
    && (forall k, l :: 0 <= k < l < |positions| ==> positions[k] < positions[l])
    && (forall i :: 0 <= i < |clusters| ==> (Expired(clusters[i], clock[i]) <==> i in positions))
  }

  /**
   * The candidates are the IDs of the expired clusters and of no other, one
   * per expired cluster, in listing order: the returned positions witness it.
   */
  lemma {:induction false} ExpiredIdsSelection(clusters: seq<Cluster>, clock: seq<int>) returns (positions: seq<int>)
    requires |clock| == |clusters|
    ensures EnumeratesExpired(positions, clusters, clock)
    ensures |positions| == |ExpiredIds(clusters, clock)|
    ensures forall k :: 0 <= k < |positions| ==> ExpiredIds(clusters, clock)[k] == clusters[positions[k]].id
    decreases |clusters|
  {
    if |clusters| == 0 {
      positions := [];
    } else {
      var n := |clusters| - 1;
      var front := ExpiredIdsSelection(clusters[..n], clock[..n]);
      positions := front + (if Expired(clusters[n], clock[n]) then [n] else []);
      ExtendEnumeration(front, clusters, clock);
      ExtendIds(front, clusters, clock);
    }
  }

  /** One more listed cluster extends an enumeration of the expired positions of the shorter listing. */
  lemma ExtendEnumeration(front: seq<int>, clusters: seq<Cluster>, clock: seq<int>)
    requires |clock| == |clusters| > 0
    requires EnumeratesExpired(front, clusters[..|clusters| - 1], clock[..|clusters| - 1])
    ensures EnumeratesExpired(front + (if Expired(clusters[|clusters| - 1], clock[|clusters| - 1]) then [|clusters| - 1] else []),
                              clusters, clock)
  {
    var n := |clusters| - 1;
    var positions := front + (if Expired(clusters[n], clock[n]) then [n] else []);
    forall i | 0 <= i < n
      ensures Expired(clusters[i], clock[i]) <==> i in positions
    {
      assert clusters[..n][i] == clusters[i] && clock[..n][i] == clock[i];
    }
  }

  /** ... and lines the candidate IDs up with those positions. */
  lemma ExtendIds(front: seq<int>, clusters: seq<Cluster>, clock: seq<int>)
    requires |clock| == |clusters| > 0
    requires forall k :: 0 <= k < |front| ==> 0 <= front[k] < |clusters| - 1
    requires |front| == |ExpiredIds(clusters[..|clusters| - 1], clock[..|clusters| - 1])|
    requires forall k :: 0 <= k < |front| ==>
               ExpiredIds(clusters[..|clusters| - 1], clock[..|clusters| - 1])[k] == clusters[..|clusters| - 1][front[k]].id
    ensures var positions := front + (if Expired(clusters[|clusters| - 1], clock[|clusters| - 1]) then [|clusters| - 1] else []);
            && |positions| == |ExpiredIds(clusters, clock)|
            && forall k :: 0 <= k < |positions| ==> ExpiredIds(clusters, clock)[k] == clusters[positions[k]].id
  {
    var n := |clusters| - 1;
    var frontIds := ExpiredIds(clusters[..n], clock[..n]);
    var positions := front + (if Expired(clusters[n], clock[n]) then [n] else []);
    var ids := ExpiredIds(clusters, clock);
    assert ids == frontIds + (if Expired(clusters[n], clock[n]) then [clusters[n].id] else []);
    forall k | 0 <= k < |positions|
      ensures ids[k] == clusters[positions[k]].id
    {
      if k < |front| {
        assert ids[k] == frontIds[k];
        assert clusters[..n][front[k]] == clusters[front[k]];
      }
    }
  }

  /** An ID is a candidate exactly when some listed cluster with that ID was expired at its reading. */
  lemma ExpiredIdsMembership(clusters: seq<Cluster>, clock: seq<int>, id: string)
    requires |clock| == |clusters|
    ensures id in ExpiredIds(clusters, clock) <==>
            exists i :: 0 <= i < |clusters| && clusters[i].id == id && Expired(clusters[i], clock[i])
  {
    var positions := ExpiredIdsSelection(clusters, clock);
    var ids := ExpiredIds(clusters, clock);
    if id in ids {
      var k :| 0 <= k < |ids| && ids[k] == id;
      assert positions[k] in positions;
    }
    if exists i :: 0 <= i < |clusters| && clusters[i].id == id && Expired(clusters[i], clock[i]) {
      var i :| 0 <= i < |clusters| && clusters[i].id == id && Expired(clusters[i], clock[i]);
      var k :| 0 <= k < |positions| && positions[k] == i;
      assert ids[k] == id;
    }
  }

  /** With one clock reading for the whole sweep, the candidates are the clusters whose timeout is before it. */
  lemma SingleReadingMembership(clusters: seq<Cluster>, now: int, id: string)
    ensures id in ExpiredIds(clusters, seq(|clusters|, _ => now)) <==>
            exists i :: 0 <= i < |clusters| && clusters[i].id == id && clusters[i].timeout < now
  {
    ExpiredIdsMembership(clusters, seq(|clusters|, _ => now), id);
  }

  /** Readings never go backwards while one sweep walks the listing. */
  ghost predicate NonDecreasing(clock: seq<int>)
  {
    forall i, j :: 0 <= i <= j < |clock| ==> clock[i] <= clock[j]
  }

  /**
   * With a non-decreasing clock, the first and last readings bound the
   * candidates: a cluster expired by the first reading is a candidate, and a
   * cluster whose timeout is at or after the last reading is not, unless
   * another listed cluster shares its ID.
   */
  lemma ClockBoundsCandidates(clusters: seq<Cluster>, clock: seq<int>, i: nat)
    requires |clock| == |clusters| && NonDecreasing(clock) && i < |clusters|
    ensures clusters[i].timeout < clock[0] ==> clusters[i].id in ExpiredIds(clusters, clock)
    ensures clusters[i].timeout >= clock[|clock| - 1] && (forall j :: 0 <= j < |clusters| && clusters[j].id == clusters[i].id ==> j == i)
            ==> clusters[i].id !in ExpiredIds(clusters, clock)
  {
    ExpiredIdsMembership(clusters, clock, clusters[i].id);
  }

  /**
   * With a non-decreasing clock, a listing that had all expired by the first
   * reading is killed in full and in listing order.
   */
  lemma {:induction false} AllExpiredAtStart(clusters: seq<Cluster>, clock: seq<int>)
    requires |clock| == |clusters| && NonDecreasing(clock)
    requires forall i :: 0 <= i < |clusters| ==> clusters[i].timeout < clock[0]
    ensures ExpiredIds(clusters, clock) == Ids(clusters)
    decreases |clusters|
  {
    if |clusters| > 0 {
      var n := |clusters| - 1;
      if n > 0 {
        assert clock[..n][0] == clock[0];
        AllExpiredAtStart(clusters[..n], clock[..n]);
      }
      assert clock[0] <= clock[n];
      assert ExpiredIds(clusters, clock) == ExpiredIds(clusters[..n], clock[..n]) + [clusters[n].id];
      assert Ids(clusters) == Ids(clusters[..n]) + [clusters[n].id];
    }
  }

  /**
   * With a non-decreasing clock, clusters none of which had expired by the
   * last reading produce no candidate.
   */
  lemma {:induction false} NoneExpiredAtEnd(clusters: seq<Cluster>, clock: seq<int>)
    requires |clock| == |clusters| && NonDecreasing(clock)
    requires forall i :: 0 <= i < |clusters| ==> clusters[i].timeout >= clock[|clock| - 1]
    ensures ExpiredIds(clusters, clock) == []
    decreases |clusters|
  {
    if |clusters| > 0 {
      var n := |clusters| - 1;
      if n > 0 {
        assert clock[n - 1] <= clock[n];
        NoneExpiredAtEnd(clusters[..n], clock[..n]);
      }
    }
  }

  /** The source's selection loop: append the ID of every cluster visited after its timeout. */
  method CollectExpired(clusters: seq<Cluster>, clock: seq<int>) returns (clustersToKill: seq<string>)
    requires |clock| == |clusters|
    ensures clustersToKill == ExpiredIds(clusters, clock)
  {
    clustersToKill := [];
    for i := 0 to |clusters|
      invariant clustersToKill == ExpiredIds(clusters[..i], clock[..i])
    {
      assert clusters[..i + 1][..i] == clusters[..i];
      assert clock[..i + 1][..i] == clock[..i];
      if clusters[i].timeout < clock[i] {
        clustersToKill := clustersToKill + [clusters[i].id];
      }
    }
    assert clusters[..|clusters|] == clusters;
    assert clock[..|clock|] == clock;
  }

  // ---------------------------------------------------------------------
  // Result aggregation
  // ---------------------------------------------------------------------

  /** The error the drain loop keeps: the first non-nil one in drain order, or nil. */
  function FirstError(drained: seq<MaybeError>): (e: MaybeError)
    ensures e.NonNil? ==> e in drained
    ensures e.Nil? <==> forall k :: 0 <= k < |drained| ==> drained[k].Nil?
  {
    if |drained| == 0 then Nil
    else if drained[0].NonNil? then drained[0]
    else FirstError(drained[1..])
  }

  /** A non-nil result is the earliest non-nil entry: every entry drained before it was nil. */
  lemma {:induction false} FirstErrorIsEarliest(drained: seq<MaybeError>) returns (j: nat)
    requires FirstError(drained).NonNil?
    ensures j < |drained| && drained[j] == FirstError(drained)
    ensures forall k :: 0 <= k < j ==> drained[k].Nil?
  {
    if drained[0].NonNil? {
      j := 0;
    } else {
      var j' := FirstErrorIsEarliest(drained[1..]);
      j := j' + 1;
    }
  }

  /**
   * Draining more results never replaces an error already kept, and a
   * nil prefix leaves the decision to what follows.
   */
  lemma {:induction false} FirstErrorAppend(a: seq<MaybeError>, b: seq<MaybeError>)
    ensures FirstError(a).NonNil? ==> FirstError(a + b) == FirstError(a)
    ensures FirstError(a).Nil? ==> FirstError(a + b) == FirstError(b)
  {
    if |a| > 0 {
      assert (a + b)[1..] == a[1..] + b;
      FirstErrorAppend(a[1..], b);
    } else {
      assert a + b == b;
    }
  }

  /** The source's drain loop: receive one result per candidate, keeping the first non-nil error. */
  method Drain(results: seq<MaybeError>) returns (killError: MaybeError, received: nat)
    ensures received == |results|
    ensures killError.Nil? <==> forall k :: 0 <= k < |results| ==> results[k].Nil?
    ensures killError.NonNil? ==> exists j :: 0 <= j < |results| && results[j] == killError &&
                                             forall k :: 0 <= k < j ==> results[k].Nil?
  {
    killError := Nil;
    received := 0;
    for i := 0 to |results|
      invariant received == i
      invariant killError == FirstError(results[..i])
    {
      var err := results[i];
      received := received + 1;
      FirstErrorAppend(results[..i], [err]);
      assert results[..i + 1] == results[..i] + [err];
      if err.NonNil? && killError.Nil? {
        killError := err;
      }
    }
    assert results[..|results|] == results;
    if killError.NonNil? {
      var j := FirstErrorIsEarliest(results);
    }
  }

  // ---------------------------------------------------------------------
  // The whole sweep
  // ---------------------------------------------------------------------

  /**
   * `schedule` is an order in which `n` goroutines' results can be received:
   * every goroutine's result exactly once.
   */
  predicate IsDrainOrder(schedule: seq<nat>, n: nat)
  {
    && |schedule| == n
    && (forall k :: 0 <= k < n ==> schedule[k] < n)
    && (forall k, l :: 0 <= k < l < n ==> schedule[k] != schedule[l])
    && (forall i :: 0 <= i < n ==> i in schedule)
  }

  /** The kill results as received: the k-th received is that of candidate `schedule[k]`. */
  function Received(kills: seq<MaybeError>, schedule: seq<nat>): (drained: seq<MaybeError>)
    requires IsDrainOrder(schedule, |kills|)
    ensures |drained| == |kills|
    ensures forall i :: 0 <= i < |kills| ==> kills[i] in drained
    ensures multiset(drained) == multiset(kills)
  {
    var drained := seq(|schedule|, k requires 0 <= k < |schedule| => kills[schedule[k]]);
    DrainedIsPermutation(kills, schedule, drained);
    assert forall i :: 0 <= i < |kills| ==> kills[i] in drained by {
      forall i | 0 <= i < |kills| ensures kills[i] in drained {
        assert i in schedule;
        var k :| 0 <= k < |schedule| && schedule[k] == i;
        assert drained[k] == kills[i];
      }
    }
    drained
  }

  /**
   * Receiving the results in a drain order receives each one exactly once:
   * the received sequence is a permutation of the per-candidate results.
   */
  lemma {:induction false} DrainedIsPermutation(kills: seq<MaybeError>, schedule: seq<nat>, drained: seq<MaybeError>)
    requires IsDrainOrder(schedule, |kills|)
    requires |drained| == |schedule|
    requires forall k :: 0 <= k < |schedule| ==> drained[k] == kills[schedule[k]]
    ensures multiset(drained) == multiset(kills)
    decreases |kills|
  {
    if |kills| > 0 {
      var m := |kills| - 1;
      assert m in schedule;
      var k :| 0 <= k < |schedule| && schedule[k] == m;
      var shorter := schedule[..k] + schedule[k + 1..];
      var rest := drained[..k] + drained[k + 1..];
      ShorterDrainOrder(schedule, k);
      ShorterReceives(kills, schedule, drained, k);
      DrainedIsPermutation(kills[..m], shorter, rest);
      MultisetWithout(drained, k);
      assert kills == kills[..m] + [kills[m]];
    }
  }

  /** Without position `k`, the received results are those of the remaining drain order over the other candidates. */
  lemma ShorterReceives(kills: seq<MaybeError>, schedule: seq<nat>, drained: seq<MaybeError>, k: nat)
    requires |kills| > 0 && |drained| == |schedule| && k < |schedule|
    requires IsDrainOrder(schedule[..k] + schedule[k + 1..], |kills| - 1)
    requires forall l :: 0 <= l < |schedule| ==> schedule[l] < |kills| && drained[l] == kills[schedule[l]]
    ensures var shorter, rest := schedule[..k] + schedule[k + 1..], drained[..k] + drained[k + 1..];
            forall l :: 0 <= l < |shorter| ==> rest[l] == kills[..|kills| - 1][shorter[l]]
  {
    var shorter, rest := schedule[..k] + schedule[k + 1..], drained[..k] + drained[k + 1..];
    forall l | 0 <= l < |shorter|
      ensures rest[l] == kills[..|kills| - 1][shorter[l]]
    {
      if l < k {
        assert shorter[l] == schedule[l] && rest[l] == drained[l];
      } else {
        assert shorter[l] == schedule[l + 1] && rest[l] == drained[l + 1];
      }
    }
  }

  /** A sequence's multiset is that of the sequence without position `k`, plus the element there. */
  lemma MultisetWithout<T>(s: seq<T>, k: nat)
    requires k < |s|
    ensures multiset(s) == multiset(s[..k] + s[k + 1..]) + multiset{s[k]}
  {
    assert s == s[..k] + [s[k]] + s[k + 1..];
  }

  /** Removing the last candidate's position from a drain order leaves a drain order of the others. */
  lemma ShorterDrainOrder(schedule: seq<nat>, k: nat)
    requires |schedule| > 0 && IsDrainOrder(schedule, |schedule|)
    requires k < |schedule| && schedule[k] == |schedule| - 1
    ensures IsDrainOrder(schedule[..k] + schedule[k + 1..], |schedule| - 1)
  {
    var m := |schedule| - 1;
    var shorter := schedule[..k] + schedule[k + 1..];
    assert forall l :: 0 <= l < |shorter| ==> shorter[l] == if l < k then schedule[l] else schedule[l + 1];
    forall i | 0 <= i < m
      ensures i in shorter
    {
      assert i in schedule;
      var l :| 0 <= l < |schedule| && schedule[l] == i;
      if l < k {
        assert shorter[l] == i;
      } else {
        assert shorter[l - 1] == i;
      }
    }
  }

  /** What one sweep did: the IDs it killed, how many results it received, and what it returned. */
  datatype SweepOutcome = SweepOutcome(killed: seq<string>, received: nat, result: MaybeError)

  /**
   * `cleanupClusters`. `listing` is what listing all clusters returned,
   * `clock` one clock reading per listed cluster, `kills[i]` what killing the
   * i-th candidate returned, and `schedule` the order the results arrived in.
   */
  function CleanupClusters(listing: Result<seq<Cluster>>, clock: seq<int>, kills: seq<MaybeError>, schedule: seq<nat>): (s: SweepOutcome)
    requires listing.Ok? ==> |clock| == |listing.value|
    requires listing.Ok? ==> |kills| == |ExpiredIds(listing.value, clock)| && IsDrainOrder(schedule, |kills|)
    ensures listing.Err? ==> s.killed == [] && s.received == 0 && s.result == NonNil(listing.error)
    ensures listing.Ok? ==> s.killed == ExpiredIds(listing.value, clock) && s.received == |s.killed|
    ensures s.result.Nil? <==> listing.Ok? && forall i :: 0 <= i < |kills| ==> kills[i].Nil?
    ensures s.result.NonNil? && listing.Ok? ==> s.result in kills
  {
    match listing
    case Err(e) => SweepOutcome([], 0, NonNil(e))
    case Ok(clusters) =>
      var candidates := ExpiredIds(clusters, clock);
      var drained := Received(kills, schedule);
      SweepOutcome(candidates, |drained|, FirstError(drained))
  }

  /**
   * The sweep returns the first failure in drain order: the result of the
   * earliest-received failed kill, all earlier-received ones having succeeded.
   */
  lemma FirstFailureInDrainOrder(listing: Result<seq<Cluster>>, clock: seq<int>, kills: seq<MaybeError>, schedule: seq<nat>)
      returns (k: nat)
    requires listing.Ok? && |clock| == |listing.value|
    requires |kills| == |ExpiredIds(listing.value, clock)| && IsDrainOrder(schedule, |kills|)
    requires CleanupClusters(listing, clock, kills, schedule).result.NonNil?
    ensures k < |schedule| && CleanupClusters(listing, clock, kills, schedule).result == kills[schedule[k]]
    ensures forall l :: 0 <= l < k ==> kills[schedule[l]].Nil?
  {
    var drained := Received(kills, schedule);
    assert forall l :: 0 <= l < |drained| ==> drained[l] == kills[schedule[l]];
    k := FirstErrorIsEarliest(drained);
  }

  /** When exactly one candidate's kill fails, the sweep returns that error whatever the drain order. */
  lemma SingleFailure(listing: Result<seq<Cluster>>, clock: seq<int>, kills: seq<MaybeError>, schedule: seq<nat>, j: nat)
    requires listing.Ok? && |clock| == |listing.value|
    requires |kills| == |ExpiredIds(listing.value, clock)| && IsDrainOrder(schedule, |kills|)
    requires j < |kills| && kills[j].NonNil?
    requires forall i :: 0 <= i < |kills| && i != j ==> kills[i].Nil?
    ensures CleanupClusters(listing, clock, kills, schedule).result == kills[j]
    ensures CleanupClusters(listing, clock, kills, schedule).received == |kills|
  {
    var k := FirstFailureInDrainOrder(listing, clock, kills, schedule);
  }

  /** A listing with no expired cluster kills nothing and the sweep succeeds. */
  lemma {:induction false} NothingExpired(clusters: seq<Cluster>, clock: seq<int>)
    requires |clock| == |clusters|
    requires forall i :: 0 <= i < |clusters| ==> !Expired(clusters[i], clock[i])
    ensures ExpiredIds(clusters, clock) == []
    ensures CleanupClusters(Ok(clusters), clock, [], []) == SweepOutcome([], 0, Nil)
    decreases |clusters|
  {
    if |clusters| > 0 {
      var n := |clusters| - 1;
      NothingExpired(clusters[..n], clock[..n]);
    }
  }

  /**
   * Four clusters swept at one instant: one and sixty units past their
   * timeout, exactly at it, and six hundred short of it. Only the two past
   * their timeout are killed; a timeout equal to the reading is not expired.
   */
  lemma ExpiryBoundaryScenario(a: Cluster, b: Cluster, c: Cluster, d: Cluster, now: int)
    requires a.timeout == now - 60 && b.timeout == now - 1 && c.timeout == now && d.timeout == now + 600
    ensures ExpiredIds([a, b, c, d], [now, now, now, now]) == [a.id, b.id]
  {
    assert [a, b, c, d][..3] == [a, b, c];
    assert [a, b, c][..2] == [a, b];
    assert [a, b][..1] == [a];
    assert [a][..0] == [];
    assert [now, now, now, now][..3] == [now, now, now];
    assert [now, now, now][..2] == [now, now];
    assert [now, now][..1] == [now];
    assert [now][..0] == [];
    assert ExpiredIds([a], [now]) == [a.id];
    assert ExpiredIds([a, b], [now, now]) == [a.id, b.id];
    assert ExpiredIds([a, b, c], [now, now, now]) == [a.id, b.id];
  }
}
