/**
  * The refresh throttle of `async_update`: one process-wide map from device
  * manager to the time of its last bulk refresh, consulted by every cover
  * entity before it asks the manager to refresh all device states.
  */
module Throttle {

  /** A device manager's identity (`id(self.device_manager)`). */
  type ManagerId = int

  /** `_CACHE_UPDATE_THROTTLE`: seconds that must pass between two refreshes of one manager. */
  const CacheUpdateThrottle: int := 25

  /** What one `async_update` call did. */
  datatype UpdateOutcome =
    | Skipped         // returned early; nothing refreshed, nothing recorded
    | Refreshed       // the refresh returned and its start time was recorded
    | RefreshFailed   // the refresh raised; the exception propagates and nothing is recorded

  /** Whether a call for this manager at this time returns without refreshing. */
  predicate Throttled(last: map<ManagerId, int>, manager: ManagerId, now: int)
  {
    manager in last && now - last[manager] < CacheUpdateThrottle
  }

  /** One `async_update` call on values: its outcome and the new timestamp map. */
  function Step(last: map<ManagerId, int>, manager: ManagerId, now: int, refreshFails: bool)
    : (r: (UpdateOutcome, map<ManagerId, int>))
    ensures r.0 == Skipped <==> Throttled(last, manager, now)
    ensures r.0 == RefreshFailed <==> !Throttled(last, manager, now) && refreshFails
    ensures r.0 == Refreshed ==> r.1 == last[manager := now]
    ensures r.0 != Refreshed ==> r.1 == last
    ensures forall m :: m != manager ==> (m in r.1 <==> m in last) && (m in last ==> r.1[m] == last[m])
  {
    if Throttled(last, manager, now) then (Skipped, last)
    else if refreshFails then (RefreshFailed, last)
    else (Refreshed, last[manager := now])
  }

  /** One call: the manager, the time `datetime.now()` gave, and whether the refresh raises. */
  datatype Call = Call(manager: ManagerId, now: int, refreshFails: bool)

  /** A sequence of calls from a timestamp map: the final map and the successful refreshes, in order. */
  function Run(last: map<ManagerId, int>, calls: seq<Call>): (r: (map<ManagerId, int>, seq<(ManagerId, int)>))
    decreases |calls|
  {
    if calls == [] then (last, [])
    else
      var c := calls[0];
      var step := Step(last, c.manager, c.now, c.refreshFails);
      var rest := Run(step.1, calls[1..]);
      (rest.0, (if step.0 == Refreshed then [(c.manager, c.now)] else []) + rest.1)
  }

  /** Every refresh in the log is at least the window after the manager's time in `last`. */
  predicate AfterWindow(last: map<ManagerId, int>, log: seq<(ManagerId, int)>)
  {
    forall i :: 0 <= i < |log| && log[i].0 in last ==> log[i].1 >= last[log[i].0] + CacheUpdateThrottle
  }

  /** Any two refreshes of one manager in the log are at least the window apart. */
  predicate Spaced(log: seq<(ManagerId, int)>)
  {
    forall i, j :: 0 <= i < j < |log| && log[i].0 == log[j].0 ==> log[j].1 >= log[i].1 + CacheUpdateThrottle
  }

  /**
    * Whatever the calls and however the clock moves, two successful refreshes
    * of one manager are at least the throttle window apart, and each is at
    * least the window after the time the map started with.
    */
  lemma {:induction false} RefreshesSpaced(last: map<ManagerId, int>, calls: seq<Call>)
    decreases |calls|
    ensures AfterWindow(last, Run(last, calls).1)
    ensures Spaced(Run(last, calls).1)
  {
    if calls != [] {
      var c := calls[0];
      var step := Step(last, c.manager, c.now, c.refreshFails);
      var next := step.1;
      RefreshesSpaced(next, calls[1..]);
      var rest := Run(next, calls[1..]).1;
      var log := Run(last, calls).1;
      if step.0 == Refreshed {
        assert log == [(c.manager, c.now)] + rest;
        forall i | 0 <= i < |log| && log[i].0 in last
          ensures log[i].1 >= last[log[i].0] + CacheUpdateThrottle
        {
          if i > 0 {
            var m := rest[i - 1].0;
            assert log[i] == rest[i - 1];
            assert m in next;
          }
        }
        forall i, j | 0 <= i < j < |log| && log[i].0 == log[j].0
          ensures log[j].1 >= log[i].1 + CacheUpdateThrottle
        {
          assert log[j] == rest[j - 1];
          if i > 0 {
            assert log[i] == rest[i - 1];
          } else {
            assert rest[j - 1].0 in next;
          }
        }
      } else {
        assert log == rest;
      }
    }
  }

  /**
    * With a 25-second window, calls at 0 and 10 for one manager refresh and
    * then skip, and a third call at 26 refreshes again.
    */
  lemma ThrottleTimeline(manager: ManagerId)
    ensures var (o1, m1) := Step(map[], manager, 0, false);
            var (o2, m2) := Step(m1, manager, 10, false);
            var (o3, m3) := Step(m2, manager, 26, false);
            o1 == Refreshed && o2 == Skipped && o3 == Refreshed && m3 == map[manager := 26]
  {
  }

  /** The process-wide timestamp map `_last_cache_update`. */
  class CacheThrottle {
    var lastCacheUpdate: map<ManagerId, int>
    /** The managers whose bulk refresh was invoked, in call order. */
    ghost var refreshCalls: seq<ManagerId>

    constructor ()
      ensures lastCacheUpdate == map[] && refreshCalls == []
    {
      lastCacheUpdate := map[];
      refreshCalls := [];
    }

    /**
      * `async_update` of a cover entity of this manager, at time `now`:
      * skips while the manager was refreshed less than the window ago;
      * otherwise invokes the refresh once and, only when it returns, records
      * `now` (taken before the refresh) for this manager.
      */
    method AsyncUpdate(manager: ManagerId, now: int, refreshFails: bool) returns (outcome: UpdateOutcome)
      modifies this
      ensures (outcome, lastCacheUpdate) == Step(old(lastCacheUpdate), manager, now, refreshFails)
      ensures outcome == Skipped <==> Throttled(old(lastCacheUpdate), manager, now)
      ensures refreshCalls == old(refreshCalls) + (if outcome == Skipped then [] else [manager])
      ensures forall m :: m != manager && m in old(lastCacheUpdate) ==>
        m in lastCacheUpdate && lastCacheUpdate[m] == old(lastCacheUpdate)[m]
    {
      if manager in lastCacheUpdate {
        var sinceUpdate := now - lastCacheUpdate[manager];
        if sinceUpdate < CacheUpdateThrottle {
          outcome := Skipped;
          return;
        }
      }
      refreshCalls := refreshCalls + [manager];
      if refreshFails {
        outcome := RefreshFailed;
        return;
      }
      lastCacheUpdate := lastCacheUpdate[manager := now];
      outcome := Refreshed;
    }
  }
}
