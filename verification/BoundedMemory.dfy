/**
 * One half of the vessel cache: a map of what was last heard from each vessel, which forgets by age and then by number,
 * least recently heard first; and the unbounded log it stands in for.
 */
module BoundedMemory {
  import opened Wrappers

  /** A value, and when it was last heard. */
  datatype Heard<+T> = Heard(value: T, at: int)

  type Held<K, +T> = map<K, Heard<T>>

  /** Age at `now`; what was heard later than `now` has none. */
  function Age(at: int, now: int): nat {
    if now < at then 0 else now - at
  }

  predicate IsFresh(at: int, now: int, retention: nat) {
    Age(at, now) <= retention
  }

  /** What is still fresh enough to keep. */
  function Retained<K, T>(held: Held<K, T>, now: int, retention: nat): Held<K, T> {
    map k | k in held && IsFresh(held[k].at, now, retention) :: held[k]
  }

  /**
   * A least-recently-heard trim: as many as fit are kept, unchanged, and nothing kept was heard before something
   * evicted. Which of several heard at one instant go is left open.
   */
  ghost predicate Trimmed<K, T>(before: Held<K, T>, after: Held<K, T>, capacity: nat) {
    && after.Keys <= before.Keys
    && (forall k :: k in after ==> after[k] == before[k])
    && |after| == (if |before| <= capacity then |before| else capacity)
    && (forall kept, gone :: kept in after && gone in before && gone !in after ==> before[gone].at <= after[kept].at)
  }

  lemma {:induction false} SomethingIsOldest<K, T>(held: Held<K, T>) returns (oldest: K)
    requires held != map[]
    ensures oldest in held && forall k :: k in held ==> held[oldest].at <= held[k].at
    decreases |held|
  {
    oldest :| oldest in held;
    var rest := held - {oldest};
    if rest == map[] {
      assert forall k :: k in held ==> k == oldest by {
        forall k | k in held ensures k == oldest {
          assert k != oldest ==> k in rest;
        }
      }
    } else {
      RemovingOne(held, oldest);
      var other := SomethingIsOldest(rest);
      forall k | k in held && k != oldest ensures held[other].at <= held[k].at {
        assert k in rest;
      }
      if held[other].at < held[oldest].at {
        oldest := other;
      }
    }
  }

  lemma RemovingOne<K, T>(held: Held<K, T>, k: K)
    requires k in held
    ensures |held - {k}| == |held| - 1
  {
    assert (held - {k}).Keys == held.Keys - {k};
  }

  /** Drops the least recently heard until the map fits. */
  method Trim<K(==), T>(held: Held<K, T>, capacity: nat) returns (fitting: Held<K, T>)
    ensures Trimmed(held, fitting, capacity)
  {
    fitting := held;
    while |fitting| > capacity
      invariant fitting.Keys <= held.Keys && forall k :: k in fitting ==> fitting[k] == held[k]
      invariant |fitting| == |held| || (capacity <= |fitting| <= |held|)
      invariant forall kept, gone :: kept in fitting && gone in held && gone !in fitting ==>
                                       held[gone].at <= fitting[kept].at
      decreases |fitting|
    {
      ghost var first := SomethingIsOldest(fitting);
      var oldest :| oldest in fitting && forall k :: k in fitting ==> fitting[oldest].at <= fitting[k].at;
      RemovingOne(fitting, oldest);
      fitting := fitting - {oldest};
    }
    FullKeysAreAll(held, fitting);
  }

  lemma FullKeysAreAll<K, T>(held: Held<K, T>, fitting: Held<K, T>)
    requires fitting.Keys <= held.Keys
    ensures |fitting| <= |held| && (|fitting| == |held| ==> fitting.Keys == held.Keys)
  {
    Subset(fitting.Keys, held.Keys);
  }

  lemma {:induction false} Subset<K>(a: set<K>, b: set<K>)
    requires a <= b
    ensures |a| <= |b| && (|a| == |b| ==> a == b)
    decreases |a|
  {
    if a != {} {
      var x :| x in a;
      Subset(a - {x}, b - {x});
      assert a == a - {x} + {x} && b == b - {x} + {x};
    }
  }

  /** Only ties are left open: with every instant different there is one least-recently-heard trim. */
  lemma TrimIsUniqueWithoutTies<K, T>(held: Held<K, T>, one: Held<K, T>, other: Held<K, T>, capacity: nat)
    requires Trimmed(held, one, capacity) && Trimmed(held, other, capacity)
    requires forall j, k :: j in held && k in held && held[j].at == held[k].at ==> j == k
    ensures one == other
  {
    if other.Keys <= one.Keys {
      Subset(other.Keys, one.Keys);
    } else {
      var j :| j in other && j !in one;
      assert one.Keys <= other.Keys by {
        assert j in held;
      }
      Subset(one.Keys, other.Keys);
    }
    assert one.Keys == other.Keys;
  }

  // ---- the cache against the log ----

  /** What happens to one half: something is heard, or the memory is swept. */
  datatype Step<K, +T> = Hear(key: K, value: T, now: int) | Sweep(now: int)

  ghost predicate Moves<K, T>(before: Held<K, T>, step: Step<K, T>, after: Held<K, T>,
                                    retention: nat, capacity: nat) {
    match step
    case Hear(key, value, now) => after == before[key := Heard(value, now)]
    case Sweep(now) => Trimmed(Retained(before, now, retention), after, capacity)
  }

  /** One memory after each step of a run, from empty. */
  ghost predicate IsRun<K, T>(memories: seq<Held<K, T>>, steps: seq<Step<K, T>>, retention: nat, capacity: nat) {
    && |memories| == |steps| + 1 && memories[0] == map[]
    && forall i :: 0 <= i < |steps| ==> Moves(memories[i], steps[i], memories[i + 1], retention, capacity)
  }

  /** A clock that never goes back. */
  predicate Ordered<K, T>(steps: seq<Step<K, T>>) {
    forall i, j :: 0 <= i <= j < |steps| ==> steps[i].now <= steps[j].now
  }

  /** The latest report of `key` in the whole log. */
  function Latest<K(==), T>(steps: seq<Step<K, T>>, key: K): Option<Heard<T>> {
    if steps == [] then None
    else
      var last := steps[|steps| - 1];
      if last.Hear? && last.key == key then Some(Heard(last.value, last.now)) else Latest(steps[..|steps| - 1], key)
  }

  function LastSweep<K, T>(steps: seq<Step<K, T>>): Option<int> {
    if steps == [] then None
    else
      var last := steps[|steps| - 1];
      if last.Sweep? then Some(last.now) else LastSweep(steps[..|steps| - 1])
  }

  function KeysOf<K(==), T>(steps: seq<Step<K, T>>): set<K> {
    if steps == [] then {}
    else
      var last := steps[|steps| - 1];
      KeysOf(steps[..|steps| - 1]) + if last.Hear? then {last.key} else {}
  }

  /** Whether the log holds a report of `key` that was fresh at the last sweep. */
  predicate InView<K(==), T>(steps: seq<Step<K, T>>, key: K, retention: nat) {
    var latest := Latest(steps, key);
    latest.Some? && (LastSweep(steps).Some? ==> IsFresh(latest.value.at, LastSweep(steps).value, retention))
  }

  /** What an unbounded memory would hold: the latest report of each vessel that was fresh at the last sweep. */
  function View<K(==), T>(steps: seq<Step<K, T>>, retention: nat): Held<K, T> {
    map k | k in KeysOf(steps) && InView(steps, k, retention) :: Latest(steps, k).value
  }

  lemma {:induction false} LatestIsInTheLog<K, T>(steps: seq<Step<K, T>>, key: K)
    requires Ordered(steps)
    ensures Latest(steps, key).Some? <==> key in KeysOf(steps)
    ensures steps != [] && Latest(steps, key).Some? ==> Latest(steps, key).value.at <= steps[|steps| - 1].now
    ensures steps != [] && LastSweep(steps).Some? ==> LastSweep(steps).value <= steps[|steps| - 1].now
  {
    if |steps| > 1 {
      LatestIsInTheLog(steps[..|steps| - 1], key);
    } else if steps != [] {
      assert steps[..0] == [];
    }
  }

  /** Step `i` is the last report of `key`. */
  predicate IsLastReport<K(==), T>(steps: seq<Step<K, T>>, i: nat, key: K) {
    && i < |steps| && steps[i].Hear? && steps[i].key == key
    && forall j :: i < j < |steps| && steps[j].Hear? ==> steps[j].key != key
  }

  /** Every sweep came within `retention` of `at`. */
  predicate OutlastsEverySweep<K, T>(steps: seq<Step<K, T>>, at: int, retention: nat) {
    forall j :: 0 <= j < |steps| && steps[j].Sweep? ==> steps[j].now - at <= retention
  }

  lemma {:induction false} LatestIsTheLastReport<K, T>(steps: seq<Step<K, T>>, key: K)
    ensures Latest(steps, key).Some? <==> key in KeysOf(steps)
    ensures forall i: nat :: IsLastReport(steps, i, key) ==>
                          Latest(steps, key) == Some(Heard(steps[i].value, steps[i].now))
    ensures Latest(steps, key).Some? ==> exists i: nat :: IsLastReport(steps, i, key)
  {
    if steps != [] {
      var front := steps[..|steps| - 1];
      var last := steps[|steps| - 1];
      LatestIsTheLastReport(front, key);
      if last.Hear? && last.key == key {
        assert IsLastReport(steps, |steps| - 1, key);
      } else {
        forall i: nat ensures IsLastReport(steps, i, key) <==> IsLastReport(front, i, key) {
          assert i < |front| ==> front[i] == steps[i];
          assert forall j :: i < j < |front| ==> front[j] == steps[j];
          if IsLastReport(front, i, key) {
            assert forall j :: i < j < |steps| && steps[j].Hear? ==> steps[j].key != key;
          }
        }
      }
    }
  }

  lemma {:induction false} LastSweepIsTheLatest<K, T>(steps: seq<Step<K, T>>, at: int, retention: nat)
    requires Ordered(steps)
    ensures OutlastsEverySweep(steps, at, retention) <==>
            (LastSweep(steps).Some? ==> LastSweep(steps).value - at <= retention)
  {
    if steps != [] {
      var front := steps[..|steps| - 1];
      var last := steps[|steps| - 1];
      LastSweepIsTheLatest(front, at, retention);
      assert forall j :: 0 <= j < |front| ==> front[j] == steps[j] && steps[j].now <= last.now;
    }
  }

  /**
   * What the view is, in the log's own terms: a key is in it exactly when no sweep so far came more than `retention` after
   * its last report, and what it holds is that report and when it was made.
   */
  lemma ViewIsTheLastReportsStillFresh<K, T>(steps: seq<Step<K, T>>, retention: nat, key: K)
    requires Ordered(steps)
    ensures key in View(steps, retention) <==>
            exists i: nat :: IsLastReport(steps, i, key) && OutlastsEverySweep(steps, steps[i].now, retention)
    ensures forall i: nat :: IsLastReport(steps, i, key) && key in View(steps, retention) ==>
                          View(steps, retention)[key] == Heard(steps[i].value, steps[i].now)
  {
    LatestIsTheLastReport(steps, key);
    if Latest(steps, key).Some? {
      LastSweepIsTheLatest(steps, Latest(steps, key).value.at, retention);
      var i: nat :| IsLastReport(steps, i, key);
      assert Latest(steps, key) == Some(Heard(steps[i].value, steps[i].now));
    }
  }

  /** The memory is part of the view, and anything of the view it lacks is no more recent than anything it holds. */
  ghost predicate HoldsTheMostRecent<K, T>(memory: Held<K, T>, view: Held<K, T>, capacity: nat) {
    && (forall k :: k in memory ==> k in view && view[k] == memory[k])
    && (forall gone :: gone in view && gone !in memory ==>
          |memory| >= capacity && forall kept :: kept in memory ==> view[gone].at <= memory[kept].at)
  }

  lemma ViewAfterHearing<K, T>(before: seq<Step<K, T>>, step: Step<K, T>, retention: nat)
    requires Ordered(before + [step]) && step.Hear?
    ensures View(before + [step], retention) == View(before, retention)[step.key := Heard(step.value, step.now)]
  {
    var steps := before + [step];
    assert steps[..|steps| - 1] == before;
    assert Ordered(before) by {
      assert forall i :: 0 <= i < |before| ==> before[i] == steps[i];
    }
    LatestIsInTheLog(steps, step.key);
    assert InView(steps, step.key, retention);
    forall k | k != step.key
      ensures InView(steps, k, retention) == InView(before, k, retention) && Latest(steps, k) == Latest(before, k)
    {
    }
  }

  lemma FreshLaterIsFreshBefore(at: int, sooner: int, later: int, retention: nat)
    requires sooner <= later && IsFresh(at, later, retention)
    ensures IsFresh(at, sooner, retention)
  {
  }

  lemma ViewAfterSweeping<K, T>(before: seq<Step<K, T>>, now: int, retention: nat)
    requires Ordered(before + [Sweep(now)])
    ensures View(before + [Sweep(now)], retention) == Retained(View(before, retention), now, retention)
  {
    var steps := before + [Sweep(now)];
    assert steps[..|steps| - 1] == before;
    assert Ordered(before) by {
      assert forall i :: 0 <= i < |before| ==> before[i] == steps[i];
    }
    forall k | k in KeysOf(before) && InView(steps, k, retention) ensures InView(before, k, retention) {
      LatestIsInTheLog(before, k);
      if LastSweep(before).Some? {
        assert LastSweep(before).value <= before[|before| - 1].now <= now by {
          assert steps[|before| - 1] == before[|before| - 1] && steps[|before|].now == now;
        }
        FreshLaterIsFreshBefore(Latest(before, k).value.at, LastSweep(before).value, now, retention);
      }
    }
    assert forall k :: Latest(steps, k) == Latest(before, k);
  }

  /** Sweeping both keeps the relation: what was missing is older than anything that expires. */
  lemma SweepingKeepsTheMostRecent<K, T>(memory: Held<K, T>, view: Held<K, T>, after: Held<K, T>, now: int,
                                         retention: nat, capacity: nat)
    requires HoldsTheMostRecent(memory, view, capacity)
    requires Trimmed(Retained(memory, now, retention), after, capacity)
    ensures HoldsTheMostRecent(after, Retained(view, now, retention), capacity) && |after| <= capacity
  {
    var live := Retained(memory, now, retention);
    var current := Retained(view, now, retention);
    forall gone | gone in current && gone !in after
      ensures |after| >= capacity && forall kept :: kept in after ==> view[gone].at <= after[kept].at
    {
      FullKeysAreAll(live, after);
      if gone !in memory {
        assert forall k :: k in memory ==> view[gone].at <= memory[k].at && k in live;
        assert live == memory;
      }
    }
  }

  lemma HearingKeepsTheMostRecent<K, T>(memory: Held<K, T>, view: Held<K, T>, key: K, heard: Heard<T>, capacity: nat)
    requires HoldsTheMostRecent(memory, view, capacity)
    requires forall k :: k in view ==> view[k].at <= heard.at
    ensures HoldsTheMostRecent(memory[key := heard], view[key := heard], capacity)
  {
    var after := memory[key := heard];
    FullKeysAreAll(after, memory);
  }

  /**
   * The bounded memory holds exactly the most recent part of the log's own view, over every run and however often it was
   * trimmed: eviction never costs it a vessel a later trim of the whole view would have kept.
   */
  lemma {:induction false} MemoryRefinesTheLog<K, T>(memories: seq<Held<K, T>>, steps: seq<Step<K, T>>,
                                                     retention: nat, capacity: nat)
    requires IsRun(memories, steps, retention, capacity) && Ordered(steps)
    ensures HoldsTheMostRecent(memories[|steps|], View(steps, retention), capacity)
    ensures steps != [] && steps[|steps| - 1].Sweep? ==> |memories[|steps|]| <= capacity
  {
    if steps != [] {
      var before := steps[..|steps| - 1];
      var step := steps[|steps| - 1];
      assert steps == before + [step];
      MemoryRefinesTheLog(memories[..|steps|], before, retention, capacity);
      var memory := memories[|steps| - 1];
      var view := View(before, retention);
      assert Moves(memory, step, memories[|steps|], retention, capacity);
      if step.Hear? {
        ViewAfterHearing(before, step, retention);
        forall k | k in view ensures view[k].at <= step.now {
          LatestIsInTheLog(before, k);
        }
        HearingKeepsTheMostRecent(memory, view, step.key, Heard(step.value, step.now), capacity);
      } else {
        ViewAfterSweeping(before, step.now, retention);
        SweepingKeepsTheMostRecent(memory, view, memories[|steps|], step.now, retention, capacity);
      }
    }
  }

  /** Right after a sweep the memory is a least-recently-heard trim of the whole view, not only of what it had left. */
  lemma SweptMemoryIsATrimOfTheView<K, T>(memories: seq<Held<K, T>>, steps: seq<Step<K, T>>,
                                          retention: nat, capacity: nat)
    requires IsRun(memories, steps, retention, capacity) && Ordered(steps)
    requires steps != [] && steps[|steps| - 1].Sweep?
    ensures Trimmed(View(steps, retention), memories[|steps|], capacity)
  {
    MemoryRefinesTheLog(memories, steps, retention, capacity);
    var memory := memories[|steps|];
    var view := View(steps, retention);
    FullKeysAreAll(view, memory);
    if |memory| < capacity {
      assert memory.Keys == view.Keys;
    }
  }

  /** The log up to and including the last sweep. */
  function UpToLastSweep<K, T>(steps: seq<Step<K, T>>): seq<Step<K, T>> {
    if steps == [] || steps[|steps| - 1].Sweep? then steps else UpToLastSweep(steps[..|steps| - 1])
  }

  lemma UpToLastSweepAfter<K, T>(steps: seq<Step<K, T>>, step: Step<K, T>)
    ensures UpToLastSweep(steps + [step]) == if step.Sweep? then steps + [step] else UpToLastSweep(steps)
  {
    assert (steps + [step])[..|steps|] == steps;
  }

  /** Where the log's view fits, the memory lacks nothing of it. */
  lemma MostRecentOfWhatFitsIsAll<K, T>(memory: Held<K, T>, view: Held<K, T>, capacity: nat)
    requires HoldsTheMostRecent(memory, view, capacity) && |view| <= capacity
    ensures memory == view
  {
    FullKeysAreAll(view, memory);
    assert memory.Keys == view.Keys;
  }

  /** Whenever the log's view fits, the memory is the view, even after trims. */
  lemma MemoryIsTheViewWhenItFits<K, T>(memories: seq<Held<K, T>>, steps: seq<Step<K, T>>, retention: nat, capacity: nat)
    requires IsRun(memories, steps, retention, capacity) && Ordered(steps)
    requires |View(steps, retention)| <= capacity
    ensures memories[|steps|] == View(steps, retention)
  {
    MemoryRefinesTheLog(memories, steps, retention, capacity);
    MostRecentOfWhatFitsIsAll(memories[|steps|], View(steps, retention), capacity);
  }

  /**
   * The memory is the log's view as long as the view that the last sweep left fits, however large it has grown since and
   * however often earlier sweeps trimmed.
   */
  lemma {:induction false} MemoryIsTheViewWhenTheLastSweepFits<K, T>(
    memories: seq<Held<K, T>>, steps: seq<Step<K, T>>, retention: nat, capacity: nat)
    requires IsRun(memories, steps, retention, capacity) && Ordered(steps)
    requires |View(UpToLastSweep(steps), retention)| <= capacity
    ensures memories[|steps|] == View(steps, retention)
  {
    if steps == [] {
      assert View(steps, retention) == map[];
    } else if steps[|steps| - 1].Sweep? {
      MemoryIsTheViewWhenItFits(memories, steps, retention, capacity);
    } else {
      var before := steps[..|steps| - 1];
      var step := steps[|steps| - 1];
      assert steps == before + [step];
      MemoryIsTheViewWhenTheLastSweepFits(memories[..|steps|], before, retention, capacity);
      ViewAfterHearing(before, step, retention);
      assert Moves(memories[|before|], step, memories[|steps|], retention, capacity);
    }
  }

  /** Right after a sweep it is the view exactly when that fits. */
  lemma SweptMemoryIsTheViewIffItFits<K, T>(memories: seq<Held<K, T>>, steps: seq<Step<K, T>>,
                                            retention: nat, capacity: nat)
    requires IsRun(memories, steps, retention, capacity) && Ordered(steps)
    requires steps != [] && steps[|steps| - 1].Sweep?
    ensures memories[|steps|] == View(steps, retention) <==> |View(steps, retention)| <= capacity
  {
    MemoryRefinesTheLog(memories, steps, retention, capacity);
    if |View(steps, retention)| <= capacity {
      MostRecentOfWhatFitsIsAll(memories[|steps|], View(steps, retention), capacity);
    }
  }

  // ---- runs in which some events leave this half alone ----

  /** The steps among `picks`, in order. */
  function Somes<K, T>(picks: seq<Option<Step<K, T>>>): seq<Step<K, T>> {
    if picks == [] then []
    else
      var last := picks[|picks| - 1];
      Somes(picks[..|picks| - 1]) + if last.Some? then [last.value] else []
  }

  ghost predicate IsStutteringRun<K, T>(memories: seq<Held<K, T>>, picks: seq<Option<Step<K, T>>>,
                                        retention: nat, capacity: nat) {
    && |memories| == |picks| + 1 && memories[0] == map[]
    && forall i :: 0 <= i < |picks| ==>
         match picks[i]
         case None => memories[i + 1] == memories[i]
         case Some(step) => Moves(memories[i], step, memories[i + 1], retention, capacity)
  }

  lemma {:induction false} WithoutStutters<K, T>(memories: seq<Held<K, T>>, picks: seq<Option<Step<K, T>>>,
                                                 retention: nat, capacity: nat) returns (run: seq<Held<K, T>>)
    requires IsStutteringRun(memories, picks, retention, capacity)
    ensures IsRun(run, Somes(picks), retention, capacity) && run[|Somes(picks)|] == memories[|picks|]
  {
    if picks == [] {
      run := [map[]];
    } else {
      var before := picks[..|picks| - 1];
      var shorter := WithoutStutters(memories[..|picks|], before, retention, capacity);
      match picks[|picks| - 1]
      case None => run := shorter;
      case Some(step) =>
        run := shorter + [memories[|picks|]];
        assert Moves(memories[|before|], step, memories[|picks|], retention, capacity);
    }
  }

  /** Where no sweep finds more live vessels than fit. */
  ghost predicate NeverOverfull<K, T>(memories: seq<Held<K, T>>, picks: seq<Option<Step<K, T>>>,
                                      retention: nat, capacity: nat)
    requires |memories| == |picks| + 1
  {
    forall i :: 0 <= i < |picks| && picks[i].Some? && picks[i].value.Sweep? ==>
                  |Retained(memories[i], picks[i].value.now, retention)| <= capacity
  }

  /** Nothing is ever evicted then, and the last sweep left a view that fits. */
  lemma {:induction false} NeverOverfullFitsAtTheLastSweep<K, T>(
    memories: seq<Held<K, T>>, picks: seq<Option<Step<K, T>>>, retention: nat, capacity: nat)
    requires IsStutteringRun(memories, picks, retention, capacity) && Ordered(Somes(picks))
    requires NeverOverfull(memories, picks, retention, capacity)
    ensures |View(UpToLastSweep(Somes(picks)), retention)| <= capacity
    ensures memories[|picks|] == View(Somes(picks), retention)
  {
    if picks == [] {
      assert View<K, T>([], retention) == map[];
    } else {
      var before := picks[..|picks| - 1];
      OrderedBefore(Somes(before), picks[|picks| - 1]);
      NeverOverfullFitsAtTheLastSweep(memories[..|picks|], before, retention, capacity);
      if picks[|picks| - 1].Some? {
        OneMorePick(memories[|before|], memories[|picks|], Somes(before), picks[|picks| - 1].value, retention, capacity);
      } else {
        assert Somes(picks) == Somes(before);
      }
    }
  }

  lemma OrderedBefore<K, T>(log: seq<Step<K, T>>, pick: Option<Step<K, T>>)
    requires Ordered(log + if pick.Some? then [pick.value] else [])
    ensures Ordered(log)
  {
    var longer := log + if pick.Some? then [pick.value] else [];
    assert forall i :: 0 <= i < |log| ==> log[i] == longer[i];
  }

  lemma OneMorePick<K, T>(memory: Held<K, T>, after: Held<K, T>, log: seq<Step<K, T>>, step: Step<K, T>,
                          retention: nat, capacity: nat)
    requires Ordered(log + [step]) && memory == View(log, retention) && Moves(memory, step, after, retention, capacity)
    requires step.Sweep? ==> |Retained(memory, step.now, retention)| <= capacity
    requires |View(UpToLastSweep(log), retention)| <= capacity
    ensures after == View(log + [step], retention) && |View(UpToLastSweep(log + [step]), retention)| <= capacity
  {
    UpToLastSweepAfter(log, step);
    if step.Sweep? {
      ViewAfterSweeping(log, step.now, retention);
      FullKeysAreAll(Retained(memory, step.now, retention), after);
    } else {
      ViewAfterHearing(log, step, retention);
    }
  }
}
