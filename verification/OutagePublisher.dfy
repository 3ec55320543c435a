/** Snapshots of a list of outages, turned into the markers worth sending. */
module OutagePublishers {
  import opened Wrappers
  import opened CotTimes
  import opened CotEvents
  import opened Outages

  /** An outage on the map, and when its marker is next published whether or not it changed. */
  datatype Held = Held(outage: Outage, due: int)

  datatype Counters = Counters(offered: nat, published: nat, suppressed: nat, expired: nat)

  /** Everything the publisher holds. */
  datatype State = State(
    scope: Scope,
    stale: nat,
    refresh: nat,
    held: map<string, Held>,
    outbox: seq<Marker>,
    counters: Counters)

  /** `refresh` held to half of `stale`, or nothing when it is longer than a calendar span can be. */
  function ClampedRefresh(stale: nat, refresh: nat): (r: nat)
    ensures r <= refresh && r <= stale / 2
    ensures if refresh > I64_MAX && stale / 2 > I64_MAX then r == 0 else r == refresh || r == stale / 2
  {
    var least := if refresh < stale / 2 then refresh else stale / 2;
    if least <= I64_MAX then least else 0
  }

  function New(scope: Scope, stale: nat, refresh: nat): State {
    State(scope, stale, ClampedRefresh(stale, refresh), map[], [], Counters(0, 0, 0, 0))
  }

  function ByteSum(id: string): nat {
    if id == "" then 0 else ByteSum(id[..|id| - 1]) + id[|id| - 1] as nat
  }

  /** How long a marker is left alone: fixed per outage, so that a storm is not republished in one burst. */
  function RefreshAfter(refresh: nat, id: string): nat {
    refresh * (50 + ByteSum(id) % 50) / 100
  }

  /** Every character counts, wherever it stands: an id's sum is its parts' sums, and a character's is its code. */
  lemma {:induction false} ByteSumAdds(a: string, b: string)
    ensures ByteSum(a + b) == ByteSum(a) + ByteSum(b)
    ensures |b| == 1 ==> ByteSum(b) == b[0] as nat
  {
    if b == "" {
      assert a + b == a;
    } else {
      var front := b[..|b| - 1];
      assert (a + b)[..|a + b| - 1] == a + front;
      ByteSumAdds(a, front);
    }
  }

  /** Two ids made of the same characters share a hundredth; and what two ids are given. */
  lemma SharesAreOfTheCharacters(refresh: nat, a: string, b: string)
    ensures RefreshAfter(refresh, a + b) == RefreshAfter(refresh, b + a)
    ensures RefreshAfter(refresh, "") == refresh / 2 && RefreshAfter(refresh, "A") == refresh * 65 / 100
  {
    ByteSumAdds(a, b);
    ByteSumAdds(b, a);
    ByteSumAdds("", "A");
    assert ByteSum("") % 50 == 0 && ByteSum("A") % 50 == 15;
  }

  /** Between half of `refresh` and 99 hundredths of it, for every id. */
  lemma RefreshAfterIsSpread(refresh: nat, id: string)
    ensures refresh / 2 <= RefreshAfter(refresh, id) <= refresh * 99 / 100 <= refresh
  {
    ShareIsOrdered(refresh, 50, 50 + ByteSum(id) % 50);
    ShareIsOrdered(refresh, 50 + ByteSum(id) % 50, 99);
  }

  lemma ShareIsOrdered(whole: nat, small: nat, large: nat)
    requires small <= large
    ensures whole * small / 100 <= whole * large / 100
  {
    assert whole * large == whole * small + whole * (large - small);
    assert whole * (large - small) >= 0;
  }

  /** Every hundredth from 50 to 99 is some id's share. */
  lemma EverySpreadIsUsed(refresh: nat, hundredths: nat)
    requires 50 <= hundredths <= 99
    ensures exists id :: RefreshAfter(refresh, id) == refresh * hundredths / 100
  {
    var id := [hundredths as char];
    assert id[..0] == "";
    assert ByteSum(id) == hundredths;
    assert RefreshAfter(refresh, id) == refresh * hundredths / 100;
  }

  /** Whether what is held says everything this offer would. */
  predicate IsCurrent(s: State, outage: Outage, now: Instant) {
    outage.id in s.held && s.held[outage.id].outage == outage && now < s.held[outage.id].due
  }

  function Suppressed(s: State): State {
    s.(counters := s.counters.(suppressed := s.counters.suppressed + 1))
  }

  /** The marker goes out, and is left alone for this outage's share of `refresh`. */
  function Published(s: State, outage: Outage, now: Instant): State {
    s.(outbox := s.outbox + [ToEvent(outage, now, s.stale, now)],
       counters := s.counters.(published := s.counters.published + 1),
       held := s.held[outage.id := Held(outage, now + RefreshAfter(s.refresh, outage.id))])
  }

  /** One entry of a snapshot. */
  function OfferOne(s: State, outage: Outage, now: Instant): State {
    var counted := s.(counters := s.counters.(offered := s.counters.offered + 1));
    if !Admits(s.scope, outage) || IsCurrent(s, outage, now) then Suppressed(counted)
    else Published(counted, outage, now)
  }

  /** A snapshot's entries, in order. */
  function OfferAll(s: State, snapshot: seq<Outage>, now: Instant): State {
    if snapshot == [] then s
    else OfferOne(OfferAll(s, snapshot[..|snapshot| - 1], now), snapshot[|snapshot| - 1], now)
  }

  /** The ids the scope admits out of a snapshot. */
  function Listed(scope: Scope, snapshot: seq<Outage>): set<string> {
    set o | o in snapshot && Admits(scope, o) :: o.id
  }

  lemma NextEntry(s: State, snapshot: seq<Outage>, i: nat, now: Instant)
    requires i < |snapshot|
    ensures OfferAll(s, snapshot[..i + 1], now) == OfferOne(OfferAll(s, snapshot[..i], now), snapshot[i], now)
    ensures Listed(s.scope, snapshot[..i + 1])
            == Listed(s.scope, snapshot[..i]) + (if Admits(s.scope, snapshot[i]) then {snapshot[i].id} else {})
  {
    var upTo := snapshot[..i + 1];
    assert upTo[..i] == snapshot[..i];
    assert upTo == snapshot[..i] + [snapshot[i]];
  }

  function Retain(s: State, listed: set<string>): State {
    var kept := map id | id in s.held && id in listed :: s.held[id];
    FewerKept(s.held, kept);
    s.(held := kept, counters := s.counters.(expired := s.counters.expired + |s.held| - |kept|))
  }

  lemma FewerKept<V>(all: map<string, V>, kept: map<string, V>)
    requires kept.Keys <= all.Keys
    ensures |kept| <= |all|
  {
    KeysOfSubset(kept.Keys, all.Keys);
    assert |kept| == |kept.Keys| && |all| == |all.Keys|;
  }

  lemma {:induction false} KeysOfSubset(a: set<string>, b: set<string>)
    requires a <= b
    ensures |a| <= |b|
  {
    if a != {} {
      var x :| x in a;
      KeysOfSubset(a - {x}, b - {x});
    }
  }

  /** Everything the source currently lists. */
  function AfterOffer(s: State, snapshot: seq<Outage>, now: Instant): State {
    Retain(OfferAll(s, snapshot, now), Listed(s.scope, snapshot))
  }

  function MadeDue(held: map<string, Held>): map<string, Held> {
    map id | id in held :: held[id].(due := MIN_UTC)
  }

  /** Makes every marker due. */
  function AllDue(s: State): State {
    s.(held := MadeDue(s.held))
  }

  // ---- the heartbeat's view ----

  datatype Summary = Summary(fault: nat, planned: nat, restored: nat, other: nat, customers: nat)

  function Total(summary: Summary): nat {
    summary.fault + summary.planned + summary.restored + summary.other
  }

  /** Those of `ids` that are held as `kind`. */
  function OfKind(held: map<string, Held>, ids: set<string>, kind: OutageKind): set<string> {
    set id | id in ids && id in held && held[id].outage.kind == kind
  }

  /** Customers off supply over some held ids, in whichever order they are visited. */
  ghost function CustomersOver(held: map<string, Held>, ids: set<string>): nat
    requires ids <= held.Keys
  {
    if ids == {} then 0
    else
      var id :| id in ids;
      held[id].outage.customers.GetOr(0) + CustomersOver(held, ids - {id})
  }

  /** The sum does not depend on the order. */
  lemma {:induction false} CustomersInAnyOrder(held: map<string, Held>, ids: set<string>, id: string)
    requires ids <= held.Keys && id in ids
    ensures CustomersOver(held, ids) == held[id].outage.customers.GetOr(0) + CustomersOver(held, ids - {id})
  {
    var first :| first in ids && CustomersOver(held, ids)
                                 == held[first].outage.customers.GetOr(0) + CustomersOver(held, ids - {first});
    if first != id {
      CustomersInAnyOrder(held, ids - {first}, id);
      CustomersInAnyOrder(held, ids - {id}, first);
      assert ids - {first} - {id} == ids - {id} - {first};
    }
  }

  /** The publisher: the fields its methods rewrite. */
  class OutagePublisher {
    var scope: Scope
    var stale: nat
    var refresh: nat
    var held: map<string, Held>
    var outbox: seq<Marker>
    var counters: Counters

    function Now(): State
      reads this
    {
      State(scope, stale, refresh, held, outbox, counters)
    }

    constructor (scope: Scope, stale: nat, refresh: nat)
      ensures Now() == New(scope, stale, refresh)
    {
      var ceiling := stale / 2;
      var least := if refresh < ceiling then refresh else ceiling;
      this.scope, this.stale := scope, stale;
      this.refresh := if least <= I64_MAX then least else 0;
      held, outbox, counters := map[], [], Counters(0, 0, 0, 0);
    }

    method OfferAt(snapshot: seq<Outage>, now: Instant)
      modifies this
      ensures Now() == AfterOffer(old(Now()), snapshot, now)
    {
      ghost var start := Now();
      var listed := {};
      for i := 0 to |snapshot|
        invariant Now() == OfferAll(start, snapshot[..i], now)
        invariant scope == start.scope
        invariant listed == Listed(scope, snapshot[..i])
      {
        var outage := snapshot[i];
        NextEntry(start, snapshot, i, now);
        counters := counters.(offered := counters.offered + 1);
        if !Admits(scope, outage) {
          counters := counters.(suppressed := counters.suppressed + 1);
        } else {
          listed := listed + {outage.id};
          if outage.id in held && held[outage.id].outage == outage && now < held[outage.id].due {
            counters := counters.(suppressed := counters.suppressed + 1);
          } else {
            Publish(outage, now);
          }
        }
      }
      assert snapshot[..|snapshot|] == snapshot;
      RetainListed(listed);
    }

    method Publish(outage: Outage, now: Instant)
      modifies this
      ensures Now() == Published(old(Now()), outage, now)
    {
      outbox := outbox + [ToEvent(outage, now, stale, now)];
      counters := counters.(published := counters.published + 1);
      held := held[outage.id := Held(outage, now + RefreshAfter(refresh, outage.id))];
    }

    /** Forgets what is no longer listed; no delete is ever sent for it. */
    method RetainListed(listed: set<string>)
      modifies this
      ensures Now() == Retain(old(Now()), listed)
    {
      var before := held;
      held := map id | id in held && id in listed :: held[id];
      FewerKept(before, held);
      counters := counters.(expired := counters.expired + |before| - |held|);
    }

    method Drain() returns (taken: seq<Marker>)
      modifies this
      ensures taken == old(outbox)
      ensures Now() == old(Now()).(outbox := [])
    {
      taken := outbox;
      outbox := [];
    }

    method RefreshAll()
      modifies this
      ensures Now() == AllDue(old(Now()))
    {
      held := map id | id in held :: held[id].(due := MIN_UTC);
    }

    method SetScope(scope: Scope)
      modifies this
      ensures Now() == old(Now()).(scope := scope)
    {
      this.scope := scope;
    }

    /** What is on the map: each kind counted, and customers over the faults alone. */
    method Summarise() returns (summary: Summary)
      ensures summary.fault == |OfKind(held, held.Keys, Fault)|
      ensures summary.planned == |OfKind(held, held.Keys, Planned)|
      ensures summary.restored == |OfKind(held, held.Keys, Restored)|
      ensures summary.other == |OfKind(held, held.Keys, Other)|
      ensures Total(summary) == |held|
      ensures summary.customers == CustomersOver(held, OfKind(held, held.Keys, Fault))
    {
      summary := Summary(0, 0, 0, 0, 0);
      var left := held.Keys;
      assert held.Keys - left == {};
      while left != {}
        invariant left <= held.Keys && Tallied(held, held.Keys - left, summary)
        decreases |left|
      {
        var id :| id in left;
        var outage := held[id].outage;
        Visit(held, held.Keys - left, id, summary);
        assert held.Keys - (left - {id}) == held.Keys - left + {id};
        match outage.kind {
          case Fault =>
            summary := summary.(fault := summary.fault + 1);
            summary := summary.(customers := summary.customers + outage.customers.GetOr(0));
          case Planned => summary := summary.(planned := summary.planned + 1);
          case Restored => summary := summary.(restored := summary.restored + 1);
          case Other => summary := summary.(other := summary.other + 1);
        }
        left := left - {id};
      }
      assert held.Keys - left == held.Keys;
    }
  }

  /** The summary of the held ids `seen` so far. */
  ghost predicate Tallied(held: map<string, Held>, seen: set<string>, summary: Summary) {
    && summary.fault == |OfKind(held, seen, Fault)|
    && summary.planned == |OfKind(held, seen, Planned)|
    && summary.restored == |OfKind(held, seen, Restored)|
    && summary.other == |OfKind(held, seen, Other)|
    && Total(summary) == |seen|
    && summary.customers == CustomersOver(held, OfKind(held, seen, Fault))
  }

  function Count(summary: Summary, outage: Outage): Summary {
    match outage.kind
    case Fault => summary.(fault := summary.fault + 1,
                           customers := summary.customers + outage.customers.GetOr(0))
    case Planned => summary.(planned := summary.planned + 1)
    case Restored => summary.(restored := summary.restored + 1)
    case Other => summary.(other := summary.other + 1)
  }

  /** One more id seen is one more of its own kind and none of any other. */
  lemma SeeOneMore(held: map<string, Held>, seen: set<string>, id: string, kind: OutageKind)
    requires id in held && id !in seen
    ensures held[id].outage.kind == kind ==>
              OfKind(held, seen + {id}, kind) == OfKind(held, seen, kind) + {id}
              && |OfKind(held, seen + {id}, kind)| == |OfKind(held, seen, kind)| + 1
    ensures held[id].outage.kind != kind ==> OfKind(held, seen + {id}, kind) == OfKind(held, seen, kind)
  {
    if held[id].outage.kind == kind {
      assert OfKind(held, seen + {id}, kind) == OfKind(held, seen, kind) + {id};
    } else {
      assert OfKind(held, seen + {id}, kind) == OfKind(held, seen, kind);
    }
  }

  lemma Visit(held: map<string, Held>, seen: set<string>, id: string, summary: Summary)
    requires id in held && id !in seen && Tallied(held, seen, summary)
    ensures Tallied(held, seen + {id}, Count(summary, held[id].outage))
  {
    SeeOneMore(held, seen, id, Fault);
    SeeOneMore(held, seen, id, Planned);
    SeeOneMore(held, seen, id, Restored);
    SeeOneMore(held, seen, id, Other);
    if held[id].outage.kind == Fault {
      var faults := OfKind(held, seen + {id}, Fault);
      CustomersInAnyOrder(held, faults, id);
      assert faults - {id} == OfKind(held, seen, Fault);
    }
  }
}
