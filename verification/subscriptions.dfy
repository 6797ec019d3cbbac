/** Subscriptions to the notification bus. `listen` and `listenMany` return a
    cold, never-replayed stream: nothing is received until it is subscribed,
    and each subscription to it is independent. A subscription taken when the
    log had length `since` receives, in log order, the value of every later
    event whose key passes its filter (`filter` then `map` in the source). */
module Subscriptions {
  import opened JsValues
  import opened StorageService

  /** The filter a subscription applies to each event's key. */
  datatype Filter = Key(key: string) | AnyOf(keys: seq<string>)

  /** `data.key === key` for `listen`, `keys.includes(data.key)` for `listenMany`. */
  function Matches(f: Filter, key: string): (b: bool)
    ensures f.Key? ==> (b <==> key == f.key)
    ensures f.AnyOf? ==> (b <==> exists i :: 0 <= i < |f.keys| && f.keys[i] == key)
  {
    match f
    case Key(k) => key == k
    case AnyOf(ks) => key in ks
  }

  /** A subscription: its filter and the length of the log when it was taken. */
  datatype Subscription = Subscription(filter: Filter, since: nat)

  /** The values a filter lets through from a run of events, in order. */
  function Project(f: Filter, events: seq<Event>): (r: seq<Value>)
    ensures |r| <= |events|
    decreases |events|
  {
    if events == [] then []
    else (if Matches(f, events[0].key) then [events[0].value] else []) + Project(f, events[1..])
  }

  /** `listen(key)`, subscribed when the store is `s`: matches exactly `key`,
      and receives nothing already broadcast. `s` is the store at the moment
      the returned stream is subscribed, not when `listen` is called; each
      further subscription to the same stream is a fresh `Listen`. */
  function Listen(s: Store, key: string): (sub: Subscription)
    ensures forall k :: Matches(sub.filter, k) <==> k == key
    ensures sub.since <= |s.log| && Delivered(sub, s) == []
  {
    Subscription(Key(key), |s.log|)
  }

  /** `listenMany(keys)`, subscribed when the store is `s`: matches exactly the
      listed keys, and receives nothing already broadcast. As for `Listen`, `s`
      is the store when the returned stream is subscribed. */
  function ListenMany(s: Store, keys: seq<string>): (sub: Subscription)
    ensures forall k :: Matches(sub.filter, k) <==> k in keys
    ensures sub.since <= |s.log| && Delivered(sub, s) == []
  {
    Subscription(AnyOf(keys), |s.log|)
  }

  /** What `sub` has received by the time the store is `s`: at most one value
      per event broadcast since it was subscribed, and nothing if none was. */
  function Delivered(sub: Subscription, s: Store): (r: seq<Value>)
    requires sub.since <= |s.log|
    ensures |r| <= |s.log| - sub.since
    ensures sub.since == |s.log| ==> r == []
  {
    Project(sub.filter, s.log[sub.since..])
  }

  /** Filtering a concatenation is concatenating the filtered parts: delivery
      is event by event and keeps log order. */
  lemma {:induction false} ProjectAppend(f: Filter, a: seq<Event>, b: seq<Event>)
    ensures Project(f, a + b) == Project(f, a) + Project(f, b)
    decreases |a|
  {
    if a == [] {
      assert a + b == b;
    } else {
      var head := if Matches(f, a[0].key) then [a[0].value] else [];
      assert (a + b)[0] == a[0];
      assert (a + b)[1..] == a[1..] + b;
      ProjectAppend(f, a[1..], b);
      calc {
        Project(f, a + b);
        head + Project(f, a[1..] + b);
        head + (Project(f, a[1..]) + Project(f, b));
        (head + Project(f, a[1..])) + Project(f, b);
        Project(f, a) + Project(f, b);
      }
    }
  }

  /** A value is received exactly when some event in the run carries it under
      a key the filter accepts. */
  lemma {:induction false} ProjectMembership(f: Filter, events: seq<Event>, v: Value)
    ensures v in Project(f, events) <==>
      exists i :: 0 <= i < |events| && Matches(f, events[i].key) && events[i].value == v
    decreases |events|
  {
    if events != [] {
      ProjectMembership(f, events[1..], v);
      if v in Project(f, events[1..]) {
        var i :| 0 <= i < |events[1..]| && Matches(f, events[1..][i].key) && events[1..][i].value == v;
        assert events[i + 1] == events[1..][i];
      }
      if exists i :: 0 <= i < |events| && Matches(f, events[i].key) && events[i].value == v {
        var i :| 0 <= i < |events| && Matches(f, events[i].key) && events[i].value == v;
        if i > 0 {
          assert events[1..][i - 1] == events[i];
        }
      }
    }
  }

  /** Two filters that accept the same keys deliver the same values. */
  lemma {:induction false} ProjectSameKeys(f: Filter, g: Filter, events: seq<Event>)
    requires forall k :: Matches(f, k) == Matches(g, k)
    ensures Project(f, events) == Project(g, events)
    decreases |events|
  {
    if events != [] {
      ProjectSameKeys(f, g, events[1..]);
    }
  }

  /** `listenMany([key])` receives exactly what `listen(key)` receives. */
  lemma ListenManySingleton(s: Store, key: string, later: Store)
    requires |s.log| <= |later.log|
    ensures Delivered(ListenMany(s, [key]), later) == Delivered(Listen(s, key), later)
  {
    ProjectSameKeys(AnyOf([key]), Key(key), later.log[|s.log|..]);
  }

  /** Whatever a subscription receives is the value of an event broadcast
      after it was taken under a key it accepts, and every such value arrives. */
  lemma DeliveredExactly(sub: Subscription, s: Store, v: Value)
    requires sub.since <= |s.log|
    ensures v in Delivered(sub, s) <==>
      exists i :: sub.since <= i < |s.log| && Matches(sub.filter, s.log[i].key) && s.log[i].value == v
  {
    var suffix := s.log[sub.since..];
    ProjectMembership(sub.filter, suffix, v);
    if exists i :: sub.since <= i < |s.log| && Matches(sub.filter, s.log[i].key) && s.log[i].value == v {
      var i :| sub.since <= i < |s.log| && Matches(sub.filter, s.log[i].key) && s.log[i].value == v;
      assert suffix[i - sub.since] == s.log[i];
    }
    if v in Delivered(sub, s) {
      var j :| 0 <= j < |suffix| && Matches(sub.filter, suffix[j].key) && suffix[j].value == v;
      assert s.log[sub.since + j] == suffix[j];
    }
  }

  /** Appending events to the log extends every subscription's delivery by
      what the filter lets through of the new events. */
  lemma DeliveredAfterAppend(sub: Subscription, s: Store, t: Store, extra: seq<Event>)
    requires sub.since <= |s.log|
    requires t.log == s.log + extra
    ensures sub.since <= |t.log|
    ensures Delivered(sub, t) == Delivered(sub, s) + Project(sub.filter, extra)
  {
    assert t.log[sub.since..] == s.log[sub.since..] + extra;
    ProjectAppend(sub.filter, s.log[sub.since..], extra);
  }

  /** After `set(key, value)` a subscription accepting `key` receives exactly
      one more value, `value`; any other subscription receives nothing new. */
  lemma DeliveredAfterSet(sub: Subscription, s: Store, key: string, value: Value)
    requires sub.since <= |s.log|
    ensures sub.since <= |Set(s, key, value).log|
    ensures Delivered(sub, Set(s, key, value)) ==
      Delivered(sub, s) + (if Matches(sub.filter, key) then [value] else [])
  {
    DeliveredAfterAppend(sub, s, Set(s, key, value), [Event(key, value)]);
    assert Project(sub.filter, [Event(key, value)]) ==
      (if Matches(sub.filter, key) then [value] else []) + Project(sub.filter, []);
  }

  /** `listenMany([k1, k2])`, taken before `set(k1, a)`, `set(k2, b)` and
      `set(k3, c)` with `k3` not listed, receives `a` then `b` and nothing else. */
  lemma ListenManyScenario(s: Store, k1: string, k2: string, k3: string, a: Value, b: Value, c: Value)
    requires k3 != k1 && k3 != k2
    ensures var sub := ListenMany(s, [k1, k2]);
      var t := Set(Set(Set(s, k1, a), k2, b), k3, c);
      sub.since <= |t.log| && Delivered(sub, t) == [a, b]
  {
    var sub := ListenMany(s, [k1, k2]);
    var t1 := Set(s, k1, a);
    var t2 := Set(t1, k2, b);
    DeliveredAfterSet(sub, s, k1, a);
    DeliveredAfterSet(sub, t1, k2, b);
    DeliveredAfterSet(sub, t2, k3, c);
  }

  /** The bus pushing events one at a time through a subscription's
      `filter`/`map` pipeline delivers exactly the filtered projection. */
  method Dispatch(f: Filter, events: seq<Event>) returns (delivered: seq<Value>)
    ensures delivered == Project(f, events)
  {
    delivered := [];
    var i := 0;
    while i < |events|
      invariant 0 <= i <= |events|
      invariant delivered == Project(f, events[..i])
    {
      assert events[..i + 1] == events[..i] + [events[i]];
      ProjectAppend(f, events[..i], [events[i]]);
      if Matches(f, events[i].key) {
        delivered := delivered + [events[i].value];
      }
      i := i + 1;
    }
    assert events[..i] == events;
  }
}
