/**
 * A publish/subscribe hub: a table from keys to sets of subscribers.
 *
 * Subscribers are opaque values; publishing does not call them but answers
 * the set of subscribers that would be invoked.
 */
module Event {

  /** The subscribers of `key`; a key never subscribed has none. */
  function Lookup<K(==, !new), S(==)>(table: map<K, set<S>>, key: K): set<S>
  {
    if key in table then table[key] else {}
  }

  /** The table after `s` is added under every key of `keys`. */
  function Added<K(==, !new), S(==)>(table: map<K, set<S>>, s: S, keys: seq<K>): (r: map<K, set<S>>)
    ensures forall k :: Lookup(r, k) == if k in keys then Lookup(table, k) + {s} else Lookup(table, k)
    ensures r.Keys == table.Keys + set k | k in keys
  {
    table + map k | k in keys :: Lookup(table, k) + {s}
  }

  /** The table after `s` is removed under every key of `keys`; each of those
      keys is left in the table, with an empty set if it had none. */
  function Removed<K(==, !new), S(==)>(table: map<K, set<S>>, s: S, keys: seq<K>): (r: map<K, set<S>>)
    ensures forall k :: Lookup(r, k) == if k in keys then Lookup(table, k) - {s} else Lookup(table, k)
    ensures r.Keys == table.Keys + set k | k in keys
  {
    table + map k | k in keys :: Lookup(table, k) - {s}
  }

  /** One call on the hub: adding or removing `s` under every key of `keys`. */
  datatype Op<K, S> = Add(s: S, keys: seq<K>) | Remove(s: S, keys: seq<K>)

  /** The table after the calls of `ops`, in order. */
  function Replay<K(==, !new), S(==)>(table: map<K, set<S>>, ops: seq<Op<K, S>>): map<K, set<S>>
    decreases |ops|
  {
    if ops == [] then table
    else
      var next := match ops[0]
        case Add(s, keys) => Added(table, s, keys)
        case Remove(s, keys) => Removed(table, s, keys);
      Replay(next, ops[1..])
  }

  /** A key that no add names has no subscribers, whatever adds and removes
      under other keys come before or after. */
  lemma {:induction false} NeverSubscribed<K(!new), S>(table: map<K, set<S>>, ops: seq<Op<K, S>>, key: K)
    requires Lookup(table, key) == {}
    requires forall i :: 0 <= i < |ops| && ops[i].Add? ==> key !in ops[i].keys
    ensures Lookup(Replay(table, ops), key) == {}
    decreases |ops|
  {
    if ops != [] {
      var next := match ops[0]
        case Add(s, keys) => Added(table, s, keys)
        case Remove(s, keys) => Removed(table, s, keys);
      assert Lookup(next, key) == {};
      forall i | 0 <= i < |ops| - 1 && ops[1..][i].Add?
        ensures key !in ops[1..][i].keys
      {
        assert ops[1..][i] == ops[i + 1];
      }
      NeverSubscribed(next, ops[1..], key);
    }
  }

  /** From a new hub, a key that no add names has no subscribers. */
  lemma FreshKeyEmpty<K(!new), S>(ops: seq<Op<K, S>>, key: K)
    requires forall i :: 0 <= i < |ops| && ops[i].Add? ==> key !in ops[i].keys
    ensures Lookup(Replay(map[], ops), key) == {}
  {
    NeverSubscribed(map[], ops, key);
  }

  lemma AddedSnoc<K(!new), S>(table: map<K, set<S>>, s: S, keys: seq<K>, key: K)
    ensures Added(table, s, keys + [key])
         == Added(table, s, keys)[key := Lookup(Added(table, s, keys), key) + {s}]
  {
  }

  lemma RemovedSnoc<K(!new), S>(table: map<K, set<S>>, s: S, keys: seq<K>, key: K)
    ensures Removed(table, s, keys + [key])
         == Removed(table, s, keys)[key := Lookup(Removed(table, s, keys), key) - {s}]
  {
    var lhs := Removed(table, s, keys + [key]);
    var rhs := Removed(table, s, keys)[key := Lookup(Removed(table, s, keys), key) - {s}];
    assert lhs.Keys == rhs.Keys;
    forall k | k in lhs ensures lhs[k] == rhs[k] {
      assert Lookup(lhs, k) == Lookup(rhs, k);
    }
  }

  /** Adding a subscriber a second time changes nothing. */
  lemma AddIdempotent<K(!new), S>(table: map<K, set<S>>, s: S, keys: seq<K>)
    ensures Added(Added(table, s, keys), s, keys) == Added(table, s, keys)
  {
  }

  /** Removing a subscriber that no key of `keys` holds leaves every key's
      set as it was. */
  lemma RemoveAbsent<K(!new), S>(table: map<K, set<S>>, s: S, keys: seq<K>)
    requires forall k :: k in keys ==> s !in Lookup(table, k)
    ensures forall k :: Lookup(Removed(table, s, keys), k) == Lookup(table, k)
  {
  }

  /** Removing a subscriber that was added to keys where it was absent
      restores every key's set. */
  lemma RemoveUndoesAdd<K(!new), S>(table: map<K, set<S>>, s: S, keys: seq<K>)
    requires forall k :: k in keys ==> s !in Lookup(table, k)
    ensures forall k :: Lookup(Removed(Added(table, s, keys), s, keys), k) == Lookup(table, k)
  {
  }

  /** Two subscribers of `foo`, one removed: publishing reaches the other
      and not the removed one, and a key never subscribed reaches none. */
  lemma ScenarioTwoSubscribers<K(!new), S>(foo: K, bar: K, one: S, two: S)
    requires foo != bar && one != two
    ensures var both := Added(Added(map[], one, [foo]), two, [foo]);
      && Lookup(both, foo) == {one, two}
      && Lookup(Removed(both, two, [foo]), foo) == {one}
      && Lookup(both, bar) == {}
  {
    var first := Added(map[], one, [foo]);
    assert Lookup(first, foo) == {one};
    var both := Added(first, two, [foo]);
    assert Lookup(both, foo) == {one, two};
    assert {one, two} - {two} == {one};
  }

  class Hub<K(==, !new), S(==)> {
    /** Each key's subscribers; a key absent from the map has none. */
    var subscribers: map<K, set<S>>

    constructor ()
      ensures subscribers == map[]
    {
      subscribers := map[];
    }

    /** Subscribes `s` to every key of `keys`. */
    method AddSubscriber(s: S, keys: seq<K>)
      modifies this
      ensures subscribers == Added(old(subscribers), s, keys)
    {
      for i := 0 to |keys|
        invariant subscribers == Added(old(subscribers), s, keys[..i])
      {
        var key := keys[i];
        AddedSnoc(old(subscribers), s, keys[..i], key);
        assert keys[..i + 1] == keys[..i] + [key];
        subscribers := subscribers[key := Lookup(subscribers, key) + {s}];
      }
      assert keys[..|keys|] == keys;
    }

    /** The subscribers that publishing on `key` invokes, each once. */
    method Publish(key: K) returns (invoked: set<S>)
      ensures invoked == Lookup(subscribers, key)
    {
      var pending := Lookup(subscribers, key);
      invoked := {};
      while pending != {}
        invariant invoked + pending == Lookup(subscribers, key)
        invariant invoked !! pending
        decreases |pending|
      {
        var subscriber :| subscriber in pending;
        invoked := invoked + {subscriber};
        pending := pending - {subscriber};
      }
    }

    /** Unsubscribes `s` from every key of `keys`; a key it was not
        subscribed to is left as it was. */
    method RemoveSubscriber(s: S, keys: seq<K>)
      modifies this
      ensures subscribers == Removed(old(subscribers), s, keys)
    {
      for i := 0 to |keys|
        invariant subscribers == Removed(old(subscribers), s, keys[..i])
      {
        var key := keys[i];
        RemovedSnoc(old(subscribers), s, keys[..i], key);
        assert keys[..i + 1] == keys[..i] + [key];
        subscribers := subscribers[key := Lookup(subscribers, key) - {s}];
      }
      assert keys[..|keys|] == keys;
    }
  }

  /** The `subscribe` decorator: registers `func` on `hub` under every key of
      `keys`.  The wrapper it hands back to the caller is not modelled. */
  method Subscribe<K(==, !new), S(==)>(hub: Hub<K, S>, keys: seq<K>, func: S)
    modifies hub
    ensures hub.subscribers == Added(old(hub.subscribers), func, keys)
  {
    hub.AddSubscriber(func, keys);
  }

  /** The scenarios of the hub's tests, as a caller sees them. */
  method ClientHub<K(==, !new), S(==)>(foo: K, bar: K, first: S, second: S)
    returns (both: set<S>, remaining: set<S>)
    requires foo != bar && first != second
    ensures both == {first, second} && remaining == {first}
  {
    var hub := new Hub<K, S>();
    hub.AddSubscriber(first, [foo]);
    assert Lookup(hub.subscribers, foo) == {first};
    hub.AddSubscriber(second, [foo]);
    assert Lookup(hub.subscribers, foo) == {first, second};
    both := hub.Publish(foo);
    hub.RemoveSubscriber(second, [foo]);
    assert {first, second} - {second} == {first};
    remaining := hub.Publish(foo);
  }

  /** A subscriber added and then removed is not invoked. */
  method ClientRemove<K(==, !new), S(==)>(foo: K, subscriber: S) returns (invoked: set<S>)
    ensures invoked == {}
  {
    var hub := new Hub<K, S>();
    hub.AddSubscriber(subscriber, [foo]);
    hub.RemoveSubscriber(subscriber, [foo]);
    assert Lookup(hub.subscribers, foo) == {};
    invoked := hub.Publish(foo);
  }

  /** A function registered through the decorator is invoked on its key. */
  method ClientSubscribe<K(==, !new), S(==)>(bar: K, func: S) returns (invoked: set<S>)
    ensures invoked == {func}
  {
    var hub := new Hub<K, S>();
    Subscribe(hub, [bar], func);
    invoked := hub.Publish(bar);
  }
}
