/**
 * The in-process TTL store `_Cache` (dojang/cache.py): a dictionary from
 * string keys to (value, time of writing, TTL) behind a memcached-style API.
 * Expiry is lazy: `get` and `incr` remove an expired entry when they meet it.
 * The wall clock the source reads with `sys_time()` is the parameter `now`.
 */
module Caching {
  import opened Base
  import opened Values
  import Decimal

  /** One slot of the store: the value, the clock reading when it was written, its TTL in seconds (0 = never expires). */
  datatype Entry = Entry(value: Value, begin: int, seconds: nat)

  type Table = map<string, Entry>

  /** The TTL `set` stores: a negative time becomes 0. */
  function Ttl(time: int): nat {
    if time < 0 then 0 else time
  }

  /** The test `get` and `incr` apply before using an entry. */
  predicate Expired(e: Entry, now: int) {
    e.seconds != 0 && now > e.begin + e.seconds
  }

  /** What `get(key)` returns: the stored value of a live entry, else None. */
  function Lookup(t: Table, key: string, now: int): Value {
    if key in t && !Expired(t[key], now) then t[key].value else Nil
  }

  /** The table after `get(key)`: an expired entry under `key` is deleted. */
  function Sweep(t: Table, key: string, now: int): Table {
    if key in t && Expired(t[key], now) then t - {key} else t
  }

  /** The table after `set(key, val, time)`. */
  function Put(t: Table, key: string, val: Value, time: int, now: int): Table {
    t[key := Entry(val, now, Ttl(time))]
  }

  /** What `add(key, val, time)` returns: it only tests membership, not expiry. */
  function AddResult(t: Table, key: string, val: Value, now: int): Value {
    if key !in t then val else Lookup(t, key, now)
  }

  function AddTable(t: Table, key: string, val: Value, time: int, now: int): Table {
    if key !in t then Put(t, key, val, time, now) else Sweep(t, key, now)
  }

  /** `value + delta` after `incr` has turned a string into an int with `int(value)`. */
  function Bump(v: Value, delta: int): Result<int> {
    match v
    case Str(s) =>
      (match Decimal.ParseInt(s)
       case Some(n) => Success(n + delta)
       case None => Failure(ValueError))
    case Int(i) => Success(i + delta)
    case Bool(b) => Success((if b then 1 else 0) + delta)
    case _ => Failure(TypeError)
  }

  /** What `incr(key, delta)` returns, or the exception it raises. */
  function IncrResult(t: Table, key: string, delta: int, now: int): Result<Value> {
    if key !in t || Expired(t[key], now) then Success(Nil)
    else match Bump(t[key].value, delta)
      case Success(n) => Success(Int(n))
      case Failure(e) => Failure(e)
  }

  /** The table after `incr(key, delta)`: the sum is written back by `set(key, value)`, with TTL 0. */
  function IncrTable(t: Table, key: string, delta: int, now: int): Table {
    if key !in t then t
    else if Expired(t[key], now) then t - {key}
    else match Bump(t[key].value, delta)
      case Success(n) => Put(t, key, Int(n), 0, now)
      case Failure(_) => t
  }

  /** The store keys `'%s%s' % (key_prefix, key)` for the given keys. */
  function Prefixed(keys: seq<Value>, prefix: string): set<string> {
    set k | k in keys :: prefix + Show(k)
  }

  /** What `get_multi(keys, key_prefix)` returns: the keys whose live value is truthy. */
  function LiveMap(t: Table, keys: seq<Value>, prefix: string, now: int): map<Value, Value> {
    map k | k in keys && Truthy(Lookup(t, prefix + Show(k), now)) :: Lookup(t, prefix + Show(k), now)
  }

  /** The table after reading every key of `probe` with `get`. */
  function SweepAll(t: Table, probe: set<string>, now: int): Table {
    map s | s in t && !(s in probe && Expired(t[s], now)) :: t[s]
  }

  /** The table after `set_multi` has written `items` (the mapping's items, in iteration order). */
  function StoreAll(t: Table, items: seq<(Value, Value)>, prefix: string, time: int, now: int): Table {
    if items == [] then t
    else
      var last := items[|items| - 1];
      Put(StoreAll(t, items[..|items| - 1], prefix, time, now), prefix + Show(last.0), last.1, time, now)
  }

  /** `_Cache`, the in-process store behind `simple_cache` and the fallback `complex_cache`. */
  class Cache {
    var table: Table

    constructor ()
      ensures table == map[]
    {
      table := map[];
    }

    method FlushAll()
      modifies this
      ensures table == map[]
    {
      table := map[];
    }

    method Set(key: Value, val: Value, time: int, now: int) returns (r: Value)
      modifies this
      ensures r == val
      ensures table == Put(old(table), Show(key), val, time, now)
    {
      var k := Show(key);
      var ttl := if time < 0 then 0 else time;
      table := table[k := Entry(val, now, ttl)];
      r := val;
    }

    method Get(key: Value, now: int) returns (r: Value)
      modifies this
      ensures r == Lookup(old(table), Show(key), now)
      ensures table == Sweep(old(table), Show(key), now)
    {
      var k := Show(key);
      if k !in table {
        return Nil;
      }
      var e := table[k];
      if e.seconds != 0 && now > e.begin + e.seconds {
        table := table - {k};
        return Nil;
      }
      r := e.value;
    }

    method Add(key: Value, val: Value, time: int, now: int) returns (r: Value)
      modifies this
      ensures r == AddResult(old(table), Show(key), val, now)
      ensures table == AddTable(old(table), Show(key), val, time, now)
    {
      var k := Show(key);
      if k !in table {
        r := Set(Str(k), val, time, now);
        return;
      }
      r := Get(Str(k), now);
    }

    method Delete(key: Value)
      modifies this
      ensures table == old(table) - {Show(key)}
    {
      var k := Show(key);
      if k in table {
        table := table - {k};
      }
    }

    method Incr(key: Value, delta: int, now: int) returns (r: Result<Value>)
      modifies this
      ensures r == IncrResult(old(table), Show(key), delta, now)
      ensures table == IncrTable(old(table), Show(key), delta, now)
    {
      var k := Show(key);
      if k !in table {
        return Success(Nil);
      }
      var e := table[k];
      if e.seconds != 0 && now > e.begin + e.seconds {
        table := table - {k};
        return Success(Nil);
      }
      var sum: int;
      match e.value {
        case Str(x) =>
          var parsed := Decimal.ParseInt(x);
          if parsed.None? {
            return Failure(ValueError);
          }
          BumpParsed(x, parsed.value, delta);
          sum := parsed.value + delta;
        case Int(i) => sum := i + delta;
        case Bool(b) => sum := (if b then 1 else 0) + delta;
        case _ => return Failure(TypeError);
      }
      assert Bump(e.value, delta) == Success(sum);
      IncrLive(table, k, delta, sum, now);
      assert Show(Str(k)) == k;
      var _ := Set(Str(k), Int(sum), 0, now);
      r := Success(Int(sum));
    }

    method Decr(key: Value, delta: int, now: int) returns (r: Result<Value>)
      modifies this
      ensures r == IncrResult(old(table), Show(key), -delta, now)
      ensures table == IncrTable(old(table), Show(key), -delta, now)
    {
      r := Incr(key, -delta, now);
    }

    method SetMulti(items: seq<(Value, Value)>, time: int, prefix: string, now: int) returns (ok: bool)
      modifies this
      ensures ok
      ensures table == StoreAll(old(table), items, prefix, time, now)
    {
      for i := 0 to |items|
        invariant table == StoreAll(old(table), items[..i], prefix, time, now)
      {
        assert items[..i + 1][..i] == items[..i];
        var _ := Set(Str(prefix + Show(items[i].0)), items[i].1, time, now);
      }
      assert items[..|items|] == items;
      ok := true;
    }

    method GetMulti(keys: seq<Value>, prefix: string, now: int) returns (dct: map<Value, Value>)
      modifies this
      ensures dct == LiveMap(old(table), keys, prefix, now)
      ensures table == SweepAll(old(table), Prefixed(keys, prefix), now)
    {
      dct := map[];
      ghost var t0 := table;
      SweepAllNone(t0, now);
      for i := 0 to |keys|
        invariant dct == LiveMap(t0, keys[..i], prefix, now)
        invariant table == SweepAll(t0, Prefixed(keys[..i], prefix), now)
      {
        var s := prefix + Show(keys[i]);
        ghost var before := table;
        LookupSwept(t0, Prefixed(keys[..i], prefix), s, now);
        SweepAllStep(t0, Prefixed(keys[..i], prefix), s, now);
        var value := Get(Str(s), now);
        if Truthy(value) {
          dct := dct[keys[i] := value];
        }
        LiveMapStep(t0, keys, i, prefix, now);
        PrefixedStep(keys, i, prefix);
      }
      assert keys[..|keys|] == keys;
    }

    method DeleteMulti(keys: seq<Value>, prefix: string)
      modifies this
      ensures table == old(table) - Prefixed(keys, prefix)
    {
      for i := 0 to |keys|
        invariant table == old(table) - Prefixed(keys[..i], prefix)
      {
        PrefixedStep(keys, i, prefix);
        Delete(Str(prefix + Show(keys[i])));
      }
      assert keys[..|keys|] == keys;
    }
  }

  lemma SweepAllNone(t: Table, now: int)
    ensures SweepAll(t, {}, now) == t
  {
  }

  lemma PrefixedStep(keys: seq<Value>, i: int, prefix: string)
    requires 0 <= i < |keys|
    ensures Prefixed(keys[..i + 1], prefix) == Prefixed(keys[..i], prefix) + {prefix + Show(keys[i])}
  {
    assert keys[..i + 1] == keys[..i] + [keys[i]];
  }

  /** Sweeping other keys does not change what `get` sees. */
  lemma LookupSwept(t: Table, probe: set<string>, s: string, now: int)
    ensures Lookup(SweepAll(t, probe, now), s, now) == Lookup(t, s, now)
  {
  }

  lemma SweepAllStep(t: Table, probe: set<string>, s: string, now: int)
    ensures Sweep(SweepAll(t, probe, now), s, now) == SweepAll(t, probe + {s}, now)
  {
  }

  lemma LiveMapStep(t: Table, keys: seq<Value>, i: int, prefix: string, now: int)
    requires 0 <= i < |keys|
    ensures var v := Lookup(t, prefix + Show(keys[i]), now);
      LiveMap(t, keys[..i + 1], prefix, now)
      == if Truthy(v) then LiveMap(t, keys[..i], prefix, now)[keys[i] := v] else LiveMap(t, keys[..i], prefix, now)
  {
    assert keys[..i + 1] == keys[..i] + [keys[i]];
  }

  // ---------------------------------------------------------------------
  // Properties of the store

  /**
   * After `set(k, v, time)` at clock `stored`, `get(k)` answers `v` while the
   * entry is live, and once `time > 0` seconds have passed it answers None and
   * drops the entry.  A TTL of zero or less never expires.
   */
  lemma GetAfterSet(t: Table, k: string, v: Value, time: int, stored: int, now: int)
    ensures var t1 := Put(t, k, v, time, stored);
      && (time <= 0 || now <= stored + time ==> Lookup(t1, k, now) == v && Sweep(t1, k, now) == t1)
      && (time > 0 && now > stored + time ==> Lookup(t1, k, now) == Nil && Sweep(t1, k, now) == t - {k})
  {
  }

  /** An expired entry is gone after one `get`: a later `incr` or `decr` reports None and creates nothing. */
  lemma ExpiredStaysGone(t: Table, k: string, delta: int, now: int, later: int)
    requires k in t && Expired(t[k], now)
    ensures k !in Sweep(t, k, now)
    ensures IncrResult(Sweep(t, k, now), k, delta, later) == Success(Nil)
    ensures IncrTable(Sweep(t, k, now), k, delta, later) == Sweep(t, k, now)
  {
  }

  /** `add` on a key absent from the table is `set`; on a present key it writes nothing and answers `get`. */
  lemma AddIsSetOrGet(t: Table, k: string, v: Value, time: int, now: int)
    ensures k !in t ==> AddResult(t, k, v, now) == v && AddTable(t, k, v, time, now) == Put(t, k, v, time, now)
    ensures k in t ==> AddResult(t, k, v, now) == Lookup(t, k, now) && AddTable(t, k, v, time, now) == Sweep(t, k, now)
    ensures k in t && Expired(t[k], now) ==> AddResult(t, k, v, now) == Nil && k !in AddTable(t, k, v, time, now)
  {
  }

  /** First writer wins: a second `add` of the same key returns the first value while it is live. */
  lemma {:induction false} AddTwice(t: Table, k: string, v1: Value, v2: Value, time: int, now1: int, now2: int)
    requires k !in t
    requires time <= 0 || now2 <= now1 + time
    ensures var t1 := AddTable(t, k, v1, time, now1);
      AddResult(t1, k, v2, now2) == v1 && AddTable(t1, k, v2, time, now2) == t1
  {
    GetAfterSet(t, k, v1, time, now1, now2);
  }

  /** `delete` is idempotent and leaves every other key as it was. */
  lemma DeleteIdempotent(t: Table, k: string)
    ensures (t - {k}) - {k} == t - {k}
    ensures k !in t - {k}
    ensures forall s :: s in t && s != k ==> s in t - {k} && (t - {k})[s] == t[s]
  {
  }

  /** `incr` on a missing or expired key returns None and leaves no entry for it. */
  lemma IncrAbsent(t: Table, k: string, delta: int, now: int)
    requires k !in t || Expired(t[k], now)
    ensures IncrResult(t, k, delta, now) == Success(Nil)
    ensures k !in IncrTable(t, k, delta, now)
    ensures IncrTable(t, k, delta, now) == t - {k}
  {
  }

  /**
   * `incr` on a live entry holding `str(n)` stores the int `n + delta`; the
   * write goes through `set(key, value)`, so the TTL becomes 0 and the entry
   * no longer expires.
   */
  lemma {:induction false} IncrStoredDecimal(t: Table, k: string, n: int, delta: int, time: int, stored: int, now: int)
    requires time <= 0 || now <= stored + time
    ensures var t1 := Put(t, k, Str(Decimal.IntToStr(n)), time, stored);
      && IncrResult(t1, k, delta, now) == Success(Int(n + delta))
      && IncrTable(t1, k, delta, now) == Put(t, k, Int(n + delta), 0, now)
      && forall later :: Lookup(IncrTable(t1, k, delta, now), k, later) == Int(n + delta)
  {
    var v := Str(Decimal.IntToStr(n));
    assert Bump(v, delta) == Success(n + delta) by {
      BumpDecimal(n, delta);
    }
    IncrStoredBumped(t, k, v, n + delta, delta, time, stored, now);
  }

  lemma IncrStoredBumped(t: Table, k: string, v: Value, sum: int, delta: int, time: int, stored: int, now: int)
    requires time <= 0 || now <= stored + time
    requires Bump(v, delta) == Success(sum)
    ensures var t1 := Put(t, k, v, time, stored);
      && IncrResult(t1, k, delta, now) == Success(Int(sum))
      && IncrTable(t1, k, delta, now) == Put(t, k, Int(sum), 0, now)
      && forall later :: Lookup(IncrTable(t1, k, delta, now), k, later) == Int(sum)
  {
    var t1 := Put(t, k, v, time, stored);
    IncrLive(t1, k, delta, sum, now);
    assert Put(t1, k, Int(sum), 0, now) == Put(t, k, Int(sum), 0, now);
  }

  lemma IncrLive(t: Table, k: string, delta: int, sum: int, now: int)
    requires k in t && !Expired(t[k], now) && Bump(t[k].value, delta) == Success(sum)
    ensures IncrResult(t, k, delta, now) == Success(Int(sum))
    ensures IncrTable(t, k, delta, now) == Put(t, k, Int(sum), 0, now)
    ensures forall later :: Lookup(IncrTable(t, k, delta, now), k, later) == Int(sum)
  {
  }

  /** `int(str(n)) + delta` is `n + delta`. */
  lemma BumpParsed(s: string, n: int, delta: int)
    requires Decimal.ParseInt(s) == Some(n)
    ensures Bump(Str(s), delta) == Success(n + delta)
  {
  }

  lemma BumpDecimal(n: int, delta: int)
    ensures Bump(Str(Decimal.IntToStr(n)), delta) == Success(n + delta)
  {
    Decimal.ParseIntRoundTrip(n);
    BumpParsed(Decimal.IntToStr(n), n, delta);
  }

  /** `decr(k, d)` is `incr(k, -d)`: on a live int it stores the difference. */
  lemma DecrLiveInt(t: Table, k: string, n: int, delta: int, now: int)
    requires k in t && !Expired(t[k], now) && t[k].value == Int(n)
    ensures IncrResult(t, k, -delta, now) == Success(Int(n - delta))
    ensures IncrTable(t, k, -delta, now) == Put(t, k, Int(n - delta), 0, now)
  {
  }

  /** The keys of a mapping whose `str()` forms are pairwise distinct, as for a dict of ints or of strings. */
  predicate DistinctShows(items: seq<(Value, Value)>) {
    forall i, j :: 0 <= i < j < |items| ==> Show(items[i].0) != Show(items[j].0)
  }

  function KeysOf(items: seq<(Value, Value)>): (keys: seq<Value>)
    ensures |keys| == |items| && forall i :: 0 <= i < |items| ==> keys[i] == items[i].0
  {
    seq(|items|, i requires 0 <= i < |items| => items[i].0)
  }

  lemma PrefixCancel(prefix: string, a: string, b: string)
    requires prefix + a == prefix + b
    ensures a == b
  {
    assert a == (prefix + a)[|prefix|..];
    assert b == (prefix + b)[|prefix|..];
  }

  /** After `set_multi`, each item sits under its prefixed key with the batch's time and TTL. */
  lemma {:induction false} StoreAllAt(t: Table, items: seq<(Value, Value)>, prefix: string, time: int, now: int, i: int)
    requires DistinctShows(items) && 0 <= i < |items|
    ensures prefix + Show(items[i].0) in StoreAll(t, items, prefix, time, now)
    ensures StoreAll(t, items, prefix, time, now)[prefix + Show(items[i].0)] == Entry(items[i].1, now, Ttl(time))
    decreases |items|
  {
    var n := |items| - 1;
    if i < n {
      var init := items[..n];
      assert init[i] == items[i];
      assert DistinctShows(init) by {
        forall a, b | 0 <= a < b < |init| ensures Show(init[a].0) != Show(init[b].0) {
          assert init[a] == items[a] && init[b] == items[b];
        }
      }
      StoreAllAt(t, init, prefix, time, now, i);
      if prefix + Show(items[n].0) == prefix + Show(items[i].0) {
        PrefixCancel(prefix, Show(items[n].0), Show(items[i].0));
      }
    }
  }

  /** Keys outside the batch keep their entries through `set_multi`. */
  lemma {:induction false} StoreAllOther(t: Table, items: seq<(Value, Value)>, prefix: string, time: int, now: int, s: string)
    requires forall i :: 0 <= i < |items| ==> s != prefix + Show(items[i].0)
    ensures (s in StoreAll(t, items, prefix, time, now)) == (s in t)
    ensures s in t ==> StoreAll(t, items, prefix, time, now)[s] == t[s]
    decreases |items|
  {
    if items != [] {
      var n := |items| - 1;
      forall i | 0 <= i < n ensures s != prefix + Show(items[..n][i].0) {
        assert items[..n][i] == items[i];
      }
      StoreAllOther(t, items[..n], prefix, time, now, s);
    }
  }

  /**
   * `set_multi(m, time, key_prefix=p)` followed, while the batch is live, by
   * `get_multi(m.keys(), p)` answers every key whose value is truthy, with
   * its value, and leaves out the falsy ones.  Once the batch has expired it
   * answers nothing.
   */
  lemma {:induction false} SetMultiThenGetMulti(t: Table, items: seq<(Value, Value)>, prefix: string, time: int, stored: int, now: int)
    requires DistinctShows(items)
    ensures var r := LiveMap(StoreAll(t, items, prefix, time, stored), KeysOf(items), prefix, now);
      && (time <= 0 || now <= stored + time ==>
            forall i :: 0 <= i < |items| ==>
              (items[i].0 in r <==> Truthy(items[i].1)) && (items[i].0 in r ==> r[items[i].0] == items[i].1))
      && (time > 0 && now > stored + time ==> r == map[])
  {
    var t1 := StoreAll(t, items, prefix, time, stored);
    var keys := KeysOf(items);
    var r := LiveMap(t1, keys, prefix, now);
    forall i | 0 <= i < |items|
      ensures Lookup(t1, prefix + Show(items[i].0), now)
              == if time > 0 && now > stored + time then Nil else items[i].1
    {
      StoreAllAt(t, items, prefix, time, stored, i);
    }
    if time > 0 && now > stored + time {
      forall i | 0 <= i < |keys| ensures keys[i] !in r {
        assert Lookup(t1, prefix + Show(keys[i]), now) == Nil;
      }
      assert r.Keys == {};
    }
  }
}
