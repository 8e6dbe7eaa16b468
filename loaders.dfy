/**
 * The batch cache-aside loaders of dojang/cache.py.  Given a list of entity
 * ids they answer what the cache holds, ask the data source only for the
 * rest, write what it returned back into the cache and answer the union.
 * The data source (`model.query.filter_by(id__in=...).all()`) is a function
 * from the set of ids asked for to the rows found.
 */
module Loaders {
  import opened Base
  import opened Values
  import opened Caching
  import Decimal
  import Pickle

  /** A row of the data source: a mapped object with an int `id`. */
  type Row = v: Value | v.Entity? witness Entity(0, [])

  /** The ids named in `id_list`, as `set(id_list)`. */
  function Requested(ids: seq<int>): set<int> {
    set i | i in ids
  }

  /** The store key of each id under a prefix, `'%s%s' % (prefix, id)`. */
  function IdKeys(ids: set<int>, prefix: string): set<string> {
    set i | i in ids :: prefix + Show(Int(i))
  }

  /** `dct[item.id] = item` over the rows, in order: a later row wins on an equal id. */
  function RowMap(rows: seq<Row>): (m: map<int, Value>)
    ensures forall i :: i in m ==> exists k :: 0 <= k < |rows| && rows[k].id == i
    ensures forall k :: 0 <= k < |rows| ==> rows[k].id in m
    ensures forall i :: i in m ==> m[i].Entity? && m[i].id == i
  {
    if rows == [] then map[]
    else
      var last := rows[|rows| - 1];
      var m := RowMap(rows[..|rows| - 1]);
      assert forall k :: 0 <= k < |rows| - 1 ==> rows[..|rows| - 1][k] == rows[k];
      m[last.id := last]
  }

  /** The rows carry only ids that were asked for, as the `id__in` filter guarantees. */
  predicate RowsWithin(rows: seq<Row>, asked: set<int>) {
    forall k :: 0 <= k < |rows| ==> rows[k].id in asked
  }

  /** What the local store answers for the requested ids: the live, truthy values. */
  function Hits(t: Table, ids: set<int>, prefix: string, now: int): map<int, Value> {
    map i | i in ids && Truthy(Lookup(t, prefix + Show(Int(i)), now)) :: Lookup(t, prefix + Show(Int(i)), now)
  }

  /** The requested ids the store did not answer, `id_list - set(data)`. */
  function Missing(t: Table, ids: set<int>, prefix: string, now: int): set<int> {
    ids - Hits(t, ids, prefix, now).Keys
  }

  /** The map the simple loader returns when it reads under `readPrefix`. */
  function SimpleResult(t: Table, source: set<int> -> seq<Row>, ids: seq<int>, readPrefix: string, now: int): map<int, Value> {
    if ids == [] then map[]
    else
      var req := Requested(ids);
      var missing := Missing(t, req, readPrefix, now);
      if missing == {} then Hits(t, req, readPrefix, now)
      else Hits(t, req, readPrefix, now) + RowMap(source(missing))
  }

  /** The ids the simple loader asks the data source for, if it asks at all. */
  function SimpleQuery(t: Table, ids: seq<int>, readPrefix: string, now: int): Option<set<int>> {
    if ids == [] then None
    else
      var missing := Missing(t, Requested(ids), readPrefix, now);
      if missing == {} then None else Some(missing)
  }

  /**
   * `after` is `before` with every fetched entity written under its key with
   * the batch's time and TTL, and every other key as it was.
   */
  ghost predicate WroteBack(before: Table, after: Table, dct: map<int, Value>, prefix: string, time: int, now: int) {
    && (forall i :: i in dct ==> prefix + Show(Int(i)) in after && after[prefix + Show(Int(i))] == Entry(dct[i], now, Ttl(time)))
    && (forall s :: s !in IdKeys(dct.Keys, prefix) ==> (s in after <==> s in before))
    && (forall s :: s !in IdKeys(dct.Keys, prefix) && s in before ==> after[s] == before[s])
  }

  /** The local store after the simple loader, reading under `readPrefix` and writing under `writePrefix`. */
  ghost predicate LoadedTable(t0: Table, t1: Table, source: set<int> -> seq<Row>, ids: seq<int>,
                        readPrefix: string, writePrefix: string, time: int, now: int)
  {
    if ids == [] then t1 == t0
    else
      var req := Requested(ids);
      var swept := SweepAll(t0, IdKeys(req, readPrefix), now);
      var missing := Missing(t0, req, readPrefix, now);
      if missing == {} then t1 == swept
      else WroteBack(swept, t1, RowMap(source(missing)), writePrefix, time, now)
  }

  lemma NonEmptyHasElement(s: set<int>)
    requires s != {}
    ensures exists x :: x in s
  {
    if forall x :: x !in s {
      assert false;
    }
  }

  /** Iteration over a set: every element once, in an order the model leaves open. */
  method Enumerate(s: set<int>) returns (xs: seq<int>)
    ensures forall x :: x in xs <==> x in s
    ensures forall a, b :: 0 <= a < b < |xs| ==> xs[a] != xs[b]
  {
    xs := [];
    var rest := s;
    while rest != {}
      invariant rest <= s
      invariant forall x :: x in xs <==> x in s - rest
      invariant forall a, b :: 0 <= a < b < |xs| ==> xs[a] != xs[b]
      decreases |rest|
    {
      NonEmptyHasElement(rest);
      var x :| x in rest;
      xs := xs + [x];
      rest := rest - {x};
    }
  }

  /** The items of an int-keyed dict in the given iteration order, keys as Python ints. */
  function ItemsOf(dct: map<int, Value>, order: seq<int>): (items: seq<(Value, Value)>)
    requires forall j :: 0 <= j < |order| ==> order[j] in dct
    ensures |items| == |order|
    ensures forall j :: 0 <= j < |order| ==> items[j] == (Int(order[j]), dct[order[j]])
  {
    seq(|order|, j requires 0 <= j < |order| => (Int(order[j]), dct[order[j]]))
  }

  lemma ShowIntInjective(a: int, b: int)
    requires Show(Int(a)) == Show(Int(b))
    ensures a == b
  {
    Decimal.IntToStrInjective(a, b);
  }

  /** `set_multi` of an int-keyed dict writes exactly that dict back, whatever the iteration order. */
  lemma {:induction false} StoreAllWroteBack(t: Table, dct: map<int, Value>, order: seq<int>, prefix: string, time: int, now: int)
    requires forall j :: 0 <= j < |order| ==> order[j] in dct
    requires forall x :: x in dct ==> x in order
    requires forall a, b :: 0 <= a < b < |order| ==> order[a] != order[b]
    ensures WroteBack(t, StoreAll(t, ItemsOf(dct, order), prefix, time, now), dct, prefix, time, now)
  {
    var items := ItemsOf(dct, order);
    var after := StoreAll(t, items, prefix, time, now);
    assert DistinctShows(items) by {
      forall a, b | 0 <= a < b < |items| ensures Show(items[a].0) != Show(items[b].0) {
        if Show(items[a].0) == Show(items[b].0) {
          ShowIntInjective(order[a], order[b]);
        }
      }
    }
    forall i | i in dct
      ensures prefix + Show(Int(i)) in after && after[prefix + Show(Int(i))] == Entry(dct[i], now, Ttl(time))
    {
      var j :| 0 <= j < |order| && order[j] == i;
      StoreAllAt(t, items, prefix, time, now, j);
    }
    forall s | s !in IdKeys(dct.Keys, prefix)
      ensures (s in after <==> s in t) && (s in t ==> after[s] == t[s])
    {
      forall j | 0 <= j < |items| ensures s != prefix + Show(items[j].0) {
        assert order[j] in dct.Keys;
      }
      StoreAllOther(t, items, prefix, time, now, s);
    }
  }

  /** `get_multi` over the ids, answered as an int-keyed map; expired keys among them are swept. */
  method ReadHits(cache: Cache, req: set<int>, prefix: string, now: int) returns (data: map<int, Value>)
    modifies cache
    ensures data == Hits(old(cache.table), req, prefix, now)
    ensures cache.table == SweepAll(old(cache.table), IdKeys(req, prefix), now)
  {
    var order := Enumerate(req);
    var keys := IntKeys(order);
    IdProbe(cache.table, req, keys, prefix, now);
    var got := cache.GetMulti(keys, prefix, now);
    data := map i | i in req && Int(i) in got :: got[Int(i)];
  }

  /** The ids as the int values `get_multi` is given. */
  function IntKeys(order: seq<int>): (keys: seq<Value>)
    ensures forall v :: v in keys <==> v.Int? && v.i in order
  {
    var keys := seq(|order|, j requires 0 <= j < |order| => Int(order[j]));
    assert forall j :: 0 <= j < |order| ==> keys[j] == Int(order[j]);
    keys
  }

  /** Reading the int keys of the requested ids answers `Hits` and probes `IdKeys`. */
  lemma IdProbe(t: Table, req: set<int>, keys: seq<Value>, prefix: string, now: int)
    requires forall v :: v in keys <==> v.Int? && v.i in req
    ensures var got := LiveMap(t, keys, prefix, now);
      (map i | i in req && Int(i) in got :: got[Int(i)]) == Hits(t, req, prefix, now)
    ensures Prefixed(keys, prefix) == IdKeys(req, prefix)
  {
    assert forall i :: i in req ==> Int(i) in keys;
    forall s | s in Prefixed(keys, prefix) ensures s in IdKeys(req, prefix) {
      var v :| v in keys && s == prefix + Show(v);
      assert v == Int(v.i);
    }
  }

  /** `dict((item.id, item) for item in items)` over the rows the data source returns. */
  method FetchRows(source: set<int> -> seq<Row>, missing: set<int>) returns (dct: map<int, Value>)
    ensures dct == RowMap(source(missing))
  {
    var rows := source(missing);
    dct := map[];
    for j := 0 to |rows|
      invariant dct == RowMap(rows[..j])
    {
      assert rows[..j + 1][..j] == rows[..j];
      dct := dct[rows[j].id := rows[j]];
    }
    assert rows[..|rows|] == rows;
  }

  /** `set_multi` of an int-keyed dict under a prefix. */
  method WriteBack(cache: Cache, dct: map<int, Value>, prefix: string, time: int, now: int)
    modifies cache
    ensures WroteBack(old(cache.table), cache.table, dct, prefix, time, now)
  {
    var order := Enumerate(dct.Keys);
    assert forall j :: 0 <= j < |order| ==> order[j] in order;
    ghost var t0 := cache.table;
    var _ := cache.SetMulti(ItemsOf(dct, order), time, prefix, now);
    StoreAllWroteBack(t0, dct, order, prefix, time, now);
  }

  /**
   * The body of `get_simple_cache_list`, reading under `readPrefix` and writing
   * back under `writePrefix`; `queried` is the id set handed to the data source.
   */
  method LoadThroughCache(cache: Cache, source: set<int> -> seq<Row>, ids: seq<int>,
                          readPrefix: string, writePrefix: string, time: int, now: int)
    returns (data: map<int, Value>, queried: Option<set<int>>)
    modifies cache
    ensures data == SimpleResult(old(cache.table), source, ids, readPrefix, now)
    ensures queried == SimpleQuery(old(cache.table), ids, readPrefix, now)
    ensures LoadedTable(old(cache.table), cache.table, source, ids, readPrefix, writePrefix, time, now)
  {
    if ids == [] {
      return map[], None;
    }
    var req := set i | i in ids;
    data := ReadHits(cache, req, readPrefix, now);
    var missing := req - data.Keys;
    queried := None;
    if missing != {} {
      queried := Some(missing);
      var dct := FetchRows(source, missing);
      WriteBack(cache, dct, writePrefix, time, now);
      data := data + dct;
    }
  }

  /**
   * `get_simple_cache_list` with `simple_cache` in place of the undefined
   * name `cache`: it reads under `site_prefix + key_prefix` and, as written,
   * writes back under `key_prefix` alone.
   */
  method GetSimpleCacheList(simpleCache: Cache, source: set<int> -> seq<Row>, ids: seq<int>, keyPrefix: string,
                            time: int, sitePrefix: Option<string>, siteDefault: string, now: int)
    returns (data: map<int, Value>, queried: Option<set<int>>)
    modifies simpleCache
    ensures var site := sitePrefix.GetOr(siteDefault);
      && data == SimpleResult(old(simpleCache.table), source, ids, site + keyPrefix, now)
      && queried == SimpleQuery(old(simpleCache.table), ids, site + keyPrefix, now)
      && LoadedTable(old(simpleCache.table), simpleCache.table, source, ids, site + keyPrefix, keyPrefix, time, now)
  {
    var site := sitePrefix.GetOr(siteDefault);
    data, queried := LoadThroughCache(simpleCache, source, ids, site + keyPrefix, keyPrefix, time, now);
  }

  /** `get_simple_cache_list` with the write-back under the same `site_prefix + key_prefix` it reads. */
  method GetSimpleCacheListNamespaced(simpleCache: Cache, source: set<int> -> seq<Row>, ids: seq<int>, keyPrefix: string,
                                      time: int, sitePrefix: Option<string>, siteDefault: string, now: int)
    returns (data: map<int, Value>, queried: Option<set<int>>)
    modifies simpleCache
    ensures var site := sitePrefix.GetOr(siteDefault);
      && data == SimpleResult(old(simpleCache.table), source, ids, site + keyPrefix, now)
      && queried == SimpleQuery(old(simpleCache.table), ids, site + keyPrefix, now)
      && LoadedTable(old(simpleCache.table), simpleCache.table, source, ids, site + keyPrefix, site + keyPrefix, time, now)
  {
    var site := sitePrefix.GetOr(siteDefault);
    data, queried := LoadThroughCache(simpleCache, source, ids, site + keyPrefix, site + keyPrefix, time, now);
  }

  /**
   * `get_simple_cache_list` as written: the body names `cache`, which the
   * module never binds, so every call past the empty-list test raises.
   */
  function SimpleCacheListAsWritten(ids: seq<int>): (r: Result<map<int, Value>>)
    ensures r.Success? <==> ids == []
    ensures r.Success? ==> r.value == map[]
    ensures r.Failure? ==> r.error == NameError
  {
    if ids == [] then Success(map[]) else Failure(NameError)
  }

  /**
   * `get_cache_list` when `complex_cache` is the in-process fallback `_Cache`,
   * which has no `hmget`: every call past the empty-list test raises
   * AttributeError, and nothing is written.
   */
  function CacheListOnFallback(ids: seq<int>): (r: Result<map<int, Value>>)
    ensures r.Success? <==> ids == []
    ensures r.Success? ==> r.value == map[]
    ensures r.Failure? ==> r.error == AttributeError
  {
    if ids == [] then Success(map[]) else Failure(AttributeError)
  }

  /** The loader never asks the data source for an id it was not given, nor for one the store answered. */
  lemma SimpleQueryOnlyMisses(t: Table, ids: seq<int>, prefix: string, now: int)
    ensures var q := SimpleQuery(t, ids, prefix, now);
      && (q.Some? ==> q.value != {} && q.value <= Requested(ids) && q.value !! Hits(t, Requested(ids), prefix, now).Keys)
      && (q.None? ==> Requested(ids) <= Hits(t, Requested(ids), prefix, now).Keys)
  {
    if ids == [] {
      assert Requested(ids) == {};
    } else {
      var m := Missing(t, Requested(ids), prefix, now);
      forall i | i in Requested(ids) && m == {} ensures i in Hits(t, Requested(ids), prefix, now).Keys {
        assert i !in m;
      }
    }
  }

  /** With well-behaved rows the answer holds requested ids only, with the store's value wherever it had one. */
  lemma {:induction false} SimpleResultShape(t: Table, source: set<int> -> seq<Row>, ids: seq<int>, prefix: string, now: int)
    requires RowsWithin(source(Missing(t, Requested(ids), prefix, now)), Missing(t, Requested(ids), prefix, now))
    ensures var r := SimpleResult(t, source, ids, prefix, now);
      var h := Hits(t, Requested(ids), prefix, now);
      && r.Keys <= Requested(ids)
      && (forall i :: i in h ==> i in r && r[i] == h[i])
      && (forall i :: i in r ==> Truthy(r[i]))
  {
    if ids != [] {
      var req := Requested(ids);
      var h := Hits(t, req, prefix, now);
      var missing := Missing(t, req, prefix, now);
      assert h.Keys <= req && forall i :: i in h ==> Truthy(h[i]);
      if missing != {} {
        FetchedWithin(source, missing);
        UnionShape(req, h, RowMap(source(missing)), missing);
      }
    }
  }

  /** Hits joined with rows fetched for ids outside the hits. */
  lemma UnionShape(req: set<int>, h: map<int, Value>, dct: map<int, Value>, missing: set<int>)
    requires h.Keys <= req && missing == req - h.Keys && dct.Keys <= missing
    requires forall i :: i in h ==> Truthy(h[i])
    requires forall i :: i in dct ==> Truthy(dct[i])
    ensures (h + dct).Keys <= req
    ensures forall i :: i in h ==> i in h + dct && (h + dct)[i] == h[i]
    ensures forall i :: i in h + dct ==> Truthy((h + dct)[i])
  {
  }

  lemma WroteBackNothing(t: Table, prefix: string, time: int, now: int)
    ensures WroteBack(t, t, map[], prefix, time, now)
  {
  }

  /** One requested id, read again after a namespaced load: the store now answers what the load answered. */
  lemma SecondReadAt(t0: Table, t1: Table, req: set<int>, dct: map<int, Value>, prefix: string,
                     time: int, now1: int, now2: int, i: int)
    requires i in req
    requires WroteBack(SweepAll(t0, IdKeys(req, prefix), now1), t1, dct, prefix, time, now1)
    requires dct.Keys !! Hits(t0, req, prefix, now1).Keys
    requires forall j :: j in dct ==> Truthy(dct[j])
    requires time <= 0 || now2 <= now1 + time
    requires forall s :: s in t0 && !Expired(t0[s], now1) ==> !Expired(t0[s], now2)
    ensures var k := prefix + Show(Int(i));
      var h := Hits(t0, req, prefix, now1) + dct;
      && (Truthy(Lookup(t1, k, now2)) <==> i in h)
      && (i in h ==> Lookup(t1, k, now2) == h[i])
  {
    var k := prefix + Show(Int(i));
    var swept := SweepAll(t0, IdKeys(req, prefix), now1);
    if i in dct {
      assert t1[k] == Entry(dct[i], now1, Ttl(time));
    } else {
      assert k !in IdKeys(dct.Keys, prefix) by {
        if k in IdKeys(dct.Keys, prefix) {
          var j :| j in dct && k == prefix + Show(Int(j));
          PrefixCancel(prefix, Show(Int(i)), Show(Int(j)));
          ShowIntInjective(i, j);
          assert false;
        }
      }
      assert k in t1 <==> k in swept;
      assert k in swept ==> t1[k] == swept[k] == t0[k];
    }
  }

  /** All requested ids read again after a namespaced load: the store answers the hits plus the fetched rows. */
  lemma {:induction false} SecondReadAll(t0: Table, t1: Table, req: set<int>, dct: map<int, Value>, prefix: string,
                                         time: int, now1: int, now2: int)
    requires WroteBack(SweepAll(t0, IdKeys(req, prefix), now1), t1, dct, prefix, time, now1)
    requires dct.Keys <= req
    requires dct.Keys !! Hits(t0, req, prefix, now1).Keys
    requires forall j :: j in dct ==> Truthy(dct[j])
    requires time <= 0 || now2 <= now1 + time
    requires forall s :: s in t0 && !Expired(t0[s], now1) ==> !Expired(t0[s], now2)
    ensures Hits(t1, req, prefix, now2) == Hits(t0, req, prefix, now1) + dct
  {
    var h0 := Hits(t0, req, prefix, now1);
    var h2 := Hits(t1, req, prefix, now2);
    forall i | i in req
      ensures (i in h2 <==> i in h0 + dct) && (i in h0 + dct ==> h2[i] == (h0 + dct)[i])
    {
      SecondReadAt(t0, t1, req, dct, prefix, time, now1, now2, i);
    }
    SameOnDomain(req, h2, h0 + dct);
  }

  /** Two maps over the same ids that agree at every id are equal. */
  lemma SameOnDomain(req: set<int>, a: map<int, Value>, b: map<int, Value>)
    requires a.Keys <= req && b.Keys <= req
    requires forall i :: i in req ==> (i in a <==> i in b) && (i in b ==> a[i] == b[i])
    ensures a == b
  {
    forall i | i in a.Keys ensures i in b.Keys {
      assert i in req;
    }
    forall i | i in b.Keys ensures i in a.Keys {
      assert i in req;
    }
    assert a.Keys == b.Keys;
    forall i | i in a ensures a[i] == b[i] {
      assert i in a.Keys && i in req;
    }
  }

  /** The rows fetched for the misses, as a map: ids among the misses, every value a row. */
  lemma FetchedWithin(source: set<int> -> seq<Row>, missing: set<int>)
    requires RowsWithin(source(missing), missing)
    ensures RowMap(source(missing)).Keys <= missing
    ensures forall j :: j in RowMap(source(missing)) ==> Truthy(RowMap(source(missing))[j])
  {
    var rows := source(missing);
    forall i | i in RowMap(rows) ensures i in missing {
      var k :| 0 <= k < |rows| && rows[k].id == i;
    }
  }

  /**
   * The cache-aside promise for the namespaced loader: within the TTL, and
   * while nothing the first call read has expired, a second call finds every
   * id the first call answered in the store, with the same value.
   */
  lemma {:induction false} SecondCallServedFromCache(t0: Table, t1: Table, source: set<int> -> seq<Row>, ids: seq<int>,
                                                    prefix: string, time: int, now1: int, now2: int)
    requires LoadedTable(t0, t1, source, ids, prefix, prefix, time, now1)
    requires RowsWithin(source(Missing(t0, Requested(ids), prefix, now1)), Missing(t0, Requested(ids), prefix, now1))
    requires time <= 0 || now2 <= now1 + time
    requires forall s :: s in t0 && !Expired(t0[s], now1) ==> !Expired(t0[s], now2)
    ensures Hits(t1, Requested(ids), prefix, now2) == SimpleResult(t0, source, ids, prefix, now1)
    ensures Missing(t1, Requested(ids), prefix, now2) == Requested(ids) - SimpleResult(t0, source, ids, prefix, now1).Keys
  {
    var req := Requested(ids);
    if ids == [] {
      assert req == {};
    } else {
      var missing := Missing(t0, req, prefix, now1);
      if missing == {} {
        WroteBackNothing(t1, prefix, time, now1);
        SecondReadAll(t0, t1, req, map[], prefix, time, now1, now2);
        assert Hits(t0, req, prefix, now1) + map[] == Hits(t0, req, prefix, now1);
      } else {
        FetchedWithin(source, missing);
        SecondReadAll(t0, t1, req, RowMap(source(missing)), prefix, time, now1, now2);
      }
    }
  }

  /** When the first namespaced call answered every id, the second does not touch the data source. */
  lemma SecondCallNoQuery(t0: Table, t1: Table, source: set<int> -> seq<Row>, source2: set<int> -> seq<Row>, ids: seq<int>,
                          prefix: string, time: int, now1: int, now2: int)
    requires LoadedTable(t0, t1, source, ids, prefix, prefix, time, now1)
    requires RowsWithin(source(Missing(t0, Requested(ids), prefix, now1)), Missing(t0, Requested(ids), prefix, now1))
    requires time <= 0 || now2 <= now1 + time
    requires forall s :: s in t0 && !Expired(t0[s], now1) ==> !Expired(t0[s], now2)
    requires Requested(ids) <= SimpleResult(t0, source, ids, prefix, now1).Keys
    ensures SimpleQuery(t1, ids, prefix, now2) == None
    ensures SimpleResult(t1, source2, ids, prefix, now2) == SimpleResult(t0, source, ids, prefix, now1)
  {
    SecondCallServedFromCache(t0, t1, source, ids, prefix, time, now1, now2);
  }

  /**
   * The loader as written writes back under `key_prefix` but reads under
   * `site_prefix + key_prefix`: with a site prefix, the next call misses the
   * row the previous one just stored and asks the data source again.
   */
  lemma WriteBackMissedByNextRead(t1: Table, source: set<int> -> seq<Row>, now: int)
    requires source({1}) == [Entity(1, [])]
    requires LoadedTable(map[], t1, source, [1], "site:" + "user:", "user:", 600, now)
    ensures SimpleQuery(map[], [1], "site:user:", now) == Some({1})
    ensures SimpleQuery(t1, [1], "site:user:", now) == Some({1})
  {
    assert Requested([1]) == {1};
    assert Show(Int(1)) == "1";
    assert Hits(map[], {1}, "site:user:", now) == map[];
    assert Missing(map[], {1}, "site:user:", now) == {1};
    var dct := RowMap(source({1}));
    assert dct.Keys == {1};
    assert "site:user:1" !in IdKeys(dct.Keys, "user:") by {
      forall s | s in IdKeys(dct.Keys, "user:") ensures s == "user:1" {
        var i :| i in dct.Keys && s == "user:" + Show(Int(i));
      }
    }
    assert "site:user:1" !in t1;
    assert Hits(t1, {1}, "site:user:", now) == map[];
  }

  // ---------------------------------------------------------------------
  // get_cache_list: one redis hash of pickled rows, keyed by str(id)

  /** The field→value mapping of one hash; an absent hash reads as empty. */
  function HashOf(hs: map<string, map<string, string>>, name: string): (h: map<string, string>)
    ensures name !in hs ==> h == map[]
  {
    if name in hs then hs[name] else map[]
  }

  /** What `hmget(name, fields)` answers: each field's value, or None where it is absent. */
  function FieldsOf(hs: map<string, map<string, string>>, name: string, fields: seq<string>): (vals: seq<Option<string>>)
    ensures |vals| == |fields|
    ensures forall j :: 0 <= j < |fields| ==>
      vals[j] == (if fields[j] in HashOf(hs, name) then Some(HashOf(hs, name)[fields[j]]) else None)
  {
    seq(|fields|, j requires 0 <= j < |fields| =>
      if fields[j] in HashOf(hs, name) then Some(HashOf(hs, name)[fields[j]]) else None)
  }

  /** The redis hashes behind `complex_cache`, as far as `hmget` and `hmset` see them. */
  class HashStore {
    var hashes: map<string, map<string, string>>

    constructor()
      ensures hashes == map[]
    {
      hashes := map[];
    }

    method HmGet(name: string, fields: seq<string>) returns (vals: seq<Option<string>>)
      ensures |vals| == |fields|
      ensures forall j :: 0 <= j < |fields| ==>
        vals[j] == (if fields[j] in HashOf(hashes, name) then Some(HashOf(hashes, name)[fields[j]]) else None)
    {
      vals := FieldsOf(hashes, name, fields);
    }

    /** redis-py refuses an empty mapping before anything reaches the server. */
    method HmSet(name: string, mapping: map<string, string>) returns (o: Outcome)
      modifies this
      ensures o == (if mapping == map[] then Raised(DataError) else Done)
      ensures hashes == if mapping == map[] then old(hashes)
                        else old(hashes)[name := HashOf(old(hashes), name) + mapping]
    {
      if mapping == map[] {
        return Raised(DataError);
      }
      hashes := hashes[name := HashOf(hashes, name) + mapping];
      o := Done;
    }
  }

  /** `[str(id) for id in id_list]`. */
  function StrIds(ids: seq<int>): (fields: seq<string>)
    ensures |fields| == |ids|
    ensures forall j :: 0 <= j < |ids| ==> fields[j] == Show(Int(ids[j]))
  {
    seq(|ids|, j requires 0 <= j < |ids| => Show(Int(ids[j])))
  }

  /** One hmget answer decoded: skipped when falsy, else unpickled and filed under its `id`. */
  function DecodeHit(acc: (map<int, Value>, seq<string>), d: Option<string>): Result<(map<int, Value>, seq<string>)> {
    match d
    case None => Success(acc)
    case Some(x) =>
      if x == "" then Success(acc)
      else match Pickle.Loads(x)
        case None => Failure(UnpicklingError)
        case Some(v) =>
          if v.Entity? then Success((acc.0[v.id := v], acc.1 + [Show(Int(v.id))]))
          else Failure(AttributeError)
  }

  /** The loop over the hmget answers: `data_dict` and `data_id_list`, or the first exception. */
  function DecodeHits(vals: seq<Option<string>>): Result<(map<int, Value>, seq<string>)> {
    if vals == [] then Success((map[], []))
    else match DecodeHits(vals[..|vals| - 1])
      case Failure(e) => Failure(e)
      case Success(acc) => DecodeHit(acc, vals[|vals| - 1])
  }

  /** The mapping `get_cache_list` hands to `hmset` is empty exactly when the data source returned no row. */
  lemma PickledEmpty(rows: seq<Row>)
    ensures Pickled(rows) == map[] <==> rows == []
  {
    if rows != [] {
      assert Show(Int(rows[|rows| - 1].id)) in Pickled(rows);
    }
  }

  /** `dct[item.id] = cPickle.dumps(item)` over the rows, with the keys as redis stores them. */
  function Pickled(rows: seq<Row>): (m: map<string, string>)
    ensures forall f :: f in m ==> exists k :: 0 <= k < |rows| && Show(Int(rows[k].id)) == f
  {
    if rows == [] then map[]
    else
      var last := rows[|rows| - 1];
      var m := Pickled(rows[..|rows| - 1]);
      assert forall k :: 0 <= k < |rows| - 1 ==> rows[..|rows| - 1][k] == rows[k];
      m[Show(Int(last.id)) := Pickle.Dumps(last)]
  }

  /** The ids asked for as fields, minus the ids of the rows the hash answered. */
  function ListMissing(fields: seq<string>, found: seq<string>): set<string> {
    (set f | f in fields) - (set f | f in found)
  }

  /** What a `get_cache_list` call returns, asks the data source for, and leaves in the hashes. */
  datatype ListRun = ListRun(result: Result<map<int, Value>>, queried: Option<set<string>>, hashes: map<string, map<string, string>>)

  function CacheListRun(hs: map<string, map<string, string>>, source: set<string> -> seq<Row>, ids: seq<int>, keyHash: string): ListRun {
    if ids == [] then ListRun(Success(map[]), None, hs)
    else
      var fields := StrIds(ids);
      match DecodeHits(FieldsOf(hs, keyHash, fields))
      case Failure(e) => ListRun(Failure(e), None, hs)
      case Success(acc) =>
        var missing := ListMissing(fields, acc.1);
        if missing == {} then ListRun(Success(acc.0), None, hs)
        else
          var rows := source(missing);
          var dct := Pickled(rows);
          if dct == map[] then ListRun(Failure(DataError), Some(missing), hs)
          else ListRun(Success(acc.0 + RowMap(rows)), Some(missing), hs[keyHash := HashOf(hs, keyHash) + dct])
  }

  /** The `str(id)` loop of `get_cache_list`. */
  method FieldsFor(ids: seq<int>) returns (fields: seq<string>)
    ensures fields == StrIds(ids)
  {
    fields := [];
    for j := 0 to |ids|
      invariant fields == StrIds(ids[..j])
    {
      fields := fields + [Show(Int(ids[j]))];
    }
    assert ids[..|ids|] == ids;
  }

  /** An exception stops the decoding loop: later answers do not matter. */
  lemma {:induction false} DecodeHitsFailed(vals: seq<Option<string>>, n: nat, e: Exc)
    requires n <= |vals| && DecodeHits(vals[..n]) == Failure(e)
    ensures DecodeHits(vals) == Failure(e)
    decreases |vals| - n
  {
    if n < |vals| {
      assert vals[..n + 1][..n] == vals[..n];
      DecodeHitsFailed(vals, n + 1, e);
    } else {
      assert vals[..n] == vals;
    }
  }

  lemma RowMapSnoc(rows: seq<Row>, j: int)
    requires 0 <= j < |rows|
    ensures RowMap(rows[..j + 1]) == RowMap(rows[..j])[rows[j].id := rows[j]]
    ensures Pickled(rows[..j + 1]) == Pickled(rows[..j])[Show(Int(rows[j].id)) := Pickle.Dumps(rows[j])]
  {
    assert rows[..j + 1][..j] == rows[..j];
  }

  lemma UnionUpdate(a: map<int, Value>, b: map<int, Value>, k: int, v: Value)
    ensures (a + b)[k := v] == a + b[k := v]
  {
  }

  /** The decoding loop over the hmget answers. */
  method DecodeAll(data: seq<Option<string>>) returns (r: Result<(map<int, Value>, seq<string>)>)
    ensures r == DecodeHits(data)
  {
    var dataDict: map<int, Value> := map[];
    var found: seq<string> := [];
    for j := 0 to |data|
      invariant DecodeHits(data[..j]) == Success((dataDict, found))
    {
      assert data[..j + 1][..j] == data[..j];
      match data[j]
      case None =>
      case Some(d) =>
        if d != "" {
          match Pickle.Loads(d)
          case None =>
            DecodeHitsFailed(data, j + 1, UnpicklingError);
            return Failure(UnpicklingError);
          case Some(v) =>
            if !v.Entity? {
              DecodeHitsFailed(data, j + 1, AttributeError);
              return Failure(AttributeError);
            }
            dataDict := dataDict[v.id := v];
            found := found + [Show(Int(v.id))];
        }
    }
    assert data[..|data|] == data;
    r := Success((dataDict, found));
  }

  /** The fetch loop: pickles each row for the hash and adds it to the answer. */
  method PickleRows(rows: seq<Row>, hits: map<int, Value>) returns (dct: map<string, string>, dataDict: map<int, Value>)
    ensures dct == Pickled(rows)
    ensures dataDict == hits + RowMap(rows)
  {
    dct := map[];
    dataDict := hits;
    for j := 0 to |rows|
      invariant dct == Pickled(rows[..j])
      invariant dataDict == hits + RowMap(rows[..j])
    {
      RowMapSnoc(rows, j);
      UnionUpdate(hits, RowMap(rows[..j]), rows[j].id, rows[j]);
      dct := dct[Show(Int(rows[j].id)) := Pickle.Dumps(rows[j])];
      dataDict := dataDict[rows[j].id := rows[j]];
    }
    assert rows[..|rows|] == rows;
  }

  /** `get_cache_list`: answers from one redis hash of pickled rows, filling it from the data source. */
  method GetCacheList(complexCache: HashStore, source: set<string> -> seq<Row>, ids: seq<int>, keyHash: string)
    returns (r: Result<map<int, Value>>, queried: Option<set<string>>)
    modifies complexCache
    ensures var run := CacheListRun(old(complexCache.hashes), source, ids, keyHash);
      r == run.result && queried == run.queried && complexCache.hashes == run.hashes
  {
    if ids == [] {
      return Success(map[]), None;
    }
    var fields := FieldsFor(ids);
    var data := complexCache.HmGet(keyHash, fields);
    assert data == FieldsOf(complexCache.hashes, keyHash, fields);
    var decoded := DecodeAll(data);
    if decoded.Failure? {
      return Failure(decoded.error), None;
    }
    var dataDict := decoded.value.0;
    var missing := (set f | f in fields) - (set f | f in decoded.value.1);
    queried := None;
    if missing != {} {
      queried := Some(missing);
      var dct;
      dct, dataDict := PickleRows(source(missing), dataDict);
      var o := complexCache.HmSet(keyHash, dct);
      if o.Raised? {
        return Failure(o.error), queried;
      }
    }
    r := Success(dataDict);
  }

  /** The row a stored field holds, or None when it does not unpickle. */
  function Unpickled(d: string): Value {
    match Pickle.Loads(d)
    case Some(v) => v
    case None => Nil
  }

  /** A field holds a non-empty pickle of a row whose `str(id)` is the field name. */
  predicate StoredRow(f: string, d: string) {
    d != "" && Pickle.Loads(d).Some? && Pickle.Loads(d).value.Entity? && Show(Int(Pickle.Loads(d).value.id)) == f
  }

  /** Every field of the hash is one that `get_cache_list` itself would have written. */
  predicate Consistent(h: map<string, string>) {
    forall f :: f in h ==> StoredRow(f, h[f])
  }

  /** The rows the hash holds for the requested ids, by id. */
  function StoredMap(h: map<string, string>, ids: seq<int>): map<int, Value> {
    map i | i in ids && Show(Int(i)) in h :: Unpickled(h[Show(Int(i))])
  }

  /** The fields of the requested ids that the hash holds. */
  function PresentFields(h: map<string, string>, ids: seq<int>): set<string> {
    set i | i in ids && Show(Int(i)) in h :: Show(Int(i))
  }

  /** The fields of the requested ids that the hash lacks. */
  function AbsentFields(h: map<string, string>, ids: seq<int>): set<string> {
    set i | i in ids && Show(Int(i)) !in h :: Show(Int(i))
  }

  /** The rows carry only ids whose `str` was asked for. */
  predicate FieldsWithin(rows: seq<Row>, asked: set<string>) {
    forall k :: 0 <= k < |rows| ==> Show(Int(rows[k].id)) in asked
  }

  /** A stored row decodes to a row whose `str(id)` is its field, and the loop files it under that id. */
  lemma StoredRowDecodes(acc: (map<int, Value>, seq<string>), f: string, d: string)
    requires StoredRow(f, d)
    ensures Unpickled(d).Entity? && Show(Int(Unpickled(d).id)) == f
    ensures DecodeHit(acc, Some(d)) == Success((acc.0[Unpickled(d).id := Unpickled(d)], acc.1 + [f]))
  {
  }

  /** The decoding loop, one answer further. */
  lemma DecodeHitsSnoc(vals: seq<Option<string>>)
    requires vals != []
    ensures DecodeHits(vals) == match DecodeHits(vals[..|vals| - 1])
      case Failure(e) => Failure(e)
      case Success(acc) => DecodeHit(acc, vals[|vals| - 1])
  {
  }

  /** Adding one more requested id to the closed forms. */
  lemma StoredMapSnoc(h: map<string, string>, ids: seq<int>)
    requires ids != []
    ensures var n := |ids| - 1; var f := Show(Int(ids[n]));
      && StoredMap(h, ids) == (if f in h then StoredMap(h, ids[..n])[ids[n] := Unpickled(h[f])] else StoredMap(h, ids[..n]))
      && PresentFields(h, ids) == (if f in h then PresentFields(h, ids[..n]) + {f} else PresentFields(h, ids[..n]))
  {
    var n := |ids| - 1;
    assert forall i :: i in ids <==> i in ids[..n] || i == ids[n];
  }

  /** On a consistent hash the decoding loop cannot raise, and it collects exactly the stored rows. */
  lemma {:induction false} ConsistentDecode(hs: map<string, map<string, string>>, name: string, ids: seq<int>)
    requires Consistent(HashOf(hs, name))
    ensures var d := DecodeHits(FieldsOf(hs, name, StrIds(ids)));
      && d.Success?
      && d.value.0 == StoredMap(HashOf(hs, name), ids)
      && (set f | f in d.value.1) == PresentFields(HashOf(hs, name), ids)
    decreases |ids|
  {
    var h := HashOf(hs, name);
    var vals := FieldsOf(hs, name, StrIds(ids));
    if ids == [] {
      assert vals == [];
      assert StoredMap(h, ids) == map[];
      assert PresentFields(h, ids) == {};
    } else {
      var n := |ids| - 1;
      var init := ids[..n];
      ConsistentDecode(hs, name, init);
      assert vals[..n] == FieldsOf(hs, name, StrIds(init));
      var acc := DecodeHits(vals[..n]).value;
      var f := Show(Int(ids[n]));
      DecodeHitsSnoc(vals);
      StoredMapSnoc(h, ids);
      if f in h {
        var d := h[f];
        assert vals[n] == Some(d);
        StoredRowDecodes(acc, f, d);
        ShowIntInjective(Unpickled(d).id, ids[n]);
        assert (set g | g in acc.1 + [f]) == (set g | g in acc.1) + {f};
      } else {
        assert vals[n] == None;
      }
    }
  }

  /** The missing set of the loader is the set of requested fields the hash lacks. */
  lemma MissingIsAbsent(h: map<string, string>, ids: seq<int>, found: seq<string>)
    requires (set f | f in found) == PresentFields(h, ids)
    ensures ListMissing(StrIds(ids), found) == AbsentFields(h, ids)
  {
    var fields := StrIds(ids);
    forall f | f in ListMissing(fields, found) ensures f in AbsentFields(h, ids) {
      var j :| 0 <= j < |fields| && fields[j] == f;
      assert ids[j] in ids;
    }
    forall f | f in AbsentFields(h, ids) ensures f in ListMissing(fields, found) {
      var i :| i in ids && Show(Int(i)) !in h && f == Show(Int(i));
      var j :| 0 <= j < |ids| && ids[j] == i;
      assert fields[j] == f;
    }
  }

  /** A pickled row is what `get_cache_list` stores for it, and unpickles to the row. */
  lemma DumpedRowStored(r: Row)
    ensures StoredRow(Show(Int(r.id)), Pickle.Dumps(r))
    ensures Unpickled(Pickle.Dumps(r)) == r
  {
    Pickle.LoadsDumps(r);
    Pickle.DumpsNonEmpty(r);
  }

  /** `p` holds, under each `str(id)` of `m`, the pickle of that id's row, and nothing else. */
  ghost predicate PickledMatches(m: map<int, Value>, p: map<string, string>) {
    && (forall i :: i in m ==> Show(Int(i)) in p && p[Show(Int(i))] == Pickle.Dumps(m[i]))
    && (forall i :: Show(Int(i)) in p ==> i in m)
  }

  lemma PickledMatchesStep(m: map<int, Value>, p: map<string, string>, k: int, v: Value)
    requires PickledMatches(m, p)
    ensures PickledMatches(m[k := v], p[Show(Int(k)) := Pickle.Dumps(v)])
  {
    var f := Show(Int(k));
    forall i | i in m[k := v]
      ensures Show(Int(i)) in p[f := Pickle.Dumps(v)] && p[f := Pickle.Dumps(v)][Show(Int(i))] == Pickle.Dumps(m[k := v][i])
    {
      if i != k && Show(Int(i)) == f {
        ShowIntInjective(i, k);
      }
    }
    forall i | Show(Int(i)) in p[f := Pickle.Dumps(v)] ensures i in m[k := v] {
      if Show(Int(i)) == f {
        ShowIntInjective(i, k);
      }
    }
  }

  /** The pickled mapping writes each fetched row, and only those, under its `str(id)`. */
  lemma {:induction false} PickledRowMap(rows: seq<Row>)
    ensures PickledMatches(RowMap(rows), Pickled(rows))
  {
    if rows != [] {
      var n := |rows| - 1;
      PickledRowMap(rows[..n]);
      RowMapSnoc(rows, n);
      assert rows[..n + 1] == rows;
      PickledMatchesStep(RowMap(rows[..n]), Pickled(rows[..n]), rows[n].id, rows[n]);
    }
  }

  /** Every field the pickled mapping writes holds that field's row. */
  lemma PickledStored(rows: seq<Row>)
    ensures forall f :: f in Pickled(rows) ==> StoredRow(f, Pickled(rows)[f])
  {
    PickledRowMap(rows);
    var m := RowMap(rows);
    forall f | f in Pickled(rows) ensures StoredRow(f, Pickled(rows)[f]) {
      var k :| 0 <= k < |rows| && Show(Int(rows[k].id)) == f;
      var i := rows[k].id;
      assert i in m;
      DumpedRowStored(m[i]);
    }
  }

  /** The fetched rows carry only requested ids whose field the hash lacked. */
  lemma FetchedIdsAbsent(h: map<string, string>, rows: seq<Row>, ids: seq<int>)
    requires FieldsWithin(rows, AbsentFields(h, ids))
    ensures forall i :: i in RowMap(rows) ==> i in ids && Show(Int(i)) !in h
  {
    forall i | i in RowMap(rows) ensures i in ids && Show(Int(i)) !in h {
      var k :| 0 <= k < |rows| && rows[k].id == i;
      var j :| j in ids && Show(Int(j)) !in h && Show(Int(i)) == Show(Int(j));
      ShowIntInjective(i, j);
    }
  }

  /** One requested id after the write-back: the hash holds the old row or the fetched one. */
  lemma StoredAt(h: map<string, string>, m: map<int, Value>, p: map<string, string>, ids: seq<int>, i: int)
    requires PickledMatches(m, p)
    requires forall j :: j in m ==> Show(Int(j)) !in h
    requires i in ids
    ensures var after := StoredMap(h + p, ids); var both := StoredMap(h, ids) + m;
      && (i in after <==> i in both)
      && (i in after ==> after[i] == both[i])
  {
    var f := Show(Int(i));
    if f in h {
      assert i !in m;
      assert f !in p;
    } else if i in m {
      Pickle.LoadsDumps(m[i]);
    }
  }

  /** The write-back of a load keeps the hash consistent, and the hash then holds what the load answered. */
  lemma {:induction false} StoredAfterLoad(h: map<string, string>, rows: seq<Row>, ids: seq<int>)
    requires Consistent(h)
    requires FieldsWithin(rows, AbsentFields(h, ids))
    ensures Consistent(h + Pickled(rows))
    ensures StoredMap(h + Pickled(rows), ids) == StoredMap(h, ids) + RowMap(rows)
    ensures (StoredMap(h, ids) + RowMap(rows)).Keys <= Requested(ids)
  {
    ConsistentUnion(h, rows);
    StoredUnion(h, rows, ids);
    FetchedIdsAbsent(h, rows, ids);
  }

  lemma ConsistentUnion(h: map<string, string>, rows: seq<Row>)
    requires Consistent(h)
    ensures Consistent(h + Pickled(rows))
  {
    PickledStored(rows);
  }

  lemma StoredUnion(h: map<string, string>, rows: seq<Row>, ids: seq<int>)
    requires FieldsWithin(rows, AbsentFields(h, ids))
    ensures StoredMap(h + Pickled(rows), ids) == StoredMap(h, ids) + RowMap(rows)
  {
    PickledRowMap(rows);
    FetchedIdsAbsent(h, rows, ids);
    StoredUnionOf(h, RowMap(rows), Pickled(rows), ids);
  }

  lemma StoredUnionOf(h: map<string, string>, m: map<int, Value>, p: map<string, string>, ids: seq<int>)
    requires PickledMatches(m, p)
    requires forall j :: j in m ==> j in ids && Show(Int(j)) !in h
    ensures StoredMap(h + p, ids) == StoredMap(h, ids) + m
  {
    var after, both := StoredMap(h + p, ids), StoredMap(h, ids) + m;
    forall i | i in ids ensures (i in after <==> i in both) && (i in after ==> after[i] == both[i]) {
      StoredAt(h, m, p, ids, i);
    }
    assert forall i :: i in both ==> i in ids;
    assert after.Keys == both.Keys;
  }

  /**
   * Whether a call can finish: nothing was asked of the data source, or it
   * returned at least one row, so that `hmset` gets a non-empty mapping.
   */
  predicate SourceAnswers(hs: map<string, map<string, string>>, source: set<string> -> seq<Row>, ids: seq<int>, name: string) {
    ids == [] || AbsentFields(HashOf(hs, name), ids) == {} || source(AbsentFields(HashOf(hs, name), ids)) != []
  }

  /**
   * One call on a consistent hash: only absent ids are queried; the call
   * raises exactly when the data source returns no row for them (redis-py's
   * DataError at `hmset`), and then changes nothing; otherwise the hash then
   * holds the answer.
   */
  lemma {:induction false} RunOnConsistent(hs: map<string, map<string, string>>, source: set<string> -> seq<Row>, ids: seq<int>, name: string)
    requires Consistent(HashOf(hs, name))
    requires FieldsWithin(source(AbsentFields(HashOf(hs, name), ids)), AbsentFields(HashOf(hs, name), ids))
    ensures CacheListRun(hs, source, ids, name).queried ==
      (if ids == [] || AbsentFields(HashOf(hs, name), ids) == {} then None else Some(AbsentFields(HashOf(hs, name), ids)))
    ensures CacheListRun(hs, source, ids, name).result.Success? <==> SourceAnswers(hs, source, ids, name)
    ensures var run := CacheListRun(hs, source, ids, name);
      run.result.Failure? ==> run.result.error == DataError && run.hashes == hs
    ensures Consistent(HashOf(CacheListRun(hs, source, ids, name).hashes, name))
    ensures var run := CacheListRun(hs, source, ids, name);
      run.result.Success? ==> StoredMap(HashOf(run.hashes, name), ids) == run.result.value && run.result.value.Keys <= Requested(ids)
  {
    var h := HashOf(hs, name);
    if ids == [] {
      assert StoredMap(h, ids) == map[];
    } else {
      ConsistentDecode(hs, name, ids);
      var acc := DecodeHits(FieldsOf(hs, name, StrIds(ids))).value;
      MissingIsAbsent(h, ids, acc.1);
      var missing := AbsentFields(h, ids);
      if missing != {} {
        PickledEmpty(source(missing));
        if source(missing) != [] {
          StoredAfterLoad(h, source(missing), ids);
        }
      }
    }
  }

  /** A call on a consistent hash that holds every requested id answers from the hash alone. */
  lemma {:induction false} RunFullyStored(hs: map<string, map<string, string>>, source: set<string> -> seq<Row>, ids: seq<int>, name: string)
    requires Consistent(HashOf(hs, name))
    requires Requested(ids) <= StoredMap(HashOf(hs, name), ids).Keys
    ensures CacheListRun(hs, source, ids, name) == ListRun(Success(StoredMap(HashOf(hs, name), ids)), None, hs)
  {
    var h := HashOf(hs, name);
    if ids == [] {
      assert StoredMap(h, ids) == map[];
    } else {
      ConsistentDecode(hs, name, ids);
      var acc := DecodeHits(FieldsOf(hs, name, StrIds(ids))).value;
      MissingIsAbsent(h, ids, acc.1);
      forall i | i in ids ensures Show(Int(i)) in h {
        assert i in Requested(ids);
      }
      assert AbsentFields(h, ids) == {};
    }
  }

  /**
   * The cache-aside promise for `get_cache_list`: on a hash only this loader
   * writes, a call raises only when the data source returns no row for the
   * absent ids; otherwise the hash afterwards holds exactly what the call
   * answered, and when every id was answered a second call returns the same
   * map without asking the data source, whatever that source is.
   */
  lemma {:induction false} CacheListSecondCall(hs: map<string, map<string, string>>, source: set<string> -> seq<Row>,
                                               source2: set<string> -> seq<Row>, ids: seq<int>, name: string)
    requires Consistent(HashOf(hs, name))
    requires FieldsWithin(source(AbsentFields(HashOf(hs, name), ids)), AbsentFields(HashOf(hs, name), ids))
    ensures CacheListRun(hs, source, ids, name).result.Success? <==> SourceAnswers(hs, source, ids, name)
    ensures var run := CacheListRun(hs, source, ids, name);
      run.result.Success? ==> StoredMap(HashOf(run.hashes, name), ids) == run.result.value
    ensures var run := CacheListRun(hs, source, ids, name);
      run.result.Success? && Requested(ids) <= run.result.value.Keys ==>
        CacheListRun(run.hashes, source2, ids, name) == ListRun(run.result, None, run.hashes)
  {
    RunOnConsistent(hs, source, ids, name);
    var run := CacheListRun(hs, source, ids, name);
    if run.result.Success? && Requested(ids) <= run.result.value.Keys {
      RunFullyStored(run.hashes, source2, ids, name);
    }
  }
}
