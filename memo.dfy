/**
 * The memoising decorators of dojang/cache.py.  `cached` keeps results in the
 * local store (`simple_cache`); `autocached` keeps pickled results in the
 * shared store (`complex_cache`, here its in-process fallback).  The wrapped
 * method is the function `f` of the argument list; both stores are passed in
 * as objects rather than read from module globals.
 */
module Memo {
  import opened Base
  import opened Values
  import opened Caching
  import Decimal
  import Pickle

  /** `'-'.join(map(str, args))`. */
  function JoinArgs(args: seq<Value>): string {
    if args == [] then ""
    else if |args| == 1 then Show(args[0])
    else Show(args[0]) + "-" + JoinArgs(args[1..])
  }

  /** The key `cached` derives: `prefix`, or `prefix:a1-a2-...` when there are arguments. */
  function CachedKey(prefix: string, args: seq<Value>): string {
    if args == [] then prefix else prefix + ":" + JoinArgs(args)
  }

  /** The key `autocached` derives: `prefix`, or `prefix` directly followed by `a1-a2-...`. */
  function AutocachedKey(prefix: string, args: seq<Value>): string {
    if args == [] then prefix else prefix + JoinArgs(args)
  }

  /** What a `cached` call returns: the stored value unless it is None, else the method's result. */
  function CachedValue(t: Table, prefix: string, f: seq<Value> -> Value, args: seq<Value>, now: int): Value {
    var hit := Lookup(t, CachedKey(prefix, args), now);
    if hit == Nil then f(args) else hit
  }

  /** Whether a `cached` call runs the wrapped method. */
  predicate CachedComputes(t: Table, prefix: string, args: seq<Value>, now: int) {
    Lookup(t, CachedKey(prefix, args), now) == Nil
  }

  /** The local store after a `cached` call. */
  function CachedTable(t: Table, prefix: string, time: int, f: seq<Value> -> Value, args: seq<Value>, now: int): Table {
    var key := CachedKey(prefix, args);
    if CachedComputes(t, prefix, args, now) then Put(Sweep(t, key, now), key, f(args), time, now)
    else Sweep(t, key, now)
  }

  /** `cPickle.loads` applied to what the shared store returned. */
  function Unpickle(v: Value): Result<Value> {
    match v
    case Str(s) =>
      (match Pickle.Loads(s)
       case Some(x) => Success(x)
       case None => Failure(UnpicklingError))
    case _ => Failure(TypeError)
  }

  /** What an `autocached` call returns: the unpickled stored value, or the method's result on a miss. */
  function AutocachedValue(t: Table, prefix: string, f: seq<Value> -> Value, args: seq<Value>, now: int): Result<Value> {
    var hit := Lookup(t, AutocachedKey(prefix, args), now);
    if hit == Nil then Success(f(args)) else Unpickle(hit)
  }

  predicate AutocachedComputes(t: Table, prefix: string, args: seq<Value>, now: int) {
    Lookup(t, AutocachedKey(prefix, args), now) == Nil
  }

  /** The shared store after an `autocached` call: on a miss the pickled result is written. */
  function AutocachedTable(t: Table, prefix: string, time: int, f: seq<Value> -> Value, args: seq<Value>, now: int): Table {
    var key := AutocachedKey(prefix, args);
    if AutocachedComputes(t, prefix, args, now) then Put(Sweep(t, key, now), key, Str(Pickle.Dumps(f(args))), time, now)
    else Sweep(t, key, now)
  }

  /** A call of a method decorated with `@cached(prefix, time)`; `computed` says whether the method ran. */
  method Cached(cache: Cache, prefix: string, time: int, f: seq<Value> -> Value, args: seq<Value>, now: int)
    returns (r: Value, computed: bool)
    modifies cache
    ensures r == CachedValue(old(cache.table), prefix, f, args, now)
    ensures computed == CachedComputes(old(cache.table), prefix, args, now)
    ensures cache.table == CachedTable(old(cache.table), prefix, time, f, args, now)
  {
    var key := if args != [] then prefix + ":" + JoinArgs(args) else prefix;
    var value := cache.Get(Str(key), now);
    computed := false;
    if value == Nil {
      value := f(args);
      computed := true;
      var _ := cache.Set(Str(key), value, time, now);
    }
    r := value;
  }

  /** `cached_clear(key)`. */
  method CachedClear(cache: Cache, key: Value)
    modifies cache
    ensures cache.table == old(cache.table) - {Show(key)}
  {
    cache.Delete(key);
  }

  /** A call of a method decorated with `@autocached(prefix, time)`. */
  method Autocached(cache: Cache, prefix: string, time: int, f: seq<Value> -> Value, args: seq<Value>, now: int)
    returns (r: Result<Value>, computed: bool)
    modifies cache
    ensures r == AutocachedValue(old(cache.table), prefix, f, args, now)
    ensures computed == AutocachedComputes(old(cache.table), prefix, args, now)
    ensures cache.table == AutocachedTable(old(cache.table), prefix, time, f, args, now)
  {
    var key := prefix;
    if args != [] {
      key := prefix + JoinArgs(args);
    }
    var value := cache.Get(Str(key), now);
    computed := false;
    if value == Nil {
      var v := f(args);
      computed := true;
      var _ := cache.Set(Str(key), Str(Pickle.Dumps(v)), time, now);
      r := Success(v);
    } else {
      r := Unpickle(value);
    }
  }

  /** `autocached_clear(key)`. */
  method AutocachedClear(cache: Cache, key: Value)
    modifies cache
    ensures cache.table == old(cache.table) - {Show(key)}
  {
    cache.Delete(key);
  }

  // ---------------------------------------------------------------------
  // Properties of the decorators

  /** The two derivations differ only in the colon: `cached` keys are `autocached` keys under `prefix + ':'`. */
  lemma KeyDerivations(prefix: string, args: seq<Value>)
    ensures args == [] ==> CachedKey(prefix, args) == prefix && AutocachedKey(prefix, args) == prefix
    ensures args != [] ==> CachedKey(prefix, args) == AutocachedKey(prefix + ":", args)
  {
  }

  /**
   * Memoisation: once a call has computed a result that is not None, a second
   * call with the same arguments while the entry is live returns the same
   * value without running the method and without changing the store.
   */
  lemma {:induction false} CachedMemoizes(t: Table, prefix: string, time: int, f: seq<Value> -> Value, args: seq<Value>, now1: int, now2: int)
    requires CachedComputes(t, prefix, args, now1)
    requires f(args) != Nil
    requires time <= 0 || now2 <= now1 + time
    ensures var t1 := CachedTable(t, prefix, time, f, args, now1);
      && CachedValue(t, prefix, f, args, now1) == f(args)
      && !CachedComputes(t1, prefix, args, now2)
      && CachedValue(t1, prefix, f, args, now2) == f(args)
      && CachedTable(t1, prefix, time, f, args, now2) == t1
  {
    var key := CachedKey(prefix, args);
    GetAfterSet(Sweep(t, key, now1), key, f(args), time, now1, now2);
  }

  /** A method result of None is stored but reads back as a miss, so every later call runs the method again. */
  lemma {:induction false} CachedNoneRecomputes(t: Table, prefix: string, time: int, f: seq<Value> -> Value, args: seq<Value>, now1: int, now2: int)
    requires CachedComputes(t, prefix, args, now1)
    requires f(args) == Nil
    ensures CachedComputes(CachedTable(t, prefix, time, f, args, now1), prefix, args, now2)
  {
    var key := CachedKey(prefix, args);
    GetAfterSet(Sweep(t, key, now1), key, f(args), time, now1, now2);
  }

  /** After `cached_clear` of the derived key, the next call runs the method. */
  lemma ClearedRecomputes(t: Table, prefix: string, args: seq<Value>, now: int)
    ensures CachedComputes(t - {Show(Str(CachedKey(prefix, args)))}, prefix, args, now)
  {
  }

  /**
   * `autocached` round trip: after a call has computed and pickled a result,
   * a call within the TTL returns exactly that result, None included, without
   * running the method.
   */
  lemma {:induction false} AutocachedMemoizes(t: Table, prefix: string, time: int, f: seq<Value> -> Value, args: seq<Value>, now1: int, now2: int)
    requires AutocachedComputes(t, prefix, args, now1)
    requires time <= 0 || now2 <= now1 + time
    ensures var t1 := AutocachedTable(t, prefix, time, f, args, now1);
      && AutocachedValue(t, prefix, f, args, now1) == Success(f(args))
      && !AutocachedComputes(t1, prefix, args, now2)
      && AutocachedValue(t1, prefix, f, args, now2) == Success(f(args))
      && AutocachedTable(t1, prefix, time, f, args, now2) == t1
  {
    var key := AutocachedKey(prefix, args);
    GetAfterSet(Sweep(t, key, now1), key, Str(Pickle.Dumps(f(args))), time, now1, now2);
    Pickle.LoadsDumps(f(args));
  }

  /** Every argument is a non-negative int, as for the ids most decorated methods take. */
  predicate NatArgs(args: seq<Value>) {
    forall i :: 0 <= i < |args| ==> args[i].Int? && args[i].i >= 0
  }

  lemma NatShowHasNoDash(v: Value)
    requires v.Int? && v.i >= 0
    ensures forall k :: 0 <= k < |Show(v)| ==> Show(v)[k] != '-'
    ensures Show(v) == Decimal.IntToStr(v.i)
  {
  }

  lemma {:induction false} JoinArgsInjective(a: seq<Value>, b: seq<Value>)
    requires NatArgs(a) && NatArgs(b) && a != [] && b != []
    requires JoinArgs(a) == JoinArgs(b)
    ensures a == b
    decreases |a|
  {
    var x, y := Show(a[0]), Show(b[0]);
    NatShowHasNoDash(a[0]);
    NatShowHasNoDash(b[0]);
    if |a| == 1 && |b| == 1 {
      Decimal.IntToStrInjective(a[0].i, b[0].i);
    } else if |a| == 1 {
      Pickle.SplitAtAbsent(x, '-');
      Pickle.SplitAtFirst(y, '-', JoinArgs(b[1..]));
      assert false;
    } else if |b| == 1 {
      Pickle.SplitAtAbsent(y, '-');
      Pickle.SplitAtFirst(x, '-', JoinArgs(a[1..]));
      assert false;
    } else {
      assert JoinArgs(a) == x + ['-'] + JoinArgs(a[1..]);
      assert JoinArgs(b) == y + ['-'] + JoinArgs(b[1..]);
      Pickle.SplitAtFirst(x, '-', JoinArgs(a[1..]));
      Pickle.SplitAtFirst(y, '-', JoinArgs(b[1..]));
      Decimal.IntToStrInjective(a[0].i, b[0].i);
      assert NatArgs(a[1..]) && NatArgs(b[1..]) by {
        forall i | 0 <= i < |a| - 1 ensures a[1..][i] == a[i + 1] { }
        forall i | 0 <= i < |b| - 1 ensures b[1..][i] == b[i + 1] { }
      }
      JoinArgsInjective(a[1..], b[1..]);
      assert a == [a[0]] + a[1..] && b == [b[0]] + b[1..];
    }
  }

  /**
   * Under one prefix, distinct lists of non-negative int arguments get
   * distinct `cached` keys, so a hit always belongs to the same arguments.
   */
  lemma {:induction false} CachedKeyInjective(prefix: string, a: seq<Value>, b: seq<Value>)
    requires NatArgs(a) && NatArgs(b)
    requires CachedKey(prefix, a) == CachedKey(prefix, b)
    ensures a == b
  {
    if a != [] && b != [] {
      PrefixCancel(prefix + ":", JoinArgs(a), JoinArgs(b));
      JoinArgsInjective(a, b);
    } else if a != [] {
      assert false;
    } else if b != [] {
      assert false;
    }
  }

  /** String arguments that contain '-' share keys with longer argument lists: callers must avoid them. */
  lemma StringArgsCollide()
    ensures CachedKey("p", [Str("a-b")]) == CachedKey("p", [Str("a"), Str("b")])
  {
  }

  /** Without the colon, an `autocached` prefix ending in a digit collides with a longer argument. */
  lemma AutocachedPrefixesCollide()
    ensures AutocachedKey("user", [Int(12)]) == AutocachedKey("user1", [Int(2)])
  {
    assert Decimal.NatToStr(12) == "12";
  }
}
