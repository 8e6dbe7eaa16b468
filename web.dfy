/**
 * The request-handler helpers of web.py: case-insensitive user-agent
 * matching (`ignore_user_agent`, `DojangHandler.is_mobile`) and the flash
 * message queue `DojangHandler.flash_message`, which keeps a list of
 * `(category, message)` pairs in the shared cache under the handler's XSRF
 * token for ten minutes.
 */
module Web {
  import opened Base
  import opened Values
  import opened Caching

  /** `str.lower` on ASCII letters. */
  function LowerChar(c: char): char {
    if 'A' <= c <= 'Z' then (c as int + 32) as char else c
  }

  function Lower(s: string): (r: string)
    ensures |r| == |s|
    ensures forall i :: 0 <= i < |s| ==> r[i] == LowerChar(s[i])
  {
    seq(|s|, i requires 0 <= i < |s| => LowerChar(s[i]))
  }

  lemma LowerIdempotent(s: string)
    ensures Lower(Lower(s)) == Lower(s)
  {
  }

  /** Python's `sub in s`: `sub` occurs in `s` as a contiguous substring. */
  predicate Contains(s: string, sub: string) {
    sub <= s || (s != [] && Contains(s[1..], sub))
  }

  /** `sub` occurs in `s` at index `i`. */
  predicate OccursAt(s: string, sub: string, i: int) {
    0 <= i && i + |sub| <= |s| && s[i..i + |sub|] == sub
  }

  /** `Contains` against the reference definition: some window of `s` equals `sub`. */
  lemma {:induction false} ContainsSpec(s: string, sub: string)
    ensures Contains(s, sub) <==> exists i :: OccursAt(s, sub, i)
    decreases |s|
  {
    if sub <= s {
      assert OccursAt(s, sub, 0);
    } else if s == [] {
      forall i | OccursAt(s, sub, i) ensures false {
        OccursAtFront(s, sub, i);
      }
    } else {
      ContainsSpec(s[1..], sub);
      if Contains(s[1..], sub) {
        var i :| OccursAt(s[1..], sub, i);
        OccursShift(s, sub, i);
      } else {
        forall i | OccursAt(s, sub, i) ensures false {
          if i == 0 {
            OccursAtFront(s, sub, i);
          } else {
            OccursUnshift(s, sub, i);
          }
        }
      }
    }
  }

  /** A match at index 0 is a prefix. */
  lemma OccursAtFront(s: string, sub: string, i: int)
    requires OccursAt(s, sub, i) && i == 0
    ensures sub <= s
  {
  }

  /** A match in the tail is a match one place further on. */
  lemma OccursShift(s: string, sub: string, i: int)
    requires s != [] && OccursAt(s[1..], sub, i)
    ensures OccursAt(s, sub, i + 1)
  {
    assert s[1..][i..i + |sub|] == s[i + 1..i + 1 + |sub|];
  }

  /** A match past index 0 is a match in the tail. */
  lemma OccursUnshift(s: string, sub: string, i: int)
    requires OccursAt(s, sub, i) && i > 0
    ensures OccursAt(s[1..], sub, i - 1)
  {
    assert s[1..][i - 1..i - 1 + |sub|] == s[i..i + |sub|];
  }

  /** The ignore loop over `options.mobile_ua_ignores` for an already lowered user agent. */
  function IgnoreAny(lowUa: string, ignores: seq<string>): bool {
    if ignores == [] then false
    else (ignores[0] != "" && Contains(lowUa, Lower(ignores[0]))) || IgnoreAny(lowUa, ignores[1..])
  }

  /** `ignore_user_agent(user_agent)`: None or "" is never ignored. */
  function IgnoreUserAgent(userAgent: Option<string>, ignores: seq<string>): bool {
    userAgent.Some? && userAgent.value != "" && IgnoreAny(Lower(userAgent.value), ignores)
  }

  lemma {:induction false} IgnoreAnySpec(lowUa: string, ignores: seq<string>)
    ensures IgnoreAny(lowUa, ignores) <==> exists i :: 0 <= i < |ignores| && ignores[i] != "" && Contains(lowUa, Lower(ignores[i]))
  {
    if ignores != [] {
      IgnoreAnySpec(lowUa, ignores[1..]);
      if IgnoreAny(lowUa, ignores[1..]) {
        var i :| 0 <= i < |ignores[1..]| && ignores[1..][i] != "" && Contains(lowUa, Lower(ignores[1..][i]));
        assert ignores[i + 1] == ignores[1..][i];
      }
      forall i | 1 <= i < |ignores| ensures ignores[i] == ignores[1..][i - 1] {
      }
    }
  }

  /**
   * A user agent is ignored exactly when it is non-empty and some non-empty
   * ignore entry occurs in it, both compared in lower case.
   */
  lemma IgnoreUserAgentSpec(userAgent: Option<string>, ignores: seq<string>)
    ensures IgnoreUserAgent(userAgent, ignores) <==>
      && userAgent.Some? && userAgent.value != ""
      && exists i :: 0 <= i < |ignores| && ignores[i] != "" && Contains(Lower(userAgent.value), Lower(ignores[i]))
  {
    if userAgent.Some? {
      IgnoreAnySpec(Lower(userAgent.value), ignores);
    }
  }

  /** The search loop of `is_mobile` over `search_ua_strings`, for an already lowered user agent. */
  function SearchAny(lowUa: string, searchStrings: seq<string>, ignores: seq<string>): bool {
    if searchStrings == [] then false
    else (Contains(lowUa, searchStrings[0]) && !IgnoreUserAgent(Some(lowUa), ignores))
         || SearchAny(lowUa, searchStrings[1..], ignores)
  }

  /** `is_mobile`: the request headers are a map from header name to value. */
  function IsMobile(headers: map<string, string>, searchStrings: seq<string>, ignores: seq<string>): bool {
    "User-Agent" in headers && SearchAny(Lower(headers["User-Agent"]), searchStrings, ignores)
  }

  lemma {:induction false} SearchAnySpec(lowUa: string, searchStrings: seq<string>, ignores: seq<string>)
    ensures SearchAny(lowUa, searchStrings, ignores) <==>
      (exists i :: 0 <= i < |searchStrings| && Contains(lowUa, searchStrings[i])) && !IgnoreUserAgent(Some(lowUa), ignores)
  {
    if searchStrings != [] {
      SearchAnySpec(lowUa, searchStrings[1..], ignores);
      if exists i :: 0 <= i < |searchStrings[1..]| && Contains(lowUa, searchStrings[1..][i]) {
        var i :| 0 <= i < |searchStrings[1..]| && Contains(lowUa, searchStrings[1..][i]);
        assert searchStrings[i + 1] == searchStrings[1..][i];
      }
      forall i | 1 <= i < |searchStrings| ensures searchStrings[i] == searchStrings[1..][i - 1] {
      }
    }
  }

  /**
   * A request is mobile exactly when it has a User-Agent header, some search
   * string occurs in the lowered user agent, and that user agent is not ignored.
   */
  lemma IsMobileSpec(headers: map<string, string>, searchStrings: seq<string>, ignores: seq<string>)
    ensures IsMobile(headers, searchStrings, ignores) <==>
      && "User-Agent" in headers
      && (exists i :: 0 <= i < |searchStrings| && Contains(Lower(headers["User-Agent"]), searchStrings[i]))
      && !IgnoreUserAgent(Some(headers["User-Agent"]), ignores)
  {
    if "User-Agent" in headers {
      var ua := headers["User-Agent"];
      SearchAnySpec(Lower(ua), searchStrings, ignores);
      LowerIdempotent(ua);
    }
  }

  // ---------------------------------------------------------------------
  // flash_message

  /** The cache key `'%s_flash_message' % xsrf_token`. */
  function FlashKey(xsrfToken: string): string {
    xsrfToken + "_flash_message"
  }

  /** `for cat, msg in messages` unpacks one stored element into two, or raises. */
  function Unpack(v: Value): Result<(Value, Value)> {
    match v
    case Tuple(es) => if |es| == 2 then Success((es[0], es[1])) else Failure(ValueError)
    case List(es) => if |es| == 2 then Success((es[0], es[1])) else Failure(ValueError)
    case Dict(ps) => if |ps| == 2 then Success((ps[0].key, ps[1].key)) else Failure(ValueError)
    case Str(s) => if |s| == 2 then Success((Str([s[0]]), Str([s[1]]))) else Failure(ValueError)
    case _ => Failure(TypeError)
  }

  /** `get_category_message` over a sequence of stored elements, yielding `(cat, msg)` tuples. */
  function FilterPairs(es: seq<Value>, category: Value): Result<seq<Value>> {
    if es == [] then Success([])
    else match Unpack(es[0])
      case Failure(e) => Failure(e)
      case Success(p) =>
        match FilterPairs(es[1..], category)
        case Failure(e) => Failure(e)
        case Success(rest) => Success(if p.0 == category then [Tuple([p.0, p.1])] + rest else rest)
  }

  /** Iterating a dict yields its keys. */
  function DictKeys(ps: seq<Item>): (ks: seq<Value>)
    ensures |ks| == |ps| && forall i :: 0 <= i < |ps| ==> ks[i] == ps[i].key
  {
    seq(|ps|, i requires 0 <= i < |ps| => ps[i].key)
  }

  /** `get_category_message(messages, category)` on whatever value the cache held. */
  function CategoryMessages(stored: Value, category: Value): Result<Value> {
    match stored
    case List(es) =>
      (match FilterPairs(es, category) case Success(r) => Success(List(r)) case Failure(e) => Failure(e))
    case Tuple(es) =>
      (match FilterPairs(es, category) case Success(r) => Success(List(r)) case Failure(e) => Failure(e))
    case Dict(ps) =>
      (match FilterPairs(DictKeys(ps), category) case Success(r) => Success(List(r)) case Failure(e) => Failure(e))
    case Str(s) => if s == "" then Success(List([])) else Failure(ValueError)
    case _ => Failure(TypeError)
  }

  /** The list of pairs after a message is flashed: appended to a stored list, or a new one. */
  function Appended(stored: Value, message: Value): (r: Value)
    ensures r.List? && |r.elems| >= 1 && r.elems[|r.elems| - 1] == message
    ensures stored.List? ==> r.elems[..|r.elems| - 1] == stored.elems
    ensures !stored.List? ==> r == List([message])
  {
    if stored.List? then List(stored.elems + [message]) else List([message])
  }

  /** What `flash_message(msg, category)` returns or raises, and the cache table after it. */
  function FlashSpec(t: Table, xsrfToken: string, msg: Value, category: Value, now: int): (Result<Value>, Table) {
    var k := FlashKey(xsrfToken);
    var stored := Lookup(t, k, now);
    if msg == Nil then
      if stored == Nil then (Success(List([])), Sweep(t, k, now))
      else if category != Nil then (CategoryMessages(stored, category), Sweep(t, k, now))
      else (Success(stored), Sweep(t, k, now) - {k})
    else
      var message := Tuple([category, msg]);
      (Success(message), Put(t, k, Appended(stored, message), 600, now))
  }

  /** `DojangHandler.flash_message` against the shared cache. */
  method FlashMessage(simpleCache: Cache, xsrfToken: string, msg: Value, category: Value, now: int) returns (r: Result<Value>)
    modifies simpleCache
    ensures (r, simpleCache.table) == FlashSpec(old(simpleCache.table), xsrfToken, msg, category, now)
  {
    var key := Str(FlashKey(xsrfToken));
    if msg == Nil {
      var messages := simpleCache.Get(key, now);
      if messages == Nil {
        return Success(List([]));
      }
      if category != Nil {
        return CategoryMessages(messages, category);
      }
      simpleCache.Delete(key);
      return Success(messages);
    }
    ghost var t0 := simpleCache.table;
    var message := Tuple([category, msg]);
    var messages := simpleCache.Get(key, now);
    if messages.List? {
      messages := List(messages.elems + [message]);
    } else {
      messages := List([message]);
    }
    assert messages == Appended(Lookup(t0, FlashKey(xsrfToken), now), message);
    var _ := simpleCache.Set(key, messages, 600, now);
    assert Put(Sweep(t0, FlashKey(xsrfToken), now), FlashKey(xsrfToken), messages, 600, now)
        == Put(t0, FlashKey(xsrfToken), messages, 600, now);
    r := Success(message);
  }

  lemma {:induction false} FilterPairsAppend(a: seq<Value>, b: seq<Value>, category: Value)
    requires FilterPairs(a, category).Success?
    ensures FilterPairs(a + b, category) ==
      match FilterPairs(b, category)
      case Failure(e) => Failure(e)
      case Success(rb) => Success(FilterPairs(a, category).value + rb)
  {
    if a != [] {
      assert (a + b)[0] == a[0];
      assert (a + b)[1..] == a[1..] + b;
      FilterPairsAppend(a[1..], b, category);
      var p := Unpack(a[0]).value;
      var ra := FilterPairs(a[1..], category).value;
      var head: seq<Value> := if p.0 == category then [Tuple([p.0, p.1])] else [];
      if p.0 != category {
        assert head + ra == ra;
      }
      assert FilterPairs(a, category).value == head + ra;
      if FilterPairs(b, category).Success? {
        var rb := FilterPairs(b, category).value;
        assert FilterPairs(a[1..] + b, category) == Success(ra + rb);
        assert Unpack((a + b)[0]) == Success(p);
        if p.0 != category {
          assert head + (ra + rb) == ra + rb;
        }
        assert FilterPairs(a + b, category) == Success(head + (ra + rb));
        assert head + (ra + rb) == (head + ra) + rb;
      }
    } else {
      assert a + b == b;
      assert FilterPairs(a, category).value == [];
      if FilterPairs(b, category).Success? {
        assert [] + FilterPairs(b, category).value == FilterPairs(b, category).value;
      }
    }
  }

  /**
   * The category filter keeps exactly the pairs of that category, each as a
   * `(category, message)` tuple, and fails exactly when some element does not
   * unpack into two.
   */
  lemma {:induction false} FilterPairsSpec(es: seq<Value>, category: Value)
    ensures FilterPairs(es, category).Success? <==> forall i :: 0 <= i < |es| ==> Unpack(es[i]).Success?
    ensures FilterPairs(es, category).Success? ==>
      forall x :: x in FilterPairs(es, category).value ==> x.Tuple? && |x.elems| == 2 && x.elems[0] == category
    ensures FilterPairs(es, category).Success? ==>
      forall m :: Tuple([category, m]) in FilterPairs(es, category).value <==>
        exists i :: 0 <= i < |es| && Unpack(es[i]) == Success((category, m))
  {
    if es != [] {
      FilterPairsSpec(es[1..], category);
      forall i | 1 <= i < |es| ensures es[i] == es[1..][i - 1] {
      }
      if FilterPairs(es, category).Success? {
        var rest := FilterPairs(es[1..], category).value;
        forall m ensures Tuple([category, m]) in FilterPairs(es, category).value <==>
          exists i :: 0 <= i < |es| && Unpack(es[i]) == Success((category, m))
        {
          if exists i :: 0 <= i < |es| && Unpack(es[i]) == Success((category, m)) {
            var i :| 0 <= i < |es| && Unpack(es[i]) == Success((category, m));
            if i > 0 {
              assert Unpack(es[1..][i - 1]) == Success((category, m));
            }
          }
          if Tuple([category, m]) in rest {
            var i :| 0 <= i < |es[1..]| && Unpack(es[1..][i]) == Success((category, m));
            assert Unpack(es[i + 1]) == Success((category, m));
          }
        }
      } else if Unpack(es[0]).Success? {
        var i :| 0 <= i < |es[1..]| && !Unpack(es[1..][i]).Success?;
        assert !Unpack(es[i + 1]).Success?;
      }
    }
  }

  /**
   * Flashing appends one pair at the end: a plain read within the ten
   * minutes returns the earlier list plus that pair and clears the key, so an
   * immediate second read returns `[]`.
   */
  lemma FlashThenRead(t: Table, xsrfToken: string, msg: Value, category: Value, now1: int, now2: int)
    requires msg != Nil
    requires now1 <= now2 <= now1 + 600
    ensures var k := FlashKey(xsrfToken);
      var stored := Lookup(t, k, now1);
      var prior := if stored.List? then stored.elems else [];
      var (r1, t1) := FlashSpec(t, xsrfToken, msg, category, now1);
      var (r2, t2) := FlashSpec(t1, xsrfToken, Nil, Nil, now2);
      && r1 == Success(Tuple([category, msg]))
      && r2 == Success(List(prior + [Tuple([category, msg])]))
      && k !in t2
      && FlashSpec(t2, xsrfToken, Nil, Nil, now2) == (Success(List([])), t2)
  {
    var k := FlashKey(xsrfToken);
    var stored := Lookup(t, k, now1);
    var pair := Tuple([category, msg]);
    var l := Appended(stored, pair);
    var t1 := Put(t, k, l, 600, now1);
    assert FlashSpec(t, xsrfToken, msg, category, now1) == (Success(pair), t1);
    assert t1[k] == Entry(l, now1, 600);
    assert Lookup(t1, k, now2) == l;
    assert l == List((if stored.List? then stored.elems else []) + [pair]);
    var t2 := Sweep(t1, k, now2) - {k};
    assert FlashSpec(t1, xsrfToken, Nil, Nil, now2) == (Success(l), t2);
    assert Lookup(t2, k, now2) == Nil;
    assert Sweep(t2, k, now2) == t2;
  }

  /**
   * A category read neither clears the key nor reorders: after flashing
   * `(category, msg)` onto a stored list of pairs, reading that category
   * returns the earlier matches followed by the new pair, and reading another
   * category returns the earlier matches alone.
   */
  lemma {:induction false} FlashThenCategory(t: Table, xsrfToken: string, msg: Value, category: Value, other: Value, now1: int, now2: int)
    requires msg != Nil && category != Nil && other != Nil && other != category
    requires now1 <= now2 <= now1 + 600
    requires var stored := Lookup(t, FlashKey(xsrfToken), now1);
      stored.List? && FilterPairs(stored.elems, category).Success?
    ensures var k := FlashKey(xsrfToken);
      var prior := Lookup(t, k, now1).elems;
      var (_, t1) := FlashSpec(t, xsrfToken, msg, category, now1);
      && FlashSpec(t1, xsrfToken, Nil, category, now2) == (Success(List(FilterPairs(prior, category).value + [Tuple([category, msg])])), t1)
      && (FilterPairs(prior, other).Success? ==>
            FlashSpec(t1, xsrfToken, Nil, other, now2) == (Success(List(FilterPairs(prior, other).value)), t1))
  {
    var k := FlashKey(xsrfToken);
    var prior := Lookup(t, k, now1).elems;
    var pair := Tuple([category, msg]);
    assert Unpack(pair) == Success((category, msg));
    assert FilterPairs([pair], category) == Success([pair]) by {
      assert [pair][1..] == [];
      assert [Tuple([category, msg])] + [] == [pair];
    }
    assert FilterPairs([pair], other) == Success([]) by {
      assert [pair][1..] == [];
    }
    var l := Appended(Lookup(t, k, now1), pair);
    var t1 := Put(t, k, l, 600, now1);
    assert t1[k] == Entry(l, now1, 600);
    assert Lookup(t1, k, now2) == l;
    assert Sweep(t1, k, now2) == t1;
    assert l.elems == prior + [pair];
    FilterPairsAppend(prior, [pair], category);
    if FilterPairs(prior, other).Success? {
      FilterPairsAppend(prior, [pair], other);
      assert FilterPairs(prior, other).value + [] == FilterPairs(prior, other).value;
    }
  }
}
