# dojang caching and registration core, in Dafny

This project models the core of the dojang web toolkit (a layer over tornado):

- **`_Cache`**: the in-process TTL store behind `simple_cache`, and the fallback behind `complex_cache`. It maps string keys to `(value, time written, TTL)` behind a memcached-style API (`set`, `get`, `add`, `delete`, `incr`, `decr`, `set_multi`, `get_multi`, `delete_multi`, `flush_all`).
  - Expiry is lazy: `get` and `incr` delete an expired entry when they meet it.
  - The class `Caching.Cache` holds the dictionary as a `map<string, Entry>`. Each method is proved equal to a function of the old table.
- **The memoising decorators**: `cached` and `autocached`, plus their `*_clear` helpers (module `Memo`).
  - The wrapped method is a function parameter.
  - `cPickle` is a concrete encoding (module `Pickle`) with a proved round trip.
- **The cache-aside batch loaders**: `get_simple_cache_list` and `get_cache_list` (module `Loaders`).
  - The data source (`model.query.filter_by(id__in=...)`) is a function parameter.
  - The redis hashes are a class `HashStore` over `map<string, map<string, string>>`.
- **Application registration in dojang/app.py** (module `App`): `DojangApp` and `DojangApplication` are classes whose methods update their fields in place.
  - This covers URL prefixes, the rebasing of handler specs, host groups, settings dictionaries, `template_path` and the one-shot `first_register` flag.
- **From web.py** (module `Web`): `ignore_user_agent`, `DojangHandler.is_mobile` and `DojangHandler.flash_message` with its `get_category_message`.
- **From dojang/escape.py** (module `Escape`): `simple_escape`, `br_escape` and `html_escape`.

Python values (None, bools, ints, strings, tuples, lists, dicts and mapped rows) are the datatype `Values.Value`, with Python truthiness (`Truthy`) and `str()` (`Show`). The wall clock read by `sys_time()` is an explicit integer parameter `now`. Exceptions the code raises are `Base.Exc` values inside a `Result` or an `Outcome`.

The model follows the code where its docstrings say otherwise. The docstring of `autocached` (dojang/cache.py:175) promises keys of the form `prefix:arg1-arg2`, but the code joins the prefix and the arguments without a colon (`Memo.AutocachedPrefixesCollide`). A `cached` result of None is stored but reads back as a miss, so it is recomputed on every call (`Memo.CachedNoneRecomputes`).

## Model

| member | source | states |
|---|---|---|
| `Caching.Cache.constructor` | dojang/cache.py:12-13 | A new store is empty. |
| `Caching.Cache.FlushAll` | dojang/cache.py:66-67 | The table becomes empty. |
| `Caching.Cache.Set` | dojang/cache.py:69-75 | Returns the value. Writes `(val, now, max(time, 0))` under `str(key)`. Every other key is unchanged. |
| `Caching.Cache.Get` | dojang/cache.py:77-86 | Returns the value of a live entry, else None. An expired entry under that key is deleted, and nothing else changes. |
| `Caching.Cache.Add` | dojang/cache.py:88-92 | A key absent from the table is `set`. A present key, expired or not, is only read with `get`. |
| `Caching.Cache.Delete` | dojang/cache.py:94-98 | The table loses exactly `str(key)`. |
| `Caching.Cache.Incr` | dojang/cache.py:100-116 | Missing or expired key: returns None and the key is gone. Live key: the value is coerced (`int(s)` for a string, with ValueError; TypeError for a non-number), the sum is returned and stored with TTL 0 at `now`. |
| `Caching.Cache.Decr` | dojang/cache.py:118-119 | Behaves exactly as `incr` with `-delta`. |
| `Caching.Cache.SetMulti` | dojang/cache.py:121-125 | Returns True. The table is the fold of `set(prefix + str(k), v, time)` over the items in iteration order. |
| `Caching.Cache.GetMulti` | dojang/cache.py:127-134 | Returns the keys whose prefixed entry is live and truthy, each with its value. Expired entries among the probed keys are swept. |
| `Caching.Cache.DeleteMulti` | dojang/cache.py:136-140 | The table loses exactly the prefixed keys. |
| `Caching.GetAfterSet` | dojang/cache.py:69-86 | After `set(k, v, time)`, `get(k)` answers `v` while the entry is live, and a TTL of 0 or less never expires. After `time > 0` seconds it answers None and the entry is deleted. |
| `Caching.ExpiredStaysGone` | dojang/cache.py:100-109 | After `get` has swept an expired key, `incr`/`decr` on it report None and create no entry. |
| `Caching.AddIsSetOrGet` | dojang/cache.py:88-92 | `add` on an absent key is `set`. On a present key it is `get`. On a present but expired key it answers None and leaves the key absent. |
| `Caching.AddTwice` | dojang/cache.py:88-92 | The first writer wins: a second `add` within the TTL returns the first value and changes nothing. |
| `Caching.DeleteIdempotent` | dojang/cache.py:94-98 | Deleting twice is deleting once. Every other key keeps its entry. |
| `Caching.IncrAbsent` | dojang/cache.py:100-109 | `incr` on a missing or expired key returns None and leaves no entry for it. |
| `Caching.IncrLive` | dojang/cache.py:106-116 | `incr` on a live entry whose coerced value plus delta is `sum` returns `sum` and stores it with TTL 0. Every later `get` sees it. |
| `Caching.IncrStoredDecimal` | dojang/cache.py:100-116 | After `set(k, str(n), time)`, `incr(k, d)` within the TTL returns `n + d`. The entry becomes `(n + d, now, 0)`, which never expires. |
| `Caching.BumpDecimal` | dojang/cache.py:111-114 | `int(str(n)) + delta == n + delta`. |
| `Caching.DecrLiveInt` | dojang/cache.py:118-119 | `decr(k, d)` on a live int `n` returns and stores `n - d`. |
| `Caching.StoreAllAt` | dojang/cache.py:121-125 | With distinct `str()` keys, each item sits under its prefixed key with the batch's clock and TTL. |
| `Caching.StoreAllOther` | dojang/cache.py:121-125 | Keys outside the batch keep their entries through `set_multi`. |
| `Caching.SetMultiThenGetMulti` | dojang/cache.py:121-134 | While the batch is live, `get_multi` of the same keys returns exactly the truthy items with their values. Once it has expired, it returns `{}`. |
| `Memo.Cached` | dojang/cache.py:156-168 | Derives `prefix` or `prefix:a1-a2`. On a stored value that is not None, returns it without calling the method. Otherwise it calls the method, stores the result with the decorator's time, and returns it. |
| `Memo.CachedClear` | dojang/cache.py:170-171 | Deletes exactly that key. |
| `Memo.Autocached` | dojang/cache.py:181-199 | Derives `prefix` or `prefix` + `a1-a2` (no colon). On a miss it stores the pickled result. On a hit it returns the unpickled value (UnpicklingError or TypeError when the stored value is not a pickle). |
| `Memo.AutocachedClear` | dojang/cache.py:201-203 | Deletes exactly that key. |
| `Memo.KeyDerivations` | dojang/cache.py:156-186 | Both decorators use the bare prefix without arguments. With arguments, the `cached` key is the `autocached` key under `prefix + ':'`. |
| `Memo.CachedMemoizes` | dojang/cache.py:156-168 | After a call computed a non-None result, a second call within the TTL returns it without calling the method and leaves the store unchanged. |
| `Memo.CachedNoneRecomputes` | dojang/cache.py:163-166 | A result of None reads back as a miss, so every later call runs the method again. |
| `Memo.ClearedRecomputes` | dojang/cache.py:170-171 | After `cached_clear` of the derived key, the next call runs the method. |
| `Memo.AutocachedMemoizes` | dojang/cache.py:181-198 | After a computing call, a call within the TTL returns the same result (None included) from the pickle without running the method. |
| `Memo.JoinArgsInjective` | dojang/cache.py:160 | `'-'.join(map(str, args))` is injective on non-empty lists of non-negative ints. |
| `Memo.CachedKeyInjective` | dojang/cache.py:159-162 | Under one prefix, distinct lists of non-negative int arguments get distinct `cached` keys. |
| `Memo.StringArgsCollide` | dojang/cache.py:160 | String arguments containing `-` collide with longer argument lists (`("a-b",)` and `("a", "b")`). |
| `Memo.AutocachedPrefixesCollide` | dojang/cache.py:184-186 | Without the colon, `user` with `12` and `user1` with `2` share a key. |
| `Pickle.LoadsDumps` | dojang/cache.py:192-197 | `loads(dumps(v)) == v` for every value, nested tuples, lists and dicts included. |
| `Pickle.DumpsNonEmpty` | dojang/cache.py:256-258 | A pickle is a non-empty string, so the `if d:` test of `get_cache_list` never skips a stored row. |
| `Decimal.ParseIntRoundTrip` | dojang/cache.py:111-112 | `int(str(i)) == i` for every int. |
| `Decimal.SpaceAfterSign` | dojang/cache.py:111-112 | Python 2's `int()` accepts whitespace between the sign and the digits: `int("- 5") == -5` and `int("+ 7") == 7`. |
| `Decimal.IntToStrInjective` | dojang/cache.py:123 | Distinct ints print differently, so `prefix + str(id)` keys never collide. |
| `Loaders.ReadHits` | dojang/cache.py:224-226 | `get_multi` over the id set under a prefix answers exactly the live, truthy entries, keyed by id. It sweeps expired keys among them. |
| `Loaders.FetchRows` | dojang/cache.py:228-230 | `dct[item.id] = item` over the rows of the data source, a later row winning on an equal id. |
| `Loaders.WriteBack` | dojang/cache.py:232 | `set_multi` of the fetched dict writes each row under `prefix + str(id)` with the batch TTL. Every other key is unchanged, whatever the iteration order. |
| `Loaders.StoreAllWroteBack` | dojang/cache.py:121-125 | `set_multi` of an int-keyed dict in any iteration order writes back exactly that dict. |
| `Loaders.LoadThroughCache` | dojang/cache.py:222-235 | Empty ids: returns `{}`, queries nothing, leaves the store. Otherwise returns hits plus fetched rows, queries the data source only for the misses (not at all when there are none), and writes the fetched rows back. |
| `Loaders.GetSimpleCacheList` | dojang/cache.py:219-235 | The loader with `simple_cache` for the unbound `cache`. It reads under `site_prefix + key_prefix` and, as written, writes back under `key_prefix`. A None `site_prefix` falls back to the configured default. |
| `Loaders.GetSimpleCacheListNamespaced` | dojang/cache.py:219-235 | The same loader writing back under the prefix it reads. |
| `Loaders.SimpleCacheListAsWritten` | dojang/cache.py:222-225 | As written, every call with ids raises NameError. Only the empty list returns `{}`. |
| `Loaders.CacheListOnFallback` | dojang/cache.py:241-251 | With the in-process `_Cache` as `complex_cache`, which has no `hmget`, every call with ids raises AttributeError. Only the empty list returns `{}`. |
| `Loaders.SimpleQueryOnlyMisses` | dojang/cache.py:224-229 | The data source is asked only for requested ids the store did not answer. When it is not asked, every id was a hit. |
| `Loaders.SimpleResultShape` | dojang/cache.py:222-235 | With rows that carry only asked-for ids, the answer holds only requested ids and keeps each hit's cached value. Every value is truthy. |
| `Loaders.FetchedWithin` | dojang/cache.py:228-230 | The fetched map's ids are among the misses and its values are rows. |
| `Loaders.SecondReadAt` | dojang/cache.py:225-233 | After a namespaced load, reading one requested id again within the TTL gives what the load answered for it. |
| `Loaders.SecondReadAll` | dojang/cache.py:225-233 | After a namespaced load, the store's hits for the requested ids are the load's hits plus the fetched rows. |
| `Loaders.SecondCallServedFromCache` | dojang/cache.py:219-235 | The cache-aside promise: a second namespaced call within the TTL finds exactly the first call's answer in the store, and misses only the ids it lacked. |
| `Loaders.SecondCallNoQuery` | dojang/cache.py:224-229 | When the first namespaced call answered every id, the second neither queries the data source nor changes the answer. |
| `Loaders.WriteBackMissedByNextRead` | dojang/cache.py:225-232 | As written, with site prefix `site:`, the call after a load asks the data source for the same id again. |
| `Loaders.HashStore.HmGet` | dojang/cache.py:251 | `hmget` answers each field's value, or None where the hash lacks it. |
| `Loaders.HashStore.HmSet` | dojang/cache.py:272 | `hmset` merges a non-empty mapping into the named hash, leaving other hashes unchanged. An empty mapping raises DataError, as redis-py does, and changes nothing. |
| `Loaders.FieldsFor` | dojang/cache.py:243-247 | The `str(id)` fields, in id order. |
| `Loaders.DecodeAll` | dojang/cache.py:250-261 | The decoding loop skips falsy answers, unpickles the rest and files them by `.id`. It stops at the first UnpicklingError, or AttributeError for a non-row. |
| `Loaders.PickleRows` | dojang/cache.py:265-271 | The fetch loop pickles each row under `str(id)` and adds each row to the answer. |
| `Loaders.GetCacheList` | dojang/cache.py:237-274 | Result, data-source query and hashes afterwards are those of `CacheListRun`, which the lemmas below characterise. |
| `Loaders.ConsistentDecode` | dojang/cache.py:250-261 | On a hash that only this loader wrote, decoding cannot raise. It collects exactly the stored rows of the requested ids and their fields. |
| `Loaders.MissingIsAbsent` | dojang/cache.py:263 | `missing` is the set of requested fields the hash lacks. |
| `Loaders.DumpedRowStored` | dojang/cache.py:270 | A pickled row is stored under its `str(id)` and unpickles to the row. |
| `Loaders.PickledRowMap` | dojang/cache.py:267-271 | The pickled mapping holds, under each fetched `str(id)`, the pickle of the row the answer holds for that id, and nothing else. |
| `Loaders.StoredAfterLoad` | dojang/cache.py:265-272 | The write-back keeps the hash consistent. The hash then holds the stored rows plus the fetched ones, all for requested ids. |
| `Loaders.RunOnConsistent` | dojang/cache.py:237-274 | One call on a consistent hash queries exactly the absent fields (nothing when there are none). It raises if and only if the data source returns no row for them: DataError at `hmset`, and the hashes are unchanged. Otherwise the hash afterwards holds exactly the answer. |
| `Loaders.PickledEmpty` | dojang/cache.py:266-272 | The mapping passed to `hmset` is empty exactly when the data source returned no row. |
| `Loaders.RunFullyStored` | dojang/cache.py:241-274 | When the hash holds every requested id, the call answers from it alone and changes nothing. |
| `Loaders.CacheListSecondCall` | dojang/cache.py:237-274 | A first call succeeds exactly when the data source answers. When it succeeded and answered every id, a second call returns the same map without asking any data source. |
| `App.Rebase` | dojang/app.py:140-159 | A tuple longer than three fails the assertion. A tuple becomes `URLSpec(prefix + pattern, resolved handler, spec[2] or {})`. A `URLSpec` keeps class, kwargs and name under the prefixed pattern. Anything else passes through. |
| `App.RebaseAllSpec` | dojang/app.py:136-159 | The loop fails exactly when some spec is malformed. Otherwise it keeps count and order and rebases each spec. |
| `App.PathJoin` | dojang/app.py:28-29 | `os.path.join`: an absolute second part wins. Otherwise the result starts with the first part and ends with the second. |
| `App.UrlPrefixSegments` | dojang/app.py:124-130 | The prefix is `/query_prefix` only with a version, then `/version`, then `/name` when non-empty. It is empty exactly when there is no version and no name. |
| `App.Anchor` | dojang/app.py:108-110 | A non-empty host pattern ends with `$` afterwards. None and `""` are passed on. |
| `App.ApiQueryPrefix` | dojang/app.py:111-114 | The query prefix is `"api"` exactly when the host pattern is None. |
| `App.InitialTemplatePath` | dojang/app.py:63-68 | Absent gives `[]`, a string gives a one-element list, and another value is popped and dropped. |
| `App.WithUiModules` | dojang/app.py:78-83 | Creates `ui_modules` if absent and merges a truthy argument into it, the argument winning. The other settings are unchanged. |
| `App.AddHandlersShape` | dojang/app.py:136-165 | With a host pattern, appends exactly one group holding the rebased specs in order and leaves `handlers`. Without one, appends every rebased spec to `handlers` in order. A malformed spec changes nothing. |
| `App.RegisterOnce` | dojang/app.py:120-134 | A repeated registration changes nothing. A first one with no handler list raises TypeError. A first one with a template path appends it to `template_path`, or raises KeyError when the constructor dropped it. |
| `App.DojangApp.constructor` | dojang/app.py:18-31 | Keeps its arguments. `template_path` is `os.path.join(root, folder)` for a truthy folder, else None. The registration flag is set. |
| `App.DojangApp.AddHandler` | dojang/app.py:33-37 | A None list becomes `[handler]`. Otherwise the handler goes at the end with earlier entries kept. Nothing else changes. |
| `App.DojangApp.FirstRegister` | dojang/app.py:39-44 | Returns True on the first call and False on every later one. Nothing else changes. |
| `App.DojangApplication.constructor` | dojang/app.py:49-70 | A falsy handler list becomes `[]`, with no host groups. `template_path` is normalised as `InitialTemplatePath`. |
| `App.DojangApplication.AddHandler` | dojang/app.py:72-76 | Appends one spec at the end. Nothing else changes. |
| `App.DojangApplication.AddUiModule` | dojang/app.py:78-83 | Settings become `WithUiModules` of the old settings. |
| `App.DojangApplication.RegisterFilter` | dojang/app.py:85-89 | Adds or overwrites exactly one filter, creating the dict if absent. Every other setting is unchanged. |
| `App.DojangApplication.RegisterContext` | dojang/app.py:91-105 | Adds or overwrites exactly one template global, creating the dict if absent. Every other setting is unchanged. |
| `App.DojangApplication.AddHandlers` | dojang/app.py:136-165 | The outcome and the new registry are `AddHandlersSpec`, characterised by `AddHandlersShape`. |
| `App.DojangApplication.RegisterAppHandlers` | dojang/app.py:120-134 | The outcome and new registry are `RegisterSpec` under the `UrlPrefix` of the app. The app's flag is cleared, and the app is otherwise unchanged. |
| `App.DojangApplication.RegisterApi` | dojang/app.py:107-115 | Registers with the anchored host pattern, and with the `api` query prefix only when no host pattern is given. |
| `App.DojangApplication.RegisterApp` | dojang/app.py:117-118 | Registers with no host pattern and no query prefix. |
| `Web.Lower` | web.py:20 | `str.lower`, character by character, length kept. |
| `Web.LowerIdempotent` | web.py:97-101 | Lowering an already lowered user agent changes nothing. |
| `Web.ContainsSpec` | web.py:20 | `sub in s` holds exactly when some window of `s` equals `sub`. |
| `Web.IgnoreAnySpec` | web.py:19-21 | The ignore loop is True exactly when some non-empty entry, lowered, occurs in the user agent. |
| `Web.IgnoreUserAgentSpec` | web.py:16-22 | `ignore_user_agent` is False for None and `""`. Otherwise it is True exactly when some non-empty ignore entry, lowered, occurs in the lowered user agent. |
| `Web.SearchAnySpec` | web.py:98-102 | The search loop is True exactly when some search string occurs and the user agent is not ignored. |
| `Web.IsMobileSpec` | web.py:94-104 | `is_mobile` is True exactly when there is a User-Agent header, some search string occurs in its lowered form, and `ignore_user_agent` of it is False. |
| `Web.Appended` | web.py:80-85 | Flashing adds the pair at the end of a stored list with the earlier pairs kept. A non-list starts a new one-element list. |
| `Web.FlashMessage` | web.py:44-87 | Return value or exception and new cache are `FlashSpec`. |
| `Web.FilterPairsSpec` | web.py:63-66 | `get_category_message` keeps exactly the pairs of that category, as `(cat, msg)` tuples, and fails exactly when an element does not unpack into two. |
| `Web.FilterPairsAppend` | web.py:63-66 | Filtering distributes over concatenation, keeping order. |
| `Web.FlashThenRead` | web.py:69-87 | Flashing returns the pair. A plain read within 600 s returns the earlier list plus the pair and deletes the key, so an immediate second read returns `[]`. |
| `Web.FlashThenCategory` | web.py:63-87 | A category read returns the earlier matches plus the new pair, in stored order, and does not delete the key. Another category's read returns only its earlier matches. |
| `Escape.ReplaceChar` | dojang/escape.py:11 | `str.replace` of one character: the character is gone unless the replacement contains it, no other character appears, and a string without it is unchanged. |
| `Escape.SimpleEscape` | dojang/escape.py:9-14 | None and `""` give `""`. The output contains no `<` and no `>`. |
| `Escape.SimpleEscapeEach` | dojang/escape.py:11 | Each `<` becomes `&lt;` and each `>` becomes `&gt;`. Every other character is kept in order. |
| `Escape.SimpleEscapeUnchanged` | dojang/escape.py:11 | A string without angle brackets comes back unchanged. |
| `Escape.SimpleEscapeIdempotent` | dojang/escape.py:9-14 | Escaping twice is escaping once. |
| `Escape.BrEscape` | dojang/escape.py:16-21 | None and `""` give `""`. The output has no newline, and a string without newlines is unchanged. |
| `Escape.BrEscapeEach` | dojang/escape.py:18 | Each newline becomes `<br/>`. Every other character is kept in order. |
| `Escape.HtmlEscape` | dojang/escape.py:4-7 | None for None or `""`. Otherwise it is what `xhtml_escape` returns. |

## Left out

- `_Cache.create_memcache` / `create_redis` (dojang/cache.py:15-63): backend selection from configuration and dynamic imports of pylibmc, memcache and redis. `simple_cache` and `complex_cache` are passed in as objects.
- The program has one `complex_cache` (dojang/cache.py:144). Without redis options it is a `_Cache` (dojang/cache.py:60-63), and with them a redis client. The model covers each configuration separately:
  - `Memo.Autocached` runs against the `_Cache` model. Under redis, `get` and `set` follow the server's own expiry, which is not modelled.
  - `Loaders.GetCacheList` runs against `HashStore`, which stands for the redis hashes. Under the `_Cache` fallback, the call raises AttributeError at `hmget` (dojang/cache.py:251), as `Loaders.CacheListOnFallback` states.
  - The model never runs the two against one shared object.
- `complex_cache_del` (dojang/cache.py:210-217): it relies on redis `keys(pattern)` glob matching. Deleting a list of keys is `Cache.DeleteMulti`.
- Time is an integer `now` parameter, not the float `sys_time()`. Expiry compares `now > begin + seconds` exactly as the code does.
- `Values.Value` has no float, set or unicode string. Ints are unbounded, so Python 2's `int` and `long` are both `Int`. A float stored value is therefore outside `Caching.Cache.Incr`, although `value + delta` (dojang/cache.py:114) would accept it. Float results of decorated methods are not covered by `Pickle.LoadsDumps` either. A `Dict` lists its items without requiring distinct keys.
- `str()` of values (`Values.Show`) is this model's own rendering. It is exact for ints and strings, which is what keys are built from. `bool` and `int` are distinct values here, while Python treats `True == 1`.
- The pickle byte format is this model's own encoding. Only `loads(dumps(v)) == v` and non-emptiness are relied on.
- Concurrency: the duplicate-computation race of `cached`/`autocached` under cooperative scheduling is not modelled. Calls are sequential.
- `print` in `first_register` and `ignore_user_agent`, and `logging.debug`, are output only.
- `import_object` of a string app in `_register_app_handlers` is not modelled. Apps are objects. A dotted handler path resolves to the class named by that path.
- The `'$'` anchoring tornado adds inside `URLSpec` is not modelled. A rebased pattern is the prefix followed by the original pattern text.
- `Web.Lower` lowers ASCII letters only. The user agent and the ignore list are Python 2 byte strings, whose `lower()` in the C locale also changes ASCII letters only. Unicode user agents are not modelled.
- `Web.FilterPairsSpec`: `get_category_message` is a generator, so an element that does not unpack raises while the caller iterates. The model raises when the filter is applied.
- `Loaders.GetCacheList`: the unused `time` and `site_prefix` parameters are dropped.
- `App.Rebase`: a tuple spec shorter than two elements cannot be represented, so the assertion's lower bound is not modelled.
- `Caching.Cache.Incr`: the sum is written with `set(key, value)`, so the TTL becomes 0 and the clock is refreshed. This follows the code.
- `Escape.HtmlEscape`: tornado's `xhtml_escape` is a function parameter.
- The data source of both loaders is a function from the set of asked ids to rows. Properties that rely on it returning only asked-for ids say so in their `requires`.
- `DojangApplication.__call__` (dojang/app.py:171-190) builds tornado applications and is not part of this model. `_add_ui_modules` (dojang/app.py:168-169) is the `AddUiModule` call inside `RegisterAppHandlers`.
- List aliasing: both constructors keep the caller's `handlers` list (dojang/app.py:22, 54), and `add_handler` appends to it in place (dojang/app.py:37, 76), so the caller's list grows too. The model's handler lists are values, and a caller's copy does not change.
- `Web.IsMobileSpec`: request headers are a `map<string, string>` with the header names already normalised. tornado's `HTTPHeaders` finds `User-Agent` under any casing of the name (web.py:93-94), and the model looks up that exact key.
- `App.WithUiModules`: `ui_modules` is a dict of names to modules. tornado also accepts a module or a list, and `update` with those at dojang/app.py:83 is not modelled.
- `options.mobile_ua_ignores`, `options.site_cache_prefix` and `search_ua_strings` are configuration, passed in as parameters.
- `App.DojangApplication.constructor`: only `template_path`, `ui_modules`, `__dojang_filters__` and `__dojang_global__` are modelled. The other settings and attributes (`default_host`, `transforms`, `wsgi`, `named_handlers`) are not read by registration.

## Findings

| source | as written | input that shows it | evidently intended | confidence | as-written member | corrected member |
|---|---|---|---|---|---|---|
| dojang/cache.py:225 | `get_simple_cache_list` calls `cache.get_multi`, but the module never binds `cache` | any non-empty `id_list` raises NameError | `simple_cache.get_multi` / `simple_cache.set_multi` | high, not executed | `Loaders.SimpleCacheListAsWritten` | `Loaders.GetSimpleCacheList` |
| dojang/cache.py:232 | the write-back uses `key_prefix`, while the read at line 225 uses `site_prefix + key_prefix` | `site_prefix = "site:"`, `key_prefix = "user:"`, empty store, ids `[1]`: the row is stored under `user:1`, and the next call reads `site:user:1`, misses, and queries again | write back under `site_prefix + key_prefix` | medium, not executed | `Loaders.WriteBackMissedByNextRead` | `Loaders.SecondCallServedFromCache` |
