/**
 * Application and handler registration of dojang/app.py: a `DojangApp`
 * bundles handlers, UI modules and a template folder under a name and an
 * optional version; a `DojangApplication` collects the handlers of the apps
 * registered with it, each under a URL prefix built from `/api`, the version
 * and the name, either into its own handler list or as one host-specific
 * group.
 */
module App {
  import opened Base

  /** A Python object the registry stores but never inspects: a handler class, a UI module, a filter, a value. */
  datatype Obj = Obj(name: string)

  /** The handler slot of a tuple spec: a class, or a dotted path that `import_object` resolves. */
  datatype Handler = HandlerClass(cls: Obj) | HandlerPath(path: string)

  /** `import_object(path)`: the class found at the dotted path, named by that path. */
  function Resolve(h: Handler): Obj {
    match h
    case HandlerClass(c) => c
    case HandlerPath(p) => Obj(p)
  }

  type Kwargs = map<string, Obj>

  /**
   * One entry of a handler list: a tuple `(pattern, handler[, kwargs, ...])`
   * whose length is `2 + |extra|`, a tornado `URLSpec`, or anything else,
   * which the registry passes through.
   */
  datatype Spec =
    | TupleSpec(pattern: string, handler: Handler, extra: seq<Kwargs>)
    | UrlSpec(pattern: string, cls: Obj, kwargs: Kwargs, name: Option<string>)
    | OtherSpec(obj: Obj)

  /** Python truthiness of an optional string. */
  predicate Truthy(s: Option<string>) {
    s.Some? && s.value != ""
  }

  /** One iteration of `_add_handlers`: the spec re-created as a `URLSpec` under the prefix. */
  function Rebase(spec: Spec, prefix: string): (r: Result<Spec>)
    ensures r.Failure? <==> spec.TupleSpec? && |spec.extra| > 1
    ensures r.Failure? ==> r.error == AssertionError
    ensures r.Success? && spec.OtherSpec? ==> r.value == spec
    ensures r.Success? && !spec.OtherSpec? ==> r.value.UrlSpec? && r.value.pattern == prefix + spec.pattern
    ensures r.Success? && spec.UrlSpec? ==> r.value.cls == spec.cls && r.value.kwargs == spec.kwargs && r.value.name == spec.name
    ensures r.Success? && spec.TupleSpec? ==>
      && r.value.cls == Resolve(spec.handler)
      && r.value.kwargs == (if |spec.extra| == 1 then spec.extra[0] else map[])
      && r.value.name == None
  {
    match spec
    case TupleSpec(pattern, handler, extra) =>
      if |extra| > 1 then Failure(AssertionError)
      else Success(UrlSpec(prefix + pattern, Resolve(handler), if |extra| == 1 then extra[0] else map[], None))
    case UrlSpec(pattern, cls, kwargs, name) => Success(UrlSpec(prefix + pattern, cls, kwargs, name))
    case OtherSpec(_) => Success(spec)
  }

  /** The loop of `_add_handlers`: every spec rebased in order, or the first assertion failure. */
  function RebaseAll(specs: seq<Spec>, prefix: string): Result<seq<Spec>> {
    if specs == [] then Success([])
    else match RebaseAll(specs[..|specs| - 1], prefix)
      case Failure(e) => Failure(e)
      case Success(hs) =>
        match Rebase(specs[|specs| - 1], prefix)
        case Failure(e) => Failure(e)
        case Success(h) => Success(hs + [h])
  }

  /** A spec the assertion of `_add_handlers` rejects: a tuple longer than three. */
  predicate Malformed(spec: Spec) {
    spec.TupleSpec? && |spec.extra| > 1
  }

  /**
   * `_add_handlers` fails exactly when some spec is malformed; otherwise it
   * keeps the order and count of the specs and rebases each one.
   */
  lemma {:induction false} RebaseAllSpec(specs: seq<Spec>, prefix: string)
    ensures RebaseAll(specs, prefix).Failure? <==> exists i :: 0 <= i < |specs| && Malformed(specs[i])
    ensures RebaseAll(specs, prefix).Failure? ==> RebaseAll(specs, prefix).error == AssertionError
    ensures RebaseAll(specs, prefix).Success? ==>
      var hs := RebaseAll(specs, prefix).value;
      |hs| == |specs| && forall i :: 0 <= i < |specs| ==> hs[i] == Rebase(specs[i], prefix).value
  {
    if specs != [] {
      var n := |specs| - 1;
      var init := specs[..n];
      RebaseAllSpec(init, prefix);
      assert forall i :: 0 <= i < n ==> init[i] == specs[i];
      if RebaseAll(init, prefix).Failure? {
        var i :| 0 <= i < n && Malformed(init[i]);
        assert Malformed(specs[i]);
      } else if Malformed(specs[n]) {
      } else {
        assert forall i :: 0 <= i < n ==> !Malformed(specs[i]);
      }
    }
  }

  /** An assertion failure ends the loop: the later specs do not matter. */
  lemma {:induction false} RebaseAllFailed(specs: seq<Spec>, n: nat, prefix: string, e: Exc)
    requires n <= |specs| && RebaseAll(specs[..n], prefix) == Failure(e)
    ensures RebaseAll(specs, prefix) == Failure(e)
    decreases |specs| - n
  {
    if n < |specs| {
      assert specs[..n + 1][..n] == specs[..n];
      RebaseAllFailed(specs, n + 1, prefix, e);
    } else {
      assert specs[..n] == specs;
    }
  }

  /** `os.path.join(a, b)` for two components, as posixpath does it. */
  function PathJoin(a: string, b: string): (r: string)
    ensures |r| >= |b| && r[|r| - |b|..] == b
    ensures b != [] && b[0] == '/' ==> r == b
    ensures !(b != [] && b[0] == '/') ==> |r| >= |a| && r[..|a|] == a
  {
    if b != [] && b[0] == '/' then b
    else if a == [] || a[|a| - 1] == '/' then a + b
    else a + "/" + b
  }

  /** The URL prefix `_register_app_handlers` builds for an app. */
  function UrlPrefix(version: Option<string>, queryPrefix: Option<string>, name: string): string {
    (if Truthy(version) then (if Truthy(queryPrefix) then "/" + queryPrefix.value else "") + "/" + version.value else "")
    + (if name != "" then "/" + name else "")
  }

  /** A path made of segments, each introduced by `/`. */
  function Segments(parts: seq<string>): (r: string)
    ensures parts == [] <==> r == []
    ensures r != [] ==> r[0] == '/'
  {
    if parts == [] then "" else "/" + parts[0] + Segments(parts[1..])
  }

  lemma {:induction false} SegmentsAppend(a: seq<string>, b: seq<string>)
    ensures Segments(a + b) == Segments(a) + Segments(b)
  {
    if a != [] {
      assert (a + b)[1..] == a[1..] + b;
      SegmentsAppend(a[1..], b);
    } else {
      assert a + b == b;
    }
  }

  /**
   * The URL prefix is the path of the segments: the query prefix only with a
   * version, then the version, then a non-empty name.
   */
  lemma UrlPrefixSegments(version: Option<string>, queryPrefix: Option<string>, name: string)
    ensures UrlPrefix(version, queryPrefix, name) ==
      Segments((if Truthy(version) && Truthy(queryPrefix) then [queryPrefix.value] else [])
               + (if Truthy(version) then [version.value] else [])
               + (if name != "" then [name] else []))
    ensures UrlPrefix(version, queryPrefix, name) == "" <==> !Truthy(version) && name == ""
  {
    var n: seq<string> := if name != "" then [name] else [];
    var ns := if name != "" then "/" + name else "";
    SegmentsOptional(name != "", name);
    if !Truthy(version) {
      assert UrlPrefix(version, queryPrefix, name) == ns;
      assert [] + [] + n == n;
    } else if Truthy(queryPrefix) {
      SegmentsPrefixed([queryPrefix.value, version.value], n, ns);
      assert UrlPrefix(version, queryPrefix, name) == "/" + queryPrefix.value + "/" + version.value + ns;
      assert [queryPrefix.value] + [version.value] + n == [queryPrefix.value, version.value] + n;
    } else {
      SegmentsPrefixed([version.value], n, ns);
      assert UrlPrefix(version, queryPrefix, name) == "/" + version.value + ns;
      assert [] + [version.value] + n == [version.value] + n;
    }
  }

  lemma SegmentsOptional(present: bool, x: string)
    ensures Segments(if present then [x] else []) == (if present then "/" + x else "")
  {
    if present {
      SegmentsOne(x);
    }
  }

  /** One or two leading segments before a tail. */
  lemma SegmentsPrefixed(lead: seq<string>, n: seq<string>, ns: string)
    requires 1 <= |lead| <= 2 && Segments(n) == ns
    ensures Segments(lead + n) == (if |lead| == 1 then "/" + lead[0] + ns else "/" + lead[0] + "/" + lead[1] + ns)
    ensures Segments(lead + n) != ""
  {
    SegmentsAppend(lead, n);
    if |lead| == 1 {
      SegmentsOne(lead[0]);
    } else {
      assert lead == [lead[0]] + [lead[1]];
      SegmentsAppend([lead[0]], [lead[1]]);
      SegmentsOne(lead[0]);
      SegmentsOne(lead[1]);
    }
  }

  lemma SegmentsOne(x: string)
    ensures Segments([x]) == "/" + x
  {
    assert [x][1..] == [];
  }

  /** The host pattern `register_api` passes on: a non-empty one anchored with `$`. */
  function Anchor(hostPattern: Option<string>): (r: Option<string>)
    ensures r.None? <==> hostPattern.None?
    ensures hostPattern == Some("") ==> r == Some("")
    ensures Truthy(hostPattern) ==> r.Some? && r.value != "" && r.value[|r.value| - 1] == '$'
    ensures Truthy(hostPattern) && hostPattern.value[|hostPattern.value| - 1] == '$' ==> r == hostPattern
    ensures Truthy(hostPattern) && hostPattern.value[|hostPattern.value| - 1] != '$' ==> r == Some(hostPattern.value + "$")
  {
    if Truthy(hostPattern) && hostPattern.value[|hostPattern.value| - 1] != '$' then Some(hostPattern.value + "$")
    else hostPattern
  }

  /** The query prefix `register_api` passes on: `"api"` exactly when no host pattern is given. */
  function ApiQueryPrefix(hostPattern: Option<string>): (r: Option<string>)
    ensures r == Some("api") <==> hostPattern.None?
    ensures r.None? <==> hostPattern.Some?
  {
    if hostPattern.None? then Some("api") else None
  }

  /** The `template_path` argument of `DojangApplication`: a string or some other value (a list, say). */
  datatype TemplatePathArg = PathStr(path: string) | PathOther(paths: seq<string>)

  /**
   * `settings['template_path']` after the constructor: absent becomes `[]`,
   * a string a one-element list, and any other value is popped and not put back.
   */
  function InitialTemplatePath(arg: Option<TemplatePathArg>): (r: Option<seq<string>>)
    ensures arg.None? ==> r == Some([])
    ensures arg.Some? && arg.value.PathStr? ==> r == Some([arg.value.path])
    ensures arg.Some? && arg.value.PathOther? ==> r.None?
  {
    match arg
    case None => Some([])
    case Some(PathStr(p)) => Some([p])
    case Some(PathOther(_)) => None
  }

  /** The entries of `settings` the registry reads and writes; None where the key is absent. */
  datatype Settings = Settings(templatePath: Option<seq<string>>, uiModules: Option<map<string, Obj>>,
                               filters: Option<map<string, Obj>>, globals: Option<map<string, Obj>>)

  /** `add_ui_moudle`: create the `ui_modules` dict if absent, then merge a truthy argument into it. */
  function WithUiModules(s: Settings, m: Option<map<string, Obj>>): (r: Settings)
    ensures r.uiModules.Some?
    ensures r.templatePath == s.templatePath && r.filters == s.filters && r.globals == s.globals
    ensures forall k :: k in r.uiModules.value <==> k in s.uiModules.GetOr(map[]) || (m.Some? && k in m.value)
    ensures forall k :: m.Some? && k in m.value ==> r.uiModules.value[k] == m.value[k]
    ensures forall k :: k in s.uiModules.GetOr(map[]) && !(m.Some? && k in m.value) ==> r.uiModules.value[k] == s.uiModules.value[k]
  {
    var current := s.uiModules.GetOr(map[]);
    s.(uiModules := Some(if m.Some? && m.value != map[] then current + m.value else current))
  }

  /** The state of a `DojangApplication` that registration changes. */
  datatype Registry = Registry(handlers: seq<Spec>, subHandlers: seq<(string, seq<Spec>)>, settings: Settings)

  /** What `_add_handlers` raises or returns, and the registry after it. */
  function AddHandlersSpec(reg: Registry, hostPattern: Option<string>, specs: seq<Spec>, prefix: string): (Outcome, Registry) {
    match RebaseAll(specs, prefix)
    case Failure(e) => (Raised(e), reg)
    case Success(hs) =>
      if Truthy(hostPattern) then (Done, reg.(subHandlers := reg.subHandlers + [(hostPattern.value, hs)]))
      else (Done, reg.(handlers := reg.handlers + hs))
  }

  /**
   * With a host pattern, `_add_handlers` appends exactly one group and leaves
   * the handler list alone; without one, it appends every rebased spec, in
   * order, to the handler list.  A malformed spec changes nothing.
   */
  lemma AddHandlersShape(reg: Registry, hostPattern: Option<string>, specs: seq<Spec>, prefix: string)
    ensures var (o, r) := AddHandlersSpec(reg, hostPattern, specs, prefix);
      && (o.Raised? <==> exists i :: 0 <= i < |specs| && Malformed(specs[i]))
      && (o.Raised? ==> r == reg)
      && r.settings == reg.settings
      && (o.Done? && Truthy(hostPattern) ==>
            && r.handlers == reg.handlers
            && |r.subHandlers| == |reg.subHandlers| + 1
            && r.subHandlers[..|reg.subHandlers|] == reg.subHandlers
            && r.subHandlers[|reg.subHandlers|].0 == hostPattern.value
            && |r.subHandlers[|reg.subHandlers|].1| == |specs|
            && forall i :: 0 <= i < |specs| ==> r.subHandlers[|reg.subHandlers|].1[i] == Rebase(specs[i], prefix).value)
      && (o.Done? && !Truthy(hostPattern) ==>
            && r.subHandlers == reg.subHandlers
            && |r.handlers| == |reg.handlers| + |specs|
            && r.handlers[..|reg.handlers|] == reg.handlers
            && forall i :: 0 <= i < |specs| ==> r.handlers[|reg.handlers| + i] == Rebase(specs[i], prefix).value)
  {
    RebaseAllSpec(specs, prefix);
  }

  /** What `_register_app_handlers` raises or returns, and the registry after it. */
  function RegisterSpec(reg: Registry, first: bool, appHandlers: Option<seq<Spec>>, prefix: string,
                        appUi: Option<map<string, Obj>>, appTemplate: Option<string>, hostPattern: Option<string>): (Outcome, Registry)
  {
    if !first then (Done, reg)
    else if appHandlers.None? then (Raised(TypeError), reg)
    else
      var (o, r) := AddHandlersSpec(reg, hostPattern, appHandlers.value, prefix);
      if o.Raised? then (o, r)
      else
        var r2 := r.(settings := WithUiModules(r.settings, appUi));
        if !Truthy(appTemplate) then (Done, r2)
        else if r2.settings.templatePath.None? then (Raised(KeyError), r2)
        else (Done, r2.(settings := r2.settings.(templatePath := Some(r2.settings.templatePath.value + [appTemplate.value]))))
  }

  /**
   * Registration happens once per app: a repeated registration changes
   * nothing; a first one with handlers and a template path appends the path
   * to `template_path`, or raises KeyError when the constructor dropped it.
   */
  lemma RegisterOnce(reg: Registry, appHandlers: Option<seq<Spec>>, prefix: string,
                     appUi: Option<map<string, Obj>>, appTemplate: Option<string>, hostPattern: Option<string>)
    ensures RegisterSpec(reg, false, appHandlers, prefix, appUi, appTemplate, hostPattern) == (Done, reg)
    ensures appHandlers.None? ==> RegisterSpec(reg, true, appHandlers, prefix, appUi, appTemplate, hostPattern) == (Raised(TypeError), reg)
    ensures var (o, r) := RegisterSpec(reg, true, appHandlers, prefix, appUi, appTemplate, hostPattern);
      appHandlers.Some? && RebaseAll(appHandlers.value, prefix).Success? && Truthy(appTemplate) ==>
        && (reg.settings.templatePath.Some? ==> o == Done && r.settings.templatePath == Some(reg.settings.templatePath.value + [appTemplate.value]))
        && (reg.settings.templatePath.None? ==> o == Raised(KeyError))
  {
  }

  /** An app as `DojangApp` holds it: its handler list, UI modules, template path and one-shot flag. */
  class DojangApp {
    var name: string
    var version: Option<string>
    var handlers: Option<seq<Spec>>
    var uiModules: Option<map<string, Obj>>
    var templatePath: Option<string>
    var firstRegisterFlag: bool

    /** `rootPath` is what `get_root_path(import_name)` answers. */
    constructor(name: string, rootPath: string, version: Option<string>, templateFolder: Option<string>,
                handlers: Option<seq<Spec>>, uiModules: Option<map<string, Obj>>)
      ensures this.name == name && this.version == version && this.handlers == handlers && this.uiModules == uiModules
      ensures templatePath == (if Truthy(templateFolder) then Some(PathJoin(rootPath, templateFolder.value)) else None)
      ensures firstRegisterFlag
    {
      this.name := name;
      this.version := version;
      this.handlers := handlers;
      this.uiModules := uiModules;
      templatePath := if Truthy(templateFolder) then Some(PathJoin(rootPath, templateFolder.value)) else None;
      firstRegisterFlag := true;
    }

    /** `add_handler`: a missing list becomes `[handler]`, otherwise the handler goes at the end. */
    method AddHandler(handler: Spec)
      modifies this
      ensures handlers.Some? && handlers.value == old(handlers).GetOr([]) + [handler]
      ensures name == old(name) && version == old(version) && uiModules == old(uiModules)
      ensures templatePath == old(templatePath) && firstRegisterFlag == old(firstRegisterFlag)
    {
      if handlers.None? {
        handlers := Some([handler]);
      } else {
        handlers := Some(handlers.value + [handler]);
      }
    }

    /** `first_register`: True on the first call for this app, False on every later one. */
    method FirstRegister() returns (r: bool)
      modifies this
      ensures r == old(firstRegisterFlag) && !firstRegisterFlag
      ensures name == old(name) && version == old(version) && handlers == old(handlers)
      ensures uiModules == old(uiModules) && templatePath == old(templatePath)
    {
      if !firstRegisterFlag {
        return false;
      }
      firstRegisterFlag := false;
      return true;
    }
  }

  /** The registry of `DojangApplication`: its handler list, host groups and settings. */
  class DojangApplication {
    var handlers: seq<Spec>
    var subHandlers: seq<(string, seq<Spec>)>
    var settings: Settings

    function State(): Registry
      reads this
    {
      Registry(handlers, subHandlers, settings)
    }

    /** The settings other than `template_path` are taken as given, each None when absent. */
    constructor(handlers: Option<seq<Spec>>, templatePath: Option<TemplatePathArg>, uiModules: Option<map<string, Obj>>,
                filters: Option<map<string, Obj>>, globals: Option<map<string, Obj>>)
      ensures this.handlers == handlers.GetOr([]) && subHandlers == []
      ensures settings == Settings(InitialTemplatePath(templatePath), uiModules, filters, globals)
    {
      if handlers.None? || handlers.value == [] {
        this.handlers := [];
      } else {
        this.handlers := handlers.value;
      }
      subHandlers := [];
      var path: Option<seq<string>>;
      if templatePath.Some? {
        if templatePath.value.PathStr? {
          path := Some([templatePath.value.path]);
        } else {
          path := None;
        }
      } else {
        path := Some([]);
      }
      settings := Settings(path, uiModules, filters, globals);
    }

    /** `add_handler`: the spec goes at the end of the handler list. */
    method AddHandler(handler: Spec)
      modifies this
      ensures handlers == old(handlers) + [handler]
      ensures subHandlers == old(subHandlers) && settings == old(settings)
    {
      handlers := handlers + [handler];
    }

    /** `add_ui_moudle`. */
    method AddUiModule(uiModule: Option<map<string, Obj>>)
      modifies this
      ensures settings == WithUiModules(old(settings), uiModule)
      ensures handlers == old(handlers) && subHandlers == old(subHandlers)
    {
      var current := if settings.uiModules.Some? then settings.uiModules.value else map[];
      if uiModule.Some? && uiModule.value != map[] {
        current := current + uiModule.value;
      }
      settings := settings.(uiModules := Some(current));
    }

    /** `register_filter`: adds or overwrites one filter, creating the dict if absent. */
    method RegisterFilter(name: string, func: Obj)
      modifies this
      ensures settings.filters.Some? && settings.filters.value == old(settings).filters.GetOr(map[])[name := func]
      ensures settings == old(settings).(filters := settings.filters)
      ensures handlers == old(handlers) && subHandlers == old(subHandlers)
    {
      var current := if settings.filters.Some? then settings.filters.value else map[];
      settings := settings.(filters := Some(current[name := func]));
    }

    /** `register_context`: adds or overwrites one template global, creating the dict if absent. */
    method RegisterContext(key: string, value: Obj)
      modifies this
      ensures settings.globals.Some? && settings.globals.value == old(settings).globals.GetOr(map[])[key := value]
      ensures settings == old(settings).(globals := settings.globals)
      ensures handlers == old(handlers) && subHandlers == old(subHandlers)
    {
      var current := if settings.globals.Some? then settings.globals.value else map[];
      settings := settings.(globals := Some(current[key := value]));
    }

    /** `_add_handlers`. */
    method AddHandlers(hostPattern: Option<string>, hostHandlers: seq<Spec>, urlPrefix: string) returns (o: Outcome)
      modifies this
      ensures (o, State()) == AddHandlersSpec(old(State()), hostPattern, hostHandlers, urlPrefix)
    {
      var rebased: seq<Spec> := [];
      for i := 0 to |hostHandlers|
        invariant RebaseAll(hostHandlers[..i], urlPrefix) == Success(rebased)
        invariant State() == old(State())
      {
        assert hostHandlers[..i + 1][..i] == hostHandlers[..i];
        var spec := hostHandlers[i];
        match spec {
        case TupleSpec(pattern, handler, extra) =>
          if |extra| > 1 {
            RebaseAllFailed(hostHandlers, i + 1, urlPrefix, AssertionError);
            return Raised(AssertionError);
          }
          var kwargs := if |extra| == 1 then extra[0] else map[];
          spec := UrlSpec(urlPrefix + pattern, Resolve(handler), kwargs, None);
        case UrlSpec(pattern, cls, kwargs, name) =>
          spec := UrlSpec(urlPrefix + pattern, cls, kwargs, name);
        case OtherSpec(_) =>
        }
        rebased := rebased + [spec];
      }
      assert hostHandlers[..|hostHandlers|] == hostHandlers;
      if Truthy(hostPattern) {
        subHandlers := subHandlers + [(hostPattern.value, rebased)];
      } else {
        for j := 0 to |rebased|
          invariant handlers == old(handlers) + rebased[..j]
          invariant subHandlers == old(subHandlers) && settings == old(settings)
        {
          assert rebased[..j + 1] == rebased[..j] + [rebased[j]];
          AddHandler(rebased[j]);
        }
        assert rebased[..|rebased|] == rebased;
      }
      o := Done;
    }

    /** `_register_app_handlers` for an app object. */
    method RegisterAppHandlers(app: DojangApp, hostPattern: Option<string>, queryPrefix: Option<string>) returns (o: Outcome)
      modifies this, app
      ensures (o, State()) == RegisterSpec(old(State()), old(app.firstRegisterFlag), app.handlers,
                                           UrlPrefix(app.version, queryPrefix, app.name), app.uiModules, app.templatePath, hostPattern)
      ensures !app.firstRegisterFlag
      ensures app.name == old(app.name) && app.version == old(app.version) && app.handlers == old(app.handlers)
      ensures app.uiModules == old(app.uiModules) && app.templatePath == old(app.templatePath)
    {
      var first := app.FirstRegister();
      if !first {
        return Done;
      }
      var urlPrefix := UrlPrefix(app.version, queryPrefix, app.name);
      if app.handlers.None? {
        return Raised(TypeError);
      }
      o := AddHandlers(hostPattern, app.handlers.value, urlPrefix);
      if o.Raised? {
        return;
      }
      AddUiModule(app.uiModules);
      if Truthy(app.templatePath) {
        if settings.templatePath.None? {
          return Raised(KeyError);
        }
        settings := settings.(templatePath := Some(settings.templatePath.value + [app.templatePath.value]));
      }
    }

    /** `register_api`: anchors a non-empty host pattern and uses the `api` prefix only without one. */
    method RegisterApi(app: DojangApp, hostPattern: Option<string>) returns (o: Outcome)
      modifies this, app
      ensures (o, State()) == RegisterSpec(old(State()), old(app.firstRegisterFlag), app.handlers,
                                           UrlPrefix(app.version, ApiQueryPrefix(hostPattern), app.name),
                                           app.uiModules, app.templatePath, Anchor(hostPattern))
      ensures !app.firstRegisterFlag
      ensures app.name == old(app.name) && app.version == old(app.version) && app.handlers == old(app.handlers)
      ensures app.uiModules == old(app.uiModules) && app.templatePath == old(app.templatePath)
    {
      var host := hostPattern;
      if Truthy(host) && host.value[|host.value| - 1] != '$' {
        host := Some(host.value + "$");
      }
      var queryPrefix: Option<string> := if hostPattern.None? then Some("api") else None;
      o := RegisterAppHandlers(app, host, queryPrefix);
    }

    /** `register_app`: no host pattern and no query prefix. */
    method RegisterApp(app: DojangApp) returns (o: Outcome)
      modifies this, app
      ensures (o, State()) == RegisterSpec(old(State()), old(app.firstRegisterFlag), app.handlers,
                                           UrlPrefix(app.version, None, app.name), app.uiModules, app.templatePath, None)
      ensures !app.firstRegisterFlag
      ensures app.name == old(app.name) && app.version == old(app.version) && app.handlers == old(app.handlers)
      ensures app.uiModules == old(app.uiModules) && app.templatePath == old(app.templatePath)
    {
      o := RegisterAppHandlers(app, None, None);
    }
  }
}
