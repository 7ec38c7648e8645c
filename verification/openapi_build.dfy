/** The document level of `_build_openapi_schema` (schema_validator/core.py,
    repeated in schema_validator/extension.py): the loop over the URL
    rules and their methods, the `paths` map where a later rule with the
    same normalised path and method overwrites an earlier one, the
    `components.schemas` map every processed schema's definitions are
    merged into, and the fixed frame of the document. The loop is modelled
    in two steps: the operations each rule and method emit, in loop order,
    and the maps assembled from them. The placeholder pattern that
    normalises rule texts is a parameter: `AsWritten` is PATH_RE as
    core.py and extension.py spell it, which can swallow a placeholder,
    and `Intended` keeps every placeholder. Every property below holds
    for both. */
module OpenApiBuild {
  import opened Results
  import opened Models
  import Text
  import PathTemplate
  import Handlers
  import opened OpenApi

  /** The pattern `re.sub(PATH_RE, r"{\1}", rule.rule)` rewrites with. */
  datatype Pattern = AsWritten | Intended

  /** The `paths` key of a rule text. */
  function Normalise(pattern: Pattern, rule: string): string {
    match pattern
    case AsWritten => PathTemplate.Substitute(rule)
    case Intended => PathTemplate.SubstituteIntended(rule)
  }

  /** A URL rule: the rule text with `<converter:name>` placeholders, its
      endpoint, its methods in the order the set iterates, and the names
      of its converters in order. */
  datatype Route = Route(rule: string, endpoint: string, methods: seq<string>, converters: seq<string>)

  /** `app.url_map.iter_rules()` and `app.view_functions`. */
  datatype App = App(routes: seq<Route>, viewFunctions: map<string, Handlers.ViewFunction>)

  /** One assignment `paths[path][method.lower()] = path_object`, with the
      definitions processed for it. */
  datatype Emission = Emission(path: string, key: string, op: Operation, defs: seq<map<string, Json>>)

  datatype Info = Info(title: string, version: string)

  datatype Document = Document(
    openapi: string,
    info: Info,
    schemas: map<string, Json>,
    paths: map<string, map<string, Operation>>,
    tags: seq<Json>,
    servers: seq<Json>)

  /** A method the loop visits on a rule that is not skipped. */
  predicate Active(route: Route, verb: string) {
    route.endpoint !in RESERVED_ENDPOINTS && verb in route.methods && verb !in IGNORE_METHODS
  }

  /** What the loop body gives for one method: an error, nothing (the tag
      filter dropped the method), or the operation and its definitions. */
  type Body = string -> Result<Option<(Operation, seq<map<string, Json>>)>, BuildError>

  /** The loop body for the methods of a rule whose view function is `view`. */
  function BodyOf(cfg: Config, lib: Pydantic, variant: Variant, route: Route, view: Handlers.ViewFunction,
                  expectedTag: Option<string>): Body {
    verb => OperationFor(cfg, lib, variant, route.converters, view, verb, expectedTag)
  }

  /** `e` is the assignment the body makes for `verb` under `path`. */
  predicate LoopEmits(body: Body, path: string, verb: string, e: Emission) {
    body(verb) == Success(Some((e.op, e.defs))) && e.path == path && e.key == Text.Lower(verb)
  }

  /** `rule.methods - IGNORE_METHODS`, in iteration order. */
  function ActiveMethods(methods: seq<string>): (r: seq<string>)
    ensures forall v :: v in r <==> v in methods && v !in IGNORE_METHODS
  {
    if |methods| == 0 then []
    else
      var rest := ActiveMethods(methods[1..]);
      assert forall v :: v in methods <==> v == methods[0] || v in methods[1..];
      if methods[0] in IGNORE_METHODS then rest else [methods[0]] + rest
  }

  /** The method loop of one rule over `verbs`, stopping at the first
      error. */
  function MethodLoop(body: Body, path: string, verbs: seq<string>): Result<seq<Emission>, BuildError>
    decreases |verbs|
  {
    if |verbs| == 0 then Success([])
    else
      var before :- MethodLoop(body, path, verbs[..|verbs| - 1]);
      var verb := verbs[|verbs| - 1];
      var built :- body(verb);
      match built
      case None => Success(before)
      case Some(b) => Success(before + [Emission(path, Text.Lower(verb), b.0, b.1)])
  }

  /** One rule: skipped when its endpoint is reserved, a `KeyError` when it
      has no view function, its methods otherwise. */
  function RouteEmissions(cfg: Config, lib: Pydantic, variant: Variant, pattern: Pattern, app: App, route: Route,
                          expectedTag: Option<string>): Result<seq<Emission>, BuildError>
  {
    if route.endpoint in RESERVED_ENDPOINTS then Success([])
    else if route.endpoint !in app.viewFunctions then Failure(MissingViewFunction(route.endpoint))
    else
      MethodLoop(BodyOf(cfg, lib, variant, route, app.viewFunctions[route.endpoint], expectedTag),
                 Normalise(pattern, route.rule), ActiveMethods(route.methods))
  }

  /** The rule loop over `routes`, stopping at the first error. */
  function RouteLoop(step: Route -> Result<seq<Emission>, BuildError>, routes: seq<Route>): Result<seq<Emission>, BuildError>
    decreases |routes|
  {
    if |routes| == 0 then Success([])
    else
      var before :- RouteLoop(step, routes[..|routes| - 1]);
      var last :- step(routes[|routes| - 1]);
      Success(before + last)
  }

  /** The loop body for the rules of `app`. */
  function StepOf(cfg: Config, lib: Pydantic, variant: Variant, pattern: Pattern, app: App, expectedTag: Option<string>)
    : Route -> Result<seq<Emission>, BuildError>
  {
    route => RouteEmissions(cfg, lib, variant, pattern, app, route, expectedTag)
  }

  function Emissions(cfg: Config, lib: Pydantic, variant: Variant, pattern: Pattern, app: App, routes: seq<Route>,
                     expectedTag: Option<string>): Result<seq<Emission>, BuildError>
  {
    RouteLoop(StepOf(cfg, lib, variant, pattern, app, expectedTag), routes)
  }

  /** `paths.setdefault(path, {})[key] = op` for each emission in order. */
  function AssemblePaths(es: seq<Emission>): map<string, map<string, Operation>>
    decreases |es|
  {
    if |es| == 0 then map[]
    else
      var acc := AssemblePaths(es[..|es| - 1]);
      var e := es[|es| - 1];
      acc[e.path := (if e.path in acc then acc[e.path] else map[])[e.key := e.op]]
  }

  /** Every definitions map the emissions carry, in order. */
  function AllDefinitions(es: seq<Emission>): (ds: seq<map<string, Json>>)
    ensures forall d :: d in ds <==> exists k | 0 <= k < |es| :: d in es[k].defs
    decreases |es|
  {
    if |es| == 0 then []
    else
      var rest := AllDefinitions(es[..|es| - 1]);
      assert forall k | 0 <= k < |es| - 1 :: es[..|es| - 1][k] == es[k];
      rest + es[|es| - 1].defs
  }

  /** `components["schemas"].update(d)` for each `d` in order. */
  function UnionAll(ds: seq<map<string, Json>>): map<string, Json>
    decreases |ds|
  {
    if |ds| == 0 then map[] else UnionAll(ds[..|ds| - 1]) + ds[|ds| - 1]
  }

  /** `_build_openapi_schema(app, extension, expected_tag)`. */
  function Build(cfg: Config, lib: Pydantic, variant: Variant, pattern: Pattern, app: App, expectedTag: Option<string>)
    : (r: Result<Document, BuildError>)
    ensures r.Success? ==>
      && r.value.openapi == "3.0.3"
      && r.value.tags == []
      && r.value.info == Info(cfg.title, cfg.version)
      && r.value.servers == cfg.servers
  {
    var es :- Emissions(cfg, lib, variant, pattern, app, app.routes, expectedTag);
    Success(Document(OPENAPI_VERSION, Info(cfg.title, cfg.version), UnionAll(AllDefinitions(es)),
                     AssemblePaths(es), [], cfg.servers))
  }

  // ---------------------------------------------------------------------
  // The assembled maps

  /** `paths` has a key exactly for the paths some emission names. */
  lemma {:induction false} AssemblePathsKeys(es: seq<Emission>)
    ensures forall p :: p in AssemblePaths(es) <==> exists k | 0 <= k < |es| :: es[k].path == p
    decreases |es|
  {
    if |es| > 0 {
      var front := es[..|es| - 1];
      var e := es[|es| - 1];
      AssemblePathsKeys(front);
      forall p ensures p in AssemblePaths(es) <==> exists k | 0 <= k < |es| :: es[k].path == p {
        if p in AssemblePaths(es) && p != e.path {
          assert p in AssemblePaths(front);
          var k :| 0 <= k < |front| && front[k].path == p;
          assert es[k] == front[k];
        }
        if exists k | 0 <= k < |es| :: es[k].path == p {
          var k :| 0 <= k < |es| && es[k].path == p;
          if k < |front| {
            assert front[k] == es[k];
          }
        }
      }
    }
  }

  /** Under a path, a key exactly for the methods emitted there, holding
      the operation of one of those emissions. */
  lemma {:induction false} AssemblePathsMethods(es: seq<Emission>)
    ensures forall k | 0 <= k < |es| :: es[k].path in AssemblePaths(es) && es[k].key in AssemblePaths(es)[es[k].path]
    ensures forall p, key | p in AssemblePaths(es) && key in AssemblePaths(es)[p] ::
      exists k | 0 <= k < |es| :: es[k].path == p && es[k].key == key && AssemblePaths(es)[p][key] == es[k].op
    decreases |es|
  {
    if |es| > 0 {
      var front := es[..|es| - 1];
      var e := es[|es| - 1];
      AssemblePathsMethods(front);
      var acc := AssemblePaths(front);
      var all := AssemblePaths(es);
      forall k | 0 <= k < |es| ensures es[k].path in all && es[k].key in all[es[k].path] {
        if k < |front| {
          assert front[k] == es[k];
        }
      }
      forall p, key | p in all && key in all[p]
        ensures exists k | 0 <= k < |es| :: es[k].path == p && es[k].key == key && all[p][key] == es[k].op
      {
        if p == e.path && key == e.key {
          assert es[|es| - 1].path == p;
        } else {
          assert p in acc && key in acc[p] && all[p][key] == acc[p][key];
          var k :| 0 <= k < |front| && front[k].path == p && front[k].key == key && acc[p][key] == front[k].op;
          assert es[k] == front[k];
        }
      }
    }
  }

  /** The operation stored for a path and method is that of the last
      emission for them: a later rule overwrites an earlier one. */
  lemma {:induction false} AssemblePathsLastWins(es: seq<Emission>)
    ensures forall k | 0 <= k < |es| && (forall j | k < j < |es| :: !(es[j].path == es[k].path && es[j].key == es[k].key)) ::
      es[k].path in AssemblePaths(es) && es[k].key in AssemblePaths(es)[es[k].path] &&
      AssemblePaths(es)[es[k].path][es[k].key] == es[k].op
    decreases |es|
  {
    if |es| > 0 {
      var front := es[..|es| - 1];
      AssemblePathsLastWins(front);
      forall k | 0 <= k < |es| && (forall j | k < j < |es| :: !(es[j].path == es[k].path && es[j].key == es[k].key))
        ensures es[k].path in AssemblePaths(es) && es[k].key in AssemblePaths(es)[es[k].path] &&
          AssemblePaths(es)[es[k].path][es[k].key] == es[k].op
      {
        if k < |front| {
          assert front[k] == es[k];
          assert forall j | k < j < |front| :: front[j] == es[j];
        }
      }
    }
  }

  /** Emissions appended later win: where the later ones emit for a path
      and method, the assembled operation is theirs. */
  lemma {:induction false} AssemblePathsAppend(es1: seq<Emission>, es2: seq<Emission>)
    ensures forall p, key | p in AssemblePaths(es2) && key in AssemblePaths(es2)[p] ::
      p in AssemblePaths(es1 + es2) && key in AssemblePaths(es1 + es2)[p] &&
      AssemblePaths(es1 + es2)[p][key] == AssemblePaths(es2)[p][key]
    decreases |es2|
  {
    if |es2| > 0 {
      var front := es2[..|es2| - 1];
      assert (es1 + es2)[..|es1 + es2| - 1] == es1 + front;
      assert (es1 + es2)[|es1 + es2| - 1] == es2[|es2| - 1];
      AssemblePathsAppend(es1, front);
    }
  }

  /** A name is in the merged schemas exactly when some definitions map
      has it. */
  lemma {:induction false} UnionAllKeys(ds: seq<map<string, Json>>)
    ensures forall name :: name in UnionAll(ds) <==> exists d | d in ds :: name in d
    decreases |ds|
  {
    if |ds| > 0 {
      var front := ds[..|ds| - 1];
      UnionAllKeys(front);
      assert forall d :: d in ds <==> d in front || d == ds[|ds| - 1];
    }
  }

  /** A merged name keeps the value of the last map that has it: a later
      definition of the same name overwrites an earlier one. */
  lemma {:induction false} UnionAllLastWins(ds: seq<map<string, Json>>)
    ensures forall k, name | 0 <= k < |ds| && name in ds[k] && (forall j | k < j < |ds| :: name !in ds[j]) ::
      name in UnionAll(ds) && UnionAll(ds)[name] == ds[k][name]
    decreases |ds|
  {
    if |ds| > 0 {
      var front := ds[..|ds| - 1];
      UnionAllLastWins(front);
      forall k, name | 0 <= k < |ds| && name in ds[k] && (forall j | k < j < |ds| :: name !in ds[j])
        ensures name in UnionAll(ds) && UnionAll(ds)[name] == ds[k][name]
      {
        if k < |front| {
          assert front[k] == ds[k];
          assert forall j | k < j < |front| :: front[j] == ds[j];
        }
      }
    }
  }

  // ---------------------------------------------------------------------
  // The two loops

  /** The method loop succeeds exactly when the body succeeds for every
      method it visits. */
  lemma {:induction false} MethodLoopSucceeds(body: Body, path: string, verbs: seq<string>)
    ensures MethodLoop(body, path, verbs).Success? <==> forall i | 0 <= i < |verbs| :: body(verbs[i]).Success?
    decreases |verbs|
  {
    if |verbs| > 0 {
      var front := verbs[..|verbs| - 1];
      MethodLoopSucceeds(body, path, front);
      assert forall i | 0 <= i < |front| :: front[i] == verbs[i];
    }
  }

  /** Every emission of the method loop is the body's operation for one of
      the methods it visits. */
  lemma {:induction false} MethodLoopSound(body: Body, path: string, verbs: seq<string>)
    requires MethodLoop(body, path, verbs).Success?
    ensures forall k | 0 <= k < |MethodLoop(body, path, verbs).value| ::
      exists i | 0 <= i < |verbs| :: LoopEmits(body, path, verbs[i], MethodLoop(body, path, verbs).value[k])
    decreases |verbs|
  {
    if |verbs| > 0 {
      var front := verbs[..|verbs| - 1];
      var verb := verbs[|verbs| - 1];
      var before := MethodLoop(body, path, front).value;
      MethodLoopSound(body, path, front);
      var es := MethodLoop(body, path, verbs).value;
      forall k | 0 <= k < |es| ensures exists i | 0 <= i < |verbs| :: LoopEmits(body, path, verbs[i], es[k]) {
        if k < |before| {
          assert es[k] == before[k];
          var i :| 0 <= i < |front| && LoopEmits(body, path, front[i], before[k]);
          assert verbs[i] == front[i];
        } else {
          assert LoopEmits(body, path, verbs[|verbs| - 1], es[k]);
        }
      }
    }
  }

  /** Every method the body builds an operation for is emitted by the
      method loop. */
  lemma {:induction false} MethodLoopComplete(body: Body, path: string, verbs: seq<string>)
    requires MethodLoop(body, path, verbs).Success?
    ensures forall i | 0 <= i < |verbs| && body(verbs[i]).Success? && body(verbs[i]).value.Some? ::
      exists k | 0 <= k < |MethodLoop(body, path, verbs).value| ::
        LoopEmits(body, path, verbs[i], MethodLoop(body, path, verbs).value[k])
    decreases |verbs|
  {
    if |verbs| > 0 {
      var front := verbs[..|verbs| - 1];
      var before := MethodLoop(body, path, front).value;
      MethodLoopComplete(body, path, front);
      var es := MethodLoop(body, path, verbs).value;
      forall i | 0 <= i < |verbs| && body(verbs[i]).Success? && body(verbs[i]).value.Some?
        ensures exists k | 0 <= k < |es| :: LoopEmits(body, path, verbs[i], es[k])
      {
        if i < |front| {
          assert front[i] == verbs[i];
          var k :| 0 <= k < |before| && LoopEmits(body, path, front[i], before[k]);
          assert es[k] == before[k];
        } else {
          assert LoopEmits(body, path, verbs[i], es[|es| - 1]);
        }
      }
    }
  }

  /** Two bodies that agree on the visited methods give the same loop. */
  lemma {:induction false} MethodLoopCongruent(body1: Body, body2: Body, path: string, verbs: seq<string>)
    requires forall i | 0 <= i < |verbs| :: body1(verbs[i]) == body2(verbs[i])
    ensures MethodLoop(body1, path, verbs) == MethodLoop(body2, path, verbs)
    decreases |verbs|
  {
    if |verbs| > 0 {
      var front := verbs[..|verbs| - 1];
      assert forall i | 0 <= i < |front| :: front[i] == verbs[i];
      MethodLoopCongruent(body1, body2, path, front);
    }
  }

  /** The rule loop succeeds exactly when every rule does. */
  lemma {:induction false} RouteLoopSucceeds(step: Route -> Result<seq<Emission>, BuildError>, routes: seq<Route>)
    ensures RouteLoop(step, routes).Success? <==> forall i | 0 <= i < |routes| :: step(routes[i]).Success?
    decreases |routes|
  {
    if |routes| > 0 {
      var front := routes[..|routes| - 1];
      RouteLoopSucceeds(step, front);
      assert forall i | 0 <= i < |front| :: front[i] == routes[i];
    }
  }

  /** The rule loop's emissions are exactly those of its rules, each
      rule's after those of the rules before it. */
  lemma {:induction false} RouteLoopSnoc(step: Route -> Result<seq<Emission>, BuildError>, routes: seq<Route>, route: Route)
    requires RouteLoop(step, routes + [route]).Success?
    ensures RouteLoop(step, routes).Success? && step(route).Success?
    ensures RouteLoop(step, routes + [route]).value == RouteLoop(step, routes).value + step(route).value
  {
    assert (routes + [route])[..|routes|] == routes;
  }

  /** Every emission of the rule loop comes from one of its rules. */
  lemma {:induction false} RouteLoopSound(step: Route -> Result<seq<Emission>, BuildError>, routes: seq<Route>)
    requires RouteLoop(step, routes).Success?
    ensures forall i | 0 <= i < |routes| :: step(routes[i]).Success?
    ensures forall k | 0 <= k < |RouteLoop(step, routes).value| ::
      exists i | 0 <= i < |routes| :: RouteLoop(step, routes).value[k] in step(routes[i]).value
    decreases |routes|
  {
    RouteLoopSucceeds(step, routes);
    if |routes| > 0 {
      var front := routes[..|routes| - 1];
      var before := RouteLoop(step, front).value;
      RouteLoopSound(step, front);
      var es := RouteLoop(step, routes).value;
      forall k | 0 <= k < |es| ensures exists i | 0 <= i < |routes| :: es[k] in step(routes[i]).value {
        if k < |before| {
          assert es[k] == before[k];
          var i :| 0 <= i < |front| && before[k] in step(front[i]).value;
          assert routes[i] == front[i];
        } else {
          assert es[k] in step(routes[|routes| - 1]).value;
        }
      }
    }
  }

  /** Every emission of every rule is among the rule loop's. */
  lemma {:induction false} RouteLoopComplete(step: Route -> Result<seq<Emission>, BuildError>, routes: seq<Route>)
    requires RouteLoop(step, routes).Success?
    ensures forall i | 0 <= i < |routes| :: step(routes[i]).Success?
    ensures forall i, e | 0 <= i < |routes| && e in step(routes[i]).value :: e in RouteLoop(step, routes).value
    decreases |routes|
  {
    RouteLoopSucceeds(step, routes);
    if |routes| > 0 {
      var front := routes[..|routes| - 1];
      RouteLoopComplete(step, front);
      assert forall i | 0 <= i < |front| :: front[i] == routes[i];
    }
  }

  /** Two steps that agree on the rules give the same loop. */
  lemma {:induction false} RouteLoopCongruent(step1: Route -> Result<seq<Emission>, BuildError>,
                                              step2: Route -> Result<seq<Emission>, BuildError>, routes: seq<Route>)
    requires forall i | 0 <= i < |routes| :: step1(routes[i]) == step2(routes[i])
    ensures RouteLoop(step1, routes) == RouteLoop(step2, routes)
    decreases |routes|
  {
    if |routes| > 0 {
      var front := routes[..|routes| - 1];
      assert forall i | 0 <= i < |front| :: front[i] == routes[i];
      RouteLoopCongruent(step1, step2, front);
    }
  }

  // ---------------------------------------------------------------------
  // What each rule emits

  /** `e` is the assignment the builder makes for `verb` of `route`: the
      method is visited, the rule has a view function, and its operation
      is stored under the normalised rule and the lower-cased method. */
  predicate Emits(cfg: Config, lib: Pydantic, variant: Variant, pattern: Pattern, app: App, expectedTag: Option<string>,
                  route: Route, verb: string, e: Emission) {
    && Active(route, verb)
    && route.endpoint in app.viewFunctions
    && e.path == Normalise(pattern, route.rule)
    && e.key == Text.Lower(verb)
    && OperationFor(cfg, lib, variant, route.converters, app.viewFunctions[route.endpoint], verb, expectedTag)
       == Success(Some((e.op, e.defs)))
  }

  /** `verb` of `route` is visited and the builder makes an operation for it. */
  predicate Documented(cfg: Config, lib: Pydantic, variant: Variant, app: App, expectedTag: Option<string>,
                       route: Route, verb: string) {
    && Active(route, verb)
    && route.endpoint in app.viewFunctions
    && OperationFor(cfg, lib, variant, route.converters, app.viewFunctions[route.endpoint], verb, expectedTag).Success?
    && OperationFor(cfg, lib, variant, route.converters, app.viewFunctions[route.endpoint], verb, expectedTag).value.Some?
  }

  /** A rule fails exactly when it is not reserved and either has no view
      function or one of its visited methods has an empty docstring. */
  lemma RouteEmissionsSucceeds(cfg: Config, lib: Pydantic, variant: Variant, pattern: Pattern, app: App, route: Route,
                               expectedTag: Option<string>)
    ensures RouteEmissions(cfg, lib, variant, pattern, app, route, expectedTag).Success? <==>
      || route.endpoint in RESERVED_ENDPOINTS
      || (&& route.endpoint in app.viewFunctions
          && forall verb | Active(route, verb) :: HandlerFor(app.viewFunctions[route.endpoint], verb).doc != Some(""))
  {
    if route.endpoint !in RESERVED_ENDPOINTS && route.endpoint in app.viewFunctions {
      var view := app.viewFunctions[route.endpoint];
      var body := BodyOf(cfg, lib, variant, route, view, expectedTag);
      var verbs := ActiveMethods(route.methods);
      MethodLoopSucceeds(body, Normalise(pattern, route.rule), verbs);
      forall verb | Active(route, verb) && MethodLoop(body, Normalise(pattern, route.rule), verbs).Success?
        ensures HandlerFor(view, verb).doc != Some("")
      {
        assert verb in verbs;
        var i :| 0 <= i < |verbs| && verbs[i] == verb;
        assert body(verbs[i]).Success?;
      }
    }
  }

  /** Every emission of a rule is one of its visited methods' operations. */
  lemma RouteEmissionsSound(cfg: Config, lib: Pydantic, variant: Variant, pattern: Pattern, app: App, route: Route,
                            expectedTag: Option<string>)
    requires RouteEmissions(cfg, lib, variant, pattern, app, route, expectedTag).Success?
    ensures forall e | e in RouteEmissions(cfg, lib, variant, pattern, app, route, expectedTag).value ::
      exists verb :: Emits(cfg, lib, variant, pattern, app, expectedTag, route, verb, e)
  {
    var es := RouteEmissions(cfg, lib, variant, pattern, app, route, expectedTag).value;
    if route.endpoint !in RESERVED_ENDPOINTS {
      var body := BodyOf(cfg, lib, variant, route, app.viewFunctions[route.endpoint], expectedTag);
      var path := Normalise(pattern, route.rule);
      var verbs := ActiveMethods(route.methods);
      MethodLoopSound(body, path, verbs);
      forall e | e in es ensures exists verb :: Emits(cfg, lib, variant, pattern, app, expectedTag, route, verb, e) {
        var k :| 0 <= k < |es| && es[k] == e;
        var i :| 0 <= i < |verbs| && LoopEmits(body, path, verbs[i], es[k]);
        assert verbs[i] in verbs;
        assert Emits(cfg, lib, variant, pattern, app, expectedTag, route, verbs[i], e);
      }
    }
  }

  /** Every visited method of a rule that has an operation is emitted. */
  lemma RouteEmissionsComplete(cfg: Config, lib: Pydantic, variant: Variant, pattern: Pattern, app: App, route: Route,
                               expectedTag: Option<string>)
    requires RouteEmissions(cfg, lib, variant, pattern, app, route, expectedTag).Success?
    ensures forall verb | Documented(cfg, lib, variant, app, expectedTag, route, verb) ::
      exists e | e in RouteEmissions(cfg, lib, variant, pattern, app, route, expectedTag).value ::
        Emits(cfg, lib, variant, pattern, app, expectedTag, route, verb, e)
  {
    var es := RouteEmissions(cfg, lib, variant, pattern, app, route, expectedTag).value;
    if route.endpoint !in RESERVED_ENDPOINTS {
      var body := BodyOf(cfg, lib, variant, route, app.viewFunctions[route.endpoint], expectedTag);
      var path := Normalise(pattern, route.rule);
      var verbs := ActiveMethods(route.methods);
      MethodLoopComplete(body, path, verbs);
      forall verb | Documented(cfg, lib, variant, app, expectedTag, route, verb)
        ensures exists e | e in es :: Emits(cfg, lib, variant, pattern, app, expectedTag, route, verb, e)
      {
        assert verb in verbs;
        var i :| 0 <= i < |verbs| && verbs[i] == verb;
        assert body(verbs[i]).Success? && body(verbs[i]).value.Some?;
        var k :| 0 <= k < |es| && LoopEmits(body, path, verbs[i], es[k]);
        assert Emits(cfg, lib, variant, pattern, app, expectedTag, route, verb, es[k]);
      }
    }
  }

  /** Every emission of the rule loop is the operation of a visited method
      of one of the rules. */
  lemma EmissionsSound(cfg: Config, lib: Pydantic, variant: Variant, pattern: Pattern, app: App, routes: seq<Route>,
                       expectedTag: Option<string>)
    requires Emissions(cfg, lib, variant, pattern, app, routes, expectedTag).Success?
    ensures forall e | e in Emissions(cfg, lib, variant, pattern, app, routes, expectedTag).value ::
      exists i, verb | 0 <= i < |routes| :: Emits(cfg, lib, variant, pattern, app, expectedTag, routes[i], verb, e)
  {
    var step := StepOf(cfg, lib, variant, pattern, app, expectedTag);
    var es := Emissions(cfg, lib, variant, pattern, app, routes, expectedTag).value;
    RouteLoopSound(step, routes);
    forall e | e in es ensures exists i, verb | 0 <= i < |routes| :: Emits(cfg, lib, variant, pattern, app, expectedTag, routes[i], verb, e) {
      var k :| 0 <= k < |es| && es[k] == e;
      var i :| 0 <= i < |routes| && es[k] in step(routes[i]).value;
      RouteEmissionsSound(cfg, lib, variant, pattern, app, routes[i], expectedTag);
      var verb :| Emits(cfg, lib, variant, pattern, app, expectedTag, routes[i], verb, e);
    }
  }

  /** Every visited method of every rule that has an operation is among
      the rule loop's emissions. */
  lemma EmissionsComplete(cfg: Config, lib: Pydantic, variant: Variant, pattern: Pattern, app: App, routes: seq<Route>,
                          expectedTag: Option<string>)
    requires Emissions(cfg, lib, variant, pattern, app, routes, expectedTag).Success?
    ensures forall i, verb | 0 <= i < |routes| && Documented(cfg, lib, variant, app, expectedTag, routes[i], verb) ::
      exists e | e in Emissions(cfg, lib, variant, pattern, app, routes, expectedTag).value ::
        Emits(cfg, lib, variant, pattern, app, expectedTag, routes[i], verb, e)
  {
    var step := StepOf(cfg, lib, variant, pattern, app, expectedTag);
    var es := Emissions(cfg, lib, variant, pattern, app, routes, expectedTag).value;
    RouteLoopComplete(step, routes);
    forall i, verb | 0 <= i < |routes| && Documented(cfg, lib, variant, app, expectedTag, routes[i], verb)
      ensures exists e | e in es :: Emits(cfg, lib, variant, pattern, app, expectedTag, routes[i], verb, e)
    {
      RouteEmissionsComplete(cfg, lib, variant, pattern, app, routes[i], expectedTag);
      var e :| e in step(routes[i]).value && Emits(cfg, lib, variant, pattern, app, expectedTag, routes[i], verb, e);
      assert e in es;
    }
  }

  // ---------------------------------------------------------------------
  // The document

  /** The operation the builder makes for a documented method. */
  function OperationOf(cfg: Config, lib: Pydantic, variant: Variant, app: App, expectedTag: Option<string>,
                       route: Route, verb: string): Operation
    requires Documented(cfg, lib, variant, app, expectedTag, route, verb)
  {
    OperationFor(cfg, lib, variant, route.converters, app.viewFunctions[route.endpoint], verb, expectedTag).value.value.0
  }

  /** A rule the builder gets through: reserved, or with a view function
      and no empty docstring on any visited method. */
  ghost predicate RouteSucceeds(app: App, route: Route) {
    || route.endpoint in RESERVED_ENDPOINTS
    || (&& route.endpoint in app.viewFunctions
        && forall verb | Active(route, verb) :: HandlerFor(app.viewFunctions[route.endpoint], verb).doc != Some(""))
  }

  /** The builder fails exactly when some rule has no view function or an
      empty docstring on a visited method, whatever the tag filter. */
  lemma BuildSucceeds(cfg: Config, lib: Pydantic, variant: Variant, pattern: Pattern, app: App, expectedTag: Option<string>)
    ensures Build(cfg, lib, variant, pattern, app, expectedTag).Success? <==>
      forall i | 0 <= i < |app.routes| :: RouteSucceeds(app, app.routes[i])
  {
    var step := StepOf(cfg, lib, variant, pattern, app, expectedTag);
    RouteLoopSucceeds(step, app.routes);
    forall i | 0 <= i < |app.routes|
      ensures step(app.routes[i]).Success? <==> RouteSucceeds(app, app.routes[i])
    {
      RouteEmissionsSucceeds(cfg, lib, variant, pattern, app, app.routes[i], expectedTag);
    }
  }

  /** `op` stored under `p` and `key` is the operation of a visited
      method of one of the rules, under the rule's normalised path and the
      method lower-cased. */
  ghost predicate Explained(cfg: Config, lib: Pydantic, variant: Variant, pattern: Pattern, app: App, expectedTag: Option<string>,
                            p: string, key: string, op: Operation) {
    exists i, verb | 0 <= i < |app.routes| ::
      && Documented(cfg, lib, variant, app, expectedTag, app.routes[i], verb)
      && Normalise(pattern, app.routes[i].rule) == p
      && Text.Lower(verb) == key
      && op == OperationOf(cfg, lib, variant, app, expectedTag, app.routes[i], verb)
  }

  /** Every entry of `paths` is explained by a rule and one of its visited
      methods: reserved endpoints and `OPTIONS`/`HEAD` never appear. */
  lemma BuildPathsSound(cfg: Config, lib: Pydantic, variant: Variant, pattern: Pattern, app: App, expectedTag: Option<string>)
    requires Build(cfg, lib, variant, pattern, app, expectedTag).Success?
    ensures forall p, key | p in Build(cfg, lib, variant, pattern, app, expectedTag).value.paths &&
                            key in Build(cfg, lib, variant, pattern, app, expectedTag).value.paths[p] ::
      Explained(cfg, lib, variant, pattern, app, expectedTag, p, key, Build(cfg, lib, variant, pattern, app, expectedTag).value.paths[p][key])
  {
    var es := Emissions(cfg, lib, variant, pattern, app, app.routes, expectedTag).value;
    var paths := Build(cfg, lib, variant, pattern, app, expectedTag).value.paths;
    assert paths == AssemblePaths(es);
    AssemblePathsMethods(es);
    EmissionsSound(cfg, lib, variant, pattern, app, app.routes, expectedTag);
    forall p, key | p in paths && key in paths[p]
      ensures Explained(cfg, lib, variant, pattern, app, expectedTag, p, key, paths[p][key])
    {
      var k :| 0 <= k < |es| && es[k].path == p && es[k].key == key && paths[p][key] == es[k].op;
      assert es[k] in es;
      var i, verb :| 0 <= i < |app.routes| && Emits(cfg, lib, variant, pattern, app, expectedTag, app.routes[i], verb, es[k]);
      assert Documented(cfg, lib, variant, app, expectedTag, app.routes[i], verb);
    }
  }

  /** Every visited method of every rule that has an operation appears in
      `paths` under the rule's normalised path and the method lower-cased. */
  lemma BuildPathsComplete(cfg: Config, lib: Pydantic, variant: Variant, pattern: Pattern, app: App, expectedTag: Option<string>)
    requires Build(cfg, lib, variant, pattern, app, expectedTag).Success?
    ensures var paths := Build(cfg, lib, variant, pattern, app, expectedTag).value.paths;
      forall i, verb | 0 <= i < |app.routes| && Documented(cfg, lib, variant, app, expectedTag, app.routes[i], verb) ::
        Normalise(pattern, app.routes[i].rule) in paths &&
        Text.Lower(verb) in paths[Normalise(pattern, app.routes[i].rule)]
  {
    var es := Emissions(cfg, lib, variant, pattern, app, app.routes, expectedTag).value;
    var paths := Build(cfg, lib, variant, pattern, app, expectedTag).value.paths;
    assert paths == AssemblePaths(es);
    AssemblePathsMethods(es);
    EmissionsComplete(cfg, lib, variant, pattern, app, app.routes, expectedTag);
    forall i, verb | 0 <= i < |app.routes| && Documented(cfg, lib, variant, app, expectedTag, app.routes[i], verb)
      ensures Normalise(pattern, app.routes[i].rule) in paths &&
        Text.Lower(verb) in paths[Normalise(pattern, app.routes[i].rule)]
    {
      var e :| e in es && Emits(cfg, lib, variant, pattern, app, expectedTag, app.routes[i], verb, e);
      var k :| 0 <= k < |es| && es[k] == e;
    }
  }

  /** With a non-empty tag, every documented operation carries that tag. */
  lemma TagFilter(cfg: Config, lib: Pydantic, variant: Variant, pattern: Pattern, app: App, tag: string)
    requires tag != ""
    requires Build(cfg, lib, variant, pattern, app, Some(tag)).Success?
    ensures var paths := Build(cfg, lib, variant, pattern, app, Some(tag)).value.paths;
      forall p, key | p in paths && key in paths[p] ::
        paths[p][key].tags.Some? && tag in paths[p][key].tags.value
  {
    var paths: map<string, map<string, Operation>> := Build(cfg, lib, variant, pattern, app, Some(tag)).value.paths;
    BuildPathsSound(cfg, lib, variant, pattern, app, Some(tag));
    forall p: string, key: string | p in paths && key in paths[p]
      ensures paths[p][key].tags.Some? && tag in paths[p][key].tags.value
    {
      assert Explained(cfg, lib, variant, pattern, app, Some(tag), p, key, paths[p][key]);
      var i, verb :| 0 <= i < |app.routes| &&
        Documented(cfg, lib, variant, app, Some(tag), app.routes[i], verb) &&
        paths[p][key] == OperationOf(cfg, lib, variant, app, Some(tag), app.routes[i], verb);
    }
  }

  /** No tag and the empty tag both document every method: the two
      documents are the same. */
  lemma EmptyTagFiltersNothing(cfg: Config, lib: Pydantic, variant: Variant, pattern: Pattern, app: App)
    ensures Build(cfg, lib, variant, pattern, app, None) == Build(cfg, lib, variant, pattern, app, Some(""))
  {
    var step1 := StepOf(cfg, lib, variant, pattern, app, None);
    var step2 := StepOf(cfg, lib, variant, pattern, app, Some(""));
    forall i | 0 <= i < |app.routes| ensures step1(app.routes[i]) == step2(app.routes[i]) {
      var route := app.routes[i];
      if route.endpoint !in RESERVED_ENDPOINTS && route.endpoint in app.viewFunctions {
        var view := app.viewFunctions[route.endpoint];
        var verbs := ActiveMethods(route.methods);
        forall j | 0 <= j < |verbs|
          ensures BodyOf(cfg, lib, variant, route, view, None)(verbs[j]) == BodyOf(cfg, lib, variant, route, view, Some(""))(verbs[j])
        {
          OperationForIgnoresEmptyTag(cfg, lib, variant, route.converters, view, verbs[j]);
        }
        MethodLoopCongruent(BodyOf(cfg, lib, variant, route, view, None), BodyOf(cfg, lib, variant, route, view, Some("")),
                            Normalise(pattern, route.rule), verbs);
      }
    }
    RouteLoopCongruent(step1, step2, app.routes);
  }

  lemma OperationForIgnoresEmptyTag(cfg: Config, lib: Pydantic, variant: Variant, converters: seq<string>,
                                    view: Handlers.ViewFunction, verb: string)
    ensures OperationFor(cfg, lib, variant, converters, view, verb, None)
         == OperationFor(cfg, lib, variant, converters, view, verb, Some(""))
  {
  }

  /** Every method of every rule is free of lower-case letters, as the
      routing layer stores them. */
  predicate UpperCaseMethods(app: App) {
    forall i, verb | 0 <= i < |app.routes| && verb in app.routes[i].methods ::
      forall t | 0 <= t < |verb| :: !Text.IsLowerLetter(verb[t])
  }

  /** A visited method of a rule whose methods have no lower-case letters
      is never stored under `options` or `head`. */
  lemma ActiveKeyNotIgnored(route: Route, verb: string)
    requires Active(route, verb)
    requires forall t | 0 <= t < |verb| :: !Text.IsLowerLetter(verb[t])
    ensures Text.Lower(verb) != "options" && Text.Lower(verb) != "head"
  {
    if Text.Lower(verb) == "options" {
      OptionsKey(verb);
    } else if Text.Lower(verb) == "head" {
      HeadKey(verb);
    }
  }

  /** With upper-case rule methods, no path has an `options` or `head`
      entry. */
  lemma NoIgnoredMethodKeys(cfg: Config, lib: Pydantic, variant: Variant, pattern: Pattern, app: App, expectedTag: Option<string>)
    requires UpperCaseMethods(app)
    requires Build(cfg, lib, variant, pattern, app, expectedTag).Success?
    ensures var paths := Build(cfg, lib, variant, pattern, app, expectedTag).value.paths;
      forall p | p in paths :: "options" !in paths[p] && "head" !in paths[p]
  {
    var paths: map<string, map<string, Operation>> := Build(cfg, lib, variant, pattern, app, expectedTag).value.paths;
    BuildPathsSound(cfg, lib, variant, pattern, app, expectedTag);
    forall p, key | p in paths && key in paths[p] ensures key != "options" && key != "head" {
      assert Explained(cfg, lib, variant, pattern, app, expectedTag, p, key, paths[p][key]);
      var i, verb :| 0 <= i < |app.routes|
        && Documented(cfg, lib, variant, app, expectedTag, app.routes[i], verb)
        && Normalise(pattern, app.routes[i].rule) == p
        && Text.Lower(verb) == key
        && paths[p][key] == OperationOf(cfg, lib, variant, app, expectedTag, app.routes[i], verb);
      ActiveKeyNotIgnored(app.routes[i], verb);
    }
  }

  /** Every method key under every path is free of upper-case letters. */
  lemma MethodKeysLowerCase(cfg: Config, lib: Pydantic, variant: Variant, pattern: Pattern, app: App, expectedTag: Option<string>)
    requires Build(cfg, lib, variant, pattern, app, expectedTag).Success?
    ensures var paths := Build(cfg, lib, variant, pattern, app, expectedTag).value.paths;
      forall p, key | p in paths && key in paths[p] :: forall t | 0 <= t < |key| :: !Text.IsUpper(key[t])
  {
    var paths: map<string, map<string, Operation>> := Build(cfg, lib, variant, pattern, app, expectedTag).value.paths;
    BuildPathsSound(cfg, lib, variant, pattern, app, expectedTag);
    forall p, key | p in paths && key in paths[p] ensures forall t | 0 <= t < |key| :: !Text.IsUpper(key[t]) {
      assert Explained(cfg, lib, variant, pattern, app, expectedTag, p, key, paths[p][key]);
      var i, verb :| 0 <= i < |app.routes|
        && Documented(cfg, lib, variant, app, expectedTag, app.routes[i], verb)
        && Normalise(pattern, app.routes[i].rule) == p
        && Text.Lower(verb) == key
        && paths[p][key] == OperationOf(cfg, lib, variant, app, expectedTag, app.routes[i], verb);
    }
  }

  /** `op` is the operation `route` builds for a visited method stored
      under `key`. */
  ghost predicate FromRoute(cfg: Config, lib: Pydantic, variant: Variant, app: App, expectedTag: Option<string>,
                            route: Route, key: string, op: Operation) {
    exists verb ::
      && Documented(cfg, lib, variant, app, expectedTag, route, verb)
      && Text.Lower(verb) == key
      && op == OperationOf(cfg, lib, variant, app, expectedTag, route, verb)
  }

  /** The last rule's operations replace whatever earlier rules stored
      under the same normalised path and method. */
  lemma LaterRouteOverwrites(cfg: Config, lib: Pydantic, variant: Variant, pattern: Pattern, app: App, expectedTag: Option<string>)
    requires |app.routes| > 0
    requires Build(cfg, lib, variant, pattern, app, expectedTag).Success?
    ensures var last := app.routes[|app.routes| - 1];
      var paths := Build(cfg, lib, variant, pattern, app, expectedTag).value.paths;
      forall verb | Documented(cfg, lib, variant, app, expectedTag, last, verb) ::
        && Normalise(pattern, last.rule) in paths
        && Text.Lower(verb) in paths[Normalise(pattern, last.rule)]
        && FromRoute(cfg, lib, variant, app, expectedTag, last,
                     Text.Lower(verb), paths[Normalise(pattern, last.rule)][Text.Lower(verb)])
  {
    var step := StepOf(cfg, lib, variant, pattern, app, expectedTag);
    var last := app.routes[|app.routes| - 1];
    var front := app.routes[..|app.routes| - 1];
    assert app.routes == front + [last];
    RouteLoopSnoc(step, front, last);
    var before := RouteLoop(step, front).value;
    var lastEs := step(last).value;
    var paths: map<string, map<string, Operation>> := Build(cfg, lib, variant, pattern, app, expectedTag).value.paths;
    assert paths == AssemblePaths(before + lastEs);
    AssemblePathsAppend(before, lastEs);
    RouteKeysStored(cfg, lib, variant, pattern, app, expectedTag, last, lastEs, paths);
  }

  /** Under PATH_RE as written, the rules `/<x>/<int:b>` and
      `/<y>/<int:b>` share the path `/{b}`, and the later rule's
      operations are the ones stored there. */
  lemma AsWrittenRulesCollide(cfg: Config, lib: Pydantic, variant: Variant, app: App, expectedTag: Option<string>,
                              x: char, y: char)
    requires x !in ":<>" && y !in ":<>"
    requires |app.routes| == 2
    requires app.routes[0].rule == "/<" + [x] + ">/<int:b>" && app.routes[1].rule == "/<" + [y] + ">/<int:b>"
    requires Build(cfg, lib, variant, AsWritten, app, expectedTag).Success?
    ensures Normalise(AsWritten, app.routes[0].rule) == "/{b}" && Normalise(AsWritten, app.routes[1].rule) == "/{b}"
    ensures var paths := Build(cfg, lib, variant, AsWritten, app, expectedTag).value.paths;
      forall verb | Documented(cfg, lib, variant, app, expectedTag, app.routes[1], verb) ::
        && "/{b}" in paths && Text.Lower(verb) in paths["/{b}"]
        && FromRoute(cfg, lib, variant, app, expectedTag, app.routes[1], Text.Lower(verb), paths["/{b}"][Text.Lower(verb)])
  {
    PathTemplate.PlaceholderSwallowed(x);
    PathTemplate.PlaceholderSwallowed(y);
    LaterRouteOverwrites(cfg, lib, variant, AsWritten, app, expectedTag);
  }

  /** With the intended pattern the same two rules keep the paths
      `/{x}/{b}` and `/{y}/{b}`, which differ when the names do. */
  lemma IntendedRulesStayApart(cfg: Config, lib: Pydantic, variant: Variant, app: App, expectedTag: Option<string>,
                               x: char, y: char)
    requires x !in ":<>" && y !in ":<>" && x != y
    requires |app.routes| == 2
    requires app.routes[0].rule == "/<" + [x] + ">/<int:b>" && app.routes[1].rule == "/<" + [y] + ">/<int:b>"
    requires Build(cfg, lib, variant, Intended, app, expectedTag).Success?
    ensures Normalise(Intended, app.routes[0].rule) == "/{" + [x] + "}/{b}"
    ensures Normalise(Intended, app.routes[1].rule) == "/{" + [y] + "}/{b}"
    ensures Normalise(Intended, app.routes[0].rule) != Normalise(Intended, app.routes[1].rule)
    ensures var paths := Build(cfg, lib, variant, Intended, app, expectedTag).value.paths;
      forall verb | Documented(cfg, lib, variant, app, expectedTag, app.routes[0], verb) ::
        "/{" + [x] + "}/{b}" in paths && Text.Lower(verb) in paths["/{" + [x] + "}/{b}"]
  {
    PathTemplate.IntendedNamesDiffer(x, y);
    FirstRouteStored(cfg, lib, variant, Intended, app, expectedTag, "/{" + [x] + "}/{b}");
  }

  /** Every method the first route documents is under the key its rule
      normalises to. */
  lemma FirstRouteStored(cfg: Config, lib: Pydantic, variant: Variant, pattern: Pattern, app: App,
                         expectedTag: Option<string>, key: string)
    requires |app.routes| > 0 && Normalise(pattern, app.routes[0].rule) == key
    requires Build(cfg, lib, variant, pattern, app, expectedTag).Success?
    ensures var paths := Build(cfg, lib, variant, pattern, app, expectedTag).value.paths;
      forall verb | Documented(cfg, lib, variant, app, expectedTag, app.routes[0], verb) ::
        key in paths && Text.Lower(verb) in paths[key]
  {
    var es := Emissions(cfg, lib, variant, pattern, app, app.routes, expectedTag).value;
    var paths := Build(cfg, lib, variant, pattern, app, expectedTag).value.paths;
    assert paths == AssemblePaths(es);
    AssemblePathsMethods(es);
    EmissionsComplete(cfg, lib, variant, pattern, app, app.routes, expectedTag);
    forall verb | Documented(cfg, lib, variant, app, expectedTag, app.routes[0], verb)
      ensures key in paths && Text.Lower(verb) in paths[key]
    {
      var e :| e in es && Emits(cfg, lib, variant, pattern, app, expectedTag, app.routes[0], verb, e);
      var k :| 0 <= k < |es| && es[k] == e;
    }
  }

  /** A map holding what a rule's own emissions assemble to has, under the
      rule's path, each documented method's operation. */
  lemma RouteKeysStored(cfg: Config, lib: Pydantic, variant: Variant, pattern: Pattern, app: App, expectedTag: Option<string>,
                        route: Route, es: seq<Emission>, paths: map<string, map<string, Operation>>)
    requires RouteEmissions(cfg, lib, variant, pattern, app, route, expectedTag) == Success(es)
    requires forall p, key | p in AssemblePaths(es) && key in AssemblePaths(es)[p] ::
      p in paths && key in paths[p] && paths[p][key] == AssemblePaths(es)[p][key]
    ensures forall verb | Documented(cfg, lib, variant, app, expectedTag, route, verb) ::
      && Normalise(pattern, route.rule) in paths
      && Text.Lower(verb) in paths[Normalise(pattern, route.rule)]
      && FromRoute(cfg, lib, variant, app, expectedTag, route,
                   Text.Lower(verb), paths[Normalise(pattern, route.rule)][Text.Lower(verb)])
  {
    forall verb | Documented(cfg, lib, variant, app, expectedTag, route, verb)
      ensures && Normalise(pattern, route.rule) in paths
              && Text.Lower(verb) in paths[Normalise(pattern, route.rule)]
              && FromRoute(cfg, lib, variant, app, expectedTag, route,
                           Text.Lower(verb), paths[Normalise(pattern, route.rule)][Text.Lower(verb)])
    {
      RouteKeyStored(cfg, lib, variant, pattern, app, expectedTag, route, es, paths, verb);
    }
  }

  /** One documented method of [RouteKeysStored]. */
  lemma RouteKeyStored(cfg: Config, lib: Pydantic, variant: Variant, pattern: Pattern, app: App, expectedTag: Option<string>,
                       route: Route, es: seq<Emission>, paths: map<string, map<string, Operation>>, verb: string)
    requires RouteEmissions(cfg, lib, variant, pattern, app, route, expectedTag) == Success(es)
    requires forall p, key | p in AssemblePaths(es) && key in AssemblePaths(es)[p] ::
      p in paths && key in paths[p] && paths[p][key] == AssemblePaths(es)[p][key]
    requires Documented(cfg, lib, variant, app, expectedTag, route, verb)
    ensures && Normalise(pattern, route.rule) in paths
            && Text.Lower(verb) in paths[Normalise(pattern, route.rule)]
            && FromRoute(cfg, lib, variant, app, expectedTag, route,
                         Text.Lower(verb), paths[Normalise(pattern, route.rule)][Text.Lower(verb)])
  {
    AssemblePathsMethods(es);
    RouteEmissionsSound(cfg, lib, variant, pattern, app, route, expectedTag);
    RouteEmissionsComplete(cfg, lib, variant, pattern, app, route, expectedTag);
    var p := Normalise(pattern, route.rule);
    var key := Text.Lower(verb);
    var e :| e in es && Emits(cfg, lib, variant, pattern, app, expectedTag, route, verb, e);
    var k :| 0 <= k < |es| && es[k] == e;
    assert p in AssemblePaths(es) && key in AssemblePaths(es)[p];
    var k2 :| 0 <= k2 < |es| && es[k2].path == p && es[k2].key == key &&
      AssemblePaths(es)[p][key] == es[k2].op;
    assert es[k2] in es;
    var verb2 :| Emits(cfg, lib, variant, pattern, app, expectedTag, route, verb2, es[k2]);
    assert Documented(cfg, lib, variant, app, expectedTag, route, verb2);
  }

  /** A documented method of `route` whose handler's response, body or
      query-string schemas define `name`. */
  ghost predicate Defines(cfg: Config, lib: Pydantic, variant: Variant, app: App, expectedTag: Option<string>,
                          route: Route, verb: string, name: string) {
    && Documented(cfg, lib, variant, app, expectedTag, route, verb)
    && exists d | d in OperationDefinitions(cfg, lib, HandlerFor(app.viewFunctions[route.endpoint], verb)) :: name in d
  }

  /** Every name in `components.schemas` is defined by a documented
      method's schemas. */
  lemma BuildSchemasSound(cfg: Config, lib: Pydantic, variant: Variant, pattern: Pattern, app: App, expectedTag: Option<string>)
    requires Build(cfg, lib, variant, pattern, app, expectedTag).Success?
    ensures forall name | name in Build(cfg, lib, variant, pattern, app, expectedTag).value.schemas ::
      exists i, verb | 0 <= i < |app.routes| :: Defines(cfg, lib, variant, app, expectedTag, app.routes[i], verb, name)
  {
    var es := Emissions(cfg, lib, variant, pattern, app, app.routes, expectedTag).value;
    var ds := AllDefinitions(es);
    assert Build(cfg, lib, variant, pattern, app, expectedTag).value.schemas == UnionAll(ds);
    UnionAllKeys(ds);
    EmissionsSound(cfg, lib, variant, pattern, app, app.routes, expectedTag);
    forall name | name in UnionAll(ds)
      ensures exists i, verb | 0 <= i < |app.routes| :: Defines(cfg, lib, variant, app, expectedTag, app.routes[i], verb, name)
    {
      var d :| d in ds && name in d;
      var k :| 0 <= k < |es| && d in es[k].defs;
      assert es[k] in es;
      var i, verb :| 0 <= i < |app.routes| && Emits(cfg, lib, variant, pattern, app, expectedTag, app.routes[i], verb, es[k]);
      assert Defines(cfg, lib, variant, app, expectedTag, app.routes[i], verb, name);
    }
  }

  /** Every name a documented method's schemas define is in
      `components.schemas`; methods the tag filter drops contribute
      nothing, because they are not documented. */
  lemma BuildSchemasComplete(cfg: Config, lib: Pydantic, variant: Variant, pattern: Pattern, app: App, expectedTag: Option<string>)
    requires Build(cfg, lib, variant, pattern, app, expectedTag).Success?
    ensures forall name, i, verb | 0 <= i < |app.routes| && Defines(cfg, lib, variant, app, expectedTag, app.routes[i], verb, name) ::
      name in Build(cfg, lib, variant, pattern, app, expectedTag).value.schemas
  {
    var es := Emissions(cfg, lib, variant, pattern, app, app.routes, expectedTag).value;
    var ds := AllDefinitions(es);
    assert Build(cfg, lib, variant, pattern, app, expectedTag).value.schemas == UnionAll(ds);
    UnionAllKeys(ds);
    EmissionsComplete(cfg, lib, variant, pattern, app, app.routes, expectedTag);
    forall name, i, verb | 0 <= i < |app.routes| && Defines(cfg, lib, variant, app, expectedTag, app.routes[i], verb, name)
      ensures name in UnionAll(ds)
    {
      var d :| d in OperationDefinitions(cfg, lib, HandlerFor(app.viewFunctions[app.routes[i].endpoint], verb)) && name in d;
      var e :| e in es && Emits(cfg, lib, variant, pattern, app, expectedTag, app.routes[i], verb, e);
      var k :| 0 <= k < |es| && es[k] == e;
      assert d in ds;
    }
  }
}
