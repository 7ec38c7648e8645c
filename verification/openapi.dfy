/** The per-operation part of `_build_openapi_schema`, which
    schema_validator/core.py and schema_validator/extension.py both define
    with the same text: for one route and one HTTP method, the handler
    whose attributes are read, the docstring split, the tag filter, the
    responses, request body and parameters of the OpenAPI operation, and
    the schema definitions it contributes to `components.schemas`. */
module OpenApi {
  import opened Results
  import opened Models
  import Text
  import Handlers

  /** constants.py: the prefix of every `$ref` in generated schemas, and
      the methods never documented. */
  const REF_PREFIX := "#/components/schemas/"
  const IGNORE_METHODS: set<string> := {"OPTIONS", "HEAD"}

  /** Endpoints the extension registers for itself. */
  const RESERVED_ENDPOINTS: seq<string> := ["static", "openapi", "swagger_ui", "swagger_ui_tag", "openapi_tag"]

  const JSON_CONTENT := "application/json"
  const FORM_CONTENT := "application/x-www-form-urlencoded"
  const OPENAPI_VERSION := "3.0.3"

  /** Which copy of the builder runs. core.py imports `DataSource` from
      utils.py, extension.py from validation.py; a body declared with the
      other module's enum never counts as JSON. */
  datatype Variant = Core | Extension

  function JsonSource(variant: Variant): (source: DataSource)
    ensures source.member == JSON
    ensures variant.Core? <==> source.origin == UtilsEnum
  {
    match variant
    case Core => DataSource(UtilsEnum, JSON)
    case Extension => DataSource(ValidationEnum, JSON)
  }

  /** The extension settings the builder reads, with humps' `camelize`
      passed in as a plain function on schemas. */
  datatype Config = Config(
    title: string,
    version: string,
    convertCasing: bool,
    servers: seq<Json>,
    camelize: ModelSchema -> ModelSchema)

  /** An entry of `parameters`: `{"name", "in": "query", "schema"}` or
      `{"name", "in": "path"}`. */
  datatype Parameter =
    | QueryParameter(name: string, schema: map<string, Json>)
    | PathParameter(name: string)

  /** `{"content": {"application/json": {"schema": ...}}, "description": doc}`. */
  datatype ResponseObject = ResponseObject(content: map<string, ModelSchema>, description: Option<string>)

  /** The path object built for one method; `None` stands for a key that
      was never set. */
  datatype Operation = Operation(
    parameters: seq<Parameter>,
    responses: map<StatusKey, ResponseObject>,
    summary: Option<string>,
    description: Option<string>,
    tags: Option<seq<string>>,
    requestBody: Option<map<string, ModelSchema>>)

  datatype BuildError =
    | MissingViewFunction(endpoint: string)  // KeyError from `app.view_functions[...]`
    | EmptyDocstring                         // ValueError unpacking `"".splitlines()`

  /** `_split_definitions`: the `definitions` entry (or `{}`) and a copy of
      the schema without it. The input is a value and is left as it was. */
  function SplitDefinitions(schema: ModelSchema): (r: (map<string, Json>, ModelSchema))
    ensures r.1.definitions.None?
    ensures schema.definitions.Some? ==> r.1.(definitions := Some(r.0)) == schema
    ensures schema.definitions.None? ==> r.0 == map[] && r.1 == schema
  {
    (match schema.definitions case Some(d) => d case None => map[], schema.(definitions := None))
  }

  /** `model_schema(m, ref_prefix=REF_PREFIX)`, camelized when the
      extension converts casing. */
  function PreparedSchema(cfg: Config, lib: Pydantic, model: ModelClass): ModelSchema {
    var raw := lib.modelSchema(model, REF_PREFIX);
    if cfg.convertCasing then cfg.camelize(raw) else raw
  }

  /** The prepared schema split into its definitions and the rest: the
      rest is the prepared schema without `definitions`, and putting the
      definitions back gives the prepared schema again. */
  function ProcessSchema(cfg: Config, lib: Pydantic, model: ModelClass): (r: (map<string, Json>, ModelSchema))
    ensures r.1 == PreparedSchema(cfg, lib, model).(definitions := None)
    ensures PreparedSchema(cfg, lib, model).definitions.Some? ==>
      r.1.(definitions := Some(r.0)) == PreparedSchema(cfg, lib, model)
    ensures PreparedSchema(cfg, lib, model).definitions.None? ==> r.0 == map[]
  {
    SplitDefinitions(PreparedSchema(cfg, lib, model))
  }

  /** `summary, *description = doc.splitlines()` and the description joined
      back with newlines. An empty docstring has no line to unpack. */
  function SplitDocstring(doc: string): (r: Result<(string, string), BuildError>)
    ensures r.Failure? <==> doc == ""
    ensures r.Failure? ==> r.error == EmptyDocstring
    ensures r.Success? ==> r.value.0 == doc[..Text.NextBoundary(doc, 0)]
    ensures r.Success? ==> forall t | 0 <= t < |r.value.0| :: !Text.IsLineBoundary(r.value.0[t])
    ensures r.Success? && Text.NextBoundary(doc, 0) == |doc| ==> r.value.1 == ""
  {
    var lines := Text.SplitLines(doc);
    if |lines| == 0 then Failure(EmptyDocstring)
    else Success((lines[0], Text.Join("\n", lines[1..])))
  }

  /** For a docstring whose only line breaks are `\n` and that does not end
      in one, summary and description put back together give the
      docstring: the summary alone when it is one line, otherwise summary,
      newline, description. */
  lemma DocstringRoundTrip(doc: string)
    requires doc != "" && Text.PlainLines(doc)
    ensures SplitDocstring(doc).Success?
    ensures var (summary, description) := SplitDocstring(doc).value;
      doc == if '\n' in doc then summary + "\n" + description else summary
    ensures '\n' !in doc ==> SplitDocstring(doc).value.1 == ""
  {
    Text.JoinSplitLines(doc);
    var lines := Text.SplitLines(doc);
    if |lines| > 1 {
      assert Text.Join("\n", lines) == lines[0] + "\n" + Text.Join("\n", lines[1..]);
    }
  }

  /** Among methods without lower-case letters, only `OPTIONS` lowers to
      `options`. */
  lemma OptionsKey(verb: string)
    requires forall t | 0 <= t < |verb| :: !Text.IsLowerLetter(verb[t])
    requires Text.Lower(verb) == "options"
    ensures verb == "OPTIONS"
  {
    OptionsSpelling();
    Text.LowerOfUpper(verb, "options", "OPTIONS");
  }

  lemma OptionsSpelling()
    ensures Text.Capitalises("OPTIONS", "options")
  {
    var word, upper := "options", "OPTIONS";
    assert Text.IsLowerLetter(word[0]) && upper[0] as int == word[0] as int - 32;
    assert Text.IsLowerLetter(word[1]) && upper[1] as int == word[1] as int - 32;
    assert Text.IsLowerLetter(word[2]) && upper[2] as int == word[2] as int - 32;
    assert Text.IsLowerLetter(word[3]) && upper[3] as int == word[3] as int - 32;
    assert Text.IsLowerLetter(word[4]) && upper[4] as int == word[4] as int - 32;
    assert Text.IsLowerLetter(word[5]) && upper[5] as int == word[5] as int - 32;
    assert Text.IsLowerLetter(word[6]) && upper[6] as int == word[6] as int - 32;
  }

  /** Among methods without lower-case letters, only `HEAD` lowers to
      `head`. */
  lemma HeadKey(verb: string)
    requires forall t | 0 <= t < |verb| :: !Text.IsLowerLetter(verb[t])
    requires Text.Lower(verb) == "head"
    ensures verb == "HEAD"
  {
    HeadSpelling();
    Text.LowerOfUpper(verb, "head", "HEAD");
  }

  lemma HeadSpelling()
    ensures Text.Capitalises("HEAD", "head")
  {
    var word, upper := "head", "HEAD";
    assert Text.IsLowerLetter(word[0]) && upper[0] as int == word[0] as int - 32;
    assert Text.IsLowerLetter(word[1]) && upper[1] as int == word[1] as int - 32;
    assert Text.IsLowerLetter(word[2]) && upper[2] as int == word[2] as int - 32;
    assert Text.IsLowerLetter(word[3]) && upper[3] as int == word[3] as int - 32;
  }

  /** The handler whose attributes describe `method`: the view class's
      attribute named by the lower-cased method when there is one, the
      view function otherwise. */
  function HandlerFor(view: Handlers.ViewFunction, verb: string): (h: Handlers.Handler)
    ensures view.viewClass.None? ==> h == view.fn
    ensures view.viewClass.Some? && Text.Lower(verb) in view.viewClass.value.methods ==>
      h == view.viewClass.value.methods[Text.Lower(verb)]
    ensures view.viewClass.Some? && Text.Lower(verb) !in view.viewClass.value.methods ==> h == view.fn
  {
    match view.viewClass
    case Some(vc) =>
      if Text.Lower(verb) in vc.methods then vc.methods[Text.Lower(verb)] else view.fn
    case None => view.fn
  }

  /** Tags come from the view class itself when there is one, never from
      its methods. */
  function TagsFor(view: Handlers.ViewFunction): (tags: seq<string>)
    ensures view.viewClass.Some? ==> tags == view.viewClass.value.tags
    ensures view.viewClass.None? ==> tags == view.fn.tags
  {
    match view.viewClass
    case Some(vc) => vc.tags
    case None => view.fn.tags
  }

  /** `expected_tag and expected_tag not in tags`: the method is left out. */
  predicate FilteredOut(expectedTag: Option<string>, tags: seq<string>) {
    expectedTag.Some? && expectedTag.value != "" && expectedTag.value !in tags
  }

  /** One `responses[status]` entry: the model's schema under the JSON
      content type, and the model's docstring as description. */
  function ResponseFor(cfg: Config, lib: Pydantic, model: ModelClass): (r: ResponseObject)
    ensures r.content.Keys == {JSON_CONTENT}
    ensures r.content[JSON_CONTENT].definitions.None?
    ensures r.content[JSON_CONTENT] == PreparedSchema(cfg, lib, model).(definitions := None)
    ensures PreparedSchema(cfg, lib, model).definitions.Some? ==>
      r.content[JSON_CONTENT].(definitions := Some(ProcessSchema(cfg, lib, model).0)) == PreparedSchema(cfg, lib, model)
    ensures r.description == model.doc
  {
    ResponseObject(map[JSON_CONTENT := ProcessSchema(cfg, lib, model).1], model.doc)
  }

  /** The loop over the declared responses: `responses[status]` set once per
      entry, in order. */
  function ResponseMap(cfg: Config, lib: Pydantic, declared: seq<(StatusKey, ModelClass)>)
    : map<StatusKey, ResponseObject>
    decreases |declared|
  {
    if |declared| == 0 then map[]
    else
      var last := declared[|declared| - 1];
      ResponseMap(cfg, lib, declared[..|declared| - 1])[last.0 := ResponseFor(cfg, lib, last.1)]
  }

  /** Each declared status yields exactly one entry. */
  lemma {:induction false} ResponseMapKeys(cfg: Config, lib: Pydantic, declared: seq<(StatusKey, ModelClass)>)
    ensures forall status :: status in ResponseMap(cfg, lib, declared) <==> status in Keys(declared)
    decreases |declared|
  {
    if |declared| > 0 {
      var front := declared[..|declared| - 1];
      ResponseMapKeys(cfg, lib, front);
      assert Keys(declared) == Keys(front) + [declared[|declared| - 1].0];
    }
  }

  /** A status declared more than once keeps the model of its last entry. */
  lemma {:induction false} ResponseMapLastWins(cfg: Config, lib: Pydantic, declared: seq<(StatusKey, ModelClass)>, i: int)
    requires 0 <= i < |declared|
    requires forall j | i < j < |declared| :: declared[j].0 != declared[i].0
    ensures declared[i].0 in ResponseMap(cfg, lib, declared)
    ensures ResponseMap(cfg, lib, declared)[declared[i].0] == ResponseFor(cfg, lib, declared[i].1)
    decreases |declared|
  {
    if i < |declared| - 1 {
      var front := declared[..|declared| - 1];
      assert front[i] == declared[i];
      ResponseMapLastWins(cfg, lib, front, i);
    }
  }

  /** The definitions the response loop adds, one per declared status, in
      order. */
  function ResponseDefinitions(cfg: Config, lib: Pydantic, declared: seq<(StatusKey, ModelClass)>)
    : (defs: seq<map<string, Json>>)
    ensures |defs| == |declared|
    ensures forall i | 0 <= i < |declared| :: defs[i] == ProcessSchema(cfg, lib, declared[i].1).0
  {
    seq(|declared|, i requires 0 <= i < |declared| => ProcessSchema(cfg, lib, declared[i].1).0)
  }

  /** `requestBody` for a `(body, source)` pair: the content type is JSON
      exactly when the source is this builder's own `DataSource.JSON`. */
  function RequestBody(cfg: Config, lib: Pydantic, variant: Variant, request: (ModelClass, DataSource))
    : (r: map<string, ModelSchema>)
    ensures r.Keys == {if request.1 == JsonSource(variant) then JSON_CONTENT else FORM_CONTENT}
    ensures JSON_CONTENT in r <==> request.1 == JsonSource(variant)
    ensures FORM_CONTENT in r <==> request.1 != JsonSource(variant)
    ensures forall c | c in r :: r[c] == ProcessSchema(cfg, lib, request.0).1
  {
    var encoding := if request.1 == JsonSource(variant) then JSON_CONTENT else FORM_CONTENT;
    map[encoding := ProcessSchema(cfg, lib, request.0).1]
  }

  /** The query-string model's properties, as `in: query` parameters. */
  function QueryProperties(cfg: Config, lib: Pydantic, h: Handlers.Handler): seq<Property> {
    match h.query
    case Some(q) => ProcessSchema(cfg, lib, q).1.properties
    case None => []
  }

  /** `parameters`: one query parameter per property of the query-string
      schema, then one path parameter per converter of the rule. */
  function Parameters(props: seq<Property>, converters: seq<string>): (ps: seq<Parameter>)
    ensures |ps| == |props| + |converters|
    ensures forall i | 0 <= i < |props| :: ps[i] == QueryParameter(props[i].name, props[i].schema)
    ensures forall j | 0 <= j < |converters| :: ps[|props| + j] == PathParameter(converters[j])
  {
    seq(|props|, i requires 0 <= i < |props| => QueryParameter(props[i].name, props[i].schema))
      + seq(|converters|, j requires 0 <= j < |converters| => PathParameter(converters[j]))
  }

  /** The definitions one operation adds to `components.schemas`, in the
      order the builder updates it: responses, request body, query string. */
  function OperationDefinitions(cfg: Config, lib: Pydantic, h: Handlers.Handler): (defs: seq<map<string, Json>>)
    ensures |defs| == |h.responses| + (if h.request.Some? then 1 else 0) + (if h.query.Some? then 1 else 0)
  {
    ResponseDefinitions(cfg, lib, h.responses)
      + (match h.request case Some(req) => [ProcessSchema(cfg, lib, req.0).0] case None => [])
      + (match h.query case Some(q) => [ProcessSchema(cfg, lib, q).0] case None => [])
  }

  /** The body of the method loop for one route and one method: `None`
      when the tag filter drops the method, the operation and its schema
      definitions otherwise. The docstring is split before the filter, so
      an empty docstring fails even on a dropped method. An emitted
      operation has tags only when there are some (and then the filter tag
      among them), a summary and description exactly when the handler has
      a docstring, one parameter per query property and per converter, one
      response per declared status, and a request body exactly when a body
      model is declared, typed JSON only for this builder's own
      `DataSource.JSON`. */
  function OperationFor(cfg: Config, lib: Pydantic, variant: Variant, converters: seq<string>,
                        view: Handlers.ViewFunction, verb: string, expectedTag: Option<string>)
    : (r: Result<Option<(Operation, seq<map<string, Json>>)>, BuildError>)
    ensures r.Failure? <==> HandlerFor(view, verb).doc == Some("")
    ensures r.Failure? ==> r.error == EmptyDocstring
    ensures r.Success? ==> (r.value.None? <==> FilteredOut(expectedTag, TagsFor(view)))
    ensures r.Success? && r.value.Some? ==>
      var op := r.value.value.0;
      var h := HandlerFor(view, verb);
      && (op.tags.Some? <==> |TagsFor(view)| > 0)
      && (op.tags.Some? ==> op.tags.value == TagsFor(view))
      && (expectedTag.Some? && expectedTag.value != "" ==> expectedTag.value in TagsFor(view))
      && (op.summary.Some? <==> h.doc.Some?)
      && (op.description.Some? <==> h.doc.Some?)
      && |op.parameters| == |QueryProperties(cfg, lib, h)| + |converters|
      && (forall status :: status in op.responses <==> status in Keys(h.responses))
      && (op.requestBody.Some? <==> h.request.Some?)
      && (op.requestBody.Some? ==>
            (JSON_CONTENT in op.requestBody.value <==> h.request.value.1 == JsonSource(variant)))
      && r.value.value.1 == OperationDefinitions(cfg, lib, h)
    ensures r.Success? && r.value.Some? ==>
      var op := r.value.value.0;
      var h := HandlerFor(view, verb);
      && op.parameters == Parameters(QueryProperties(cfg, lib, h), converters)
      && op.responses == ResponseMap(cfg, lib, h.responses)
      && (h.request.Some? ==> op.requestBody == Some(RequestBody(cfg, lib, variant, h.request.value)))
    ensures r.Success? && r.value.Some? && HandlerFor(view, verb).doc.Some? ==>
      var op := r.value.value.0;
      var doc := HandlerFor(view, verb).doc.value;
      && SplitDocstring(doc).Success?
      && op.summary == Some(doc[..Text.NextBoundary(doc, 0)])
      && op.description == Some(SplitDocstring(doc).value.1)
  {
    var h := HandlerFor(view, verb);
    var docParts :- match h.doc
      case None => Success(None)
      case Some(doc) =>
        (match SplitDocstring(doc)
         case Success(parts) => Success(Some(parts))
         case Failure(e) => Failure(e));
    var tags := TagsFor(view);
    if FilteredOut(expectedTag, tags) then Success(None)
    else
      ResponseMapKeys(cfg, lib, h.responses);
      var op := Operation(
        Parameters(QueryProperties(cfg, lib, h), converters),
        ResponseMap(cfg, lib, h.responses),
        if docParts.Some? then Some(docParts.value.0) else None,
        if docParts.Some? then Some(docParts.value.1) else None,
        if |tags| > 0 then Some(tags) else None,
        match h.request case Some(req) => Some(RequestBody(cfg, lib, variant, req)) case None => None);
      Success(Some((op, OperationDefinitions(cfg, lib, h))))
  }

  /** core.py's builder files a JSON body declared through validation.py's
      `validate` under the form content type, because it compares against
      utils.py's enum. */
  lemma CoreLabelsValidationJsonAsForm(cfg: Config, lib: Pydantic, model: ModelClass)
    ensures RequestBody(cfg, lib, Core, (model, DataSource(ValidationEnum, JSON))).Keys == {FORM_CONTENT}
    ensures RequestBody(cfg, lib, Extension, (model, DataSource(ValidationEnum, JSON))).Keys == {JSON_CONTENT}
  {
  }

  /** A builder that compares against the enum `validate` records, as
      extension.py's does, files a body declared through validation.py as
      JSON exactly when it was declared JSON. */
  lemma ValidationSourceLabelled(cfg: Config, lib: Pydantic, model: ModelClass, source: DataSource)
    requires source.origin == ValidationEnum
    ensures RequestBody(cfg, lib, Extension, (model, source)).Keys ==
      {if source.member == JSON then JSON_CONTENT else FORM_CONTENT}
  {
  }
}
