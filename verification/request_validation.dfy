/** The `validate` decorator of schema_validator/validation.py: the checks
    it runs when applied, the attributes it attaches for the OpenAPI
    builder, and the per-request wrapper that builds the body and query
    models, answers 400 with every failure it found, and otherwise calls
    the handler and checks its response. */
module RequestValidation {
  import opened Results
  import opened Models
  import Handlers
  import SchemaChecks
  import ResponseCheck

  /** What `validate(...)` keeps after its registration checks. */
  datatype Validator = Validator(
    query: Option<ModelClass>,
    body: Option<ModelClass>,
    source: DataSource,
    responses: Option<seq<(StatusKey, ModelClass)>>)

  /** The registration step of `validate`: the query-string check, then the
      body check, then the response normalisation, each only for an
      argument that was given; the first error aborts. */
  function Validate(lib: Pydantic, query: Option<Declaration>, body: Option<Declaration>,
                    source: DataSource, responses: Option<SchemaChecks.ResponsesDecl>)
    : (r: Result<Validator, SchemaError>)
    ensures query.Some? && SchemaChecks.CheckQueryStringSchema(lib, query.value).Failure? ==>
      r == Failure(SchemaInvalid)
    ensures r.Success? <==>
      && (query.Some? ==> SchemaChecks.CheckQueryStringSchema(lib, query.value).Success?)
      && (body.Some? ==> SchemaChecks.CheckBodySchema(lib, body.value, source).Success?)
    ensures r.Success? ==>
      && r.value.source == source
      && (r.value.query.Some? <==> query.Some?)
      && (query.Some? ==> r.value.query.value == ToModel(lib, query.value))
      && (r.value.body.Some? <==> body.Some?)
      && (body.Some? ==> r.value.body.value == ToModel(lib, body.value))
      && (r.value.responses.Some? <==> responses.Some?)
      && (responses.Some? ==> r.value.responses.value == SchemaChecks.CheckResponseSchema(lib, responses.value))
  {
    var q :- match query
      case None => Success(None)
      case Some(d) =>
        (match SchemaChecks.CheckQueryStringSchema(lib, d)
         case Success(m) => Success(Some(m))
         case Failure(e) => Failure(e));
    var b :- match body
      case None => Success(None)
      case Some(d) =>
        (match SchemaChecks.CheckBodySchema(lib, d, source)
         case Success(m) => Success(Some(m))
         case Failure(e) => Failure(e));
    var rs := match responses
      case None => None
      case Some(decl) => Some(SchemaChecks.CheckResponseSchema(lib, decl));
    Success(Validator(q, b, source, rs))
  }

  /** The decorator proper: attach the query model and the `(body,
      source)` pair when present, and the response map only when it is
      non-empty (`if responses:`). Docstring and tags stay as they were. */
  function Attach(fn: Handlers.Handler, v: Validator): (r: Handlers.Handler)
    ensures r.doc == fn.doc && r.tags == fn.tags
    ensures r.query == if v.query.Some? then v.query else fn.query
    ensures r.request == if v.body.Some? then Some((v.body.value, v.source)) else fn.request
    ensures v.responses.Some? && |v.responses.value| > 0 ==> r.responses == v.responses.value
    ensures (v.responses.None? || |v.responses.value| == 0) ==> r.responses == fn.responses
  {
    var withQuery := if v.query.Some? then fn.(query := v.query) else fn;
    var withBody := if v.body.Some? then withQuery.(request := Some((v.body.value, v.source))) else withQuery;
    if v.responses.Some? && |v.responses.value| > 0 then withBody.(responses := v.responses.value) else withBody
  }

  /** The parts of `request` the wrapper reads: the parsed JSON body
      (`get_json()`, `None` when there is none), the form fields and the
      query arguments. */
  datatype Request = Request(json: PyValue, form: map<string, Json>, args: map<string, Json>)

  /** `g.body_params` and `g.query_params` as the handler finds them. */
  datatype Context = Context(bodyParams: Option<map<string, Json>>, queryParams: Option<map<string, Json>>)

  datatype WrapperOutcome =
    | ValidationFailed(errors: set<string>)  // `{"validation_error": err}, 400`
    | Handled(context: Context, response: ResponseCheck.Outcome)

  /** `model(**data)`: only a mapping can be spread into keyword
      arguments; anything else is a `TypeError`, reported as `None` like a
      `ValidationError`. */
  function Instantiate(lib: Pydantic, model: ModelClass, data: PyValue): (r: Option<map<string, Json>>)
    ensures !data.PyDict? ==> r.None?
    ensures data.PyDict? ==> r == lib.construct(model, data)
  {
    if data.PyDict? then lib.construct(model, data) else None
  }

  /** The payload of the body: `request.get_json()` when the source is
      validation.py's `DataSource.JSON`, `request.form` otherwise, which
      includes utils.py's `DataSource.JSON`. */
  function BodyPayload(req: Request, source: DataSource): (data: PyValue)
    ensures source == DataSource(ValidationEnum, JSON) ==> data == req.json
    ensures source != DataSource(ValidationEnum, JSON) ==> data == PyDict(req.form)
  {
    if source == DataSource(ValidationEnum, JSON) then req.json else PyDict(req.form)
  }

  /** The wrapper around the handler: build the body model and the query
      model, record each failure under its own key, answer 400 if any was
      recorded, and otherwise call the handler once and check its result
      when response models are declared. */
  function Wrap(lib: Pydantic, v: Validator, req: Request,
                handler: Context -> ResponseCheck.ReturnValue): (r: WrapperOutcome)
    ensures r.ValidationFailed? ==>
      ("body_params" in r.errors <==>
         v.body.Some? && Instantiate(lib, v.body.value, BodyPayload(req, v.source)).None?)
    ensures r.ValidationFailed? ==>
      ("query_params" in r.errors <==>
         v.query.Some? && Instantiate(lib, v.query.value, PyDict(req.args)).None?)
    ensures r.ValidationFailed? ==> r.errors != {} && r.errors <= {"body_params", "query_params"}
    ensures r.Handled? <==>
      && (v.body.Some? ==> Instantiate(lib, v.body.value, BodyPayload(req, v.source)).Some?)
      && (v.query.Some? ==> Instantiate(lib, v.query.value, PyDict(req.args)).Some?)
    ensures r.Handled? ==>
      && (v.body.Some? ==> r.context.bodyParams == Instantiate(lib, v.body.value, BodyPayload(req, v.source)))
      && (v.body.None? ==> r.context.bodyParams.None?)
      && (v.query.Some? ==> r.context.queryParams == Instantiate(lib, v.query.value, PyDict(req.args)))
      && (v.query.None? ==> r.context.queryParams.None?)
    ensures r.Handled? ==>
      r.response == if v.responses.Some? && |v.responses.value| > 0
        then ResponseCheck.CheckResponse(lib, handler(r.context), v.responses.value)
        else ResponseCheck.Unchanged(handler(r.context))
  {
    var bodyParams := if v.body.Some? then Instantiate(lib, v.body.value, BodyPayload(req, v.source)) else None;
    var bodyFailed := v.body.Some? && bodyParams.None?;
    var queryParams := if v.query.Some? then Instantiate(lib, v.query.value, PyDict(req.args)) else None;
    var queryFailed := v.query.Some? && queryParams.None?;
    var errors := (if bodyFailed then {"body_params"} else {}) + (if queryFailed then {"query_params"} else {});
    if errors != {} then ValidationFailed(errors)
    else
      var context := Context(bodyParams, queryParams);
      var result := handler(context);
      if v.responses.Some? && |v.responses.value| > 0 then
        Handled(context, ResponseCheck.CheckResponse(lib, result, v.responses.value))
      else Handled(context, ResponseCheck.Unchanged(result))
  }

  /** A failing body does not hide a failing query string: both are
      reported, and the handler is not reached. */
  lemma BothFailuresReported(lib: Pydantic, v: Validator, req: Request,
                             handler: Context -> ResponseCheck.ReturnValue)
    requires v.body.Some? && Instantiate(lib, v.body.value, BodyPayload(req, v.source)).None?
    requires v.query.Some? && Instantiate(lib, v.query.value, PyDict(req.args)).None?
    ensures Wrap(lib, v, req, handler) == ValidationFailed({"body_params", "query_params"})
  {
    var r := Wrap(lib, v, req, handler);
    assert r.ValidationFailed?;
    assert "body_params" in r.errors && "query_params" in r.errors;
  }
}
