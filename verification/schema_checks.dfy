/** The registration-time checks of schema_validator/validation.py, run by
    `validate` when it decorates a handler: query-string models must have
    no required field, form bodies no nested object, and response models
    are normalised into a status-to-model map. */
module SchemaChecks {
  import opened Results
  import opened Models

  /** `check_query_string_schema`: refuse a model whose schema lists any
      required field. */
  function CheckQueryStringSchema(lib: Pydantic, query: Declaration): (r: Result<ModelClass, SchemaError>)
    ensures r.Failure? <==> |lib.modelSchema(ToModel(lib, query), DEFAULT_REF_PREFIX).required| != 0
    ensures r.Failure? ==> r.error == SchemaInvalid
    ensures r.Success? ==> r.value == ToModel(lib, query)
  {
    var model := ToModel(lib, query);
    if |lib.modelSchema(model, DEFAULT_REF_PREFIX).required| != 0 then Failure(SchemaInvalid)
    else Success(model)
  }

  function PropertiesOf(lib: Pydantic, body: Declaration): seq<Property> {
    lib.modelSchema(ToModel(lib, body), DEFAULT_REF_PREFIX).properties
  }

  predicate IsObjectTyped(p: Property) {
    "type" in p.schema && p.schema["type"] == JStr("object")
  }

  /** A property ends the `any(...)` scan over the form schema: either
      `["type"]` fails, or the type is `"object"`. */
  predicate EndsFormScan(p: Property) {
    "type" !in p.schema || p.schema["type"] == JStr("object")
  }

  /** `any(schema["properties"][f]["type"] == "object" for f in ...)`,
      evaluated left to right: `true` at the first object-typed property,
      a `KeyError` at the first property without a type, `false` if
      neither occurs. */
  function AnyNestedObject(props: seq<Property>): (r: Result<bool, SchemaError>)
    ensures r == Success(false) <==> forall i | 0 <= i < |props| :: !EndsFormScan(props[i])
    ensures forall i | 0 <= i < |props| && EndsFormScan(props[i]) &&
        (forall j | 0 <= j < i :: !EndsFormScan(props[j])) ::
      r == if "type" !in props[i].schema then Failure(MissingKey("type")) else Success(true)
    ensures r == Success(true) ==> exists i | 0 <= i < |props| :: IsObjectTyped(props[i])
    ensures r.Failure? ==> r.error == MissingKey("type")
  {
    if |props| == 0 then Success(false)
    else if "type" !in props[0].schema then Failure(MissingKey("type"))
    else if props[0].schema["type"] == JStr("object") then Success(true)
    else
      var rest := AnyNestedObject(props[1..]);
      assert forall i | 1 <= i < |props| :: props[i] == props[1..][i - 1];
      rest
  }

  /** `check_body_schema`, for the `DataSource.FORM` member of the module
      it is written in (`form`). */
  function CheckBodySchemaWith(lib: Pydantic, body: Declaration, source: DataSource, form: DataSource)
    : (r: Result<ModelClass, SchemaError>)
    ensures source != form ==> r == Success(ToModel(lib, body))
    ensures r.Success? ==> r.value == ToModel(lib, body)
    ensures r == Failure(SchemaInvalid) ==>
      source == form && exists i | 0 <= i < |PropertiesOf(lib, body)| :: IsObjectTyped(PropertiesOf(lib, body)[i])
    ensures source == form ==>
      (r.Success? <==> forall i | 0 <= i < |PropertiesOf(lib, body)| :: !EndsFormScan(PropertiesOf(lib, body)[i]))
  {
    var model := ToModel(lib, body);
    if source == form then
      match AnyNestedObject(PropertiesOf(lib, body))
      case Failure(e) => Failure(e)
      case Success(nested) => if nested then Failure(SchemaInvalid) else Success(model)
    else Success(model)
  }

  /** validation.py's `check_body_schema`, comparing against its own
      `DataSource.FORM`. */
  function CheckBodySchema(lib: Pydantic, body: Declaration, source: DataSource): (r: Result<ModelClass, SchemaError>)
    ensures source != DataSource(ValidationEnum, FORM) ==> r == Success(ToModel(lib, body))
    ensures source == DataSource(ValidationEnum, FORM) ==>
      (r.Success? <==> forall i | 0 <= i < |PropertiesOf(lib, body)| :: !EndsFormScan(PropertiesOf(lib, body)[i]))
    ensures r == Failure(SchemaInvalid) ==>
      exists i | 0 <= i < |PropertiesOf(lib, body)| :: IsObjectTyped(PropertiesOf(lib, body)[i])
  {
    CheckBodySchemaWith(lib, body, source, DataSource(ValidationEnum, FORM))
  }

  /** The `responses` argument of `validate`: a single model or a dict. */
  datatype ResponsesDecl =
    | Single(decl: Declaration)
    | ByStatus(entries: seq<(StatusKey, Declaration)>)

  /** validation.py's `check_response_schema`: a single model answers for
      200; a dict keeps its keys as given (a `"200"` key stays a string)
      and only its plain-dataclass values are converted. */
  function CheckResponseSchema(lib: Pydantic, responses: ResponsesDecl): (r: seq<(StatusKey, ModelClass)>)
    ensures responses.Single? ==> r == [(IntKey(200), ToModel(lib, responses.decl))]
    ensures responses.ByStatus? ==> Keys(r) == Keys(responses.entries)
    ensures responses.ByStatus? ==> forall i | 0 <= i < |r| ::
      && (responses.entries[i].1.Validated? ==> r[i].1 == responses.entries[i].1.model)
      && (responses.entries[i].1.Dataclass? ==> r[i].1 == lib.fromDataclass(responses.entries[i].1.dc))
  {
    match responses
    case Single(decl) => [(IntKey(200), ToModel(lib, decl))]
    case ByStatus(entries) => ConvertValues(lib, entries)
  }

  function ConvertValues(lib: Pydantic, entries: seq<(StatusKey, Declaration)>): (r: seq<(StatusKey, ModelClass)>)
    ensures |r| == |entries|
    ensures forall i | 0 <= i < |r| :: r[i] == (entries[i].0, ToModel(lib, entries[i].1))
  {
    if |entries| == 0 then []
    else [(entries[0].0, ToModel(lib, entries[0].1))] + ConvertValues(lib, entries[1..])
  }
}
