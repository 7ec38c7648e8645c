/** `check_response` (schema_validator/validation.py): what becomes of a
    handler's return value when response models are declared. The status
    is read from the second element of a returned tuple; the model
    declared for that status, if any, decides whether the value passes
    through, is turned into a plain mapping, or is refused. */
module ResponseCheck {
  import opened Results
  import opened Models
  import Text

  /** A handler's return value: a single value, or a tuple. */
  datatype ReturnValue =
    | Plain(value: PyValue)
    | Tuple(items: seq<PyValue>)

  /** Exceptions that escape `check_response`. */
  datatype ResponseError =
    | TooManyValues     // ValueError unpacking a tuple of more than three
    | DataclassInvalid  // the unguarded `model_cls(**asdict(value))` raising

  /** Why a value was refused with a `validation_error` payload and the
      `BadRequest` marker. */
  datatype Rejection = ConstructionFailed | InvalidResponse

  datatype Outcome =
    | Unchanged(result: ReturnValue)
    | Coerced(body: map<string, Json>, statusOrHeaders: PyValue, headers: PyValue)
    | Rejected(reason: Rejection)
    | Raised(error: ResponseError)

  /** `(value, status_or_headers, headers)`: a tuple padded with `None` to
      three elements, a single value with `None` for the other two. */
  function Unpack(result: ReturnValue): (r: Result<(PyValue, PyValue, PyValue), ResponseError>)
    ensures r.Failure? <==> result.Tuple? && |result.items| > 3
    ensures r.Success? && result.Plain? ==> r.value == (result.value, PyNone, PyNone)
    ensures r.Success? && result.Tuple? ==>
      && (|result.items| > 0 ==> r.value.0 == result.items[0])
      && (|result.items| > 1 ==> r.value.1 == result.items[1])
      && (|result.items| > 2 ==> r.value.2 == result.items[2])
      && (|result.items| <= 0 ==> r.value.0 == PyNone)
      && (|result.items| <= 1 ==> r.value.1 == PyNone)
      && (|result.items| <= 2 ==> r.value.2 == PyNone)
  {
    match result
    case Plain(v) => Success((v, PyNone, PyNone))
    case Tuple(items) =>
      if |items| > 3 then Failure(TooManyValues)
      else
        var padded := items + seq(3 - |items|, _ => PyNone);
        Success((padded[0], padded[1], padded[2]))
  }

  /** `str(v)` where it can be all digits: for an int its decimal spelling,
      for a string the string itself. The other values' `str` forms begin
      with a letter or a bracket, so they are `None` here. */
  function StrForm(v: PyValue): (r: Option<string>)
    ensures v.PyStr? ==> r == Some(v.s)
    ensures v.PyInt? ==> r.Some? && (Text.AllDigits(r.value) <==> v.i >= 0)
    ensures !v.PyStr? && !v.PyInt? ==> r.None?
  {
    match v
    case PyInt(i) =>
      Text.IntToStringDigits(i);
      Some(Text.IntToString(i))
    case PyStr(s) => Some(s)
    case _ => None
  }

  /** The status the response is checked against: 200, unless the second
      element is neither `None` nor headers, a dict or a list, and its
      `str` form is all digits, in which case `int` of it. */
  function ResolveStatus(statusOrHeaders: PyValue): (status: int)
    ensures statusOrHeaders.PyInt? ==>
      status == if statusOrHeaders.i >= 0 then statusOrHeaders.i else 200
    ensures statusOrHeaders.PyStr? ==>
      status == if Text.AllDigits(statusOrHeaders.s) then Text.DecimalValue(statusOrHeaders.s) else 200
    ensures !statusOrHeaders.PyInt? && !statusOrHeaders.PyStr? ==> status == 200
    ensures status >= 0
  {
    if statusOrHeaders.PyNone? || statusOrHeaders.PyHeaders? || statusOrHeaders.PyDict? || statusOrHeaders.PyList? then 200
    else
      match StrForm(statusOrHeaders)
      case Some(text) =>
        if Text.AllDigits(text) then
          Text.DigitsParse(text);
          Text.ParseInt(text).value
        else 200
      case None => 200
  }

  /** The model of the first entry whose key equals the status. An `"200"`
      key never equals the int `200`. */
  function FindModel(responses: seq<(StatusKey, ModelClass)>, status: int): (r: Option<ModelClass>)
    ensures r.None? <==> IntKey(status) !in Keys(responses)
    ensures r.Some? ==> exists i | 0 <= i < |responses| :: responses[i] == (IntKey(status), r.value)
    ensures forall i | 0 <= i < |responses| && responses[i].0 == IntKey(status) &&
        (forall j | 0 <= j < i :: responses[j].0 != IntKey(status)) ::
      r == Some(responses[i].1)
  {
    if IntKey(status) in Keys(responses) then
      var i := IndexOf(responses, IntKey(status));
      FirstKeyIndex(responses, IntKey(status), i);
      Some(responses[i].1)
    else
      assert forall i | 0 <= i < |responses| :: responses[i].0 in Keys(responses);
      None
  }

  /** The first position of a key is the one IndexOf finds. */
  lemma FirstKeyIndex<K, V>(d: seq<(K, V)>, k: K, i: nat)
    requires k in Keys(d) && i == IndexOf(d, k)
    ensures forall i' | 0 <= i' < |d| && d[i'].0 == k && (forall j | 0 <= j < i' :: d[j].0 != k) :: i' == i
  {
  }

  /** The branches of `check_response` once a model is found: a dict is
      passed to the model's constructor (a refusal if that raises), an
      instance of exactly the model class is kept, a plain dataclass goes
      through the constructor unguarded, anything else is refused. The
      accepted model's fields are returned with the original second and
      third elements. */
  function Coerce(lib: Pydantic, model: ModelClass, value: PyValue, statusOrHeaders: PyValue, headers: PyValue): (r: Outcome)
    ensures value.PyDict? ==>
      r == match lib.construct(model, value)
           case Some(fields) => Coerced(fields, statusOrHeaders, headers)
           case None => Rejected(ConstructionFailed)
    ensures value.ModelObject? && value.cls == model ==> r == Coerced(value.fields, statusOrHeaders, headers)
    ensures value.DataclassObject? ==>
      r == match lib.construct(model, PyDict(value.fields))
           case Some(fields) => Coerced(fields, statusOrHeaders, headers)
           case None => Raised(DataclassInvalid)
    ensures r == Rejected(InvalidResponse) <==>
      !value.PyDict? && !(value.ModelObject? && value.cls == model) && !value.DataclassObject?
    ensures r.Coerced? ==> r.statusOrHeaders == statusOrHeaders && r.headers == headers
  {
    match value
    case PyDict(_) =>
      (match lib.construct(model, value)
       case Some(fields) => Coerced(fields, statusOrHeaders, headers)
       case None => Rejected(ConstructionFailed))
    case ModelObject(cls, fields) =>
      if cls == model then Coerced(fields, statusOrHeaders, headers)
      else Rejected(InvalidResponse)
    case DataclassObject(_, fields) =>
      (match lib.construct(model, PyDict(fields))
       case Some(constructed) => Coerced(constructed, statusOrHeaders, headers)
       case None => Raised(DataclassInvalid))
    case _ => Rejected(InvalidResponse)
  }

  /** `check_response(result, response_model)`. */
  function CheckResponse(lib: Pydantic, result: ReturnValue, responses: seq<(StatusKey, ModelClass)>): (r: Outcome)
    ensures result.Tuple? && |result.items| > 3 ==> r == Raised(TooManyValues)
    ensures Unpack(result).Success? ==>
      var (value, statusOrHeaders, headers) := Unpack(result).value;
      var status := ResolveStatus(statusOrHeaders);
      && (IntKey(status) !in Keys(responses) ==> r == Unchanged(result))
      && (forall i | 0 <= i < |responses| && responses[i].0 == IntKey(status) &&
            (forall j | 0 <= j < i :: responses[j].0 != IntKey(status)) ::
          r == Coerce(lib, responses[i].1, value, statusOrHeaders, headers))
    ensures r.Unchanged? ==> r.result == result
  {
    match Unpack(result)
    case Failure(e) => Raised(e)
    case Success(unpacked) =>
      var (value, statusOrHeaders, headers) := unpacked;
      match FindModel(responses, ResolveStatus(statusOrHeaders))
      case None => Unchanged(result)
      case Some(model) => Coerce(lib, model, value, statusOrHeaders, headers)
  }

  /** A value returned alone is checked against the model for 200 and, when
      accepted, comes back with `None` for status and headers. */
  lemma PlainValueUsesStatus200(lib: Pydantic, value: PyValue, responses: seq<(StatusKey, ModelClass)>, model: ModelClass)
    requires UniqueKeys(responses)
    requires (IntKey(200), model) in responses
    ensures CheckResponse(lib, Plain(value), responses) == Coerce(lib, model, value, PyNone, PyNone)
  {
    DeclaredModelFound(responses, 200, model);
  }

  /** In a dict, the model stored for a status is the one found for it. */
  lemma DeclaredModelFound(responses: seq<(StatusKey, ModelClass)>, status: int, model: ModelClass)
    requires UniqueKeys(responses)
    requires (IntKey(status), model) in responses
    ensures FindModel(responses, status) == Some(model)
  {
    var i :| 0 <= i < |responses| && responses[i] == (IntKey(status), model);
    assert forall j | 0 <= j < i :: responses[j].0 != IntKey(status);
  }

  /** A status given as an int or as `str` of that int selects the same
      model: both read as the int when it is non-negative, both as 200
      otherwise. */
  lemma StatusSpellingsAgree(i: int)
    ensures ResolveStatus(PyStr(Text.IntToString(i))) == ResolveStatus(PyInt(i))
  {
    Text.IntToStringDigits(i);
  }

  /** An instance of exactly the declared model passes whatever the
      constructor would have said, keeping the given status and headers. */
  lemma ExactInstanceKept(lib: Pydantic, model: ModelClass, fields: map<string, Json>,
                          statusOrHeaders: PyValue, headers: PyValue, responses: seq<(StatusKey, ModelClass)>)
    requires UniqueKeys(responses)
    requires (IntKey(ResolveStatus(statusOrHeaders)), model) in responses
    ensures CheckResponse(lib, Tuple([ModelObject(model, fields), statusOrHeaders, headers]), responses)
      == Coerced(fields, statusOrHeaders, headers)
  {
    var result := Tuple([ModelObject(model, fields), statusOrHeaders, headers]);
    var status := ResolveStatus(statusOrHeaders);
    assert Unpack(result) == Success((ModelObject(model, fields), statusOrHeaders, headers));
    DeclaredModelFound(responses, status, model);
    assert Coerce(lib, model, ModelObject(model, fields), statusOrHeaders, headers) == Coerced(fields, statusOrHeaders, headers);
  }
}
