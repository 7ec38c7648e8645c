/** The data the core handles: Python values a handler may return, JSON,
    model classes and the JSON schema pydantic derives from them, and the
    handful of pydantic entry points the core calls, passed in as plain
    functions because their internals are not part of this model. */
module Models {
  import opened Results

  /** JSON as pydantic and `jsonify` produce it. */
  datatype Json =
    | JNull
    | JBool(b: bool)
    | JNum(n: int)
    | JStr(s: string)
    | JArr(items: seq<Json>)
    | JObj(fields: map<string, Json>)

  /** A validated model class (a pydantic `BaseModel` subclass, or the
      pydantic dataclass / `__pydantic_model__` generated from a plain one),
      identified by name, with its `__doc__`. */
  datatype ModelClass = ModelClass(name: string, doc: Option<string>)

  /** A standard-library dataclass, not yet turned into a pydantic model. */
  datatype PlainDataclass = PlainDataclass(name: string)

  /** What a user may pass as a model: `is_builtin_dataclass` decides which. */
  datatype Declaration =
    | Dataclass(dc: PlainDataclass)
    | Validated(model: ModelClass)

  /** Which module's `DataSource` enum a member comes from. validation.py and
      utils.py each declare their own; members of different enum classes
      never compare equal. */
  datatype EnumOrigin = ValidationEnum | UtilsEnum

  datatype SourceMember = FORM | JSON

  datatype DataSource = DataSource(origin: EnumOrigin, member: SourceMember)

  /** One entry of a schema's `properties`: the name and the property's own
      JSON-schema object (which may or may not hold a `"type"` key). */
  datatype Property = Property(name: string, schema: map<string, Json>)

  /** The dict `model_schema` returns, as far as the core looks into it:
      `properties` in declaration order, `required` (absent reads as empty),
      the `definitions` entry if present, and every other key. */
  datatype ModelSchema = ModelSchema(
    properties: seq<Property>,
    required: seq<string>,
    definitions: Option<map<string, Json>>,
    others: map<string, Json>)

  /** A key of a response map: handlers may declare `{200: M}` or `{"200": M}`. */
  datatype StatusKey = IntKey(code: int) | StrKey(text: string)

  /** A Python value as the response machinery sees it. */
  datatype PyValue =
    | PyNone
    | PyInt(i: int)
    | PyStr(s: string)
    | PyDict(entries: map<string, Json>)
    | PyList(items: seq<Json>)
    | PyHeaders(pairs: seq<(string, string)>)
    | ModelObject(cls: ModelClass, fields: map<string, Json>)
    | DataclassObject(dc: PlainDataclass, fields: map<string, Json>)
    | PyOther

  /** pydantic, reduced to the calls the core makes:
      - `modelSchema(m, refPrefix)` is `model_schema(m, ref_prefix=...)`;
      - `fromDataclass(d)` is `pydantic_dataclass(d).__pydantic_model__`;
      - `construct(m, payload)` is `m(**payload)`, giving the instance's
        field values, or `None` for the `TypeError`/`ValidationError` it
        raises. */
  datatype Pydantic = Pydantic(
    modelSchema: (ModelClass, string) -> ModelSchema,
    fromDataclass: PlainDataclass -> ModelClass,
    construct: (ModelClass, PyValue) -> Option<map<string, Json>>)

  /** The prefix pydantic puts in `$ref`s when the caller gives none. */
  const DEFAULT_REF_PREFIX := "#/definitions/"

  /** The dataclass-to-model step every registration check starts with. */
  function ToModel(lib: Pydantic, d: Declaration): (m: ModelClass)
    ensures d.Validated? ==> m == d.model
    ensures d.Dataclass? ==> m == lib.fromDataclass(d.dc)
  {
    match d
    case Dataclass(dc) => lib.fromDataclass(dc)
    case Validated(model) => model
  }

  /** Python dict order matters where the core iterates a dict, so such
      dicts are sequences of entries; these are the dict operations used. */
  function Keys<K, V>(d: seq<(K, V)>): (ks: seq<K>)
    ensures |ks| == |d|
    ensures forall i | 0 <= i < |d| :: ks[i] == d[i].0
  {
    if |d| == 0 then [] else [d[0].0] + Keys(d[1..])
  }

  /** A dict never holds the same key twice. */
  predicate UniqueKeys<K(==), V>(d: seq<(K, V)>) {
    forall i, j | 0 <= i < j < |d| :: d[i].0 != d[j].0
  }

  /** `d[k] = v`: an existing key keeps its place and gets the new value,
      a new key goes to the end. */
  function Put<K(==), V>(d: seq<(K, V)>, k: K, v: V): (r: seq<(K, V)>)
    ensures k !in Keys(d) ==> r == d + [(k, v)]
    ensures k in Keys(d) ==> |r| == |d| && Keys(r) == Keys(d)
    ensures k in Keys(d) ==> forall i | 0 <= i < |d| :: r[i] == d[i] || r[i] == (k, v)
    ensures UniqueKeys(d) ==> UniqueKeys(r)
    ensures UniqueKeys(d) ==> forall i | 0 <= i < |d| ::
      r[i] == if d[i].0 == k then (k, v) else d[i]
  {
    if k in Keys(d) then
      var i := IndexOf(d, k);
      var r := d[i := (k, v)];
      assert Keys(r) == Keys(d);
      r
    else
      var r := d + [(k, v)];
      assert UniqueKeys(d) ==> UniqueKeys(r) by {
        if UniqueKeys(d) {
          forall j | 0 <= j < |d| ensures d[j].0 != k {
            assert Keys(d)[j] == d[j].0;
          }
        }
      }
      r
  }

  /** Where `k` first appears in the dict. */
  function IndexOf<K(==), V>(d: seq<(K, V)>, k: K): (i: nat)
    requires k in Keys(d)
    ensures i < |d| && d[i].0 == k
    ensures forall j | 0 <= j < i :: d[j].0 != k
    decreases |d|
  {
    if d[0].0 == k then 0
    else
      assert Keys(d) == [d[0].0] + Keys(d[1..]);
      1 + IndexOf(d[1..], k)
  }

  /** After `d[k] = v` the keys are the old ones and `k`. */
  lemma PutKeys<K, V>(d: seq<(K, V)>, k: K, v: V)
    ensures forall x :: x in Keys(Put(d, k, v)) <==> x in Keys(d) || x == k
  {
    if k !in Keys(d) {
      assert Keys(d + [(k, v)]) == Keys(d) + [k];
    }
  }

  /** The registration-time errors (raised at decoration time). */
  datatype SchemaError =
    | SchemaInvalid            // SchemaInvalidError
    | MissingKey(key: string)  // KeyError from a schema lookup
    | InvalidStatusCode        // ValueError("invalid status_code: ...")
    | DictChangedSize          // RuntimeError from mutating a dict while iterating it
}
