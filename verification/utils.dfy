/** schema_validator/utils.py: the second set of registration checks (no
    required-field check for query strings; response keys must parse as
    integers) and the `tags` decorator. */
module Utils {
  import opened Results
  import opened Models
  import Text
  import SchemaChecks
  import Handlers

  /** utils.py's `check_query_string_schema`: converts a dataclass and
      checks nothing. */
  function CheckQueryStringSchema(lib: Pydantic, query: Declaration): (r: ModelClass)
    ensures query.Validated? ==> r == query.model
    ensures query.Dataclass? ==> r == lib.fromDataclass(query.dc)
  {
    ToModel(lib, query)
  }

  /** The two query-string checks agree exactly on the models without
      required fields; validation.py's refuses all the others. */
  lemma QueryStringChecksAgree(lib: Pydantic, query: Declaration)
    ensures SchemaChecks.CheckQueryStringSchema(lib, query) == Success(CheckQueryStringSchema(lib, query))
      <==> |lib.modelSchema(CheckQueryStringSchema(lib, query), DEFAULT_REF_PREFIX).required| == 0
  {
  }

  /** utils.py's `check_body_schema`: the same scan, but against utils.py's
      own `DataSource.FORM`. */
  function CheckBodySchema(lib: Pydantic, body: Declaration, source: DataSource): (r: Result<ModelClass, SchemaError>)
    ensures source != DataSource(UtilsEnum, FORM) ==> r == Success(ToModel(lib, body))
    ensures source == DataSource(UtilsEnum, FORM) ==>
      (r.Success? <==> forall i | 0 <= i < |SchemaChecks.PropertiesOf(lib, body)| ::
        !SchemaChecks.EndsFormScan(SchemaChecks.PropertiesOf(lib, body)[i]))
    ensures r == Failure(SchemaInvalid) ==>
      exists i | 0 <= i < |SchemaChecks.PropertiesOf(lib, body)| ::
        SchemaChecks.IsObjectTyped(SchemaChecks.PropertiesOf(lib, body)[i])
  {
    SchemaChecks.CheckBodySchemaWith(lib, body, source, DataSource(UtilsEnum, FORM))
  }

  /** A form body declared with validation.py's `DataSource.FORM` is not a
      form body to utils.py's check, and the reverse: each module's check
      only scans for its own enum member. */
  lemma BodyChecksSeeOnlyTheirOwnEnum(lib: Pydantic, body: Declaration)
    ensures CheckBodySchema(lib, body, DataSource(ValidationEnum, FORM)) == Success(ToModel(lib, body))
    ensures SchemaChecks.CheckBodySchema(lib, body, DataSource(UtilsEnum, FORM)) == Success(ToModel(lib, body))
  {
  }

  /** `int(key)` on a response-map key. */
  function ParseStatusKey(key: StatusKey): (r: Result<int, SchemaError>)
    ensures key.IntKey? ==> r == Success(key.code)
    ensures key.StrKey? ==> (r.Success? <==> Text.ParseInt(key.text).Some?)
    ensures r.Failure? ==> r.error == InvalidStatusCode
  {
    match key
    case IntKey(code) => Success(code)
    case StrKey(text) =>
      match Text.ParseInt(text)
      case Some(code) => Success(code)
      case None => Failure(InvalidStatusCode)
  }

  /** The loop `for status_code, v in responses.items()` from position `i`
      on, assigning `responses[int(status_code)]` for dataclass values
      while iterating. Assigning to an existing key replaces its value in
      place; adding a key changes the dict's size, and the iterator raises
      `RuntimeError` when asked for the next entry. */
  function ConvertInPlace(lib: Pydantic, d: seq<(StatusKey, Declaration)>, i: nat)
    : (r: Result<seq<(StatusKey, Declaration)>, SchemaError>)
    requires i <= |d|
    ensures r.Success? ==> Keys(r.value) == Keys(d)
    ensures r.Success? ==> forall j | i <= j < |d| :: ParseStatusKey(d[j].0).Success?
    ensures r == Failure(DictChangedSize) ==>
      exists j | i <= j < |d| :: d[j].0.StrKey? && d[j].1.Dataclass?
    ensures r == Failure(InvalidStatusCode) ==>
      exists j | i <= j < |d| :: ParseStatusKey(d[j].0).Failure?
    ensures r.Failure? ==> r.error == DictChangedSize || r.error == InvalidStatusCode
    decreases |d| - i
  {
    if i == |d| then Success(d)
    else
      match ParseStatusKey(d[i].0)
      case Failure(e) => Failure(e)
      case Success(code) =>
        if d[i].1.Dataclass? then
          var d' := Put(d, IntKey(code), Validated(lib.fromDataclass(d[i].1.dc)));
          if |d'| != |d| then Failure(DictChangedSize)
          else
            ConvertStep(lib, d, d', i, code);
            ConvertInPlace(lib, d', i + 1)
        else ConvertInPlace(lib, d, i + 1)
  }

  /** After an in-place assignment the later entries keep their keys, and a
      dataclass among them is the one that was there before. */
  lemma ConvertStep(lib: Pydantic, d: seq<(StatusKey, Declaration)>, d': seq<(StatusKey, Declaration)>, i: nat, code: int)
    requires i < |d| && d[i].1.Dataclass?
    requires d' == Put(d, IntKey(code), Validated(lib.fromDataclass(d[i].1.dc)))
    requires |d'| == |d|
    ensures Keys(d') == Keys(d)
    ensures forall j | i < j < |d| :: d'[j].0 == d[j].0 && (d'[j].1.Dataclass? ==> d'[j].1 == d[j].1)
  {
  }

  /** utils.py's `check_response_schema`: a single model answers for 200;
      a dict must have integer-like keys, and each dataclass value is
      stored under `int(key)` in the same dict, which is returned. */
  function CheckResponseSchema(lib: Pydantic, responses: SchemaChecks.ResponsesDecl)
    : (r: Result<seq<(StatusKey, Declaration)>, SchemaError>)
    ensures responses.Single? ==> r == Success([(IntKey(200), Validated(ToModel(lib, responses.decl)))])
    ensures responses.ByStatus? && r.Success? ==> Keys(r.value) == Keys(responses.entries)
    ensures responses.ByStatus? && r.Success? ==>
      forall j | 0 <= j < |responses.entries| :: ParseStatusKey(responses.entries[j].0).Success?
    ensures responses.ByStatus? && r == Failure(InvalidStatusCode) ==>
      exists j | 0 <= j < |responses.entries| :: ParseStatusKey(responses.entries[j].0).Failure?
  {
    match responses
    case Single(decl) =>
      var d := [(IntKey(200), Validated(ToModel(lib, decl)))];
      IntKeysConvertInPlace(lib, d, 0);
      ConvertInPlace(lib, d, 0)
    case ByStatus(entries) => ConvertInPlace(lib, entries, 0)
  }

  /** A dict keyed by ints only has every dataclass value converted where
      it stands and everything else left as it was. */
  lemma {:induction false} IntKeysConvertInPlace(lib: Pydantic, d: seq<(StatusKey, Declaration)>, i: nat)
    requires i <= |d| && UniqueKeys(d)
    requires forall j | 0 <= j < |d| :: d[j].0.IntKey?
    ensures ConvertInPlace(lib, d, i).Success?
    ensures ConvertedFrom(lib, d, i, ConvertInPlace(lib, d, i).value)
    decreases |d| - i, 1
  {
    if i == |d| {
      assert ConvertInPlace(lib, d, i) == Success(d);
    } else if d[i].1.Dataclass? {
      IntKeyDataclassConverted(lib, d, i);
    } else {
      IntKeyOtherKept(lib, d, i);
    }
  }

  /** The dataclass case of IntKeysConvertInPlace. */
  lemma {:induction false} IntKeyDataclassConverted(lib: Pydantic, d: seq<(StatusKey, Declaration)>, i: nat)
    requires i < |d| && UniqueKeys(d) && d[i].1.Dataclass?
    requires forall j | 0 <= j < |d| :: d[j].0.IntKey?
    ensures ConvertInPlace(lib, d, i).Success?
    ensures ConvertedFrom(lib, d, i, ConvertInPlace(lib, d, i).value)
    decreases |d| - i, 0
  {
    var d' := d[i := (d[i].0, Validated(lib.fromDataclass(d[i].1.dc)))];
    ConvertIntKeyStep(lib, d, i);
    IntKeysConvertInPlace(lib, d', i + 1);
    ConvertedFromNext(lib, d, i, ConvertInPlace(lib, d', i + 1).value);
  }

  /** The case of IntKeysConvertInPlace where the value is left alone. */
  lemma {:induction false} IntKeyOtherKept(lib: Pydantic, d: seq<(StatusKey, Declaration)>, i: nat)
    requires i < |d| && UniqueKeys(d) && !d[i].1.Dataclass?
    requires forall j | 0 <= j < |d| :: d[j].0.IntKey?
    ensures ConvertInPlace(lib, d, i).Success?
    ensures ConvertedFrom(lib, d, i, ConvertInPlace(lib, d, i).value)
    decreases |d| - i, 0
  {
    ConvertKeepStep(lib, d, i);
    IntKeysConvertInPlace(lib, d, i + 1);
    ConvertedFromSkip(lib, d, i, ConvertInPlace(lib, d, i + 1).value);
  }

  /** An entry that is not a dataclass is passed over. */
  lemma ConvertKeepStep(lib: Pydantic, d: seq<(StatusKey, Declaration)>, i: nat)
    requires i < |d| && d[i].0.IntKey? && !d[i].1.Dataclass?
    ensures ConvertInPlace(lib, d, i) == ConvertInPlace(lib, d, i + 1)
  {
  }

  /** The entry-by-entry result of converting from `i`. */
  predicate ConvertedFrom(lib: Pydantic, d: seq<(StatusKey, Declaration)>, i: nat, r: seq<(StatusKey, Declaration)>) {
    && |r| == |d|
    && forall j | 0 <= j < |d| ::
      r[j] == if i <= j && d[j].1.Dataclass? then (d[j].0, Validated(lib.fromDataclass(d[j].1.dc))) else d[j]
  }

  /** Converting entry `i` and then the entries after it is converting from
      `i`. */
  lemma ConvertedFromNext(lib: Pydantic, d: seq<(StatusKey, Declaration)>, i: nat, r: seq<(StatusKey, Declaration)>)
    requires i < |d| && d[i].1.Dataclass?
    requires ConvertedFrom(lib, d[i := (d[i].0, Validated(lib.fromDataclass(d[i].1.dc)))], i + 1, r)
    ensures ConvertedFrom(lib, d, i, r)
  {
    var d' := d[i := (d[i].0, Validated(lib.fromDataclass(d[i].1.dc)))];
    forall j | 0 <= j < |d|
      ensures r[j] == if i <= j && d[j].1.Dataclass? then (d[j].0, Validated(lib.fromDataclass(d[j].1.dc))) else d[j]
    {
      if j != i {
        assert d'[j] == d[j];
      }
    }
  }

  /** An entry that is not a dataclass is the same before and after. */
  lemma ConvertedFromSkip(lib: Pydantic, d: seq<(StatusKey, Declaration)>, i: nat, r: seq<(StatusKey, Declaration)>)
    requires i < |d| && !d[i].1.Dataclass?
    requires ConvertedFrom(lib, d, i + 1, r)
    ensures ConvertedFrom(lib, d, i, r)
  {
  }

  /** Converting a dataclass under an int key that is already in the dict
      replaces that one entry and carries on with the next. */
  lemma ConvertIntKeyStep(lib: Pydantic, d: seq<(StatusKey, Declaration)>, i: nat)
    requires i < |d| && UniqueKeys(d)
    requires d[i].0.IntKey? && d[i].1.Dataclass?
    ensures var d' := d[i := (d[i].0, Validated(lib.fromDataclass(d[i].1.dc)))];
      && UniqueKeys(d')
      && (forall j | 0 <= j < |d'| :: d'[j].0 == d[j].0)
      && ConvertInPlace(lib, d, i) == ConvertInPlace(lib, d', i + 1)
  {
    var v := Validated(lib.fromDataclass(d[i].1.dc));
    var d' := Put(d, d[i].0, v);
    assert d[i].0 in Keys(d);
    assert d' == d[i := (d[i].0, v)];
  }

  /** `{"200": SomeDataclass}` is refused: the converted model goes under
      the new key `200`, the dict grows during iteration, and CPython
      raises `RuntimeError`. */
  lemma StringKeyDataclassRaises(lib: Pydantic, dc: PlainDataclass)
    ensures CheckResponseSchema(lib, SchemaChecks.ByStatus([(StrKey("200"), Dataclass(dc))])) == Failure(DictChangedSize)
  {
    var d := [(StrKey("200"), Dataclass(dc))];
    TwoHundredParses();
    assert Keys(d) == [StrKey("200")];
    assert |Put(d, IntKey(200), Validated(lib.fromDataclass(dc)))| == 2;
  }

  lemma TwoHundredParses()
    ensures ParseStatusKey(StrKey("200")) == Success(200)
  {
    assert Text.NatToString(200) == "200";
    Text.ParseNonNegative(200);
  }

  /** What the loop above evidently means to compute, given the declared
      `Dict[int, ...]` result: a dict keyed by `int(key)` holding every
      entry's model, a dataclass converted, a later entry for the same
      code replacing an earlier one. It is built as a new dict, so nothing
      is added to the dict being iterated. */
  function NormaliseResponses(lib: Pydantic, entries: seq<(StatusKey, Declaration)>)
    : (r: Result<seq<(int, ModelClass)>, SchemaError>)
    ensures r.Success? <==> forall j | 0 <= j < |entries| :: ParseStatusKey(entries[j].0).Success?
    ensures r.Failure? ==> r.error == InvalidStatusCode
    ensures r.Success? ==> UniqueKeys(r.value)
    decreases |entries|
  {
    if |entries| == 0 then Success([])
    else
      var front := entries[..|entries| - 1];
      var last := entries[|entries| - 1];
      assert forall j | 0 <= j < |front| :: front[j] == entries[j];
      var before :- NormaliseResponses(lib, front);
      var code :- ParseStatusKey(last.0);
      Success(Put(before, code, ToModel(lib, last.1)))
  }

  /** Some declared key parses to `code`. */
  predicate DeclaresCode(entries: seq<(StatusKey, Declaration)>, code: int) {
    exists j | 0 <= j < |entries| :: ParseStatusKey(entries[j].0) == Success(code)
  }

  /** A code is declared by some entry exactly when it is declared before
      the last entry or by the last one. */
  lemma DeclaresCodeSnoc(entries: seq<(StatusKey, Declaration)>, code: int)
    requires |entries| > 0
    ensures DeclaresCode(entries, code) <==>
      DeclaresCode(entries[..|entries| - 1], code) || ParseStatusKey(entries[|entries| - 1].0) == Success(code)
  {
    var front := entries[..|entries| - 1];
    if DeclaresCode(front, code) {
      var j :| 0 <= j < |front| && ParseStatusKey(front[j].0) == Success(code);
      assert entries[j] == front[j];
    }
    if DeclaresCode(entries, code) && ParseStatusKey(entries[|entries| - 1].0) != Success(code) {
      var j :| 0 <= j < |entries| && ParseStatusKey(entries[j].0) == Success(code);
      assert front[j] == entries[j];
    }
  }

  /** The normalised dict has a key for exactly the codes the declared keys
      parse to. */
  lemma {:induction false} NormalisedKeys(lib: Pydantic, entries: seq<(StatusKey, Declaration)>)
    requires NormaliseResponses(lib, entries).Success?
    ensures forall code :: code in Keys(NormaliseResponses(lib, entries).value) <==> DeclaresCode(entries, code)
    decreases |entries|
  {
    if |entries| > 0 {
      var front := entries[..|entries| - 1];
      var last := entries[|entries| - 1];
      assert forall j | 0 <= j < |front| :: front[j] == entries[j];
      NormalisedKeys(lib, front);
      var before := NormaliseResponses(lib, front).value;
      var code := ParseStatusKey(last.0).value;
      var r := NormaliseResponses(lib, entries).value;
      assert r == Put(before, code, ToModel(lib, last.1));
      PutKeys(before, code, ToModel(lib, last.1));
      forall c ensures c in Keys(r) <==> DeclaresCode(entries, c) {
        DeclaresCodeSnoc(entries, c);
      }
    }
  }

  /** The entry stored for a code is the model of the last declared entry
      whose key parses to it. */
  lemma {:induction false} NormalisedLastWins(lib: Pydantic, entries: seq<(StatusKey, Declaration)>, j: int)
    requires NormaliseResponses(lib, entries).Success?
    requires 0 <= j < |entries|
    requires forall k | j < k < |entries| :: ParseStatusKey(entries[k].0) != ParseStatusKey(entries[j].0)
    ensures (ParseStatusKey(entries[j].0).value, ToModel(lib, entries[j].1)) in NormaliseResponses(lib, entries).value
    decreases |entries|
  {
    var front := entries[..|entries| - 1];
    var last := entries[|entries| - 1];
    assert forall i | 0 <= i < |front| :: front[i] == entries[i];
    var before := NormaliseResponses(lib, front).value;
    var code := ParseStatusKey(last.0).value;
    var r := NormaliseResponses(lib, entries).value;
    assert r == Put(before, code, ToModel(lib, last.1));
    if j < |entries| - 1 {
      NormalisedLastWins(lib, front, j);
      var pair := (ParseStatusKey(entries[j].0).value, ToModel(lib, entries[j].1));
      var i :| 0 <= i < |before| && before[i] == pair;
      assert pair.0 != code;
      if code in Keys(before) {
        assert r[i] == pair;
      } else {
        assert r[i] == pair;
      }
    } else {
      if code in Keys(before) {
        var i :| 0 <= i < |before| && before[i].0 == code;
        assert r[i] == (code, ToModel(lib, last.1));
      } else {
        assert r[|before|] == (code, ToModel(lib, last.1));
      }
    }
  }

  /** `{"200": SomeDataclass}` normalises to the converted model under the
      int 200. */
  lemma StringKeyDataclassNormalised(lib: Pydantic, dc: PlainDataclass)
    ensures NormaliseResponses(lib, [(StrKey("200"), Dataclass(dc))]) == Success([(200, lib.fromDataclass(dc))])
  {
    var entries := [(StrKey("200"), Dataclass(dc))];
    var model := lib.fromDataclass(dc);
    TwoHundredParses();
    assert entries[..0] == [];
    assert NormaliseResponses(lib, entries[..0]) == Success([]);
    assert Keys<int, ModelClass>([]) == [];
    assert Put([], 200, model) == [(200, model)];
  }

  /** With integer keys the two response checks agree: utils.py's result
      is validation.py's, entry by entry. */
  lemma ResponseChecksAgreeOnIntKeys(lib: Pydantic, entries: seq<(StatusKey, Declaration)>)
    requires UniqueKeys(entries)
    requires forall j | 0 <= j < |entries| :: entries[j].0.IntKey?
    ensures CheckResponseSchema(lib, SchemaChecks.ByStatus(entries)).Success?
    ensures forall j | 0 <= j < |entries| ::
      CheckResponseSchema(lib, SchemaChecks.ByStatus(entries)).value[j] ==
        (SchemaChecks.CheckResponseSchema(lib, SchemaChecks.ByStatus(entries))[j].0,
         Validated(SchemaChecks.CheckResponseSchema(lib, SchemaChecks.ByStatus(entries))[j].1))
  {
    IntKeysConvertInPlace(lib, entries, 0);
  }

  /** No element twice. */
  predicate NoDuplicates<T(==)>(xs: seq<T>) {
    forall i, j | 0 <= i < j < |xs| :: xs[i] != xs[j]
  }

  /** `list(set(tags))`: every given tag once, in whatever order the set
      iterates. */
  method DedupTags(names: seq<string>) returns (tags: seq<string>)
    ensures NoDuplicates(tags)
    ensures forall t :: t in tags <==> t in names
  {
    var remaining := set n | n in names;
    tags := [];
    while remaining != {}
      invariant NoDuplicates(tags)
      invariant forall t :: t in tags ==> t in names && t !in remaining
      invariant forall t :: t in names ==> t in tags || t in remaining
      invariant forall t :: t in remaining ==> t in names
      decreases remaining
    {
      var t :| t in remaining;
      tags := tags + [t];
      remaining := remaining - {t};
    }
  }

  /** `tags(*names)` applied to a function: the same function comes back,
      with a duplicate-free tag list holding exactly the given names, in
      place of whatever tag list it carried before. */
  method Tags(fn: Handlers.Handler, names: seq<string>) returns (tagged: Handlers.Handler)
    ensures tagged == fn.(tags := tagged.tags)
    ensures NoDuplicates(tagged.tags)
    ensures forall t :: t in tagged.tags <==> t in names
  {
    var list := DedupTags(names);
    tagged := fn.(tags := list);
  }
}
