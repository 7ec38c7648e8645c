# schema-validator, modelled in Dafny

schema-validator is a Flask/Quart add-on that validates request bodies,
query strings and responses against pydantic models and builds an
OpenAPI 3.0.3 document from the metadata its decorators attach to view
functions. This project models the decision procedures under the glue, as
pure functions over immutable datatypes:

- the registration checks `validate` runs when it decorates a handler, in
  both copies: `schema_validator/validation.py` and `schema_validator/utils.py`
  (modules `SchemaChecks` and `Utils`);
- `check_response`, which resolves the status of a handler's return value
  and coerces or refuses the value (module `ResponseCheck`);
- the `validate` decorator and its per-request wrapper, which collects body
  and query failures before answering 400 (module `RequestValidation`);
- the `tags` decorator (`Utils.Tags`);
- `PATH_RE` and the `re.sub` that turns `<converter:name>` into `{name}`,
  under backtracking regular-expression semantics (module `PathTemplate`);
- `_split_definitions` and `_build_openapi_schema`, which core.py and
  extension.py both define with the same text (modules `OpenApi` for one
  route and method, `OpenApiBuild` for the document).

pydantic (`model_schema`, the dataclass conversion, model construction)
and humps' `camelize` are not modelled. They are passed in as plain
functions: the `Models.Pydantic` record and `OpenApi.Config.camelize`.
`model_schema`'s result is a `Models.ModelSchema` with ordered
`properties`, a `required` list and an optional `definitions` map.

Python dicts whose iteration order the code depends on are sequences of
pairs, with `Models.Put` for `d[k] = v`. These are the response maps and a
schema's `properties`. JSON objects whose order does not matter (`paths`,
`components.schemas`, an operation's `responses`) are Dafny maps.

validation.py and utils.py each declare their own `DataSource` enum, and
members of different enum classes never compare equal. `Models.DataSource`
records which module a member comes from. core.py's builder compares
against utils.py's enum and extension.py's against validation.py's;
`OpenApi.Variant` selects which builder runs.

Where the prose description of the system and the code disagree, the
model follows the code:
- the builder can fail (a missing view function is a `KeyError`, an empty
  docstring a `ValueError`);
- the docstring is split before the tag filter runs, so an empty docstring
  fails even on a method the filter drops;
- only utils.py's response check parses status keys as integers.

## Model

| member | source | states |
|---|---|---|
| Text.NatToString | schema_validator/validation.py:82 | `str(n)` of a natural number is all digits, denotes `n` and has no leading zero |
| Text.IntToStringDigits | schema_validator/validation.py:82 | `str(i).isdigit()` holds exactly for the non-negative ints |
| Text.ParseInt | schema_validator/utils.py:53 | `int(s)` on a string succeeds exactly on an optional sign followed by digit groups joined by single underscores |
| Text.ParseIntOfIntToString | schema_validator/validation.py:82-83 | `int(str(i)) == i` for every int |
| Text.Lower | schema_validator/core.py:269 | `method.lower()` keeps the length, leaves no upper-case letter and changes only upper-case letters |
| Text.SplitLines | schema_validator/core.py:190 | `splitlines()` gives no line for the empty string and at least one otherwise, and no line contains a line boundary |
| Text.JoinSplitLines | schema_validator/core.py:190-191 | joining the lines of a `\n`-separated text with `\n` gives the text back; there is more than one line exactly when the text holds a `\n` |
| PathTemplate.ColonMatch | schema_validator/core.py:29 | the branch of `PATH_RE` that takes the optional `[^:]*:` group: when the text starts with `<`, a first colon and then a closing `>` at least two places later, the capture is the text between them |
| PathTemplate.PlainMatch | schema_validator/core.py:29 | the branch that skips the optional group: the capture is everything between `<` and the first `>`, which must not be empty |
| PathTemplate.MatchAt | schema_validator/core.py:29 | the converter form is preferred, the plain form is used only when no converter form exists, and there is no match exactly when neither exists |
| PathTemplate.NoPlaceholderUnchanged | schema_validator/core.py:267 | a rule without `<` is left unchanged by the substitution |
| PathTemplate.LiteralPrefixCopied | schema_validator/core.py:267 | text before the first `<` is copied unchanged |
| PathTemplate.ConverterForm | schema_validator/core.py:29 | `<converter:name>` at the start of the text matches with the name as capture |
| PathTemplate.ConverterPlaceholder | schema_validator/core.py:267 | a rule with one `<converter:name>` placeholder becomes the same rule with `{name}` in its place |
| PathTemplate.PlainFormOf | schema_validator/core.py:29 | `<name>` with no colon anywhere after it matches with the name as capture |
| PathTemplate.PlainPlaceholder | schema_validator/core.py:267 | a rule with one `<name>` placeholder and no later colon becomes the rule with `{name}` in its place |
| PathTemplate.SpansEarlierPlaceholder | schema_validator/core.py:29 | with the pattern as written, `/<a>/<int:b>` becomes `/{b}`: the first placeholder is swallowed by the converter group of the second |
| PathTemplate.PlaceholderSwallowed | schema_validator/core.py:29 | with the pattern as written, `/<x>/<int:b>` becomes `/{b}` for any one-character name `x` |
| PathTemplate.IntendedKeepsBoth | schema_validator/core.py:29 | with the intended pattern, `/<x>/<int:b>` becomes `/{x}/{b}` |
| PathTemplate.IntendedNamesDiffer | schema_validator/core.py:29 | with the intended pattern, two such rules with different first names get different paths |
| PathTemplate.IntendedColonUnique | schema_validator/core.py:29 | for the intended pattern, the first `:` and the first `>` give the only converter-form match |
| PathTemplate.NoIntendedColon | schema_validator/core.py:29 | for the intended pattern, no `:` before the first `>` means no converter-form match |
| PathTemplate.IntendedMatchAt | schema_validator/core.py:29 | the match of the intended pattern `<(?:[^:>]*:)?([^>]+)>`: the converter form with no `>` before the colon, else the plain form, else none |
| PathTemplate.IntendedLiteralPrefix | schema_validator/core.py:267 | with the intended pattern, text before the first `<` is copied unchanged |
| PathTemplate.IntendedConverterPlaceholder | schema_validator/core.py:267 | with the intended pattern, a leading `<converter:name>` becomes `{name}` and the rest is rewritten on its own, whatever it holds |
| PathTemplate.IntendedPlainPlaceholder | schema_validator/core.py:267 | with the intended pattern, a leading `<name>` becomes `{name}` and the rest is rewritten on its own, whatever it holds |
| PathTemplate.IntendedPlainThenConverter | schema_validator/core.py:267 | with the intended pattern, a plain placeholder followed by a converter placeholder keeps both names |
| PathTemplate.IntendedKeepsEveryPlaceholder | schema_validator/core.py:29 | with the intended pattern, `/<a>/<int:b>` becomes `/{a}/{b}` |
| PathTemplate.AgreeWithoutConverters | schema_validator/extension.py:19 | on rules without a colon the intended pattern and the pattern as written (the same in both builder copies) give the same path |
| Models.ToModel | schema_validator/validation.py:29-30 | a plain dataclass is replaced by its generated pydantic model; a model is kept |
| Models.Put | schema_validator/validation.py:64 | `d[k] = v`: an existing key keeps its place and takes the new value, a new key is appended, and keys stay unique |
| Models.PutKeys | schema_validator/utils.py:57 | after `d[k] = v` the keys are the old keys plus `k` |
| SchemaChecks.CheckQueryStringSchema | schema_validator/validation.py:28-34 | the query-string model is refused exactly when its schema's `required` list is non-empty, and otherwise returned with a dataclass converted |
| SchemaChecks.AnyNestedObject | schema_validator/validation.py:45-48 | the `any(...)` scan, left to right: true at the first object-typed property, a `KeyError` at the first property without a type, false when neither occurs |
| SchemaChecks.CheckBodySchemaWith | schema_validator/validation.py:37-50 | a body with the module's own FORM member is refused when the scan finds a nested object; other sources are never inspected; a refusal implies an object-typed property |
| SchemaChecks.CheckBodySchema | schema_validator/validation.py:37-50 | validation.py's check scans only bodies declared with validation.py's `DataSource.FORM` |
| SchemaChecks.CheckResponseSchema | schema_validator/validation.py:53-66 | a single model answers for 200; a dict keeps its keys as given, in order, and converts only its plain-dataclass values |
| Utils.CheckQueryStringSchema | schema_validator/utils.py:21-24 | utils.py's query-string check only converts a dataclass and refuses nothing |
| Utils.QueryStringChecksAgree | schema_validator/utils.py:21-24 | the two query-string checks agree exactly on the models whose schema has no required field |
| Utils.CheckBodySchema | schema_validator/utils.py:27-40 | utils.py's body check scans only bodies declared with utils.py's `DataSource.FORM` |
| Utils.BodyChecksSeeOnlyTheirOwnEnum | schema_validator/utils.py:35 | a FORM member of the other module's enum passes either check unscanned |
| Utils.ParseStatusKey | schema_validator/utils.py:52-55 | an int key parses to itself; a string key parses exactly when `int()` accepts it; a failure is the invalid-status-code error |
| Utils.ConvertInPlace | schema_validator/utils.py:51-57 | the loop over the dict: on success every key parsed and the keys are unchanged; a dict that grows during the loop means a string key held a dataclass; a parse failure names a key that does not parse |
| Utils.CheckResponseSchema | schema_validator/utils.py:43-59 | a single model answers for 200; a dict is refused when a key does not parse and is otherwise returned with the same keys |
| Utils.IntKeysConvertInPlace | schema_validator/utils.py:51-59 | for a dict keyed by ints, every dataclass value is converted where it stands and every other entry is left as it was |
| Utils.StringKeyDataclassRaises | schema_validator/utils.py:51-57 | as written, `{"200": SomeDataclass}` adds the key `200` while iterating and raises |
| Utils.NormaliseResponses | schema_validator/utils.py:43-59 | the intended normalisation succeeds exactly when every key parses, fails only with the invalid-status-code error, and gives a dict with unique int keys |
| Utils.NormalisedKeys | schema_validator/utils.py:51-53 | the normalised dict has a key for exactly the codes the declared keys parse to |
| Utils.NormalisedLastWins | schema_validator/utils.py:51-57 | each code holds the model of the last declared entry whose key parses to it |
| Utils.StringKeyDataclassNormalised | schema_validator/utils.py:51-57 | `{"200": SomeDataclass}` normalises to the converted model under the int 200 |
| Utils.ResponseChecksAgreeOnIntKeys | schema_validator/utils.py:51-59 | with unique int keys the two response checks give the same entries, entry by entry |
| Utils.DedupTags | schema_validator/utils.py:66 | `list(set(tags))` has no duplicate, and its elements are exactly the given names |
| Utils.Tags | schema_validator/utils.py:62-69 | the same function comes back, with every other attribute unchanged and its tag list replaced by a duplicate-free list of exactly the given names |
| ResponseCheck.Unpack | schema_validator/validation.py:73-77 | a tuple is padded with `None` to three elements and longer ones raise; a single value has `None` for status and headers |
| ResponseCheck.StrForm | schema_validator/validation.py:82 | `str()` of a string is itself; `str()` of an int is all digits exactly when the int is non-negative; other values are never all digits |
| ResponseCheck.ResolveStatus | schema_validator/validation.py:79-83 | the status is the non-negative int given, or the all-digit string given read as a number, and 200 otherwise (`None`, headers, a dict or a list) |
| ResponseCheck.FindModel | schema_validator/validation.py:85-87 | the model of the first entry keyed by exactly the int status; none when no entry is, so a `"200"` key never matches |
| ResponseCheck.Coerce | schema_validator/validation.py:88-103 | a dict goes through the constructor, and a failure is a refusal; an instance of exactly the model is kept; a dataclass goes through the constructor unguarded, so a failure raises; anything else is an invalid response; the status and headers are passed through |
| ResponseCheck.CheckResponse | schema_validator/validation.py:69-104 | more than three tuple elements raise; a status with no declared model returns the result unchanged; otherwise the value is coerced with the model declared first for that status |
| ResponseCheck.PlainValueUsesStatus200 | schema_validator/validation.py:76-79 | a value returned alone is checked against the model for 200, and `None` stands in for the status and headers |
| ResponseCheck.StatusSpellingsAgree | schema_validator/validation.py:80-83 | an int status and its decimal string select the same status |
| ResponseCheck.ExactInstanceKept | schema_validator/validation.py:93-94 | an instance of exactly the declared model is returned as its fields, with the given status and headers |
| RequestValidation.Validate | schema_validator/validation.py:131-138 | registration succeeds exactly when the given query model and body pass their checks; a failing query check is reported first; the kept models are the checked ones |
| RequestValidation.Attach | schema_validator/validation.py:140-147 | the query model, the `(body, source)` pair and a non-empty response map are attached when present; the docstring and tags are left alone |
| RequestValidation.Instantiate | schema_validator/validation.py:155 | `model(**data)` fails on anything that is not a mapping |
| RequestValidation.BodyPayload | schema_validator/validation.py:153 | the JSON body is read only for validation.py's `DataSource.JSON`, and the form data otherwise |
| RequestValidation.Wrap | schema_validator/validation.py:150-176 | `body_params` and `query_params` are each reported exactly when that model fails; any failure answers 400 without calling the handler; otherwise the handler runs once with both models, and its result is checked only when response models are declared |
| RequestValidation.BothFailuresReported | schema_validator/validation.py:151-170 | a failing body does not hide a failing query string: both keys are reported |
| OpenApi.JsonSource | schema_validator/core.py:16 | core.py's builder compares against utils.py's `DataSource.JSON`, and extension.py's against validation.py's |
| OpenApi.SplitDefinitions | schema_validator/core.py:150-153 | the definitions (or `{}`) and the schema without them; putting the definitions back gives the input |
| OpenApi.SplitDocstring | schema_validator/core.py:189-192 | an empty docstring fails to unpack; otherwise the summary is the docstring up to its first line boundary, it holds no line break, and a one-line docstring has an empty description |
| OpenApi.DocstringRoundTrip | schema_validator/core.py:190-192 | for `\n`-separated text, summary plus newline plus description is the docstring; a one-line docstring has an empty description |
| OpenApi.OptionsKey | schema_validator/constants.py:6 | among method names without lower-case letters, only `OPTIONS` lowers to `options` |
| OpenApi.HeadKey | schema_validator/constants.py:6 | among method names without lower-case letters, only `HEAD` lowers to `head` |
| OpenApi.HandlerFor | schema_validator/core.py:178-187 | for a class-based view the class attribute named by the lower-cased method is used, and otherwise the view function |
| OpenApi.TagsFor | schema_validator/core.py:194-197 | tags come from the view class when there is one, never from its methods |
| OpenApi.ProcessSchema | schema_validator/core.py:208-211 | the schema kept is the (camelized) model schema without `definitions`; putting the split-off definitions back gives that schema again, and a schema without definitions splits off none |
| OpenApi.ResponseFor | schema_validator/core.py:208-220 | a response entry has `application/json` as its only content type, its schema is the (camelized) model schema without `definitions`, putting the definitions back gives that schema, and the description is the model's docstring |
| OpenApi.ResponseMapKeys | schema_validator/extension.py:194-200 | the responses have an entry for exactly the declared statuses |
| OpenApi.ResponseMapLastWins | schema_validator/core.py:207-220 | a status declared more than once holds the response of its last entry |
| OpenApi.ResponseDefinitions | schema_validator/core.py:207-212 | one definitions map per declared status, in order, each from that model's schema |
| OpenApi.RequestBody | schema_validator/core.py:222-242 | the request body has one content type: `application/json` exactly when the source is this builder's `DataSource.JSON`, and the form content type otherwise |
| OpenApi.Parameters | schema_validator/core.py:244-266 | one query parameter per query-schema property, in order, then one path parameter per converter, in order |
| OpenApi.OperationDefinitions | schema_validator/core.py:205-251 | one definitions map per response model, plus one for the body and one for the query model when declared |
| OpenApi.OperationFor | schema_validator/core.py:178-266 | fails exactly on an empty docstring; skips the method exactly when a non-empty tag is missing; otherwise tags appear only when non-empty, summary and description exactly when there is a docstring, one response per declared status, a request body exactly when one is declared, and \|properties\| + \|converters\| parameters; the parameters are the query properties then the converters, the responses are the response loop's map, the request body is the declared model's, the summary is the docstring up to its first line boundary and the description the rest |
| OpenApi.CoreLabelsValidationJsonAsForm | schema_validator/core.py:231-234 | a JSON body declared through validation.py is filed under the form content type by core.py's builder and under JSON by extension.py's |
| OpenApi.ValidationSourceLabelled | schema_validator/extension.py:218-221 | with extension.py's comparison, a body declared through validation.py is filed as JSON exactly when it was declared JSON, and as form otherwise |
| OpenApiBuild.ActiveMethods | schema_validator/core.py:177 | `rule.methods - IGNORE_METHODS`: exactly the methods other than `OPTIONS` and `HEAD` |
| OpenApiBuild.AllDefinitions | schema_validator/core.py:212 | every definitions map processed for any operation, and nothing else |
| OpenApiBuild.Build | schema_validator/core.py:271-281 | the document has version `3.0.3`, no tags, the configured title, version and servers |
| OpenApiBuild.AssemblePathsKeys | schema_validator/core.py:268 | `paths` has a key for exactly the normalised paths of the stored operations |
| OpenApiBuild.AssemblePathsMethods | schema_validator/core.py:268-269 | each stored operation is found under its path and method, and each entry is one of them: methods of one path are merged |
| OpenApiBuild.AssemblePathsLastWins | schema_validator/core.py:269 | the operation stored for a path and method is the last one assigned to them |
| OpenApiBuild.AssemblePathsAppend | schema_validator/extension.py:255-256 | operations assigned later replace earlier ones for the same path and method |
| OpenApiBuild.UnionAllKeys | schema_validator/core.py:212 | a name is in `components.schemas` exactly when some merged definitions map has it |
| OpenApiBuild.UnionAllLastWins | schema_validator/core.py:229 | a name keeps the value of the last definitions map that has it |
| OpenApiBuild.MethodLoopSucceeds | schema_validator/core.py:177-192 | the method loop succeeds exactly when every visited method does |
| OpenApiBuild.MethodLoopSound | schema_validator/core.py:177-269 | every operation stored by the method loop is one built for a visited method |
| OpenApiBuild.MethodLoopComplete | schema_validator/core.py:177-269 | every visited method that builds an operation has it stored |
| OpenApiBuild.MethodLoopCongruent | schema_validator/core.py:177-269 | two loop bodies that agree on the visited methods give the same loop |
| OpenApiBuild.RouteLoopSucceeds | schema_validator/core.py:168-175 | the rule loop succeeds exactly when every rule does |
| OpenApiBuild.RouteLoopSnoc | schema_validator/core.py:168 | the rule loop's operations are those of the earlier rules followed by those of the last rule |
| OpenApiBuild.RouteLoopSound | schema_validator/core.py:168-269 | every operation of the rule loop comes from one of its rules |
| OpenApiBuild.RouteLoopComplete | schema_validator/core.py:168-269 | every operation of every rule is among the rule loop's |
| OpenApiBuild.RouteLoopCongruent | schema_validator/core.py:168-269 | two loop steps that agree on the rules give the same loop |
| OpenApiBuild.RouteEmissionsSucceeds | schema_validator/core.py:169-192 | a rule fails exactly when it is not reserved and has no view function or an empty docstring on a visited method |
| OpenApiBuild.RouteEmissionsSound | schema_validator/core.py:169-269 | every operation a rule stores is built for a visited method of that rule, under its normalised path and lower-cased method. Holds for either `OpenApiBuild.Pattern`; with `AsWritten` the path is the one `PATH_RE` gives |
| OpenApiBuild.RouteEmissionsComplete | schema_validator/core.py:169-269 | every visited method of a rule that builds an operation is stored. Holds for either `OpenApiBuild.Pattern`; with `AsWritten` the path is the one `PATH_RE` gives |
| OpenApiBuild.EmissionsSound | schema_validator/core.py:168-269 | every stored operation is built for a visited method of one of the rules. Holds for either `OpenApiBuild.Pattern`; with `AsWritten` the path is the one `PATH_RE` gives |
| OpenApiBuild.EmissionsComplete | schema_validator/core.py:168-269 | every visited method of every rule that builds an operation is stored. Holds for either `OpenApiBuild.Pattern`; with `AsWritten` the path is the one `PATH_RE` gives |
| OpenApiBuild.BuildSucceeds | schema_validator/core.py:168-192 | building fails exactly when some non-reserved rule has no view function or an empty docstring on a visited method, whatever the tag |
| OpenApiBuild.BuildPathsSound | schema_validator/core.py:169-177 | every entry of `paths` is a visited method of a non-reserved rule, never `OPTIONS` or `HEAD`, stored under the rule's normalised path and the lower-cased method. Holds for either `OpenApiBuild.Pattern`; with `AsWritten` the path is the one `PATH_RE` gives |
| OpenApiBuild.BuildPathsComplete | schema_validator/core.py:267-269 | every visited method that builds an operation has an entry under its normalised path and lower-cased method. Holds for either `OpenApiBuild.Pattern`; with `AsWritten` the path is the one `PATH_RE` gives |
| OpenApiBuild.TagFilter | schema_validator/core.py:199-203 | with a non-empty tag, every operation in `paths` carries tags, and they include that tag |
| OpenApiBuild.EmptyTagFiltersNothing | schema_validator/core.py:202 | no tag and the empty tag give the same document |
| OpenApiBuild.OperationForIgnoresEmptyTag | schema_validator/core.py:202 | for one method, no tag and the empty tag give the same result |
| OpenApiBuild.ActiveKeyNotIgnored | schema_validator/core.py:177 | a visited method without lower-case letters never lowers to `options` or `head` |
| OpenApiBuild.NoIgnoredMethodKeys | schema_validator/core.py:177 | when rule methods are upper-case, no path has an `options` or `head` entry |
| OpenApiBuild.MethodKeysLowerCase | schema_validator/core.py:269 | every method key under every path is free of upper-case letters |
| OpenApiBuild.RouteKeysStored | schema_validator/core.py:267-269 | a map that holds everything one rule stored has, under the rule's normalised path, each visited method's operation built for that rule |
| OpenApiBuild.RouteKeyStored | schema_validator/core.py:267-269 | the same for one visited method |
| OpenApiBuild.FirstRouteStored | schema_validator/core.py:267-269 | every visited method of the first rule is under the path that rule normalises to |
| OpenApiBuild.AsWrittenRulesCollide | schema_validator/core.py:267-269 | with `PATH_RE` as written, the rules `/<x>/<int:b>` and `/<y>/<int:b>` both become `/{b}`, and the methods stored there are the operations of the later rule |
| OpenApiBuild.IntendedRulesStayApart | schema_validator/core.py:267-269 | with the intended pattern, the same two rules get the distinct paths `/{x}/{b}` and `/{y}/{b}`, and the first rule's methods stay under its own path |
| OpenApiBuild.LaterRouteOverwrites | schema_validator/extension.py:254-256 | the last rule's operations are the ones stored under its normalised path and methods, whatever earlier rules stored there. Holds for either `OpenApiBuild.Pattern`; with `AsWritten` the path is the one `PATH_RE` gives |
| OpenApiBuild.BuildSchemasSound | schema_validator/core.py:207-251 | every name in `components.schemas` is defined by the response, body or query schema of a documented method |
| OpenApiBuild.BuildSchemasComplete | schema_validator/core.py:207-251 | every name such a schema defines is in `components.schemas`; methods dropped by the tag filter contribute nothing |

## Left out

- Flask/Quart wiring is not modelled: `init_app`, URL registration, the `g` and `request` objects, `jsonify` and the Swagger UI page. It is framework plumbing. `RequestValidation.Request` and `RequestValidation.Context` stand for what the wrapper reads and writes.
- The casing JSON encoder and decoder, and humps' `camelize`, are foreign code. `camelize` is a plain schema-to-schema function in `OpenApi.Config`.
- pydantic is not modelled. `model_schema`, the dataclass conversion and model construction are parameters (`Models.Pydantic`). Error message strings and the `ValidationError` text are not modelled.
- ResponseCheck.Coerce: a mapping the constructor refuses is always a refusal. In the source, `ve.errors()` on a `TypeError` (validation.py:92) crashes instead; only the `ValidationError` path is modelled.
- `asdict`/`.dict()` of the accepted model is modelled as the model's field map.
- schema_validator/command.py (CLI and file output) is not part of this model.
- The HTTP status of a refused response is not modelled. The handler gets the `BadRequest` class itself, and its tests disagree on what reaches the client. `ResponseCheck.Rejected` is only the refusal.
- The `validate_path` and `headers` arguments of `validate` are accepted and ignored by the source, so they are absent here.
- Text.ParseInt: models `int()` on ASCII digits only. It does not model Unicode digits or surrounding whitespace, which Python also accepts.
- Text.Lower: lowers ASCII letters only.
- Text.JoinSplitLines: the round trip is stated only for text whose line breaks are all `\n` and that does not end in one. `Text.SplitLines` itself splits at every boundary `str.splitlines` knows.
- ResponseCheck.StrForm: assumes that `str()` of any value other than an int or a string is never all digits. That holds for bools, floats and `None`, but a user class with its own `__str__` could break it.
- Set iteration order (`rule.methods`, and the set in `tags`) is not modelled. `OpenApiBuild.Route.methods` is a sequence standing for whatever order the set yields; `Utils.DedupTags` may pick any order.
- Schema lookups the builder assumes succeed (`schema["properties"]` for a query model) are modelled as present.
- Nothing in the repository calls utils.py's checks. The corrected `Utils.NormaliseResponses` therefore stands beside `Utils.CheckResponseSchema` rather than replacing it in a caller.
- The builder takes the path pattern as a parameter, `OpenApiBuild.Pattern`: `AsWritten` is `PATH_RE` as the source spells it (`PathTemplate.Substitute`), `Intended` is the corrected pattern (`PathTemplate.SubstituteIntended`, see Findings). Every property of the builder is proved for both. `PathTemplate.AgreeWithoutConverters` shows the two agree on every rule without a converter.
- ResponseCheck.ResolveStatus: a string status counts as a number only when it is ASCII digits. Python's `isdigit` also accepts other Unicode digits. For those the source either reads another decimal value or raises `ValueError` from `int()` (for `"²"`). The model returns 200 for them instead.
- The `tags` decorator is modelled on a function. Applying it to a view class is the same assignment.

## Findings

| source | as written | input that shows it | evidently intended | confidence | as-written member | corrected member |
|---|---|---|---|---|---|---|
| schema_validator/core.py:29 | `PATH_RE = <(?:[^:]*:)?([^>]+)>`: the converter prefix `[^:]*` may run across a `>`, so one match can start at an earlier placeholder and end at a later converter placeholder | the rule `/<a>/<int:b>` becomes `/{b}`, and the `a` placeholder disappears from the documented path (extension.py:19 has the same pattern); two rules `/<a>/<int:b>` and `/<c>/<int:b>` then share the key `/{b}` and the later one overwrites the earlier (`OpenApiBuild.AsWrittenRulesCollide`, against `OpenApiBuild.IntendedRulesStayApart`) | `<(?:[^:>]*:)?([^>]+)>`, giving `/{a}/{b}` | high, not executed | PathTemplate.SpansEarlierPlaceholder | PathTemplate.IntendedKeepsEveryPlaceholder |
| schema_validator/core.py:16 | core.py imports `DataSource` from utils.py and tests `request_data[1] == DataSource.JSON` (core.py:231), but the only decorator that records a body source is validation.py's `validate`, whose `DataSource` is a different enum | a route with `validate(body=M, source=DataSource.JSON)` from the package: core.py's builder files its body under `application/x-www-form-urlencoded` | compare against the enum the decorator records, as extension.py:17 and extension.py:218 do, giving `application/json` | medium, not executed | OpenApi.CoreLabelsValidationJsonAsForm | OpenApi.ValidationSourceLabelled |
| schema_validator/utils.py:51-57 | `responses[code] = ...` stores under `int(status_code)` while iterating `responses.items()`; a string key adds a new key during iteration | `{"200": SomeDataclass}`: the key `200` is added and CPython raises `RuntimeError` (dictionary changed size during iteration) | a dict keyed by `int(key)` with every dataclass converted, as the `Dict[int, ...]` return type says | medium, not executed | Utils.StringKeyDataclassRaises | Utils.StringKeyDataclassNormalised |
