/** A view function as the OpenAPI builder sees it: its docstring and the
    attributes the decorators attach to it (`_schema_tag_schemas`,
    `_schema_response_schemas`, `_schema_request_schema`,
    `_schema_querystring_schema`), and the class-based views whose methods
    carry those attributes instead. */
module Handlers {
  import opened Results
  import opened Models

  /** The decorated function. An attribute that was never attached reads
      as the builder's `getattr` default: no tags, no responses, no request
      body, no query-string model. */
  datatype Handler = Handler(
    doc: Option<string>,
    tags: seq<string>,
    responses: seq<(StatusKey, ModelClass)>,
    request: Option<(ModelClass, DataSource)>,
    query: Option<ModelClass>)

  /** A class-based view: the tags attached to the class, and its methods
      by attribute name (`get`, `post`, ...). */
  datatype ViewClass = ViewClass(tags: seq<string>, methods: map<string, Handler>)

  /** An entry of `app.view_functions`: the function, and its `view_class`
      when it was made from a class-based view. */
  datatype ViewFunction = ViewFunction(fn: Handler, viewClass: Option<ViewClass>)
}
