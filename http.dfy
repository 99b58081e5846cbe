/**
 * The request and response shapes the two middlewares work on: query-string
 * values, stored documents, the list-result envelope, the error body, and
 * the request and response objects of the HTTP framework.
 */
module Http {
  import opened Wrappers

  /**
   * A query-string value as the query-string parser delivers it: plain text,
   * or a nested object for bracketed names (`price[lte]=10` gives
   * `price: Object({"lte": Text("10")})`).
   */
  datatype Param = Text(text: string) | Object(fields: map<string, Param>)

  /** The parsed query string, `req.query`. */
  type Query = map<string, Param>

  /** A stored document; the middleware never looks inside one. */
  type Document = map<string, Param>

  /** JavaScript truthiness of a parameter that may be absent: present and not the empty string. */
  predicate Truthy(p: Option<Param>) {
    p.Some? && (p.value.Object? || p.value.text != [])
  }

  /** The value `query[key]`, or `None` for `undefined`. */
  function Get(query: Query, key: string): (r: Option<Param>)
    ensures r.Some? <==> key in query
    ensures r.Some? ==> r.value == query[key]
  {
    if key in query then Some(query[key]) else None
  }

  /** A link to a neighbouring page: `{page, limit}`. */
  datatype PageLink = PageLink(page: int, limit: int)

  /** `pagination`: each link is present only when that page exists. */
  datatype Pagination = Pagination(next: Option<PageLink>, prev: Option<PageLink>)

  /** `res.advancedResults`: `{success, count, pagination, data}`. */
  datatype Envelope = Envelope(success: bool, count: nat, pagination: Pagination, data: seq<Document>)

  /** An error message: a text, or the list of messages of a validation error. */
  datatype Message = Plain(text: string) | Messages(items: seq<string>)

  /** The JSON body of an error response: `{success, error}`. */
  datatype ErrorBody = ErrorBody(success: bool, error: Message)

  /** The incoming request; the middlewares only read its query. */
  class Request {
    var query: Query

    constructor (query: Query)
      ensures this.query == query
    {
      this.query := query;
    }
  }

  /** The outgoing response, with the parts the middlewares write. */
  class Response {
    var statusCode: int
    var body: Option<ErrorBody>
    var advancedResults: Option<Envelope>

    constructor ()
      ensures statusCode == 200 && body == None && advancedResults == None
    {
      statusCode := 200;
      body := None;
      advancedResults := None;
    }
  }
}
