/**
 * The status branch of `fetch_article` (resume_articles.py:119-143): what
 * the HTTP exchange gave back, and whether a page body comes out of it.
 */
module Fetching {
  import opened Wrappers

  /** What the GET request produced: a response, or an exception on the way. */
  datatype FetchResponse =
    | HttpResponse(status: int, body: string)
    | TransportFault(message: string)

  /** Access refused by the site: 401 Unauthorized or 403 Forbidden. */
  predicate IsRestricted(status: int) {
    status == 401 || status == 403
  }

  /**
   * The HTML of the page, or `None`: restricted statuses, every other status
   * than 200 and every transport exception give no body.
   */
  function FetchArticle(response: FetchResponse): (html: Option<string>)
    ensures html.Some? <==> response.HttpResponse? && response.status == 200
    ensures html.Some? ==> html.value == response.body
    ensures response.HttpResponse? && IsRestricted(response.status) ==> html == None
  {
    match response
    case TransportFault(_) => None
    case HttpResponse(status, body) =>
      if IsRestricted(status) then None
      else if status != 200 then None
      else Some(body)
  }
}
