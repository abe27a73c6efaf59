/** The parts of a servlet exchange the core reads and writes: request cookies and headers, the
    response's status, headers, content type, encoding and body, and the rest of the filter chain. */
module Servlet {
  import opened Wrappers

  /** The `HttpStatus` values the core writes. */
  const OK := 200
  const UNAUTHORIZED := 401
  const FORBIDDEN := 403
  const INTERNAL_SERVER_ERROR := 500

  datatype Cookie = Cookie(name: string, value: string)

  /** An inbound request. `cookies` is `None` when the request carries no cookie array at all. */
  datatype HttpServletRequest = HttpServletRequest(
    requestUri: string,
    headers: map<string, string>,
    cookies: Option<seq<Cookie>>)

  /** The observable state of a response. */
  datatype ResponseState = ResponseState(
    status: int,
    headers: map<string, string>,
    contentType: Option<string>,
    characterEncoding: Option<string>,
    body: string)

  /** A response as the servlet container hands it out: nothing written yet, status 200. */
  const FreshResponse := ResponseState(OK, map[], None, None, "")

  /** The response being built for one request, updated in place. */
  class HttpServletResponse {
    var status: int
    var headers: map<string, string>
    var contentType: Option<string>
    var characterEncoding: Option<string>
    var body: string

    function State(): ResponseState
      reads this
    {
      ResponseState(status, headers, contentType, characterEncoding, body)
    }

    constructor ()
      ensures State() == FreshResponse
    {
      status, headers, contentType, characterEncoding, body := OK, map[], None, None, "";
    }

    method SetStatus(sc: int)
      modifies this
      ensures State() == old(State()).(status := sc)
    {
      status := sc;
    }

    method SetContentType(ct: string)
      modifies this
      ensures State() == old(State()).(contentType := Some(ct))
    {
      contentType := Some(ct);
    }

    method SetCharacterEncoding(enc: string)
      modifies this
      ensures State() == old(State()).(characterEncoding := Some(enc))
    {
      characterEncoding := Some(enc);
    }

    /** `setHeader`: replaces any earlier value of the header. */
    method SetHeader(name: string, value: string)
      modifies this
      ensures State() == old(State()).(headers := old(headers)[name := value])
    {
      headers := headers[name := value];
    }

    /** `getWriter().write(text)`: appends to the body. */
    method Write(text: string)
      modifies this
      ensures State() == old(State()).(body := old(body) + text)
    {
      body := body + text;
    }

    /** Takes over a state computed by a collaborator whose writes are not modelled one by one. */
    method Assign(next: ResponseState)
      modifies this
      ensures State() == next
    {
      status, headers, contentType, characterEncoding, body :=
        next.status, next.headers, next.contentType, next.characterEncoding, next.body;
    }
  }

  /** The rest of the filter chain; `calls` counts how often the request was passed on. */
  class FilterChain {
    var calls: nat

    constructor ()
      ensures calls == 0
    {
      calls := 0;
    }

    method DoFilter(req: HttpServletRequest, res: HttpServletResponse)
      modifies this
      ensures calls == old(calls) + 1
    {
      calls := calls + 1;
    }
  }
}
