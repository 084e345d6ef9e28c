/**
 * The constants of sws/defines.h shared by the server drafts: status lines,
 * the three date formats of an If-Modified-Since value, and the request
 * method codes.
 */
module Defines {

  const CRLF: string := "\r\n"

  /** The status lines the server emits. */
  datatype Status = S200 | S304 | S400 | S403 | S404 | S500 | S501 {
    function Text(): string {
      match this
      case S200 => "200 OK"
      case S304 => "304 Not Modified"
      case S400 => "400 Bad Request"
      case S403 => "403 Forbidden"
      case S404 => "404 Not Found"
      case S500 => "500 Internal Server Error"
      case S501 => "501 Not Implemented"
    }
  }

  /** The strptime formats tried on an If-Modified-Since value. */
  datatype DateFormat = Rfc1123 | Rfc850 | Asctime {
    function Pattern(): string {
      match this
      case Rfc1123 => "%a, %d %b %Y %T GMT"
      case Rfc850 => "%A, %d-%b-%y %T GMT"
      case Asctime => "%a %b %e %T %Y"
    }
  }

  /** Request method codes as stored in `req->method`. */
  const GET: int := 0
  const HEAD: int := 1
  const POST: int := 2
}
