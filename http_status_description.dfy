/**
 * The reason phrases of RFC 2616 section 6.1.1, stored as one row per
 * hundred (1xx .. 5xx) and looked up by code / 100 and code % 100.
 */
module HttpStatusDescription {
  import opened Common

  const Row1: seq<Option<string>> := [Some("Continue"), Some("Switching Protocols"), Some("Processing")]
  const Row2: seq<Option<string>> :=
    [Some("OK"), Some("Created"), Some("Accepted"), Some("Non-Authoritative Information"), Some("No Content"),
     Some("Reset Content"), Some("Partial Content"), Some("Multi-Status")]
  const Row3: seq<Option<string>> :=
    [Some("Multiple Choices"), Some("Moved Permanently"), Some("Found"), Some("See Other"), Some("Not Modified"),
     Some("Use Proxy"), None, Some("Temporary Redirect")]
  const Row4: seq<Option<string>> :=
    [Some("Bad Request"), Some("Unauthorized"), Some("Payment Required"), Some("Forbidden"), Some("Not Found"),
     Some("Method Not Allowed"), Some("Not Acceptable"), Some("Proxy Authentication Required"),
     Some("Request Timeout"), Some("Conflict"), Some("Gone"), Some("Length Required"),
     Some("Precondition Failed"), Some("Request Entity Too Large"), Some("Request-Uri Too Long"),
     Some("Unsupported Media Type"), Some("Requested Range Not Satisfiable"), Some("Expectation Failed"),
     None, None, None, None, Some("Unprocessable Entity"), Some("Locked"), Some("Failed Dependency"), None]
  const Row5: seq<Option<string>> :=
    [Some("Internal Server Error"), Some("Not Implemented"), Some("Bad Gateway"), Some("Service Unavailable"),
     Some("Gateway Timeout"), Some("Http Version Not Supported"), None, Some("Insufficient Storage")]

  /** The table the static constructor fills; row 0 is never read. */
  const Descriptions: seq<seq<Option<string>>> := [[], Row1, Row2, Row3, Row4, Row5]

  /** The phrase for a status code, or None (null) when the code has none. */
  function Get(code: int): (r: Option<string>)
    ensures code < 100 || code >= 600 ==> r.None?
    ensures r.Some? ==> code % 100 < |Descriptions[code / 100]|
  {
    if 100 <= code < 600 then
      var index := code / 100;
      var slot := code % 100;
      if slot < |Descriptions[index]| then Descriptions[index][slot] else None
    else None
  }

  /** The codes of RFC 2616 section 6.1.1 (with the WebDAV additions) and their phrases, code by code. */
  function Phrase(code: int): Option<string>
  {
    match code
    case 100 => Some("Continue")
    case 101 => Some("Switching Protocols")
    case 102 => Some("Processing")
    case 200 => Some("OK")
    case 201 => Some("Created")
    case 202 => Some("Accepted")
    case 203 => Some("Non-Authoritative Information")
    case 204 => Some("No Content")
    case 205 => Some("Reset Content")
    case 206 => Some("Partial Content")
    case 207 => Some("Multi-Status")
    case 300 => Some("Multiple Choices")
    case 301 => Some("Moved Permanently")
    case 302 => Some("Found")
    case 303 => Some("See Other")
    case 304 => Some("Not Modified")
    case 305 => Some("Use Proxy")
    case 307 => Some("Temporary Redirect")
    case 400 => Some("Bad Request")
    case 401 => Some("Unauthorized")
    case 402 => Some("Payment Required")
    case 403 => Some("Forbidden")
    case 404 => Some("Not Found")
    case 405 => Some("Method Not Allowed")
    case 406 => Some("Not Acceptable")
    case 407 => Some("Proxy Authentication Required")
    case 408 => Some("Request Timeout")
    case 409 => Some("Conflict")
    case 410 => Some("Gone")
    case 411 => Some("Length Required")
    case 412 => Some("Precondition Failed")
    case 413 => Some("Request Entity Too Large")
    case 414 => Some("Request-Uri Too Long")
    case 415 => Some("Unsupported Media Type")
    case 416 => Some("Requested Range Not Satisfiable")
    case 417 => Some("Expectation Failed")
    case 422 => Some("Unprocessable Entity")
    case 423 => Some("Locked")
    case 424 => Some("Failed Dependency")
    case 500 => Some("Internal Server Error")
    case 501 => Some("Not Implemented")
    case 502 => Some("Bad Gateway")
    case 503 => Some("Service Unavailable")
    case 504 => Some("Gateway Timeout")
    case 505 => Some("Http Version Not Supported")
    case 507 => Some("Insufficient Storage")
    case _ => None
  }

  /** The table lookup gives exactly the phrase list: a phrase for every listed code and null for every other code. */
  lemma GetAgreesWithPhrases(code: int)
    ensures Get(code) == Phrase(code)
  {
    if 100 <= code < 600 {
      var q := code / 100;
      var k := code % 100;
      assert code == 100 * q + k;
      if q == 1 {
        if k == 0 {
          assert code == 100;
        } else if k == 1 {
          assert code == 101;
        } else if k == 2 {
          assert code == 102;
        }
      } else if q == 2 {
        if k < 8 { assert k in {0, 1, 2, 3, 4, 5, 6, 7}; }
      } else if q == 3 {
        if k < 8 { assert k in {0, 1, 2, 3, 4, 5, 6, 7}; }
      } else if q == 4 {
        if k < 26 {
          assert k in {0, 1, 2, 3, 4, 5, 6, 7, 8, 9, 10, 11, 12, 13, 14, 15, 16, 17, 18, 19, 20, 21, 22, 23, 24, 25};
        }
      } else {
        if k < 8 { assert k in {0, 1, 2, 3, 4, 5, 6, 7}; }
      }
    }
  }
}
