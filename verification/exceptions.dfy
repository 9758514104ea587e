/** The Python exceptions the service can raise, what `str(e)` shows for
    each, and the HTTP errors the routers turn them into. */
module Exceptions {

  datatype Exception =
    /** Any failure raised by the AI client (network, provider, timeout). */
    | ProviderError(message: string)
    /** `json.JSONDecodeError` raised by `json.loads`. */
    | JsonDecodeError(message: string)
    /** `KeyError` raised by subscripting a dict with a missing key. */
    | KeyError(key: string)
    /** `TypeError` raised by subscripting a value that is not a dict. */
    | TypeError(message: string)
    /** The response model's validation error for a value of the wrong shape. */
    | ValidationError(message: string)

  /** `str(e)`. A `KeyError` shows the quoted key, as `repr` of a key
      without quote characters does. */
  function Str(e: Exception): (s: string)
    ensures !e.KeyError? ==> s == e.message
    ensures e.KeyError? ==>
      && |s| == |e.key| + 2
      && s[0] == '\'' && s[|s| - 1] == '\''
      && s[1..|s| - 1] == e.key
  {
    match e
    case ProviderError(m) => m
    case JsonDecodeError(m) => m
    case KeyError(k) => "'" + k + "'"
    case TypeError(m) => m
    case ValidationError(m) => m
  }

  /** An `HTTPException(status_code, detail)`. */
  datatype HttpError = HttpError(status: int, detail: string)

  /** `HTTPException(status_code=500, detail=str(e))`. */
  function ServerError(e: Exception): (h: HttpError)
    ensures h.status == 500
  {
    HttpError(500, Str(e))
  }
}
