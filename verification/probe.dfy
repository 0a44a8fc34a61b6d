/**
 * The result-mapping step of the two HEAD probes, `remoteSize` and
 * `supportsResume`. The network round trip is outside the model: its outcome
 * arrives as an optional response (`None` when the request failed or timed
 * out without one).
 */
module Probe {
  import opened Wrappers

  newtype int64 = x: int | -0x8000_0000_0000_0000 <= x < 0x8000_0000_0000_0000

  /** `NSURLSessionTransferSizeUnknown`. Foundation also reports it as the length of a response without Content-Length. */
  const TransferSizeUnknown: int64 := -1

  /** HTTP 206 Partial Content: the server honoured the byte range. */
  const PartialContent: int := 206

  /** The status the source substitutes when there is no HTTP response. */
  const NoStatus: int := -1

  /**
   * A `URLResponse`. `statusCode` is present exactly when the response is an
   * `HTTPURLResponse`.
   */
  datatype Response = Response(expectedContentLength: int64, statusCode: Option<int>)

  /** `response?.expectedContentLength ?? NSURLSessionTransferSizeUnknown`. */
  function RemoteSize(response: Option<Response>): (size: int64)
    ensures response.None? ==> size == TransferSizeUnknown
    ensures response.Some? ==> size == response.value.expectedContentLength
  {
    match response
    case None => TransferSizeUnknown
    case Some(r) => r.expectedContentLength
  }

  /** `(response as? HTTPURLResponse)?.statusCode ?? -1`. */
  function StatusCode(response: Option<Response>): (code: int)
    ensures response.Some? && response.value.statusCode.Some? ==> code == response.value.statusCode.value
    ensures response.None? || response.value.statusCode.None? ==> code == NoStatus
  {
    match response
    case None => NoStatus
    case Some(r) => r.statusCode.GetOr(NoStatus)
  }

  /** `responseCode == 206`: true only for an HTTP response with status 206. */
  function SupportsResume(response: Option<Response>): (supported: bool)
    ensures supported <==> response.Some? && response.value.statusCode == Some(PartialContent)
  {
    StatusCode(response) == PartialContent
  }

  /**
   * A failed request and a response without a declared length give the same
   * answer: the caller cannot tell the two apart.
   */
  lemma SizeUnknownIff(response: Option<Response>)
    ensures RemoteSize(response) == TransferSizeUnknown <==>
      response.None? || response.value.expectedContentLength == TransferSizeUnknown
  {
  }

  /** Any status other than 206, including 200 and the missing-response sentinel, means no resume support. */
  lemma OtherStatusNoResume(response: Option<Response>)
    requires StatusCode(response) != PartialContent
    ensures !SupportsResume(response)
  {
  }

  /** A response that is not an HTTP response never reports resume support, whatever its length. */
  lemma NonHttpNoResume(length: int64)
    ensures !SupportsResume(Some(Response(length, None)))
    ensures !SupportsResume(None)
  {
  }
}
