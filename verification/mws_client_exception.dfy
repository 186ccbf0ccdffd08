/**
 * The exception thrown for an error document returned by the service
 * (src/AmazonMwsClientException.php). It reads its fields out of the parsed
 * error tree once, at construction, and is never changed afterwards.
 */
module MwsErrors {
  import opened Wrappers
  import opened ByteStrings
  import opened Xml

  /** The response headers, each name with its list of values. */
  type Headers = seq<(Bytes, seq<Bytes>)>

  /** The status code: `Unavailable` stands for the source's default of -1. */
  datatype StatusCode = Unavailable | Reported(code: Bytes)

  class MwsClientException {
    /** The error document and headers it was built from. */
    ghost const error: Node
    ghost const headers: Headers

    const message: Bytes
    const statusCode: StatusCode
    const errorCode: Option<Bytes>
    const errorType: Option<Bytes>
    const requestId: Option<Bytes>
    const responseHeaders: Option<Headers>

    /** The fields hold what the constructor extracted from `error` and `headers`. */
    ghost predicate Valid() {
      && message == TextAt(error, ["Error", "Message"]).GetOr([])
      && errorType == TextAt(error, ["Error", "Type"])
      && statusCode == (match TextAt(error, ["Error", "Code"])
                        case None => Unavailable
                        case Some(c) => Reported(c))
      && errorCode == None
      && requestId == TextAt(error, ["RequestID"])
      && responseHeaders == (if |headers| == 0 then None else Some(headers))
    }

    /**
     * Every field starts at its default and is overwritten only when the
     * matching element is present (or, for the headers, when there are any).
     * A missing `Error/Message` reads as the empty string.
     */
    constructor (error: Node, responseHeaders: Headers)
      ensures this.error == error && this.headers == responseHeaders
      ensures Valid()
    {
      this.error := error;
      this.headers := responseHeaders;
      message := TextAt(error, ["Error", "Message"]).GetOr([]);
      statusCode := Unavailable;
      errorCode := None;
      errorType := None;
      requestId := None;
      this.responseHeaders := None;
      var errorTypeText := TextAt(error, ["Error", "Type"]);
      if errorTypeText.Some? {
        errorType := errorTypeText;
      }
      var codeText := TextAt(error, ["Error", "Code"]);
      if codeText.Some? {
        statusCode := Reported(codeText.value);
      }
      var requestIdText := TextAt(error, ["RequestID"]);
      if requestIdText.Some? {
        requestId := requestIdText;
      }
      if |responseHeaders| > 0 {
        this.responseHeaders := Some(responseHeaders);
      }
    }

    /** The error code is never set, so it is always absent. */
    function GetErrorCode(): (r: Option<Bytes>)
      requires Valid()
      ensures r == None
    {
      errorCode
    }

    /** The `Type` of the error (Sender, Receiver or Unknown), if reported. */
    function GetErrorType(): (r: Option<Bytes>)
      requires Valid()
      ensures r.Some? <==> Descend(error, ["Error", "Type"]).Some?
      ensures r.Some? ==> r.value == Descend(error, ["Error", "Type"]).value.text
    {
      errorType
    }

    /** The text of the error's `Message`, empty when there is none. */
    function GetErrorMessage(): (r: Bytes)
      requires Valid()
      ensures Descend(error, ["Error", "Message"]).Some? ==>
        r == Descend(error, ["Error", "Message"]).value.text
      ensures Descend(error, ["Error", "Message"]).None? ==> r == []
    {
      message
    }

    /** The error's `Code` if reported, otherwise the "unavailable" marker. */
    function GetStatusCode(): (r: StatusCode)
      requires Valid()
      ensures r.Unavailable? <==> Descend(error, ["Error", "Code"]).None?
      ensures r.Reported? ==> r.code == Descend(error, ["Error", "Code"]).value.text
    {
      statusCode
    }

    /** The `RequestID` beside the `Error` element, if present. */
    function GetRequestId(): (r: Option<Bytes>)
      requires Valid()
      ensures r.Some? <==> Child(error, "RequestID").Some?
      ensures r.Some? ==> r.value == Child(error, "RequestID").value.text
    {
      assert Descend(error, ["RequestID"]) == Child(error, "RequestID") by {
        assert ["RequestID"][1..] == [];
      }
      requestId
    }

    /** The response headers, kept only when there were any. */
    function GetResponseHeaders(): (r: Option<Headers>)
      requires Valid()
      ensures r.Some? <==> |headers| > 0
      ensures r.Some? ==> r.value == headers
    {
      responseHeaders
    }
  }
}
