/**
 * The HTTP helper of the iOS client (CombineNetworkHelper.swift): building a
 * request, classifying a response by its status code (section 15 of RFC 9110),
 * and turning whatever the pipeline throws into a ResourceError.
 *
 * JSON decoding is not modelled: a decoder is a function from the body bytes to
 * either the decoded value or the description of the decoding error.
 */
module Network {
  import opened Common
  import StringUtils

  type Data = seq<bv8>

  /** The error taxonomy the app shows to the user. */
  datatype ResourceError = ErrorToUser(message: string) | ServerError(message: string) | Other(message: string)

  /** What the pipeline can throw: a ResourceError, or a foreign error (a decoding failure) with its description. */
  datatype Thrown = Resource(error: ResourceError) | Foreign(description: string)

  /** A Swift `throws` function's outcome: a returned value or a thrown error. */
  datatype Outcome<T> = Returned(value: T) | Threw(thrown: Thrown)

  /** The URLResponse of a data task: an HTTP response with its status code, or anything else. */
  datatype UrlResponse = NonHttp | Http(statusCode: int)

  /** A decoder: the decoded value, or the description of why the body does not decode. */
  type Decoder<T> = Data -> Result<T, string>

  function Decode<T>(decoder: Decoder<T>, data: Data): Outcome<T>
  {
    match decoder(data)
    case Ok(v) => Returned(v)
    case Err(description) => Threw(Foreign(description))
  }

  /**
   * `handleResponse`: 2xx decodes the body; 422 decodes the error body and throws
   * its message to the user; 5xx throws a server error naming the code; every
   * other status, and a response that is not HTTP, throws `other`.
   * `errorMessage` decodes the body as an ErrorResponse and yields its `message`.
   */
  function HandleResponse<T>(data: Data, response: UrlResponse, decoder: Decoder<T>, errorMessage: Decoder<string>): (r: Outcome<T>)
    ensures r.Returned? <==> response.Http? && 200 <= response.statusCode <= 299 && decoder(data).Ok?
    ensures r.Returned? ==> r.value == decoder(data).value
    ensures r.Threw? && r.thrown.Resource? && r.thrown.error.ErrorToUser? <==>
              response.Http? && response.statusCode == 422 && errorMessage(data).Ok?
    ensures r.Threw? && r.thrown.Resource? && r.thrown.error.ErrorToUser? ==>
              r.thrown.error.message == errorMessage(data).value
    ensures r.Threw? && r.thrown.Resource? && r.thrown.error.ServerError? <==>
              response.Http? && 500 <= response.statusCode <= 599
    ensures r.Threw? && r.thrown.Foreign? ==>
              response.Http? && ((200 <= response.statusCode <= 299 && decoder(data).Err?)
                                 || (response.statusCode == 422 && errorMessage(data).Err?))
    ensures response.NonHttp? ==> r == Threw(Resource(Other("Network request error")))
    ensures (response.Http? && !(200 <= response.statusCode <= 299) && response.statusCode != 422
             && !(500 <= response.statusCode <= 599)) ==> r == Threw(Resource(Other("Unknown error")))
  {
    match response
    case NonHttp => Threw(Resource(Other("Network request error")))
    case Http(statusCode) =>
      if 200 <= statusCode <= 299 then
        Decode(decoder, data)
      else if statusCode == 422 then
        match Decode(errorMessage, data)
        case Returned(message) => Threw(Resource(ErrorToUser(message)))
        case Threw(e) => Threw(e)
      else if 500 <= statusCode <= 599 then
        Threw(Resource(ServerError("Server Error: " + StringUtils.Decimal(statusCode))))
      else
        Threw(Resource(Other("Unknown error")))
  }

  /** `handleMappingError`: a ResourceError passes unchanged, anything else becomes `other` with its description. */
  function HandleMappingError(e: Thrown): (r: ResourceError)
    ensures e.Resource? ==> r == e.error
    ensures e.Foreign? ==> r == Other(e.description)
  {
    match e
    case Resource(error) => error
    case Foreign(description) => Other(description)
  }

  /** The `tryMap` / `mapError` pipeline of `performRequest`: a value, or the mapped ResourceError. */
  function Perform<T>(data: Data, response: UrlResponse, decoder: Decoder<T>, errorMessage: Decoder<string>): Result<T, ResourceError>
  {
    match HandleResponse(data, response, decoder, errorMessage)
    case Returned(v) => Ok(v)
    case Threw(e) => Err(HandleMappingError(e))
  }

  /** A 422 whose body decodes reaches the user with the body's message verbatim. */
  lemma UnprocessableReachesUser<T>(data: Data, decoder: Decoder<T>, errorMessage: Decoder<string>)
    requires errorMessage(data).Ok?
    ensures Perform(data, Http(422), decoder, errorMessage) == Err(ErrorToUser(errorMessage(data).value))
  {
  }

  /** A 422 whose body does not decode ends as `other` with the decoding error, never as `errorToUser`. */
  lemma UndecodableUnprocessableIsOther<T>(data: Data, decoder: Decoder<T>, errorMessage: Decoder<string>)
    requires errorMessage(data).Err?
    ensures Perform(data, Http(422), decoder, errorMessage) == Err(Other(errorMessage(data).error))
  {
  }

  /** Every failure of the pipeline is one of the three ResourceError kinds, and the kind follows the status class. */
  lemma PerformClassifies<T>(data: Data, response: UrlResponse, decoder: Decoder<T>, errorMessage: Decoder<string>)
    ensures var r := Perform(data, response, decoder, errorMessage);
      && (r.Ok? <==> response.Http? && 200 <= response.statusCode <= 299 && decoder(data).Ok?)
      && (r.Err? && r.error.ErrorToUser? ==> response.Http? && response.statusCode == 422)
      && (r.Err? && r.error.ServerError? <==> response.Http? && 500 <= response.statusCode <= 599)
      && (r.Err? && r.error.ServerError? ==> r.error.message == "Server Error: " + StringUtils.Decimal(response.statusCode))
  {
  }

  /** A request as URLRequest holds it; a header field maps to its (possibly comma-joined) value. */
  datatype Request = Request(url: Url, httpMethod: string, headers: map<string, string>, body: Option<Data>)

  /** URLRequest's `addValue`: appends to an existing value with a comma, or sets the field. */
  function AddValue(headers: map<string, string>, field: string, value: string): map<string, string>
  {
    headers[field := if field in headers then headers[field] + "," + value else value]
  }

  /** The fields createRequest sets before the caller's: Accept, Content-Type and, with a token, Authorization. */
  function DefaultHeaders(token: Option<string>): map<string, string>
  {
    var h := map["Accept" := "application/json", "Content-Type" := "application/json"];
    if token.Some? then h["Authorization" := "Bearer " + token.value] else h
  }

  /**
   * `createRequest`: the given method and body; Accept and Content-Type set to
   * application/json; `Authorization: Bearer <token>` exactly when a token is
   * stored; then every caller header added after these (appended to a value
   * already present). The caller's dictionary is visited in no particular order.
   */
  method CreateRequest(url: Url, httpMethod: string, headers: map<string, string>, body: Option<Data>, token: Option<string>)
    returns (request: Request)
    ensures request.url == url && request.httpMethod == httpMethod && request.body == body
    ensures request.headers.Keys == DefaultHeaders(token).Keys + headers.Keys
    ensures forall f :: f in headers && f !in DefaultHeaders(token) ==> request.headers[f] == headers[f]
    ensures forall f :: f in DefaultHeaders(token) && f !in headers ==> request.headers[f] == DefaultHeaders(token)[f]
    ensures forall f :: f in DefaultHeaders(token) && f in headers ==>
              request.headers[f] == DefaultHeaders(token)[f] + "," + headers[f]
    ensures "Authorization" !in headers ==> ("Authorization" in request.headers <==> token.Some?)
    ensures "Authorization" !in headers && token.Some? ==> request.headers["Authorization"] == "Bearer " + token.value
    ensures "Accept" !in headers ==> request.headers["Accept"] == "application/json"
    ensures "Content-Type" !in headers ==> request.headers["Content-Type"] == "application/json"
  {
    request := Request(url, "", map[], None);
    request := request.(httpMethod := httpMethod);
    request := request.(headers := AddValue(request.headers, "Accept", "application/json"));
    request := request.(headers := request.headers["Content-Type" := "application/json"]);
    if token.Some? {
      request := request.(headers := request.headers["Authorization" := "Bearer " + token.value]);
    }
    assert request.headers == DefaultHeaders(token);

    var remaining := headers.Keys;
    while remaining != {}
      invariant remaining <= headers.Keys
      invariant request.url == url && request.httpMethod == httpMethod && request.body == None
      invariant request.headers.Keys == DefaultHeaders(token).Keys + (headers.Keys - remaining)
      invariant forall f :: f in request.headers && f !in headers.Keys - remaining ==> request.headers[f] == DefaultHeaders(token)[f]
      invariant forall f :: f in headers.Keys - remaining && f !in DefaultHeaders(token) ==> request.headers[f] == headers[f]
      invariant forall f :: f in headers.Keys - remaining && f in DefaultHeaders(token) ==>
                  request.headers[f] == DefaultHeaders(token)[f] + "," + headers[f]
      decreases remaining
    {
      var field :| field in remaining;
      request := request.(headers := AddValue(request.headers, field, headers[field]));
      remaining := remaining - {field};
    }
    request := request.(body := body);
    DefaultHeadersSpec(token);
  }

  lemma DefaultHeadersSpec(token: Option<string>)
    ensures "Accept" in DefaultHeaders(token) && DefaultHeaders(token)["Accept"] == "application/json"
    ensures "Content-Type" in DefaultHeaders(token) && DefaultHeaders(token)["Content-Type"] == "application/json"
    ensures "Authorization" in DefaultHeaders(token) <==> token.Some?
    ensures token.Some? ==> DefaultHeaders(token)["Authorization"] == "Bearer " + token.value
  {
    assert "Authorization" != "Accept" && "Authorization" != "Content-Type" by {
      assert "Authorization"[1] != "Accept"[1];
      assert "Authorization"[0] != "Content-Type"[0];
    }
  }
}
