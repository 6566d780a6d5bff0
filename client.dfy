/** The registry client (publishToRegistry in cmd/publisher/commands/publish.go and
    validateViaAPI in cmd/publisher/commands/validate.go): endpoint URLs, which
    statuses count as success, and which status travels back with an error. The
    HTTP exchange itself is the given Outcome. */
module Client {
  import opened Wrappers
  import opened Text
  import opened Registry

  const PublishPath: string := "v0/publish"
  const ValidatePath: string := "v0/validate"

  /** The registry base URL with "/" appended unless it already ends in one. */
  function WithSlash(base: string): (r: string)
    ensures HasPrefix(r, base) && HasSuffix(r, "/")
    ensures |r| == if HasSuffix(base, "/") then |base| else |base| + 1
  {
    if HasSuffix(base, "/") then base else base + "/"
  }

  /** Normalizing twice is normalizing once. */
  lemma WithSlashIdempotent(base: string)
    ensures WithSlash(WithSlash(base)) == WithSlash(base)
  {
  }

  /** The URL of endpoint `path` under registry `base`. */
  function EndpointURL(base: string, path: string): (r: string)
    ensures HasPrefix(r, base) && HasSuffix(r, "/" + path)
    ensures |r| == |base| + |path| + (if HasSuffix(base, "/") then 0 else 1)
  {
    var b := WithSlash(base);
    assert (b + path)[..|base|] == b[..|base|];
    assert (b + path)[|b + path| - |"/" + path|..] == [b[|b| - 1]] + path;
    b + path
  }

  /** A base with or without its one trailing "/" names the same endpoint;
      normalizing the base first changes nothing. */
  lemma EndpointIgnoresTrailingSlash(base: string, path: string)
    ensures EndpointURL(WithSlash(base), path) == EndpointURL(base, path)
    ensures !HasSuffix(base, "/") ==> EndpointURL(base + "/", path) == EndpointURL(base, path)
  {
    WithSlashIdempotent(base);
    assert HasSuffix(base + "/", "/") by {
      assert (base + "/")[|base + "/"| - 1..] == "/";
    }
  }

  predicate PublishAccepted(status: nat) {
    status == StatusCreated || status == StatusOK
  }

  predicate ValidateAccepted(status: nat) {
    status == StatusOK
  }

  /** Whether an HTTP request actually left the client: every outcome except a
      failure while parsing, serializing or building the request. */
  predicate Sent<T>(o: Outcome<T>) {
    !o.NoResponse? || o.stage == TransportStage
  }

  /** What publishToRegistry returns: the decoded response or an error, and the
      status code that goes back with it. */
  datatype PublishAnswer = PublishAnswer(result: Result<ServerResponse, ClientError>, status: nat)

  /** The publish answer the client derives from an outcome. */
  function PublishAnswerOf(o: Outcome<ServerResponse>): (a: PublishAnswer)
    ensures a.result.Success? <==> o.Received? && PublishAccepted(o.status) && o.decoded.Success?
    ensures a.result.Success? ==> a.result.value == o.decoded.value
    ensures o.NoResponse? ==> a.status == 0 && a.result == Failure(RequestFailed(o.stage, o.cause))
    ensures !o.NoResponse? ==> a.status == o.status
    ensures o.Received? && !PublishAccepted(o.status) ==> a.result == Failure(StatusRejected(o.status, o.body))
    ensures o.BodyUnreadable? ==> a.result == Failure(ReadFailed(o.cause))
    ensures o.Received? && PublishAccepted(o.status) && o.decoded.Failure? ==>
              a.result == Failure(PublishBodyInvalid(o.decoded.error))
  {
    match o
    case NoResponse(stage, cause) => PublishAnswer(Failure(RequestFailed(stage, cause)), 0)
    case BodyUnreadable(status, cause) => PublishAnswer(Failure(ReadFailed(cause)), status)
    case Received(status, body, decoded) =>
      if status != StatusCreated && status != StatusOK then
        PublishAnswer(Failure(StatusRejected(status, body)), status)
      else
        match decoded
        case Success(response) => PublishAnswer(Success(response), status)
        case Failure(cause) => PublishAnswer(Failure(PublishBodyInvalid(cause)), status)
  }

  /** The validation answer the client derives from an outcome. */
  function ValidateAnswerOf(o: Outcome<ValidationResult>): (r: Result<ValidationResult, ClientError>)
    ensures r.Success? <==> o.Received? && ValidateAccepted(o.status) && o.decoded.Success?
    ensures r.Success? ==> r.value == o.decoded.value
    ensures o.NoResponse? ==> r == Failure(RequestFailed(o.stage, o.cause))
    ensures o.Received? && !ValidateAccepted(o.status) ==> r == Failure(StatusRejected(o.status, o.body))
    ensures o.BodyUnreadable? ==> r == Failure(ReadFailed(o.cause))
    ensures o.Received? && ValidateAccepted(o.status) && o.decoded.Failure? ==>
              r == Failure(ValidateBodyInvalid(o.decoded.error))
  {
    match o
    case NoResponse(stage, cause) => Failure(RequestFailed(stage, cause))
    case BodyUnreadable(_, cause) => Failure(ReadFailed(cause))
    case Received(status, body, decoded) =>
      if status != StatusOK then
        Failure(StatusRejected(status, body))
      else
        match decoded
        case Success(result) => Success(result)
        case Failure(cause) => Failure(ValidateBodyInvalid(cause))
  }

  /** A 422 rejection comes back from publish as an error carrying 422, and from
      validate as a plain error. */
  lemma UnprocessableIsAnErrorWithItsStatus(o: Outcome<ServerResponse>, v: Outcome<ValidationResult>)
    requires (o.Received? || o.BodyUnreadable?) && o.status == StatusUnprocessableEntity
    requires (v.Received? || v.BodyUnreadable?) && v.status == StatusUnprocessableEntity
    ensures PublishAnswerOf(o).result.Failure? && PublishAnswerOf(o).status == StatusUnprocessableEntity
    ensures ValidateAnswerOf(v).Failure?
  {
  }

  /** publishToRegistry: normalize the URL, send the descriptor with the bearer
      token, and turn the outcome into an answer. The request, if sent, is `call`. */
  method PublishToRegistry(registryURL: string, token: string, o: Outcome<ServerResponse>)
    returns (answer: PublishAnswer, call: Option<Call>)
    ensures answer == PublishAnswerOf(o)
    ensures call.Some? <==> Sent(o)
    ensures call.Some? ==> call.value == Call(PublishEndpoint, EndpointURL(registryURL, PublishPath), Some("Bearer " + token))
  {
    if o.NoResponse? && o.stage != TransportStage {
      return PublishAnswer(Failure(RequestFailed(o.stage, o.cause)), 0), None;
    }
    var url := registryURL;
    if !HasSuffix(url, "/") {
      url := url + "/";
    }
    var publishURL := url + PublishPath;
    call := Some(Call(PublishEndpoint, publishURL, Some("Bearer " + token)));
    match o {
      case NoResponse(stage, cause) =>
        answer := PublishAnswer(Failure(RequestFailed(stage, cause)), 0);
      case BodyUnreadable(status, cause) =>
        answer := PublishAnswer(Failure(ReadFailed(cause)), status);
      case Received(status, body, decoded) =>
        if status != StatusCreated && status != StatusOK {
          answer := PublishAnswer(Failure(StatusRejected(status, body)), status);
        } else if decoded.Failure? {
          answer := PublishAnswer(Failure(PublishBodyInvalid(decoded.error)), status);
        } else {
          answer := PublishAnswer(Success(decoded.value), status);
        }
    }
  }

  /** validateViaAPI: normalize the URL, send the descriptor without credentials,
      and turn the outcome into a validation result or an error. */
  method ValidateViaAPI(registryURL: string, o: Outcome<ValidationResult>)
    returns (answer: Result<ValidationResult, ClientError>, call: Option<Call>)
    ensures answer == ValidateAnswerOf(o)
    ensures call.Some? <==> Sent(o)
    ensures call.Some? ==> call.value == Call(ValidateEndpoint, EndpointURL(registryURL, ValidatePath), None)
  {
    if o.NoResponse? && o.stage != TransportStage {
      return Failure(RequestFailed(o.stage, o.cause)), None;
    }
    var url := registryURL;
    if !HasSuffix(url, "/") {
      url := url + "/";
    }
    var validateURL := url + ValidatePath;
    call := Some(Call(ValidateEndpoint, validateURL, None));
    match o {
      case NoResponse(stage, cause) =>
        answer := Failure(RequestFailed(stage, cause));
      case BodyUnreadable(_, cause) =>
        answer := Failure(ReadFailed(cause));
      case Received(status, body, decoded) =>
        if status != StatusOK {
          answer := Failure(StatusRejected(status, body));
        } else if decoded.Failure? {
          answer := Failure(ValidateBodyInvalid(decoded.error));
        } else {
          answer := Success(decoded.value);
        }
    }
  }
}
