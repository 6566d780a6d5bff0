/** The values the publisher exchanges with the registry: the server descriptor,
    validation results and issues, the abstract outcome of one HTTP round trip,
    and the errors the client and the commands return, with their texts. */
module Registry {
  import opened Wrappers
  import opened Text

  /** Registry used when the token file names none (its defining file is not part
      of this model; only its being a fixed string matters). */
  const DefaultRegistryURL: string := "https://registry.modelcontextprotocol.io"
  /** The current descriptor schema (defined outside this model). */
  const CurrentSchemaURL: string := "https://static.modelcontextprotocol.io/schemas/2025-12-11/server.schema.json"

  const StatusOK: nat := 200
  const StatusCreated: nat := 201
  const StatusUnprocessableEntity: nat := 422

  const SeverityError: string := "error"
  const SeverityWarning: string := "warning"

  /** The three reference codes that get migration guidance. */
  const RefFieldRequired: string := "schema-field-required"
  const RefVersionDeprecated: string := "schema-version-deprecated"
  const RefExtractionError: string := "schema-version-extraction-error"

  /** The server descriptor as parsed from server.json; other fields pass through. */
  datatype ServerJSON = ServerJSON(schema: string, name: string, description: string, version: string)

  /** The registry's answer to a successful publish. */
  datatype ServerResponse = ServerResponse(server: ServerJSON)

  /** One issue found by the remote validator. Type and severity are free strings
      on the wire, so they stay strings here. */
  datatype Issue = Issue(kind: string, path: string, message: string, severity: string, reference: string)

  datatype ValidationResult = ValidationResult(valid: bool, issues: seq<Issue>)

  /** Where a request failed before any response arrived. */
  datatype SendStage = ParseStage | SerializeStage | CreateStage | TransportStage

  /** The outcome of one HTTP round trip, as the client sees it: no response at all
      (the request failed while being prepared, or in transport), a response whose
      body could not be read, or a response with its raw body and the result of
      decoding that body. */
  datatype Outcome<T> =
    | NoResponse(stage: SendStage, cause: string)
    | BodyUnreadable(status: nat, cause: string)
    | Received(status: nat, body: string, decoded: Result<T, string>)

  /** The errors publishToRegistry and validateViaAPI return. */
  datatype ClientError =
    | RequestFailed(stage: SendStage, cause: string)
    | ReadFailed(cause: string)
    | StatusRejected(status: nat, body: string)
    | PublishBodyInvalid(cause: string)
    | ValidateBodyInvalid(cause: string)
  {
    /** The text of the returned Go error. */
    function Text(): string {
      match this
      case RequestFailed(stage, cause) =>
        (match stage
         case ParseStage => "error parsing server.json file: "
         case SerializeStage => "error serializing request: "
         case CreateStage => "error creating request: "
         case TransportStage => "error sending request: ") + cause
      case ReadFailed(cause) => "error reading response: " + cause
      case StatusRejected(status, body) => "server returned status " + Decimal(status) + (": " + body)
      case PublishBodyInvalid(cause) => cause
      case ValidateBodyInvalid(cause) => "error parsing response: " + cause
    }
  }

  /** The errors PublishCommand and ValidateCommand return. */
  datatype CommandError =
    | PublishFileNotFound
    | PublishFileUnreadable(cause: string)
    | PublishFileInvalid(cause: string)
    | FileNotFound(file: string)
    | FileUnreadable(file: string, cause: string)
    | FileInvalid(cause: string)
    | NoHomeDir(cause: string)
    | NotAuthenticated
    | TokenReadFailed(cause: string)
    | TokenInvalid(cause: string)
    | PublishFailed(publishError: ClientError)
    | ValidateRequestFailed(validateError: ClientError)
    | Formatted(message: string)
    | ValidationFailed
  {
    /** The errors that wrap the cause reported by a file, home-directory or
        token-file operation. */
    predicate CarriesCause() {
      PublishFileUnreadable? || PublishFileInvalid? || FileUnreadable? || FileInvalid?
      || NoHomeDir? || TokenReadFailed? || TokenInvalid?
    }

    /** The text of the returned Go error. */
    function Text(): string {
      match this
      case PublishFileNotFound => "server.json not found. Run 'mcp-publisher init' to create one"
      case PublishFileUnreadable(cause) => "failed to read server.json: " + cause
      case PublishFileInvalid(cause) => "invalid server.json: " + cause
      case FileNotFound(file) => file + " not found, please check the file path"
      case FileUnreadable(file, cause) => "failed to read " + file + ": " + cause
      case FileInvalid(cause) => "invalid JSON: " + cause
      case NoHomeDir(cause) => "failed to get home directory: " + cause
      case NotAuthenticated => "not authenticated. Run 'mcp-publisher login <method>' first"
      case TokenReadFailed(cause) => "failed to read token: " + cause
      case TokenInvalid(cause) => "invalid token data: " + cause
      case PublishFailed(e) => "publish failed: " + e.Text()
      case ValidateRequestFailed(e) => "validation failed: " + e.Text()
      case Formatted(message) => message
      case ValidationFailed => "validation failed"
    }
  }

  /** What the client's error texts keep: every error that wraps a cause ends with
      it, a decode failure of the publish response is the bare cause, and a
      rejected status is named in decimal before the response body. */
  lemma ClientErrorText(e: ClientError)
    ensures !e.StatusRejected? ==> HasSuffix(e.Text(), e.cause)
    ensures e.PublishBodyInvalid? ==> e.Text() == e.cause
    ensures e.StatusRejected? ==>
              HasPrefix(e.Text(), "server returned status " + Decimal(e.status)) && HasSuffix(e.Text(), ": " + e.body)
  {
    match e
    case RequestFailed(stage, cause) =>
      var lead := e.Text()[..|e.Text()| - |cause|];
      SuffixOfConcat(lead, cause);
    case ReadFailed(cause) =>
      SuffixOfConcat("error reading response: ", cause);
    case StatusRejected(status, body) =>
      PrefixOfConcat("server returned status " + Decimal(status), ": " + body);
      SuffixOfConcat("server returned status " + Decimal(status), ": " + body);
    case PublishBodyInvalid(cause) =>
    case ValidateBodyInvalid(cause) =>
      SuffixOfConcat("error parsing response: ", cause);
  }

  /** The commands' wrapping errors: a wrapped client error ends the text, and a
      guidance message is the text itself. */
  lemma CommandErrorWrapsClientError(e: CommandError)
    ensures e.PublishFailed? ==> HasSuffix(e.Text(), e.publishError.Text())
    ensures e.ValidateRequestFailed? ==> HasSuffix(e.Text(), e.validateError.Text())
    ensures e.Formatted? ==> e.Text() == e.message
  {
    match e
    case PublishFailed(c) => SuffixOfConcat("publish failed: ", c.Text());
    case ValidateRequestFailed(c) => SuffixOfConcat("validation failed: ", c.Text());
    case _ =>
  }

  /** The commands' input errors: the cause reported by the file, home-directory
      or token-file operation ends the text, and a missing file's name starts it. */
  lemma CommandErrorKeepsCause(e: CommandError)
    ensures e.CarriesCause() ==> HasSuffix(e.Text(), e.cause)
    ensures e.FileNotFound? ==> HasPrefix(e.Text(), e.file)
  {
    match e
    case PublishFileUnreadable(cause) => SuffixOfConcat("failed to read server.json: ", cause);
    case PublishFileInvalid(cause) => SuffixOfConcat("invalid server.json: ", cause);
    case FileNotFound(file) => PrefixOfConcat(file, " not found, please check the file path");
    case FileUnreadable(file, cause) => SuffixOfConcat("failed to read " + file + ": ", cause);
    case FileInvalid(cause) => SuffixOfConcat("invalid JSON: ", cause);
    case NoHomeDir(cause) => SuffixOfConcat("failed to get home directory: ", cause);
    case TokenReadFailed(cause) => SuffixOfConcat("failed to read token: ", cause);
    case TokenInvalid(cause) => SuffixOfConcat("invalid token data: ", cause);
    case _ =>
  }

  /** The two registry endpoints a command can call. */
  datatype Endpoint = PublishEndpoint | ValidateEndpoint

  /** One HTTP request the client sent: the endpoint, the URL, and the
      Authorization header it carried, if any. */
  datatype Call = Call(endpoint: Endpoint, url: string, authorization: Option<string>)

  /** How many attempted calls went to endpoint `e`. */
  function CallCount(trace: seq<Call>, e: Endpoint): (n: nat)
    ensures n <= |trace|
    ensures n == 0 <==> forall i :: 0 <= i < |trace| ==> trace[i].endpoint != e
  {
    if trace == [] then 0
    else CallCount(trace[..|trace| - 1], e) + (if trace[|trace| - 1].endpoint == e then 1 else 0)
  }

  /** A one-call trace counts that call's endpoint once. */
  lemma CallCountSingle(c: Call, e: Endpoint)
    ensures CallCount([c], e) == if c.endpoint == e then 1 else 0
  {
    assert [c][..0] == [];
  }

  /** A failed validate request surfaces the client error's text after the
      "validation failed: " prefix. */
  lemma ValidateRequestFailedKeepsCause(e: ClientError)
    ensures HasPrefix(ValidateRequestFailed(e).Text(), "validation failed: ")
    ensures Contains(ValidateRequestFailed(e).Text(), e.Text())
  {
    PrefixOfConcat("validation failed: ", e.Text());
    PrefixIsContained(e.Text(), e.Text());
    ContainedInContext("validation failed: ", e.Text(), "", e.Text());
    assert "validation failed: " + e.Text() + "" == ValidateRequestFailed(e).Text();
  }

  /** A publish failure surfaces the original client error's text after the
      "publish failed: " prefix. */
  lemma PublishFailedKeepsCause(e: ClientError)
    ensures HasPrefix(PublishFailed(e).Text(), "publish failed: ")
    ensures Contains(PublishFailed(e).Text(), e.Text())
  {
    PrefixOfConcat("publish failed: ", e.Text());
    PrefixIsContained(e.Text(), e.Text());
    ContainedInContext("publish failed: ", e.Text(), "", e.Text());
    assert "publish failed: " + e.Text() + "" == PublishFailed(e).Text();
  }
}
