/** The publish command (PublishCommand in cmd/publisher/commands/publish.go):
    pick the file, read the descriptor and the token, publish once, and on a 422
    rejection ask the validate endpoint once for the reasons. */
module PublishCmd {
  import opened Wrappers
  import opened Text
  import opened Registry
  import opened Formatter
  import opened Client
  import opened Inputs
  import opened ValidateCmd

  /** How a publish run begins: it stops with an error before any request, or it is
      ready to publish this descriptor to this registry with this token. */
  datatype PublishStart = Halted(err: CommandError) | Armed(server: ServerJSON, registry: string, token: string)

  /** The steps before the publish request: file argument, descriptor file, home
      directory and the token file, which publishing cannot do without. */
  function PublishStartOf(args: seq<string>, env: Env): (s: PublishStart)
    ensures s.Armed? ==> FileAt(env, PublishFileArg(args)) == Parsed(s.server) && env.homeError.None?
    ensures s.Armed? ==> env.tokenFile.TokenMap?
    ensures s.Armed? ==> s.registry == RegistryFromToken(env.tokenFile.entries)
    ensures s.Armed? ==> s.token == Lookup(env.tokenFile.entries, "token")
    ensures FileAt(env, PublishFileArg(args)).Parsed? && env.homeError.None? && env.tokenFile == NoTokenFile ==>
              s == Halted(NotAuthenticated)
    ensures FileAt(env, PublishFileArg(args)) == Missing ==> s == Halted(PublishFileNotFound)
    ensures FileAt(env, PublishFileArg(args)).Unreadable? ==>
              s == Halted(PublishFileUnreadable(FileAt(env, PublishFileArg(args)).cause))
    ensures FileAt(env, PublishFileArg(args)).Malformed? ==>
              s == Halted(PublishFileInvalid(FileAt(env, PublishFileArg(args)).cause))
    ensures FileAt(env, PublishFileArg(args)).Parsed? && env.homeError.Some? ==> s == Halted(NoHomeDir(env.homeError.value))
    ensures FileAt(env, PublishFileArg(args)).Parsed? && env.homeError.None? && env.tokenFile.TokenUnreadable? ==>
              s == Halted(TokenReadFailed(env.tokenFile.cause))
    ensures FileAt(env, PublishFileArg(args)).Parsed? && env.homeError.None? && env.tokenFile.TokenMalformed? ==>
              s == Halted(TokenInvalid(env.tokenFile.cause))
    ensures FileAt(env, PublishFileArg(args)).Parsed? && env.homeError.None? && env.tokenFile.TokenMap? ==> s.Armed?
  {
    match FileAt(env, PublishFileArg(args))
    case Missing => Halted(PublishFileNotFound)
    case Unreadable(cause) => Halted(PublishFileUnreadable(cause))
    case Malformed(cause) => Halted(PublishFileInvalid(cause))
    case Parsed(server) =>
      if env.homeError.Some? then Halted(NoHomeDir(env.homeError.value))
      else match env.tokenFile
        case NoTokenFile => Halted(NotAuthenticated)
        case TokenUnreadable(cause) => Halted(TokenReadFailed(cause))
        case TokenMalformed(cause) => Halted(TokenInvalid(cause))
        case TokenMap(entries) => Armed(server, RegistryFromToken(entries), Lookup(entries, "token"))
  }

  /** The decision after the publish request: the command's error, and whether the
      fallback validate request is made. */
  datatype Verdict = Verdict(err: Option<CommandError>, fallback: bool)

  /** The 422 fallback. `publish` is what publishToRegistry returned; `check` is what
      validateViaAPI returns if it is asked, and is consulted only then. */
  function PublishVerdict(publish: PublishAnswer, check: Result<ValidationResult, ClientError>, schema: string): (v: Verdict)
    ensures v.fallback <==> publish.result.Failure? && publish.status == StatusUnprocessableEntity
    ensures v.err.None? <==> publish.result.Success?
    ensures publish.result.Failure? && !v.fallback ==> v.err == Some(PublishFailed(publish.result.error))
    ensures v.fallback && (check.Failure? || check.value.valid) ==> v.err == Some(PublishFailed(publish.result.error))
    ensures v.fallback && check.Success? && !check.value.valid ==> v.err == ValidateVerdict(check, schema)
  {
    match publish.result
    case Success(_) => Verdict(None, false)
    case Failure(err) =>
      if publish.status != StatusUnprocessableEntity then Verdict(Some(PublishFailed(err)), false)
      else match check
        case Failure(_) => Verdict(Some(PublishFailed(err)), true)
        case Success(result) =>
          var msg := Guidance(result.issues, schema);
          if !result.valid then
            Verdict(Some(if msg != "" then Formatted(msg) else ValidationFailed), true)
          else
            Verdict(Some(PublishFailed(err)), true)
  }

  /** The success path: with the descriptor, the home directory and the token file
      in hand, the command publishes, and a 200 or 201 response whose body decodes
      ends the run without error and without a validate request. */
  lemma PublishSucceeds(args: seq<string>, env: Env, check: Result<ValidationResult, ClientError>)
    requires FileAt(env, PublishFileArg(args)).Parsed? && env.homeError.None? && env.tokenFile.TokenMap?
    requires env.publish.Received? && PublishAccepted(env.publish.status) && env.publish.decoded.Success?
    ensures var s := PublishStartOf(args, env);
      && s.Armed?
      && var v := PublishVerdict(PublishAnswerOf(env.publish), check, s.server.schema);
      && v.err.None?
      && !v.fallback
  {
  }

  /** A failure other than 422 is reported as "publish failed: " plus the client's
      own error text, with no validate request. */
  lemma Non422IsPublishFailed(publish: PublishAnswer, check: Result<ValidationResult, ClientError>, schema: string)
    requires publish.result.Failure? && publish.status != StatusUnprocessableEntity
    ensures var v := PublishVerdict(publish, check, schema);
      && !v.fallback
      && HasPrefix(v.err.value.Text(), "publish failed: ")
      && Contains(v.err.value.Text(), publish.result.error.Text())
  {
    PublishFailedKeepsCause(publish.result.error);
  }

  /** The fallback never hides the publish error: when the validate request fails,
      or says the descriptor is valid, the original error is what comes back. */
  lemma FallbackNeverMasks(publish: PublishAnswer, check: Result<ValidationResult, ClientError>, schema: string)
    requires publish.result.Failure? && publish.status == StatusUnprocessableEntity
    requires check.Failure? || check.value.valid
    ensures var v := PublishVerdict(publish, check, schema);
      && v.fallback
      && HasPrefix(v.err.value.Text(), "publish failed: ")
      && Contains(v.err.value.Text(), publish.result.error.Text())
  {
    PublishFailedKeepsCause(publish.result.error);
  }

  /** After a 422, an invalid result whose first schema-coded issue is a deprecated
      or unextractable schema yields an error that starts with that issue's message
      and carries both documentation notes; later issues do not matter. */
  lemma RejectionNamesFirstSchemaIssue(publish: PublishAnswer, result: ValidationResult, schema: string, i: nat)
    requires publish.result.Failure? && publish.status == StatusUnprocessableEntity && !result.valid
    requires i < |result.issues|
    requires result.issues[i].reference == RefVersionDeprecated || result.issues[i].reference == RefExtractionError
    requires forall j :: 0 <= j < i ==> !IsSchemaReference(result.issues[j].reference)
    ensures var v := PublishVerdict(publish, Success(result), schema);
      && v.fallback
      && HasPrefix(v.err.value.Text(), result.issues[i].message)
      && Contains(v.err.value.Text(), ChecklistNote)
      && Contains(v.err.value.Text(), ChangelogNote)
  {
    FirstSchemaIssueWins(result.issues, schema, i);
  }

  /** The deprecated-schema scenario end to end: publish is rejected with 422 and
      validation reports one deprecated-schema warning. The error names the old
      schema and both documentation notes. */
  lemma DeprecatedSchemaScenario(cause: ClientError, message: string, schema: string)
    ensures var issue := Issue("semantic", "schema", message, SeverityWarning, RefVersionDeprecated);
      var v := PublishVerdict(PublishAnswer(Failure(cause), StatusUnprocessableEntity),
                              Success(ValidationResult(false, [issue])), schema);
      && v.fallback
      && HasPrefix(v.err.value.Text(), message)
      && Contains(v.err.value.Text(), DeprecatedNote())
      && Contains(v.err.value.Text(), schema)
      && Contains(v.err.value.Text(), ChecklistNote)
      && Contains(v.err.value.Text(), ChangelogNote)
  {
    var issue := Issue("semantic", "schema", message, SeverityWarning, RefVersionDeprecated);
    FirstSchemaIssueWins([issue], schema, 0);
  }

  /** The request the publish step sends, and the one the fallback sends. */
  function PublishCall(s: PublishStart): Call
    requires s.Armed?
  {
    Call(PublishEndpoint, EndpointURL(s.registry, PublishPath), Some("Bearer " + s.token))
  }

  function FallbackCall(s: PublishStart): Call
    requires s.Armed?
  {
    Call(ValidateEndpoint, EndpointURL(s.registry, ValidatePath), None)
  }

  /** A trace of at most one publish request followed by at most one validate
      request holds at most one of each. */
  lemma TwoStepTraceCounts(sent: seq<Call>, asked: seq<Call>)
    requires sent == [] || (|sent| == 1 && sent[0].endpoint == PublishEndpoint)
    requires asked == [] || (|asked| == 1 && asked[0].endpoint == ValidateEndpoint)
    ensures CallCount(sent + asked, PublishEndpoint) == |sent|
    ensures CallCount(sent + asked, ValidateEndpoint) == |asked|
  {
    if asked == [] {
      assert sent + asked == sent;
      if sent != [] {
        CallCountSingle(sent[0], PublishEndpoint);
        CallCountSingle(sent[0], ValidateEndpoint);
        assert sent == [sent[0]];
      }
    } else {
      var t := sent + asked;
      assert t[..|t| - 1] == sent;
      if sent != [] {
        CallCountSingle(sent[0], PublishEndpoint);
        CallCountSingle(sent[0], ValidateEndpoint);
        assert sent == [sent[0]];
      }
    }
  }

  /** The steps of PublishCommand before the publish request, one by one: choose
      the file, read and parse it, find the home directory, read and parse the
      token file, and take the token and registry from it. */
  method ReadPublishInputs(args: seq<string>, env: Env) returns (start: PublishStart)
    ensures start == PublishStartOf(args, env)
  {
    var serverFile := DefaultServerFile;
    if |args| > 0 && !HasPrefix(args[0], "-") {
      serverFile := args[0];
    }
    var file := FileAt(env, serverFile);
    if file.Missing? {
      return Halted(PublishFileNotFound);
    } else if file.Unreadable? {
      return Halted(PublishFileUnreadable(file.cause));
    } else if file.Malformed? {
      return Halted(PublishFileInvalid(file.cause));
    }
    if env.homeError.Some? {
      return Halted(NoHomeDir(env.homeError.value));
    }
    var tokenInfo: map<string, string>;
    match env.tokenFile {
      case NoTokenFile => return Halted(NotAuthenticated);
      case TokenUnreadable(cause) => return Halted(TokenReadFailed(cause));
      case TokenMalformed(cause) => return Halted(TokenInvalid(cause));
      case TokenMap(entries) => tokenInfo := entries;
    }
    var token := Lookup(tokenInfo, "token");
    var registryURL := Lookup(tokenInfo, "registry");
    if registryURL == "" {
      registryURL := DefaultRegistryURL;
    }
    start := Armed(file.server, registryURL, token);
  }

  /** PublishCommand. At most one publish request and at most one validate request
      are made; nothing is sent before the descriptor and token are in hand; the
      validate request follows the publish request, and only after a 422. */
  method PublishCommand(args: seq<string>, env: Env) returns (err: Option<CommandError>, trace: seq<Call>)
    ensures CallCount(trace, PublishEndpoint) <= 1 && CallCount(trace, ValidateEndpoint) <= 1
    ensures CallCount(trace, ValidateEndpoint) == 1 ==>
              PublishAnswerOf(env.publish).result.Failure? && PublishAnswerOf(env.publish).status == StatusUnprocessableEntity
    ensures err.None? ==> CallCount(trace, ValidateEndpoint) == 0
    ensures FileAt(env, PublishFileArg(args)).Parsed? && env.homeError.None? && env.tokenFile == NoTokenFile ==>
              err == Some(NotAuthenticated) && trace == []
    ensures PublishStartOf(args, env).Halted? ==> err == Some(PublishStartOf(args, env).err) && trace == []
    ensures PublishStartOf(args, env).Armed? ==>
              var s := PublishStartOf(args, env);
              var v := PublishVerdict(PublishAnswerOf(env.publish), ValidateAnswerOf(env.validate), s.server.schema);
              && err == v.err
              && trace == (if Sent(env.publish) then [PublishCall(s)] else [])
                          + (if v.fallback && Sent(env.validate) then [FallbackCall(s)] else [])
  {
    var start := ReadPublishInputs(args, env);
    if start.Halted? {
      return Some(start.err), [];
    }
    var server, registryURL, token := start.server, start.registry, start.token;

    var answer, publishCall := PublishToRegistry(registryURL, token, env.publish);
    var sent := if publishCall.Some? then [publishCall.value] else [];
    var asked: seq<Call> := [];
    if answer.result.Failure? {
      err := Some(PublishFailed(answer.result.error));
      // A 422 asks the validate endpoint for the reasons.
      if answer.status == StatusUnprocessableEntity {
        var check, validateCall := ValidateViaAPI(registryURL, env.validate);
        asked := if validateCall.Some? then [validateCall.value] else [];
        if check.Success? {
          var result := check.value;
          var msg, _ := PrintValidationIssues(result, server);
          if !result.valid {
            err := Some(if msg != "" then Formatted(msg) else ValidationFailed);
          }
        }
      }
    } else {
      err := None;
    }
    trace := sent + asked;
    TwoStepTraceCounts(sent, asked);
  }
}
