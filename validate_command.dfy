/** The validate command (ValidateCommand in cmd/publisher/commands/validate.go):
    pick the file, read the descriptor, find the registry, make the one validate
    request, and turn its answer into the command's error. */
module ValidateCmd {
  import opened Wrappers
  import opened Text
  import opened Registry
  import opened Formatter
  import opened Client
  import opened Inputs

  /** How a validate run begins: it stops before any request (with or without an
      error), or it is ready to call the registry for this descriptor. */
  datatype ValidateStart = Stopped(err: Option<CommandError>) | Ready(server: ServerJSON, registry: string)

  /** The steps before the request: arguments, descriptor file, home directory and
      the optional token file. */
  function ValidateStartOf(args: seq<string>, env: Env): (s: ValidateStart)
    ensures s == Stopped(None) <==> HasHelpFlag(args)
    ensures s.Ready? ==> FileAt(env, ValidateFileArg(args)) == Parsed(s.server) && env.homeError.None?
    ensures s.Ready? ==> s.registry != ""
    ensures s.Ready? && !env.tokenFile.TokenMap? ==> s.registry == DefaultRegistryURL
    ensures s.Ready? && env.tokenFile.TokenMap? ==> s.registry == RegistryFromToken(env.tokenFile.entries)
    ensures !HasHelpFlag(args) && FileAt(env, ValidateFileArg(args)).Parsed? && env.homeError.None? ==> s.Ready?
    ensures !HasHelpFlag(args) && FileAt(env, ValidateFileArg(args)) == Missing ==>
              s == Stopped(Some(FileNotFound(ValidateFileArg(args))))
    ensures !HasHelpFlag(args) && FileAt(env, ValidateFileArg(args)).Unreadable? ==>
              s == Stopped(Some(FileUnreadable(ValidateFileArg(args), FileAt(env, ValidateFileArg(args)).cause)))
    ensures !HasHelpFlag(args) && FileAt(env, ValidateFileArg(args)).Malformed? ==>
              s == Stopped(Some(FileInvalid(FileAt(env, ValidateFileArg(args)).cause)))
    ensures !HasHelpFlag(args) && FileAt(env, ValidateFileArg(args)).Parsed? && env.homeError.Some? ==>
              s == Stopped(Some(NoHomeDir(env.homeError.value)))
  {
    if HasHelpFlag(args) then Stopped(None)
    else
      var file := ValidateFileArg(args);
      match FileAt(env, file)
      case Missing => Stopped(Some(FileNotFound(file)))
      case Unreadable(cause) => Stopped(Some(FileUnreadable(file, cause)))
      case Malformed(cause) => Stopped(Some(FileInvalid(cause)))
      case Parsed(server) =>
        if env.homeError.Some? then Stopped(Some(NoHomeDir(env.homeError.value)))
        else if env.tokenFile.TokenMap? then Ready(server, RegistryFromToken(env.tokenFile.entries))
        else Ready(server, DefaultRegistryURL)
  }

  /** The command's error once the validate request has been answered: a request
      failure is wrapped, a valid result is success even when guidance was
      produced, and an invalid one is always an error. */
  function ValidateVerdict(answer: Result<ValidationResult, ClientError>, schema: string): (e: Option<CommandError>)
    ensures answer.Failure? ==> e == Some(ValidateRequestFailed(answer.error))
    ensures answer.Success? ==> (e.None? <==> answer.value.valid)
  {
    match answer
    case Failure(err) => Some(ValidateRequestFailed(err))
    case Success(result) =>
      var msg := Guidance(result.issues, schema);
      if result.valid then None
      else if msg != "" then Some(Formatted(msg))
      else Some(ValidationFailed)
  }

  /** A failed validate request reads "validation failed: " followed by the
      client error's own text. */
  lemma RequestFailureText(err: ClientError, schema: string)
    ensures var text := ValidateVerdict(Failure(err), schema).value.Text();
      HasPrefix(text, "validation failed: ") && Contains(text, err.Text())
  {
    ValidateRequestFailedKeepsCause(err);
  }

  /** An invalid result reads as the guidance when there is some, else as
      "validation failed". */
  lemma InvalidVerdictText(result: ValidationResult, schema: string)
    requires !result.valid
    ensures var g := Guidance(result.issues, schema);
      ValidateVerdict(Success(result), schema).value.Text() == (if g != "" then g else "validation failed")
  {
    var g := Guidance(result.issues, schema);
    if g != "" {
      assert ValidateVerdict(Success(result), schema) == Some(Formatted(g));
      CommandErrorWrapsClientError(Formatted(g));
    } else {
      assert ValidateVerdict(Success(result), schema) == Some(ValidationFailed);
    }
  }

  /** An invalid result whose issues carry no schema code gives exactly
      "validation failed"; one that carries a schema code gives text holding both
      documentation notes. */
  lemma InvalidResultText(result: ValidationResult, schema: string)
    requires !result.valid
    ensures var e := ValidateVerdict(Success(result), schema);
      && e.Some?
      && ((forall j :: 0 <= j < |result.issues| ==> !IsSchemaReference(result.issues[j].reference)) ==> e.value.Text() == "validation failed")
      && ((exists j :: 0 <= j < |result.issues| && IsSchemaReference(result.issues[j].reference)) ==>
            Contains(e.value.Text(), ChecklistNote) && Contains(e.value.Text(), ChangelogNote))
  {
    InvalidVerdictText(result, schema);
  }

  /** ValidateCommand. No publish request is ever made, and at most one validate
      request, only once the descriptor and registry are known. */
  method ValidateCommand(args: seq<string>, env: Env) returns (err: Option<CommandError>, trace: seq<Call>)
    ensures CallCount(trace, PublishEndpoint) == 0 && |trace| <= 1
    ensures ValidateStartOf(args, env).Stopped? ==> err == ValidateStartOf(args, env).err && trace == []
    ensures ValidateStartOf(args, env).Ready? ==>
              var s := ValidateStartOf(args, env);
              && err == ValidateVerdict(ValidateAnswerOf(env.validate), s.server.schema)
              && trace == (if Sent(env.validate) then [Call(ValidateEndpoint, EndpointURL(s.registry, ValidatePath), None)] else [])
  {
    var choice := ParseValidateArgs(args);
    if choice.ShowHelp? {
      return None, [];
    }
    var serverFile := choice.file;
    var file := FileAt(env, serverFile);
    if file.Missing? {
      return Some(FileNotFound(serverFile)), [];
    } else if file.Unreadable? {
      return Some(FileUnreadable(serverFile, file.cause)), [];
    } else if file.Malformed? {
      return Some(FileInvalid(file.cause)), [];
    }
    var server := file.server;
    if env.homeError.Some? {
      return Some(NoHomeDir(env.homeError.value)), [];
    }
    var registryURL := ResolveValidateRegistry(env.tokenFile);

    var answer, call := ValidateViaAPI(registryURL, env.validate);
    trace := if call.Some? then [call.value] else [];
    if answer.Failure? {
      return Some(ValidateRequestFailed(answer.error)), trace;
    }
    var result := answer.value;
    var msg, _ := PrintValidationIssues(result, server);
    if result.valid {
      return None, trace;
    }
    if msg != "" {
      return Some(Formatted(msg)), trace;
    }
    return Some(ValidationFailed), trace;
  }
}
