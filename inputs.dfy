/** What a command run starts from: its arguments, the files it reads, the token
    file, and the outcomes the two endpoints give. Also the rules that pick the
    descriptor file and the registry URL (cmd/publisher/commands/publish.go and
    cmd/publisher/commands/validate.go). */
module Inputs {
  import opened Wrappers
  import opened Text
  import opened Registry

  const DefaultServerFile: string := "server.json"

  /** How reading and parsing one descriptor file turns out. */
  datatype FileState = Missing | Unreadable(cause: string) | Malformed(cause: string) | Parsed(server: ServerJSON)

  /** The token file in the home directory: absent, unreadable, not a JSON object
      of strings, or that object. */
  datatype TokenFile = NoTokenFile | TokenUnreadable(cause: string) | TokenMalformed(cause: string) | TokenMap(entries: map<string, string>)

  /** Everything outside the command: the file system, the home directory lookup,
      the token file, and what each endpoint answers when called. */
  datatype Env = Env(
    files: map<string, FileState>,
    homeError: Option<string>,
    tokenFile: TokenFile,
    publish: Outcome<ServerResponse>,
    validate: Outcome<ValidationResult>)

  function FileAt(env: Env, path: string): FileState {
    if path in env.files then env.files[path] else Missing
  }

  predicate IsFlag(arg: string) {
    HasPrefix(arg, "-")
  }

  predicate IsHelp(arg: string) {
    arg == "--help" || arg == "-h"
  }

  predicate HasHelpFlag(args: seq<string>) {
    exists i :: 0 <= i < |args| && IsHelp(args[i])
  }

  /** The publish command's file: its first argument unless that is a flag. */
  function PublishFileArg(args: seq<string>): (file: string)
    ensures |args| > 0 && !IsFlag(args[0]) ==> file == args[0]
    ensures (|args| == 0 || IsFlag(args[0])) ==> file == DefaultServerFile
  {
    if |args| > 0 && !IsFlag(args[0]) then args[0] else DefaultServerFile
  }

  /** Index of the last argument that is not a flag. */
  function LastPositional(args: seq<string>): (r: Option<nat>)
    ensures r.Some? ==> r.value < |args| && !IsFlag(args[r.value])
    ensures r.Some? ==> forall j :: r.value < j < |args| ==> IsFlag(args[j])
    ensures r.None? ==> forall j :: 0 <= j < |args| ==> IsFlag(args[j])
  {
    if args == [] then None
    else if !IsFlag(args[|args| - 1]) then Some(|args| - 1)
    else LastPositional(args[..|args| - 1])
  }

  /** The validate command's file: its last non-flag argument, or the default. */
  function ValidateFileArg(args: seq<string>): string {
    match LastPositional(args)
    case None => DefaultServerFile
    case Some(i) => args[i]
  }

  /** Outcome of the validate command's argument loop. */
  datatype ArgChoice = ShowHelp | UseFile(file: string)

  /** The argument loop of ValidateCommand: a help flag anywhere stops the command;
      otherwise every non-flag argument overwrites the file, so the last one wins. */
  method ParseValidateArgs(args: seq<string>) returns (choice: ArgChoice)
    ensures choice.ShowHelp? <==> HasHelpFlag(args)
    ensures choice.UseFile? ==> choice.file == ValidateFileArg(args)
  {
    var serverFile := DefaultServerFile;
    var i := 0;
    while i < |args|
      invariant 0 <= i <= |args|
      invariant forall j :: 0 <= j < i ==> !IsHelp(args[j])
      invariant serverFile == ValidateFileArg(args[..i])
    {
      var arg := args[i];
      if IsHelp(arg) {
        return ShowHelp;
      }
      assert args[..i + 1][..i] == args[..i];
      if !IsFlag(arg) {
        serverFile := arg;
      }
      i := i + 1;
    }
    assert args[..i] == args;
    choice := UseFile(serverFile);
  }

  /** A Go map lookup: the entry, or "" when the key is absent. */
  function Lookup(m: map<string, string>, key: string): (v: string)
    ensures key in m ==> v == m[key]
    ensures key !in m ==> v == ""
  {
    if key in m then m[key] else ""
  }

  /** The registry a parsed token file points at: its "registry" entry, or the
      default when that entry is empty or absent. */
  function RegistryFromToken(m: map<string, string>): (url: string)
    ensures url != ""
    ensures "registry" in m && m["registry"] != "" ==> url == m["registry"]
    ensures ("registry" !in m || m["registry"] == "") ==> url == DefaultRegistryURL
  {
    var url := Lookup(m, "registry");
    if url == "" then DefaultRegistryURL else url
  }

  /** The validate command's registry: the token file is optional there, and any
      problem with it means the default. */
  method ResolveValidateRegistry(tokenFile: TokenFile) returns (registryURL: string)
    ensures !tokenFile.TokenMap? ==> registryURL == DefaultRegistryURL
    ensures tokenFile.TokenMap? ==> registryURL == RegistryFromToken(tokenFile.entries)
  {
    registryURL := DefaultRegistryURL;
    if tokenFile.TokenMap? {
      var url := Lookup(tokenFile.entries, "registry");
      if url != "" {
        registryURL := url;
      }
    }
  }
}
