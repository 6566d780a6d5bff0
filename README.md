# Publisher CLI: publish and validate, modelled in Dafny

This project models the client side of the `mcp-publisher` commands `publish` and
`validate` (cmd/publisher/commands/publish.go and cmd/publisher/commands/validate.go).
It covers:

- **Input selection.** The descriptor file comes from the arguments. The registry URL
  comes from the token file, with a default.
- **Request rules.** These are the request and response rules of `publishToRegistry`
  and `validateViaAPI`:
  - endpoint URLs are built with a trailing-slash rule;
  - 200/201 count as success for publish, and only 200 for validate;
  - a publish error carries status 0 when no response arrived, and the response's status otherwise (`validateViaAPI` returns no status).
- **Issue formatter.** `printSchemaValidationErrors` turns the first issue that carries
  a schema reference code into migration guidance. `printValidationIssues` numbers the
  remaining issues.
- **Command decisions.** The decision logic of `ValidateCommand` and `PublishCommand`,
  including publish's fallback to the validate endpoint after a 422 rejection.

Network, file system and JSON work are given as inputs:

- an `Env` value holds the files, the home-directory lookup and the token file;
- each HTTP round trip is an `Outcome`: no response (the request failed while being
  prepared or in transport), body unreadable, or received with status, raw body and
  decoded result.

Each command returns its error (as a `CommandError` whose `Text()` is the Go error
text) and the trace of requests it sent. Call counts and call order are proved over
that trace.

Modules, one file each:

| file | module | contents |
|---|---|---|
| wrappers.dfy | Wrappers | `Option`, `Result` |
| text.dfy | Text | prefix, suffix and substring predicates; `%d` rendering of a status code |
| registry.dfy | Registry | descriptors, issues, outcomes, client and command errors, call traces |
| formatter.dfy | Formatter | `printSchemaValidationErrors`, `printValidationIssues` |
| client.dfy | Client | `publishToRegistry`, `validateViaAPI` |
| inputs.dfy | Inputs | file argument, token file, registry URL |
| validate_command.dfy | ValidateCmd | `ValidateCommand` |
| publish_command.dfy | PublishCmd | `PublishCommand` and its 422 fallback |

## Model

| member | source | states |
|---|---|---|
| Text.DecimalRoundTrip | cmd/publisher/commands/publish.go:146 | the decimal text of a status code in "server returned status %d" reads back as that status |
| Registry.PublishFailedKeepsCause | cmd/publisher/commands/publish.go:94-95 | a publish failure's text starts with "publish failed: " and contains the client error's own text |
| Registry.ClientErrorText | cmd/publisher/commands/publish.go:109-151 | the texts of the client's error values (the same ones as validate.go:200-242), whose origin `PublishAnswerOf` and `ValidateAnswerOf` state: every error that wraps a cause ends with it; the publish decode error reads as the bare decode error; a rejected status is named in decimal after "server returned status " and the text ends with ": " and the response body |
| Registry.CommandErrorWrapsClientError | cmd/publisher/commands/publish.go:77-95 | a publish failure ends with the client error's text, as a failed validate request does at validate.go:175; a guidance message is returned as the error text itself (publish.go:88, validate.go:188) |
| Registry.CommandErrorKeepsCause | cmd/publisher/commands/validate.go:139-156 | the texts of the command's error values, whose origin `ValidateStartOf` and `PublishStartOf` state: the file, JSON and home-directory errors end with the underlying cause, as the token errors at publish.go:52-57 do; a missing file's error starts with its name |
| Registry.ValidateRequestFailedKeepsCause | cmd/publisher/commands/validate.go:174-175 | a failed validate request's text starts with "validation failed: " and contains the client error's own text |
| Formatter.SchemaCase | cmd/publisher/commands/validate.go:30-74 | there is guidance exactly for the three schema codes. Every guidance text is non-empty and holds the checklist and changelog notes. Field-required guidance starts with "$schema field is required." and names the current schema. Deprecated and extraction guidance start with the issue's message. Deprecated guidance says "deprecated schema detected" and names the descriptor's schema and the current one |
| Formatter.FirstSchemaIssue | cmd/publisher/commands/validate.go:29-31 | finds the first issue in server order with a schema code, and no earlier issue has one; None means no issue has one |
| Formatter.Guidance | cmd/publisher/commands/validate.go:22-78 | the result is "" exactly when no issue carries a schema code; otherwise it holds both documentation notes |
| Formatter.FirstSchemaIssueWins | cmd/publisher/commands/validate.go:29-74 | the guidance is that of the first schema-coded issue |
| Formatter.LaterIssuesIgnored | cmd/publisher/commands/validate.go:44-45 | once a schema-coded issue is present, appending more issues (schema-coded or not) leaves the guidance unchanged |
| Formatter.FieldRequiredIgnoresIssueText | cmd/publisher/commands/validate.go:43-44 | field-required guidance is one fixed text, independent of the issue's message and severity and of the descriptor |
| Formatter.DeprecatedIgnoresSeverity | cmd/publisher/commands/validate.go:47-67 | deprecated-schema guidance is the same at warning and at error severity |
| Formatter.PrintSchemaValidationErrors | cmd/publisher/commands/validate.go:22-78 | the scan with early return yields exactly `Guidance` of the issues and the descriptor's schema |
| Formatter.Listed | cmd/publisher/commands/validate.go:97-101 | the listed issues are exactly the issues that are not field-required or deprecated; no more are listed than there are issues |
| Formatter.ListedAppend | cmd/publisher/commands/validate.go:97-111 | the list filter works issue by issue: the list of a concatenation is the concatenation of the lists |
| Formatter.ListedStep | cmd/publisher/commands/validate.go:97-111 | each loop step adds the scanned issue to the list unless it is field-required or deprecated |
| Formatter.ExtractionIssueGuides | cmd/publisher/commands/validate.go:69-73 | when the first schema-coded issue is an extraction error, the guidance is its message followed by the two documentation links |
| Formatter.ExtractionIssueListed | cmd/publisher/commands/validate.go:97-101 | an extraction-error issue is not skipped by the numbered list, so it is reported a second time there |
| Formatter.PrintValidationIssues | cmd/publisher/commands/validate.go:82-114 | returns the first pass's guidance whether or not the result is valid. There is no list exactly when the result is valid. The header count is the number of all issues. Entry k is numbered k+1 and shows the k-th listed issue |
| Client.WithSlash | cmd/publisher/commands/validate.go:210-212 | the base keeps its text and ends in "/"; exactly one character is added when it did not |
| Client.WithSlashIdempotent | cmd/publisher/commands/publish.go:119-121 | normalizing twice equals normalizing once |
| Client.EndpointURL | cmd/publisher/commands/publish.go:118-122 | the URL starts with the base and ends with "/" plus the endpoint path; its length shows that at most one "/" was inserted |
| Client.EndpointIgnoresTrailingSlash | cmd/publisher/commands/validate.go:209-213 | a base with and without its trailing "/" gives the same endpoint URL |
| Client.PublishAnswerOf | cmd/publisher/commands/publish.go:104-155 | success exactly when a response arrived with 200 or 201 and its body decoded. Failures with no response carry status 0, later ones the response status. Any other status gives a "server returned status" error. An unreadable body gives the read error, and a 200/201 body that does not decode gives the bare decode error |
| Client.ValidateAnswerOf | cmd/publisher/commands/validate.go:195-246 | success exactly when a response arrived with 200 and its body decoded; any other status gives a "server returned status" error. An unreadable body gives the read error, and a 200 body that does not decode gives the "error parsing response" error |
| Client.UnprocessableIsAnErrorWithItsStatus | cmd/publisher/commands/publish.go:141-147 | a 422 answer is an error from publish that carries 422, and an error from validate |
| Client.PublishToRegistry | cmd/publisher/commands/publish.go:104-155 | the answer is `PublishAnswerOf` of the outcome. A request is recorded exactly when one was attempted, to the normalized publish URL with a "Bearer " token header |
| Client.ValidateViaAPI | cmd/publisher/commands/validate.go:195-246 | the answer is `ValidateAnswerOf` of the outcome. A request is recorded exactly when one was attempted, to the normalized validate URL without credentials |
| Inputs.PublishFileArg | cmd/publisher/commands/publish.go:20-23 | the file is the first argument unless it is missing or a flag, else "server.json" |
| Inputs.LastPositional | cmd/publisher/commands/validate.go:120-136 | the index of the last argument that is not a flag (everything after it is a flag), or none when every argument is a flag |
| Inputs.ParseValidateArgs | cmd/publisher/commands/validate.go:118-136 | the argument loop stops for help exactly when "--help" or "-h" is present; otherwise the file is the last non-flag argument, or "server.json" |
| Inputs.Lookup | cmd/publisher/commands/publish.go:60-61 | a map lookup gives the entry, or "" when the key is absent |
| Inputs.RegistryFromToken | cmd/publisher/commands/publish.go:60-64 | the registry is the token file's non-empty "registry" entry, otherwise the default; it is never empty |
| Inputs.ResolveValidateRegistry | cmd/publisher/commands/validate.go:159-169 | the validate command uses the default registry unless the token file parsed, in which case it uses the same rule as publish |
| ValidateCmd.ValidateStartOf | cmd/publisher/commands/validate.go:116-169 | the command stops without error exactly when help is asked. When it proceeds, the chosen file parsed, the home directory was found and the registry is non-empty and comes from the token file or the default. With no help flag, a parsed file and a home directory, it always proceeds. Otherwise, a missing file gives the "not found" error naming it, an unreadable one the read error naming it with its cause, a malformed one the "invalid JSON" error with its cause, and a failed home-directory lookup that error with its cause |
| ValidateCmd.ValidateVerdict | cmd/publisher/commands/validate.go:171-191 | a request error becomes the wrapped "validation failed" error; there is no error exactly when the result is valid, even when guidance exists |
| ValidateCmd.RequestFailureText | cmd/publisher/commands/validate.go:173-176 | a failed request's error text starts with "validation failed: " and contains the client error's text |
| ValidateCmd.InvalidVerdictText | cmd/publisher/commands/validate.go:186-191 | an invalid result's error text is exactly the guidance when it is non-empty, else "validation failed" |
| ValidateCmd.InvalidResultText | cmd/publisher/commands/validate.go:179-191 | an invalid result without schema codes gives exactly "validation failed"; with one, the error holds both documentation notes |
| ValidateCmd.ValidateCommand | cmd/publisher/commands/validate.go:116-192 | the command never calls publish and makes at most one request. A stop before the request gives its error and no request. Otherwise the error is `ValidateVerdict` of the answer, and the trace is the one validate request to the registry's URL, if it was sent |
| PublishCmd.PublishStartOf | cmd/publisher/commands/publish.go:18-64 | a missing file gives the "server.json not found" error, an unreadable or malformed one the read or "invalid server.json" error with its cause, and a failed home-directory lookup that error with its cause. A parsed file with a home directory and no token file gives "not authenticated". An unreadable or malformed token file gives the token read or parse error with its cause. It proceeds exactly when the file parsed, the home directory was found and the token file parsed; the token and registry then come from the token file |
| PublishCmd.PublishSucceeds | cmd/publisher/commands/publish.go:55-101 | with the file, the home directory and the token file in hand, a 200 or 201 response whose body decodes ends the run with no error and no validate request |
| PublishCmd.ReadPublishInputs | cmd/publisher/commands/publish.go:19-64 | the step-by-step reading of the file and the token file reaches exactly the start `PublishStartOf` describes |
| PublishCmd.PublishVerdict | cmd/publisher/commands/publish.go:66-101 | the validate fallback runs exactly on a publish error with status 422. There is no error exactly when publish succeeded. Other failures, and a fallback that errs or reports valid, give "publish failed" with the original error. A fallback that reports invalid gives the validate command's verdict |
| PublishCmd.Non422IsPublishFailed | cmd/publisher/commands/publish.go:94-95 | a non-422 failure skips the fallback; its text starts with "publish failed: " and contains the client error's text |
| PublishCmd.FallbackNeverMasks | cmd/publisher/commands/publish.go:76-95 | after a 422, a failing or "valid" validate answer still returns "publish failed: " with the original error's text |
| PublishCmd.RejectionNamesFirstSchemaIssue | cmd/publisher/commands/publish.go:83-88 | after a 422 with an invalid result, a first schema-coded issue that is deprecated or an extraction error gives an error that starts with that issue's message and holds both notes |
| PublishCmd.DeprecatedSchemaScenario | cmd/publisher/commands/publish_test.go:40-102 | a 422 followed by one deprecated-schema warning gives an error that starts with the warning's message, says "deprecated schema detected", and names the old schema and both notes |
| PublishCmd.PublishCommand | cmd/publisher/commands/publish.go:18-102 | at most one publish and at most one validate request are made. A validate request only follows a 422 publish failure, and never happens on success. When the descriptor parsed and the home directory was found but there is no token file, the error is "not authenticated" and nothing is sent. A stop before publishing sends nothing. Otherwise the error is `PublishVerdict`'s, and the trace is the publish request (if sent) followed by the fallback validate request (if made and sent) |

## Left out

- Standard output: progress lines, the help text, the per-issue stdout lines of the guidance, and the success banners are not modelled. The numbered list is modelled as the `Listing` value that `PrintValidationIssues` returns; the commands discard it, as the Go code discards what it printed.
- HTTP request construction, headers, `http.Client`, reading the body, file reads, the home-directory lookup and JSON encoding and decoding are not modelled. Their results are inputs: `Env` and one `Outcome` per endpoint. `publishToRegistry` and `validateViaAPI` re-parse and re-serialize the descriptor; a failure there is the `ParseStage` or `SerializeStage` outcome.
- A request is recorded in the trace when it was attempted: every outcome except a failure before the transport. A transport error, such as a refused connection, still means the request was attempted.
- `DefaultRegistryURL` and the current schema URL are defined outside the two files; the model gives them fixed values. The only property that depends on them is that `DefaultRegistryURL` is not empty, which makes the chosen registry non-empty.
- The descriptor holds only the fields the core reads (schema, plus name, description and version); the rest pass through untouched.
- internal/api/handlers/v0/validate.go (the server-side handler) is not part of this model; its validation rules are not visible here.
- The publish command reports a missing file as "server.json not found" even when another file name was given (cmd/publisher/commands/publish.go:29). The model keeps this text as written.
