/** The issue formatter (printSchemaValidationErrors and printValidationIssues in
    cmd/publisher/commands/validate.go): turns a validation result into migration
    guidance for the first schema-coded issue and a numbered list of the rest. */
module Formatter {
  import opened Wrappers
  import opened Text
  import opened Registry

  const ChangelogURL: string := "https://github.com/modelcontextprotocol/registry/blob/main/docs/reference/server-json/CHANGELOG.md"
  const ChecklistURL: string := ChangelogURL + "#migration-checklist-for-publishers"
  const ChecklistNote: string := "Migration checklist: " + ChecklistURL
  const ChangelogNote: string := "Full changelog with examples: " + ChangelogURL
  /** The two documentation links every guidance message ends with. */
  const Links: string := "📋 " + (ChecklistNote + (" 📖 " + ChangelogNote))

  /** The reference codes the first pass turns into guidance. */
  predicate IsSchemaReference(reference: string) {
    reference == RefFieldRequired || reference == RefVersionDeprecated || reference == RefExtractionError
  }

  /** The issues the numbered list leaves out. Extraction errors are not among them. */
  predicate SkippedInList(issue: Issue) {
    issue.reference == RefFieldRequired || issue.reference == RefVersionDeprecated
  }

  // The three guidance texts, one per schema reference code. They are written
  // right-nested so that each piece is a prefix of what follows it.

  function FieldRequiredMessage(): string {
    "$schema field is required." + (" Expected current schema: " + (CurrentSchemaURL + (". " + Links)))
  }

  function DeprecatedMessage(issue: Issue, schema: string): string {
    issue.message + (". deprecated schema detected: " + (schema + (". Expected current schema: "
      + (CurrentSchemaURL + (". Migrate to the current schema format for new servers. " + Links)))))
  }

  function ExtractionMessage(issue: Issue): string {
    issue.message + (". " + Links)
  }

  lemma LinksHoldBothNotes()
    ensures Contains(Links, ChecklistNote) && Contains(Links, ChangelogNote)
  {
    var mid := " 📖 ";
    StartContained(ChecklistNote, mid + ChangelogNote);
    ContainedAfter("📋 ", ChecklistNote + (mid + ChangelogNote), ChecklistNote);
    SelfContained(ChangelogNote);
    ContainedAfter(mid, ChangelogNote, ChangelogNote);
    ContainedAfter(ChecklistNote, mid + ChangelogNote, ChangelogNote);
    ContainedAfter("📋 ", ChecklistNote + (mid + ChangelogNote), ChangelogNote);
  }

  lemma FieldRequiredFacts()
    ensures HasPrefix(FieldRequiredMessage(), "$schema field is required.")
    ensures Contains(FieldRequiredMessage(), CurrentSchemaURL)
    ensures Contains(FieldRequiredMessage(), ChecklistNote) && Contains(FieldRequiredMessage(), ChangelogNote)
  {
    var lead := "$schema field is required.";
    var expected := " Expected current schema: ";
    var tail := ". " + Links;
    PrefixOfConcat(lead, expected + (CurrentSchemaURL + tail));
    StartContained(CurrentSchemaURL, tail);
    ContainedAfter(expected, CurrentSchemaURL + tail, CurrentSchemaURL);
    ContainedAfter(lead, expected + (CurrentSchemaURL + tail), CurrentSchemaURL);
    LinksHoldBothNotes();
    ContainedAfter(". ", Links, ChecklistNote);
    ContainedAfter(CurrentSchemaURL, tail, ChecklistNote);
    ContainedAfter(expected, CurrentSchemaURL + tail, ChecklistNote);
    ContainedAfter(lead, expected + (CurrentSchemaURL + tail), ChecklistNote);
    ContainedAfter(". ", Links, ChangelogNote);
    ContainedAfter(CurrentSchemaURL, tail, ChangelogNote);
    ContainedAfter(expected, CurrentSchemaURL + tail, ChangelogNote);
    ContainedAfter(lead, expected + (CurrentSchemaURL + tail), ChangelogNote);
  }

  /** Both notes survive any chain of text put in front of the links. */
  lemma NotesAfter(front: seq<string>, tail: string)
    requires Contains(tail, ChecklistNote) && Contains(tail, ChangelogNote)
    ensures Contains(Prepend(front, tail), ChecklistNote) && Contains(Prepend(front, tail), ChangelogNote)
  {
    if front != [] {
      NotesAfter(front[1..], tail);
      ContainedAfter(front[0], Prepend(front[1..], tail), ChecklistNote);
      ContainedAfter(front[0], Prepend(front[1..], tail), ChangelogNote);
    }
  }

  /** front[0] + (front[1] + (... + tail)). */
  function Prepend(front: seq<string>, tail: string): string {
    if front == [] then tail else front[0] + Prepend(front[1..], tail)
  }

  /** The words the deprecated-schema guidance uses to name the problem. */
  function DeprecatedNote(): string {
    "deprecated schema detected"
  }

  lemma DeprecatedFacts(issue: Issue, schema: string)
    ensures HasPrefix(DeprecatedMessage(issue, schema), issue.message)
    ensures Contains(DeprecatedMessage(issue, schema), schema)
    ensures Contains(DeprecatedMessage(issue, schema), CurrentSchemaURL)
  {
    var detected := ". deprecated schema detected: ";
    var expected := ". Expected current schema: ";
    var t4 := ". Migrate to the current schema format for new servers. " + Links;
    var t3 := CurrentSchemaURL + t4;
    var t2 := expected + t3;
    var t1 := schema + t2;
    var t0 := detected + t1;
    assert DeprecatedMessage(issue, schema) == issue.message + t0;
    PrefixOfConcat(issue.message, t0);
    StartContained(schema, t2);
    ContainedAfter(detected, t1, schema);
    ContainedAfter(issue.message, t0, schema);
    StartContained(CurrentSchemaURL, t4);
    ContainedAfter(expected, t3, CurrentSchemaURL);
    ContainedAfter(schema, t2, CurrentSchemaURL);
    ContainedAfter(detected, t1, CurrentSchemaURL);
    ContainedAfter(issue.message, t0, CurrentSchemaURL);
  }

  lemma DeprecatedHasNotes(issue: Issue, schema: string)
    ensures Contains(DeprecatedMessage(issue, schema), ChecklistNote) && Contains(DeprecatedMessage(issue, schema), ChangelogNote)
  {
    var detected := ". deprecated schema detected: ";
    var expected := ". Expected current schema: ";
    var migrate := ". Migrate to the current schema format for new servers. ";
    LinksHoldBothNotes();
    var front := [issue.message, detected, schema, expected, CurrentSchemaURL, migrate];
    NotesAfter(front, Links);
    assert Prepend(front, Links) == DeprecatedMessage(issue, schema) by {
      var t4 := migrate + Links;
      var t3 := CurrentSchemaURL + t4;
      var t2 := expected + t3;
      var t1 := schema + t2;
      assert Prepend(front[5..], Links) == t4;
      assert Prepend(front[4..], Links) == t3;
      assert Prepend(front[3..], Links) == t2;
      assert Prepend(front[2..], Links) == t1;
      assert Prepend(front[1..], Links) == detected + t1;
    }
  }

  /** The deprecated-schema guidance says so in words. */
  lemma DeprecatedNamesProblem(issue: Issue, schema: string)
    ensures Contains(DeprecatedMessage(issue, schema), DeprecatedNote())
  {
    var detected := ". deprecated schema detected: ";
    var t1 := schema + (". Expected current schema: "
      + (CurrentSchemaURL + (". Migrate to the current schema format for new servers. " + Links)));
    assert detected == ". " + DeprecatedNote() + ": ";
    assert detected[2..2 + |DeprecatedNote()|] == DeprecatedNote();
    assert OccursAt(detected, DeprecatedNote(), 2);
    ContainedBefore(detected, t1, DeprecatedNote());
    ContainedAfter(issue.message, detected + t1, DeprecatedNote());
    assert DeprecatedMessage(issue, schema) == issue.message + (detected + t1);
  }

  lemma ExtractionFacts(issue: Issue)
    ensures HasPrefix(ExtractionMessage(issue), issue.message)
    ensures Contains(ExtractionMessage(issue), ChecklistNote) && Contains(ExtractionMessage(issue), ChangelogNote)
  {
    PrefixOfConcat(issue.message, ". " + Links);
    LinksHoldBothNotes();
    ContainedAfter(". ", Links, ChecklistNote);
    ContainedAfter(". ", Links, ChangelogNote);
    ContainedAfter(issue.message, ". " + Links, ChecklistNote);
    ContainedAfter(issue.message, ". " + Links, ChangelogNote);
  }

  /** What the first pass's switch yields for one issue: a guidance text for the
      three schema codes, nothing for every other code. */
  function SchemaCase(issue: Issue, schema: string): (r: Option<string>)
    ensures r.Some? <==> IsSchemaReference(issue.reference)
    ensures r.Some? ==> r.value != "" && Contains(r.value, ChecklistNote) && Contains(r.value, ChangelogNote)
    ensures issue.reference == RefFieldRequired ==>
              r.Some? && HasPrefix(r.value, "$schema field is required.") && Contains(r.value, CurrentSchemaURL)
    ensures issue.reference == RefVersionDeprecated || issue.reference == RefExtractionError ==>
              r.Some? && HasPrefix(r.value, issue.message)
    ensures issue.reference == RefVersionDeprecated ==>
              r.Some? && Contains(r.value, schema) && Contains(r.value, CurrentSchemaURL)
              && Contains(r.value, DeprecatedNote())
  {
    if issue.reference == RefFieldRequired then
      FieldRequiredFacts();
      Some(FieldRequiredMessage())
    else if issue.reference == RefVersionDeprecated then
      DeprecatedFacts(issue, schema);
      DeprecatedHasNotes(issue, schema);
      DeprecatedNamesProblem(issue, schema);
      Some(DeprecatedMessage(issue, schema))
    else if issue.reference == RefExtractionError then
      ExtractionFacts(issue);
      Some(ExtractionMessage(issue))
    else
      None
  }

  /** Index of the first issue, in server order, that carries a schema reference code. */
  function FirstSchemaIssue(issues: seq<Issue>): (r: Option<nat>)
    ensures r.Some? ==> r.value < |issues| && IsSchemaReference(issues[r.value].reference)
    ensures r.Some? ==> forall j :: 0 <= j < r.value ==> !IsSchemaReference(issues[j].reference)
    ensures r.None? ==> forall j :: 0 <= j < |issues| ==> !IsSchemaReference(issues[j].reference)
  {
    if issues == [] then None
    else if IsSchemaReference(issues[0].reference) then Some(0)
    else match FirstSchemaIssue(issues[1..])
      case None => None
      case Some(i) => Some(i + 1)
  }

  /** The string printSchemaValidationErrors returns: the guidance for the first
      schema-coded issue, or "" when no issue carries one of the three codes. */
  function Guidance(issues: seq<Issue>, schema: string): (r: string)
    ensures r == "" <==> forall j :: 0 <= j < |issues| ==> !IsSchemaReference(issues[j].reference)
    ensures r != "" ==> Contains(r, ChecklistNote) && Contains(r, ChangelogNote)
  {
    match FirstSchemaIssue(issues)
    case None => ""
    case Some(i) => SchemaCase(issues[i], schema).value
  }

  /** The first schema-coded issue decides the guidance; nothing after it matters. */
  lemma FirstSchemaIssueWins(issues: seq<Issue>, schema: string, i: nat)
    requires i < |issues| && IsSchemaReference(issues[i].reference)
    requires forall j :: 0 <= j < i ==> !IsSchemaReference(issues[j].reference)
    ensures Some(Guidance(issues, schema)) == SchemaCase(issues[i], schema)
  {
    var k := FirstSchemaIssue(issues);
    assert k == Some(i);
  }

  /** Issues after the first schema-coded one, schema-coded or not, are ignored. */
  lemma {:induction false} LaterIssuesIgnored(issues: seq<Issue>, later: seq<Issue>, schema: string)
    requires exists i :: 0 <= i < |issues| && IsSchemaReference(issues[i].reference)
    ensures Guidance(issues + later, schema) == Guidance(issues, schema)
  {
    var k := FirstSchemaIssue(issues);
    var all := issues + later;
    assert k.Some?;
    assert all[k.value] == issues[k.value];
    FirstSchemaIssueWins(all, schema, k.value);
    FirstSchemaIssueWins(issues, schema, k.value);
  }

  /** The field-required text is fixed: it depends on neither the issue's
      message nor its severity nor the descriptor. */
  lemma FieldRequiredIgnoresIssueText(a: Issue, b: Issue, schemaA: string, schemaB: string)
    requires a.reference == RefFieldRequired && b.reference == RefFieldRequired
    ensures SchemaCase(a, schemaA) == SchemaCase(b, schemaB) == Some(FieldRequiredMessage())
  {
  }

  /** A deprecated-schema issue gives the same guidance at warning and at error severity. */
  lemma DeprecatedIgnoresSeverity(issue: Issue, severity: string, schema: string)
    requires issue.reference == RefVersionDeprecated
    ensures SchemaCase(issue, schema) == SchemaCase(issue.(severity := severity), schema)
  {
  }

  /** printSchemaValidationErrors: scan the issues in server order and return the
      guidance of the first schema-coded one, or "". */
  method PrintSchemaValidationErrors(result: ValidationResult, server: ServerJSON) returns (msg: string)
    ensures msg == Guidance(result.issues, server.schema)
  {
    var issues := result.issues;
    var i := 0;
    while i < |issues|
      invariant 0 <= i <= |issues|
      invariant forall j :: 0 <= j < i ==> !IsSchemaReference(issues[j].reference)
    {
      var issue := issues[i];
      if issue.reference == RefFieldRequired {
        FirstSchemaIssueWins(issues, server.schema, i);
        return FieldRequiredMessage();
      } else if issue.reference == RefVersionDeprecated {
        FirstSchemaIssueWins(issues, server.schema, i);
        return DeprecatedMessage(issue, server.schema);
      } else if issue.reference == RefExtractionError {
        FirstSchemaIssueWins(issues, server.schema, i);
        return ExtractionMessage(issue);
      }
      i := i + 1;
    }
    msg := "";
  }

  /** The issues the numbered list shows, in server order. */
  function Listed(issues: seq<Issue>): (r: seq<Issue>)
    ensures |r| <= |issues|
    ensures forall k :: 0 <= k < |r| ==> r[k] in issues && !SkippedInList(r[k])
    ensures forall j :: 0 <= j < |issues| && !SkippedInList(issues[j]) ==> issues[j] in r
  {
    if issues == [] then []
    else (if SkippedInList(issues[0]) then [] else [issues[0]]) + Listed(issues[1..])
  }

  lemma {:induction false} ListedAppend(a: seq<Issue>, b: seq<Issue>)
    ensures Listed(a + b) == Listed(a) + Listed(b)
  {
    if a == [] {
      assert a + b == b;
    } else {
      assert (a + b)[0] == a[0];
      assert (a + b)[1..] == a[1..] + b;
      ListedAppend(a[1..], b);
    }
  }

  /** Extending the scanned prefix by one issue extends the list by that issue,
      unless it is skipped. */
  lemma ListedStep(issues: seq<Issue>, i: nat)
    requires i < |issues|
    ensures Listed(issues[..i + 1]) == Listed(issues[..i]) + (if SkippedInList(issues[i]) then [] else [issues[i]])
  {
    assert issues[..i + 1] == issues[..i] + [issues[i]];
    ListedAppend(issues[..i], [issues[i]]);
    assert [issues[i]][1..] == [];
  }

  /** An unextractable schema version is reported twice: when it is the first
      schema-coded issue it gives the guidance, starting with its own message ... */
  lemma ExtractionIssueGuides(issues: seq<Issue>, schema: string, i: nat)
    requires i < |issues| && issues[i].reference == RefExtractionError
    requires forall j :: 0 <= j < i ==> !IsSchemaReference(issues[j].reference)
    ensures Guidance(issues, schema) == ExtractionMessage(issues[i])
    ensures HasPrefix(Guidance(issues, schema), issues[i].message)
  {
    FirstSchemaIssueWins(issues, schema, i);
    assert SchemaCase(issues[i], schema) == Some(ExtractionMessage(issues[i]));
    PrefixOfConcat(issues[i].message, ". " + Links);
  }

  /** ... and it is still numbered in the list, wherever it stands. */
  lemma ExtractionIssueListed(issues: seq<Issue>, i: nat)
    requires i < |issues| && issues[i].reference == RefExtractionError
    ensures issues[i] in Listed(issues)
  {
    assert !SkippedInList(issues[i]);
  }

  /** One line group of the numbered list: its number and the issue it shows. */
  datatype Entry = Entry(number: nat, issue: Issue)

  /** The numbered report: the header's issue count and the numbered entries. */
  datatype Listing = Listing(total: nat, entries: seq<Entry>)

  /** printValidationIssues: the first pass's guidance, and for an invalid result
      the numbered list of every issue not skipped. */
  method PrintValidationIssues(result: ValidationResult, server: ServerJSON) returns (msg: string, listing: Option<Listing>)
    ensures msg == Guidance(result.issues, server.schema)
    ensures listing.None? <==> result.valid
    ensures listing.Some? ==> listing.value.total == |result.issues|
    ensures listing.Some? ==> |listing.value.entries| == |Listed(result.issues)|
    ensures listing.Some? ==> forall k :: 0 <= k < |listing.value.entries| ==>
              listing.value.entries[k] == Entry(k + 1, Listed(result.issues)[k])
  {
    msg := PrintSchemaValidationErrors(result, server);
    if result.valid {
      return msg, None;
    }
    var issues := result.issues;
    var entries: seq<Entry> := [];
    var issueNum := 1;
    var i := 0;
    while i < |issues|
      invariant 0 <= i <= |issues|
      invariant issueNum == |entries| + 1
      invariant |entries| == |Listed(issues[..i])|
      invariant forall k :: 0 <= k < |entries| ==> entries[k] == Entry(k + 1, Listed(issues[..i])[k])
    {
      var issue := issues[i];
      ListedStep(issues, i);
      i := i + 1;
      if issue.reference == RefFieldRequired || issue.reference == RefVersionDeprecated {
        continue;
      }
      entries := entries + [Entry(issueNum, issue)];
      issueNum := issueNum + 1;
    }
    assert issues[..i] == issues;
    listing := Some(Listing(|issues|, entries));
  }
}
