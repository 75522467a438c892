/** The CLI's input validators.  A single-field validator returns a
    `ValidationError`; the zero value, with an empty code, means the input
    is acceptable.  A list validator returns one error per rejected element,
    renamed after the element's position.  Lengths are counted in runes
    (code points) except where the source counts bytes (`len`). */
module Validation {
  import opened Wrappers
  import opened Text
  import opened Selection
  import TaskIds
  import Paths

  datatype ValidationError = ValidationError(field: string, value: string, message: string, code: string)

  /** The zero value, returned for an acceptable input. */
  const NoError: ValidationError := ValidationError("", "", "", "")

  predicate Passes(e: ValidationError) { e.code == "" }

  const MaxTitleLength: nat := 200
  const MaxDescriptionLength: nat := 5000
  const MaxLabelLength: nat := 50
  const MaxAssigneeLength: nat := 100
  const MaxDependencyIDLength: nat := 20
  const MaxACLength: nat := 500
  const MaxPlanLength: nat := 10000
  const MaxNotesLength: nat := 10000
  const MaxPathLength: nat := 4096

  // -------------------------------------------------------------- messages

  /** `ValidationError.Error`. */
  function ErrorText(v: ValidationError): string
  {
    "validation error in field '" + v.field + "': " + v.message + " (value: '" + v.value + "')"
  }

  const NoErrorsText: string := "no validation errors"
  const ManyErrorsPrefix: string := "multiple validation errors: "

  function Messages(ve: seq<ValidationError>): (ms: seq<string>)
    ensures |ms| == |ve| && forall i :: 0 <= i < |ve| ==> ms[i] == ErrorText(ve[i])
  {
    seq(|ve|, i requires 0 <= i < |ve| => ErrorText(ve[i]))
  }

  /** `ValidationErrors.Error`: a fixed text for none, the error's own text
      for one, and every error's text joined by "; " for more. */
  function ErrorsText(ve: seq<ValidationError>): string
  {
    if |ve| == 0 then NoErrorsText
    else if |ve| == 1 then ErrorText(ve[0])
    else ManyErrorsPrefix + Join(Messages(ve), "; ")
  }

  /** The loop that collects the messages before joining them. */
  method Error(ve: seq<ValidationError>) returns (s: string)
    ensures s == ErrorsText(ve)
  {
    if |ve| == 0 {
      return NoErrorsText;
    }
    if |ve| == 1 {
      return ErrorText(ve[0]);
    }
    var msgs: seq<string> := [];
    for i := 0 to |ve|
      invariant |msgs| == i
      invariant forall j :: 0 <= j < i ==> msgs[j] == ErrorText(ve[j])
    {
      msgs := msgs + [ErrorText(ve[i])];
    }
    assert msgs == Messages(ve);
    s := ManyErrorsPrefix + Join(msgs, "; ");
  }

  function HasErrors(ve: seq<ValidationError>): bool
  {
    |ve| > 0
  }

  /** The three formats of the combined message: none, one error's own
      text, or the prefixed list in which every error's text occurs. */
  lemma {:induction false} ErrorsTextCases(ve: seq<ValidationError>)
    ensures |ve| == 0 ==> ErrorsText(ve) == NoErrorsText
    ensures |ve| == 1 ==> ErrorsText(ve) == ErrorText(ve[0])
    ensures |ve| >= 2 ==> HasPrefix(ErrorsText(ve), ManyErrorsPrefix)
    ensures |ve| >= 2 ==> forall i :: 0 <= i < |ve| ==> Contains(ErrorsText(ve), ErrorText(ve[i]))
  {
    if |ve| >= 2 {
      var s := ErrorsText(ve);
      assert s[..|ManyErrorsPrefix|] == ManyErrorsPrefix;
      forall i | 0 <= i < |ve| ensures Contains(s, ErrorText(ve[i])) {
        JoinContainsPart(Messages(ve), "; ", i);
        ContainsInSuffix(ManyErrorsPrefix, Join(Messages(ve), "; "), ErrorText(ve[i]));
      }
    }
  }

  /** `HasErrors` holds exactly when the combined message is not the
      "no errors" text. */
  lemma {:induction false} HasErrorsIffReported(ve: seq<ValidationError>)
    ensures HasErrors(ve) <==> ErrorsText(ve) != NoErrorsText
  {
    if |ve| == 1 {
      assert ErrorText(ve[0])[0] == 'v';
    } else if |ve| >= 2 {
      assert ErrorsText(ve)[0] == 'm';
    }
  }

  // ------------------------------------------------------ dangerous text

  /** The fragments that mark text as dangerous, matched after lowering. */
  const DangerousPatterns: seq<string> :=
    ["\0", "<script", "</script>", "javascript:", "data:", "vbscript:",
     "onload=", "onerror=", "eval(", "expression(", "\\x", "\\u"]

  predicate Dangerous(input: string)
  {
    exists k :: 0 <= k < |DangerousPatterns| && Contains(ToLower(input), DangerousPatterns[k])
  }

  /** `containsDangerousChars`: the loop over the patterns, stopping at the
      first one the lowered input contains. */
  method ContainsDangerousChars(input: string) returns (b: bool)
    ensures b <==> Dangerous(input)
  {
    var lower := ToLower(input);
    for k := 0 to |DangerousPatterns|
      invariant forall j :: 0 <= j < k ==> !Contains(lower, DangerousPatterns[j])
    {
      if Contains(lower, DangerousPatterns[k]) {
        return true;
      }
    }
    return false;
  }

  /** Case does not matter: lowering the input first changes nothing. */
  lemma {:induction false} DangerousIgnoresCase(input: string)
    ensures Dangerous(ToLower(input)) <==> Dangerous(input)
  {
    ToLowerIdempotent(input);
  }

  /** A script tag in any case is dangerous, and so is a NUL byte. */
  lemma {:induction false} DangerousExamples(pre: string, post: string)
    ensures Dangerous(pre + "<SCRIPT>" + post)
    ensures Dangerous(pre + "\0" + post)
  {
    var s := pre + "<SCRIPT>" + post;
    ToLowerAppend(pre + "<SCRIPT>", post);
    ToLowerAppend(pre, "<SCRIPT>");
    var low := ToLower(s);
    assert low[|pre|..|pre| + 7] == "<script";
    assert MatchAt(low, DangerousPatterns[1], |pre|);
    var t := pre + "\0" + post;
    assert ToLower(t)[|pre|..|pre| + 1] == "\0";
    assert MatchAt(ToLower(t), DangerousPatterns[0], |pre|);
  }

  // ------------------------------------------------------ free-text fields

  /** The codes a validator reports for a blank, an overlong and a
      malformed value. */
  datatype Codes = Codes(empty: string, tooLong: string, invalid: string)

  predicate NonEmptyCodes(c: Codes) { c.empty != "" && c.tooLong != "" && c.invalid != "" }

  /** The shared shape of the free-text validators: optionally reject a
      blank value, then a value of more than `maxLen` runes, then a
      dangerous one, with codes named after `code`. */
  function CheckText(field: string, noun: string, codes: Codes, value: string, required: bool, maxLen: nat)
    : (e: ValidationError)
    requires NonEmptyCodes(codes)
    ensures Passes(e) <==> (!required || NonBlank(value)) && |value| <= maxLen && !Dangerous(value)
    ensures required && !NonBlank(value) ==> e.code == codes.empty
    ensures (!required || NonBlank(value)) && |value| > maxLen ==> e.code == codes.tooLong
    ensures (!required || NonBlank(value)) && |value| <= maxLen && Dangerous(value) ==> e.code == codes.invalid
    ensures !Passes(e) ==> e.field == field && e.value == value
  {
    if required && TrimSpace(value) == "" then
      ValidationError(field, value, noun + " cannot be empty", codes.empty)
    else if |value| > maxLen then
      ValidationError(field, value, noun + " cannot exceed " + FormatInt(maxLen) + " characters", codes.tooLong)
    else if Dangerous(value) then
      ValidationError(field, value, noun + " contains potentially dangerous characters", codes.invalid)
    else NoError
  }

  /** `ValidateTitle`: blank, then over 200 runes, then dangerous. */
  function ValidateTitle(title: string): (e: ValidationError)
    ensures Passes(e) <==> NonBlank(title) && |title| <= MaxTitleLength && !Dangerous(title)
    ensures !NonBlank(title) ==> e.code == "TITLE_EMPTY"
    ensures NonBlank(title) && |title| > MaxTitleLength ==> e.code == "TITLE_TOO_LONG"
    ensures NonBlank(title) && |title| <= MaxTitleLength && Dangerous(title) ==> e.code == "TITLE_INVALID_CHARS"
  {
    CheckText("title", "title", Codes("TITLE_EMPTY", "TITLE_TOO_LONG", "TITLE_INVALID_CHARS"), title, true, MaxTitleLength)
  }

  /** `ValidateDescription`: over 5000 runes, then dangerous; blank is fine. */
  function ValidateDescription(description: string): (e: ValidationError)
    ensures Passes(e) <==> |description| <= MaxDescriptionLength && !Dangerous(description)
    ensures |description| > MaxDescriptionLength ==> e.code == "DESCRIPTION_TOO_LONG"
    ensures |description| <= MaxDescriptionLength && Dangerous(description) ==>
      e.code == "DESCRIPTION_INVALID_CHARS"
  {
    CheckText("description", "description", Codes("DESCRIPTION_EMPTY", "DESCRIPTION_TOO_LONG", "DESCRIPTION_INVALID_CHARS"), description, false, MaxDescriptionLength)
  }

  /** `ValidateAcceptanceCriterion`: blank, then over 500 runes, then
      dangerous. */
  function ValidateAcceptanceCriterion(ac: string): (e: ValidationError)
    ensures Passes(e) <==> NonBlank(ac) && |ac| <= MaxACLength && !Dangerous(ac)
    ensures !NonBlank(ac) ==> e.code == "AC_EMPTY"
    ensures NonBlank(ac) && |ac| > MaxACLength ==> e.code == "AC_TOO_LONG"
    ensures NonBlank(ac) && |ac| <= MaxACLength && Dangerous(ac) ==> e.code == "AC_INVALID_CHARS"
  {
    CheckText("acceptance_criterion", "acceptance criterion", Codes("AC_EMPTY", "AC_TOO_LONG", "AC_INVALID_CHARS"), ac, true, MaxACLength)
  }

  /** `ValidatePlan`: over 10000 runes, then dangerous. */
  function ValidatePlan(plan: string): (e: ValidationError)
    ensures Passes(e) <==> |plan| <= MaxPlanLength && !Dangerous(plan)
    ensures |plan| > MaxPlanLength ==> e.code == "PLAN_TOO_LONG"
    ensures |plan| <= MaxPlanLength && Dangerous(plan) ==> e.code == "PLAN_INVALID_CHARS"
  {
    CheckText("plan", "plan", Codes("PLAN_EMPTY", "PLAN_TOO_LONG", "PLAN_INVALID_CHARS"), plan, false, MaxPlanLength)
  }

  /** `ValidateNotes`: over 10000 runes, then dangerous. */
  function ValidateNotes(notes: string): (e: ValidationError)
    ensures Passes(e) <==> |notes| <= MaxNotesLength && !Dangerous(notes)
    ensures |notes| > MaxNotesLength ==> e.code == "NOTES_TOO_LONG"
    ensures |notes| <= MaxNotesLength && Dangerous(notes) ==> e.code == "NOTES_INVALID_CHARS"
  {
    CheckText("notes", "notes", Codes("NOTES_EMPTY", "NOTES_TOO_LONG", "NOTES_INVALID_CHARS"), notes, false, MaxNotesLength)
  }

  // ------------------------------------------------------- name-like fields

  /** The label alphabet `[a-zA-Z0-9_-]`. */
  predicate LabelChar(c: char) { IsAlnum(c) || c == '_' || c == '-' }

  /** The assignee alphabet `[a-zA-Z0-9._-]`. */
  predicate AssigneeChar(c: char) { IsAlnum(c) || c == '.' || c == '_' || c == '-' }

  /** A non-empty string over an alphabet without white space is not blank. */
  lemma {:induction false} SpacelessNotBlank(s: string, ok: char -> bool)
    requires |s| > 0 && forall i :: 0 <= i < |s| ==> ok(s[i])
    requires forall c :: ok(c) ==> !GoIsSpace(c)
    ensures NonBlank(s)
  {
    assert ok(s[0]);
  }

  /** The shared shape of the label and assignee validators: blank, then
      too many runes, then a rune outside the alphabet. */
  function CheckName(field: string, noun: string, codes: Codes, value: string, maxLen: nat,
                     ok: char -> bool, formatMessage: string): (e: ValidationError)
    requires NonEmptyCodes(codes)
    requires forall c :: ok(c) ==> !GoIsSpace(c)
    ensures Passes(e) <==> 0 < |value| <= maxLen && forall i :: 0 <= i < |value| ==> ok(value[i])
    ensures !NonBlank(value) ==> e.code == codes.empty
    ensures NonBlank(value) && |value| > maxLen ==> e.code == codes.tooLong
    ensures NonBlank(value) && |value| <= maxLen && (exists i :: 0 <= i < |value| && !ok(value[i])) ==>
      e.code == codes.invalid
    ensures !Passes(e) ==> e.field == field && e.value == value
  {
    var allOk := forall i :: 0 <= i < |value| ==> ok(value[i]);
    var e :=
      if TrimSpace(value) == "" then
        ValidationError(field, value, noun + " cannot be empty", codes.empty)
      else if |value| > maxLen then
        ValidationError(field, value, noun + " cannot exceed " + FormatInt(maxLen) + " characters", codes.tooLong)
      else if !allOk then
        ValidationError(field, value, formatMessage, codes.invalid)
      else NoError;
    if |value| > 0 && allOk then
      SpacelessNotBlank(value, ok);
      e
    else e
  }

  /** `ValidateLabel`: accepts exactly the non-empty labels of at most 50
      runes over `[a-zA-Z0-9_-]`. */
  function ValidateLabel(name: string): (e: ValidationError)
    ensures Passes(e) <==> 0 < |name| <= MaxLabelLength && forall i :: 0 <= i < |name| ==> LabelChar(name[i])
    ensures !NonBlank(name) ==> e.code == "LABEL_EMPTY"
    ensures NonBlank(name) && |name| > MaxLabelLength ==> e.code == "LABEL_TOO_LONG"
    ensures NonBlank(name) && |name| <= MaxLabelLength && (exists i :: 0 <= i < |name| && !LabelChar(name[i])) ==>
      e.code == "LABEL_INVALID_FORMAT"
  {
    CheckName("label", "label", Codes("LABEL_EMPTY", "LABEL_TOO_LONG", "LABEL_INVALID_FORMAT"), name, MaxLabelLength, LabelChar,
              "label can only contain alphanumeric characters, hyphens, and underscores")
  }

  /** `ValidateAssignee`: accepts exactly the non-empty names of at most
      100 runes over `[a-zA-Z0-9._-]`. */
  function ValidateAssignee(assignee: string): (e: ValidationError)
    ensures Passes(e) <==>
      0 < |assignee| <= MaxAssigneeLength && forall i :: 0 <= i < |assignee| ==> AssigneeChar(assignee[i])
    ensures !NonBlank(assignee) ==> e.code == "ASSIGNEE_EMPTY"
    ensures NonBlank(assignee) && |assignee| > MaxAssigneeLength ==> e.code == "ASSIGNEE_TOO_LONG"
  {
    CheckName("assignee", "assignee", Codes("ASSIGNEE_EMPTY", "ASSIGNEE_TOO_LONG", "ASSIGNEE_INVALID_FORMAT"), assignee, MaxAssigneeLength, AssigneeChar,
              "assignee can only contain alphanumeric characters, dots, hyphens, and underscores")
  }

  // ------------------------------------------------------------- task IDs

  /** `ValidateTaskID`: empty, then more than 20 bytes, then anything not of
      the form `T?\d+(\.\d+)*`. */
  function ValidateTaskID(taskID: string): (e: ValidationError)
    ensures Passes(e) <==>
      taskID != "" && Utf8Len(taskID) <= MaxDependencyIDLength && TaskIds.MatchesTaskIDPattern(taskID)
    ensures taskID == "" ==> e.code == "TASK_ID_EMPTY"
    ensures taskID != "" && Utf8Len(taskID) > MaxDependencyIDLength ==> e.code == "TASK_ID_TOO_LONG"
    ensures taskID != "" && Utf8Len(taskID) <= MaxDependencyIDLength && !TaskIds.MatchesTaskIDPattern(taskID) ==>
      e.code == "TASK_ID_INVALID_FORMAT"
    ensures !Passes(e) ==> e.field == "task_id" && e.value == taskID
  {
    if taskID == "" then
      ValidationError("task_id", taskID, "task ID cannot be empty", "TASK_ID_EMPTY")
    else if Utf8Len(taskID) > MaxDependencyIDLength then
      ValidationError("task_id", taskID, "task ID cannot exceed " + FormatInt(MaxDependencyIDLength) + " characters",
                      "TASK_ID_TOO_LONG")
    else if !TaskIds.MatchesTaskIDPattern(taskID) then
      ValidationError("task_id", taskID, "task ID must follow format: T1, T1.1, 1, 1.1, etc.", "TASK_ID_INVALID_FORMAT")
    else NoError
  }

  // ----------------------------------------------------- enumerated fields

  const PriorityNames: set<string> := {"low", "medium", "high", "critical"}
  const LogLevelNames: set<string> := {"debug", "info", "warn", "error"}
  const LogFormatNames: set<string> := {"json", "text"}

  /** The shape of the enumerated validators: empty is fine, otherwise the
      value must be one of the names exactly, case included. */
  function CheckOneOf(field: string, code: string, message: string, value: string, names: set<string>)
    : (e: ValidationError)
    requires code != ""
    ensures Passes(e) <==> value == "" || value in names
    ensures !Passes(e) ==> e == ValidationError(field, value, message, code)
  {
    if value == "" then NoError
    else if value !in names then ValidationError(field, value, message, code)
    else NoError
  }

  /** `ValidatePriority`: empty or one of low, medium, high, critical. */
  function ValidatePriority(priority: string): (e: ValidationError)
    ensures Passes(e) <==> priority == "" || priority in PriorityNames
    ensures !Passes(e) ==> e.code == "PRIORITY_INVALID" && e.field == "priority"
  {
    CheckOneOf("priority", "PRIORITY_INVALID", "priority must be one of: low, medium, high, critical",
               priority, PriorityNames)
  }

  /** `ValidateLogLevel`: empty or one of debug, info, warn, error. */
  function ValidateLogLevel(level: string): (e: ValidationError)
    ensures Passes(e) <==> level == "" || level in LogLevelNames
    ensures !Passes(e) ==> e.code == "LOG_LEVEL_INVALID" && e.field == "log_level"
  {
    CheckOneOf("log_level", "LOG_LEVEL_INVALID", "log level must be one of: debug, info, warn, error",
               level, LogLevelNames)
  }

  /** `ValidateLogFormat`: empty, json or text. */
  function ValidateLogFormat(format: string): (e: ValidationError)
    ensures Passes(e) <==> format == "" || format in LogFormatNames
    ensures !Passes(e) ==> e.code == "LOG_FORMAT_INVALID" && e.field == "log_format"
  {
    CheckOneOf("log_format", "LOG_FORMAT_INVALID", "log format must be one of: json, text", format, LogFormatNames)
  }

  /** Priorities are matched case-sensitively. */
  lemma {:induction false} PriorityIsCaseSensitive()
    ensures !Passes(ValidatePriority("High"))
    ensures Passes(ValidatePriority("high"))
  {
    assert "High" != "low" && "High" != "medium" && "High" != "high" && "High" != "critical" by {
      assert "High"[0] == 'H';
    }
  }

  // ------------------------------------------------------------ file paths

  /** `ValidateFilePath`: empty, then more than 4096 bytes, then ".." left
      after lexical cleaning, then a NUL byte. */
  function ValidateFilePath(path: string): (e: ValidationError)
    ensures Passes(e) <==>
      path != "" && Utf8Len(path) <= MaxPathLength && !Contains(Paths.Clean(path), "..") && '\0' !in path
    ensures path == "" ==> e.code == "PATH_EMPTY"
    ensures path != "" && Utf8Len(path) > MaxPathLength ==> e.code == "PATH_TOO_LONG"
    ensures path != "" && Utf8Len(path) <= MaxPathLength && Contains(Paths.Clean(path), "..") ==>
      e.code == "PATH_TRAVERSAL"
    ensures path != "" && Utf8Len(path) <= MaxPathLength && !Contains(Paths.Clean(path), "..") && '\0' in path ==>
      e.code == "PATH_NULL_BYTE"
    ensures !Passes(e) ==> e.field == "file_path" && e.value == path
  {
    ContainsChar(path, '\0');
    if path == "" then
      ValidationError("file_path", path, "file path cannot be empty", "PATH_EMPTY")
    else if Utf8Len(path) > MaxPathLength then
      ValidationError("file_path", path, "file path cannot exceed " + FormatInt(MaxPathLength) + " characters",
                      "PATH_TOO_LONG")
    else if Contains(Paths.Clean(path), "..") then
      ValidationError("file_path", path, "file path contains path traversal sequences", "PATH_TRAVERSAL")
    else if Contains(path, "\0") then
      ValidationError("file_path", path, "file path contains null bytes", "PATH_NULL_BYTE")
    else NoError
  }

  /** A relative path whose first element is ".." is a traversal: cleaning
      cannot remove that element. */
  lemma {:induction false} EscapingPathRejected(path: string)
    requires |path| >= 2 && path[..2] == ".."
    requires |path| == 2 || path[2] == '/'
    requires Utf8Len(path) <= MaxPathLength
    ensures ValidateFilePath(path).code == "PATH_TRAVERSAL"
  {
    Paths.LeadingDotDotSurvives(path);
    assert MatchAt(Paths.Clean(path), "..", 0);
  }

  // -------------------------------------------------------- list validators

  /** What one element of a list contributes: nothing when it passes,
      otherwise its error with the field renamed to `name[i]`. */
  function Flagged(name: string, validate: string -> ValidationError): (nat, string) -> Option<ValidationError>
  {
    (i: nat, s: string) =>
      var e := validate(s);
      if Passes(e) then None else Some(e.(field := IndexedField(name, i)))
  }

  function ListErrors(items: seq<string>, name: string, validate: string -> ValidationError): seq<ValidationError>
  {
    SelectFrom(items, 0, Flagged(name, validate))
  }

  /** One error per rejected element, in order, each the element's own
      error under the field `name[i]`; passing elements contribute none. */
  lemma {:induction false} ListErrorsShape(items: seq<string>, name: string, validate: string -> ValidationError)
    ensures var errs, idx := ListErrors(items, name, validate), SelectedFrom(items, 0, Flagged(name, validate));
      && |errs| == |idx|
      && (forall k :: 0 <= k < |idx| ==>
            && idx[k] < |items| && !Passes(validate(items[idx[k]]))
            && errs[k] == validate(items[idx[k]]).(field := IndexedField(name, idx[k])))
      && (forall k, l :: 0 <= k < l < |idx| ==> idx[k] < idx[l])
      && (forall j :: 0 <= j < |items| && !Passes(validate(items[j])) ==> j in idx)
  {
    SelectShape(items, 0, Flagged(name, validate));
  }

  /** `ValidateLabels`. */
  method ValidateLabels(labels: seq<string>) returns (errs: seq<ValidationError>)
    ensures errs == ListErrors(labels, "labels", ValidateLabel)
  {
    errs := SelectEach(labels, Flagged("labels", ValidateLabel));
  }

  /** `ValidateAssignees`. */
  method ValidateAssignees(assignees: seq<string>) returns (errs: seq<ValidationError>)
    ensures errs == ListErrors(assignees, "assignees", ValidateAssignee)
  {
    errs := SelectEach(assignees, Flagged("assignees", ValidateAssignee));
  }

  /** `ValidateDependencies`: each dependency is checked as a task ID. */
  method ValidateDependencies(dependencies: seq<string>) returns (errs: seq<ValidationError>)
    ensures errs == ListErrors(dependencies, "dependencies", ValidateTaskID)
  {
    errs := SelectEach(dependencies, Flagged("dependencies", ValidateTaskID));
  }

  /** `ValidateAcceptanceCriteria`. */
  method ValidateAcceptanceCriteria(ac: seq<string>) returns (errs: seq<ValidationError>)
    ensures errs == ListErrors(ac, "acceptance_criteria", ValidateAcceptanceCriterion)
  {
    errs := SelectEach(ac, Flagged("acceptance_criteria", ValidateAcceptanceCriterion));
  }
}
