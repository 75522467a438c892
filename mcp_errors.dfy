/** Structured MCP errors (internal/mcp/errors.go): codes, categories, the
    error text, the constructors the validators use, and the classification
    of a plain error message by `WrapError`.  Timestamps are not modelled. */
module McpErrors {
  import opened Wrappers
  import opened Text
  import TaskIds

  datatype ErrorCode =
    | InvalidInput | MissingRequired | InvalidTaskID | InvalidPriority | InvalidStatus
    | TaskNotFound | ParentNotFound
    | InvalidOperation | CyclicDependency | PermissionDenied
    | SystemError | StorageError | CommitError | ParseError
    | ResponseTooLarge | InternalError

  function CodeName(c: ErrorCode): (name: string)
  {
    match c
    case InvalidInput => "INVALID_INPUT"
    case MissingRequired => "MISSING_REQUIRED_FIELD"
    case InvalidTaskID => "INVALID_TASK_ID"
    case InvalidPriority => "INVALID_PRIORITY"
    case InvalidStatus => "INVALID_STATUS"
    case TaskNotFound => "TASK_NOT_FOUND"
    case ParentNotFound => "PARENT_TASK_NOT_FOUND"
    case InvalidOperation => "INVALID_OPERATION"
    case CyclicDependency => "CYCLIC_DEPENDENCY"
    case PermissionDenied => "PERMISSION_DENIED"
    case SystemError => "SYSTEM_ERROR"
    case StorageError => "STORAGE_ERROR"
    case CommitError => "COMMIT_ERROR"
    case ParseError => "PARSE_ERROR"
    case ResponseTooLarge => "RESPONSE_TOO_LARGE"
    case InternalError => "INTERNAL_ERROR"
  }

  datatype ErrorCategory = Validation | NotFound | Business | System | Mcp

  function CategoryName(c: ErrorCategory): (name: string)
  {
    match c
    case Validation => "validation"
    case NotFound => "not_found"
    case Business => "business_logic"
    case System => "system"
    case Mcp => "mcp"
  }

  /** The dynamically typed values the details carry. */
  datatype Value = StrValue(s: string) | IntValue(n: int) | ListValue(items: seq<string>)

  /** `ErrorDetails`. */
  datatype ErrorDetails = ErrorDetails(
    field: string,
    value: Option<Value>,
    expected: string,
    constraints: Option<map<string, Value>>,
    context: Option<map<string, string>>)

  const NoDetails: ErrorDetails := ErrorDetails("", None, "", None, None)

  datatype MCPError = MCPError(
    code: ErrorCode,
    message: string,
    category: ErrorCategory,
    details: Option<ErrorDetails>,
    operation: string)

  /** `MCPError.Error`: "CODE: message", followed by " (field: f)" exactly
      when there are details with a non-empty field. */
  function ErrorText(e: MCPError): (r: string)
    ensures HasPrefix(r, CodeName(e.code) + ": " + e.message)
    ensures var rest := r[|CodeName(e.code) + ": " + e.message|..];
      if e.details.Some? && e.details.value.field != ""
      then rest == " (field: " + e.details.value.field + ")"
      else rest == ""
  {
    var head := CodeName(e.code) + ": " + e.message;
    if e.details.Some? && e.details.value.field != "" then
      var r := head + " (field: " + e.details.value.field + ")";
      assert r[..|head|] == head;
      r
    else head
  }

  /** `NewMCPError`. */
  function NewMCPError(code: ErrorCode, message: string, category: ErrorCategory): (e: MCPError)
    ensures e.code == code && e.message == message && e.category == category
    ensures e.details.None? && e.operation == ""
  {
    MCPError(code, message, category, None, "")
  }

  /** `NewValidationError`: INVALID_INPUT in the validation category, naming
      the field and the offending value. */
  function NewValidationError(field: string, message: string, value: Option<Value>): (e: MCPError)
    ensures e.code == InvalidInput && e.category == Validation && e.message == message
    ensures e.details == Some(NoDetails.(field := field, value := value))
  {
    MCPError(InvalidInput, message, Validation, Some(NoDetails.(field := field, value := value)), "")
  }

  /** `NewMissingRequiredError`. */
  function NewMissingRequiredError(field: string): (e: MCPError)
    ensures e.code == MissingRequired && e.category == Validation
    ensures e.message == "Required field '" + field + "' is missing"
    ensures e.details == Some(NoDetails.(field := field))
  {
    MCPError(MissingRequired, "Required field '" + field + "' is missing", Validation,
             Some(NoDetails.(field := field)), "")
  }

  /** `NewTaskNotFoundError`. */
  function NewTaskNotFoundError(taskID: string): (e: MCPError)
    ensures e.code == TaskNotFound && e.category == NotFound
    ensures e.message == "Task with ID '" + taskID + "' not found"
    ensures e.details == Some(NoDetails.(field := "id", value := Some(StrValue(taskID))))
  {
    MCPError(TaskNotFound, "Task with ID '" + taskID + "' not found", NotFound,
             Some(NoDetails.(field := "id", value := Some(StrValue(taskID)))), "")
  }

  const TaskIDExpected: string := "Valid task ID format (e.g., 'T1', '1.2', 'T1.2.3')"

  /** `NewInvalidTaskIDError`. */
  function NewInvalidTaskIDError(taskID: string, reason: string): (e: MCPError)
    ensures e.code == InvalidTaskID && e.category == Validation
    ensures e.message == "Invalid task ID '" + taskID + "': " + reason
    ensures e.details == Some(NoDetails.(field := "id", value := Some(StrValue(taskID)), expected := TaskIDExpected))
  {
    MCPError(InvalidTaskID, "Invalid task ID '" + taskID + "': " + reason, Validation,
             Some(NoDetails.(field := "id", value := Some(StrValue(taskID)), expected := TaskIDExpected)), "")
  }

  /** The context of `NewSystemError` / `NewStorageError`: the underlying
      error text when there is one, nothing otherwise. */
  function UnderlyingContext(err: Option<string>): (ctx: Option<map<string, string>>)
    ensures err.None? <==> ctx.None?
    ensures err.Some? ==> ctx.value == map["underlying_error" := err.value]
  {
    if err.None? then None else Some(map["underlying_error" := err.value])
  }

  /** `NewSystemError`. */
  function NewSystemError(operation: string, message: string, err: Option<string>): (e: MCPError)
    ensures e.code == SystemError && e.category == System && e.operation == operation
    ensures e.message == message
    ensures e.details == Some(NoDetails.(context := UnderlyingContext(err)))
  {
    MCPError(SystemError, message, System, Some(NoDetails.(context := UnderlyingContext(err))), operation)
  }

  /** `NewStorageError`. */
  function NewStorageError(operation: string, message: string, err: Option<string>): (e: MCPError)
    ensures e.code == StorageError && e.category == System && e.operation == operation
    ensures e.message == message
    ensures e.details == Some(NoDetails.(context := UnderlyingContext(err)))
  {
    MCPError(StorageError, message, System, Some(NoDetails.(context := UnderlyingContext(err))), operation)
  }

  // ------------------------------------------------------------- contains

  /** Some occurrence of `sub` starts at or after `start`. */
  predicate OccursFrom(s: string, sub: string, start: int)
  {
    exists i | start <= i <= |s| - |sub| :: MatchAt(s, sub, i)
  }

  /** `containsAt`: scan the positions from `start` on. */
  method ContainsAt(s: string, sub: string, start: int) returns (found: bool)
    requires start >= 0
    ensures found <==> OccursFrom(s, sub, start)
  {
    var i := start;
    while i <= |s| - |sub|
      invariant start <= i
      invariant forall j :: start <= j < i ==> !MatchAt(s, sub, j)
      decreases |s| - |sub| - i
    {
      if s[i..i + |sub|] == sub {
        assert MatchAt(s, sub, i);
        return true;
      }
      i := i + 1;
    }
    return false;
  }

  /** `contains`: the whole string, then its prefix, then its suffix, then
      the positions from 1 on.  The empty pattern is contained in every
      string. */
  function ContainsSub(s: string, sub: string): (r: bool)
    ensures r <==> Contains(s, sub)
  {
    var r := |s| >= |sub| && (s == sub || (|s| > |sub| &&
               (s[..|sub|] == sub || s[|s| - |sub|..] == sub || OccursFrom(s, sub, 1))));
    assert s == sub ==> MatchAt(s, sub, 0);
    assert |s| >= |sub| && s[..|sub|] == sub ==> MatchAt(s, sub, 0);
    assert |s| >= |sub| && s[|s| - |sub|..] == sub ==> MatchAt(s, sub, |s| - |sub|);
    assert Contains(s, sub) ==> r by {
      if Contains(s, sub) {
        var i :| 0 <= i <= |s| - |sub| && MatchAt(s, sub, i);
        if i == 0 && |s| == |sub| {
          assert s == s[0..|sub|];
        }
      }
    }
    r
  }

  // ------------------------------------------------------------ WrapError

  /** The code and category `WrapError` gives a plain error, by the first of
      four message patterns that matches. */
  function Classify(msg: string): (r: (ErrorCode, ErrorCategory))
    ensures (ContainsSub(msg, "invalid task ID") || ContainsSub(msg, "invalid segment"))
            ==> r == (InvalidTaskID, Validation)
    ensures !(ContainsSub(msg, "invalid task ID") || ContainsSub(msg, "invalid segment"))
            && (ContainsSub(msg, "not found") || ContainsSub(msg, "no such file"))
            ==> r == (TaskNotFound, NotFound)
    ensures !(ContainsSub(msg, "invalid task ID") || ContainsSub(msg, "invalid segment"))
            && !(ContainsSub(msg, "not found") || ContainsSub(msg, "no such file"))
            && (ContainsSub(msg, "parse") || ContainsSub(msg, "unmarshal") || ContainsSub(msg, "yaml"))
            ==> r == (ParseError, System)
    ensures r.0 in {InvalidTaskID, TaskNotFound, ParseError, SystemError}
    ensures r.0 == InvalidTaskID <==> r.1 == Validation
    ensures r.0 == TaskNotFound <==> r.1 == NotFound
  {
    if ContainsSub(msg, "invalid task ID") || ContainsSub(msg, "invalid segment") then (InvalidTaskID, Validation)
    else if ContainsSub(msg, "not found") || ContainsSub(msg, "no such file") then (TaskNotFound, NotFound)
    else if ContainsSub(msg, "parse") || ContainsSub(msg, "unmarshal") || ContainsSub(msg, "yaml") then (ParseError, System)
    else (SystemError, System)
  }

  /** An error handed to `WrapError`: already structured, or a plain error
      with its message. */
  datatype AnyError = Structured(e: MCPError) | Plain(msg: string)

  /** `WrapError`.  A structured error comes back as itself, with the
      operation filled in only when it was empty; a plain error is classified
      by its message and carries the operation and the message as
      "underlying_error".  In the source the structured error is updated in
      place and the same pointer is returned; here it is a value. */
  function WrapError(err: AnyError, operation: string): (r: MCPError)
    ensures err.Structured? ==> r == err.e.(operation := if err.e.operation == "" then operation else err.e.operation)
    ensures err.Plain? ==> (r.code, r.category) == Classify(err.msg) && r.message == err.msg
    ensures err.Plain? ==>
      r.operation == operation && r.details == Some(NoDetails.(context := Some(map["underlying_error" := err.msg])))
  {
    match err
    case Structured(e) => if e.operation == "" then e.(operation := operation) else e
    case Plain(msg) =>
      var (code, category) := Classify(msg);
      MCPError(code, msg, category, Some(NoDetails.(context := Some(map["underlying_error" := msg]))), operation)
  }

  /** Wrapping twice with a non-empty operation is the same as wrapping once:
      the first operation sticks. */
  lemma {:induction false} WrapErrorTwice(err: AnyError, op1: string, op2: string)
    requires op1 != ""
    ensures WrapError(Structured(WrapError(err, op1)), op2) == WrapError(err, op1)
  {
  }

  /** The errors of task-ID parsing are classified as INVALID_TASK_ID. */
  lemma {:induction false} ParseErrorsAreInvalidTaskID(e: TaskIds.ParseError, operation: string)
    ensures WrapError(Plain(TaskIds.ParseErrorMessage(e)), operation).code == InvalidTaskID
  {
    var msg := TaskIds.ParseErrorMessage(e);
    assert msg[0..|"invalid segment"|] == "invalid segment";
    assert MatchAt(msg, "invalid segment", 0);
  }

  /** A not-found message wins over a parse message, whatever else it says. */
  lemma {:induction false} NotFoundBeforeParse(msg: string)
    requires ContainsSub(msg, "not found") && ContainsSub(msg, "parse")
    requires !ContainsSub(msg, "invalid task ID") && !ContainsSub(msg, "invalid segment")
    ensures Classify(msg) == (TaskNotFound, NotFound)
  {
  }

  // ------------------------------------------------- first failing check

  /** The first check of a sequence that failed, if any: the validators run
      their checks in a fixed order and return the first failure. */
  function FirstError(checks: seq<Option<MCPError>>): (r: Option<MCPError>)
    ensures r.None? <==> forall i :: 0 <= i < |checks| ==> checks[i].None?
    ensures r.Some? ==> exists i :: 0 <= i < |checks| && checks[i] == r
                          && forall j :: 0 <= j < i ==> checks[j].None?
    decreases |checks|
  {
    if |checks| == 0 then None
    else if checks[0].Some? then checks[0]
    else
      var r := FirstError(checks[1..]);
      assert r.Some? ==> exists i :: 0 <= i < |checks| && checks[i] == r
                          && forall j :: 0 <= j < i ==> checks[j].None? by {
        if r.Some? {
          var i :| 0 <= i < |checks| - 1 && checks[1..][i] == r && forall j :: 0 <= j < i ==> checks[1..][j].None?;
          assert checks[i + 1] == r;
          assert forall j :: 0 <= j < i + 1 ==> checks[j].None? by {
            forall j | 0 <= j < i + 1 ensures checks[j].None? {
              if j > 0 { assert checks[j] == checks[1..][j - 1]; }
            }
          }
        }
      }
      r
  }

  lemma {:induction false} FirstErrorAppend(a: seq<Option<MCPError>>, b: seq<Option<MCPError>>)
    ensures FirstError(a + b) == if FirstError(a).Some? then FirstError(a) else FirstError(b)
    decreases |a|
  {
    if |a| > 0 {
      assert (a + b)[0] == a[0] && (a + b)[1..] == a[1..] + b;
      FirstErrorAppend(a[1..], b);
    } else {
      assert a + b == b;
    }
  }
}
