/** Input validation of the MCP tools (internal/mcp/validation.go).  Each
    single check gives no error or one structured error; the parameter
    validators run a fixed sequence of checks and return the first failure. */
module McpValidation {
  import opened Wrappers
  import opened Text
  import opened McpErrors
  import opened CoreParams
  import TaskIds

  const PriorityValues: set<string> := {"critical", "high", "medium", "low"}
  const StatusValues: set<string> := {"todo", "in-progress", "done", "archived"}

  /** `order` lists each value of `values` exactly once. */
  predicate ListsEach(order: seq<string>, values: set<string>)
  {
    && (forall v :: v in values ==> v in order)
    && (forall i :: 0 <= i < |order| ==> order[i] in values)
    && (forall i, j :: 0 <= i < j < |order| ==> order[i] != order[j])
  }

  /** The orders in which the middleware's two value maps are iterated. */
  datatype ValueOrders = ValueOrders(priorityOrder: seq<string>, statusOrder: seq<string>)

  /** The middleware.  The source keeps the valid values in maps and lists
      them in error messages in map iteration order, which Go leaves
      unspecified: any order of each map's keys, given here. */
  type Middleware = mw: ValueOrders | ListsEach(mw.priorityOrder, PriorityValues) && ListsEach(mw.statusOrder, StatusValues)
    witness ValueOrders(["critical", "high", "medium", "low"], ["todo", "in-progress", "done", "archived"])

  const TaskIDReason: string := "must be in format 'T1', '1.2', or 'T1.2.3'"

  /** `ValidateTaskID`: empty is a missing field, anything outside the
      dotted-decimal syntax an invalid ID. */
  function ValidateTaskID(taskID: string, fieldName: string): (r: Option<MCPError>)
    ensures r.None? <==> taskID != "" && TaskIds.MatchesTaskIDPattern(taskID)
    ensures taskID == "" ==> r == Some(NewMissingRequiredError(fieldName))
    ensures taskID != "" && !TaskIds.MatchesTaskIDPattern(taskID) ==>
      r == Some(NewInvalidTaskIDError(taskID, TaskIDReason))
  {
    if taskID == "" then Some(NewMissingRequiredError(fieldName))
    else if !TaskIds.MatchesTaskIDPattern(taskID) then Some(NewInvalidTaskIDError(taskID, TaskIDReason))
    else None
  }

  /** `ValidateRequired`: the value must not be blank. */
  function ValidateRequired(value: string, fieldName: string): (r: Option<MCPError>)
    ensures r.None? <==> NonBlank(value)
    ensures r.Some? ==> r == Some(NewMissingRequiredError(fieldName))
  {
    if TrimSpace(value) == "" then Some(NewMissingRequiredError(fieldName)) else None
  }

  /** `ValidateStringLength`: at most `maxLength` bytes of UTF-8. */
  function ValidateStringLength(value: string, fieldName: string, maxLength: int): (r: Option<MCPError>)
    ensures r.None? <==> Utf8Len(value) <= maxLength
    ensures r.Some? ==>
      r.value.code == InvalidInput && r.value.category == Validation
      && r.value.message == "Field '" + fieldName + "' exceeds maximum length of " + FormatInt(maxLength) + " characters"
      && r.value.details.Some? && r.value.details.value.field == fieldName
      && r.value.details.value.value == Some(IntValue(Utf8Len(value)))
  {
    if Utf8Len(value) > maxLength then
      Some(MCPError(InvalidInput,
        "Field '" + fieldName + "' exceeds maximum length of " + FormatInt(maxLength) + " characters",
        Validation,
        Some(NoDetails.(field := fieldName, value := Some(IntValue(Utf8Len(value))),
                        expected := "string length <= " + FormatInt(maxLength),
                        constraints := Some(map["max_length" := IntValue(maxLength),
                                                "actual_length" := IntValue(Utf8Len(value))]))),
        ""))
    else None
  }

  /** The form a priority or status is compared in. */
  function Normalize(s: string): (n: string)
    ensures |n| <= |s|
  {
    ToLower(TrimSpace(s))
  }

  /** The error for a value outside an enumeration. */
  function NotOneOf(code: ErrorCode, what: string, value: string, fieldName: string, order: seq<string>)
    : (e: MCPError)
    ensures e.code == code && e.category == Validation
    ensures e.details.Some? && e.details.value.field == fieldName && e.details.value.value == Some(StrValue(value))
  {
    MCPError(code,
      "Invalid " + what + " '" + value + "'. Must be one of: " + Join(order, ", "),
      Validation,
      Some(NoDetails.(field := fieldName, value := Some(StrValue(value)), expected := Join(order, ", "),
                      constraints := Some(map["valid_values" := ListValue(order)]))),
      "")
  }

  /** `ValidatePriority`: empty, or one of the four priorities after trimming
      and lower-casing. */
  function ValidatePriority(mw: Middleware, priority: string, fieldName: string): (r: Option<MCPError>)
    ensures r.None? <==> priority == "" || Normalize(priority) in PriorityValues
    ensures r.Some? ==> r == Some(NotOneOf(InvalidPriority, "priority", Normalize(priority), fieldName, mw.priorityOrder))
  {
    if priority == "" then None
    else if Normalize(priority) in PriorityValues then None
    else Some(NotOneOf(InvalidPriority, "priority", Normalize(priority), fieldName, mw.priorityOrder))
  }

  /** `ValidateStatus`: empty, or one of the four statuses after trimming and
      lower-casing. */
  function ValidateStatus(mw: Middleware, status: string, fieldName: string): (r: Option<MCPError>)
    ensures r.None? <==> status == "" || Normalize(status) in StatusValues
    ensures r.Some? ==> r == Some(NotOneOf(InvalidStatus, "status", Normalize(status), fieldName, mw.statusOrder))
  {
    if status == "" then None
    else if Normalize(status) in StatusValues then None
    else Some(NotOneOf(InvalidStatus, "status", Normalize(status), fieldName, mw.statusOrder))
  }

  /** `ValidateArray`: at most `maxItems` elements. */
  function ValidateArray(arr: seq<string>, fieldName: string, maxItems: int): (r: Option<MCPError>)
    ensures r.None? <==> |arr| <= maxItems
    ensures r.Some? ==>
      r.value.code == InvalidInput && r.value.details.Some?
      && r.value.details.value.field == fieldName && r.value.details.value.value == Some(IntValue(|arr|))
  {
    if |arr| > maxItems then
      Some(MCPError(InvalidInput,
        "Field '" + fieldName + "' exceeds maximum number of items (" + FormatInt(maxItems) + ")",
        Validation,
        Some(NoDetails.(field := fieldName, value := Some(IntValue(|arr|)),
                        expected := "array length <= " + FormatInt(maxItems),
                        constraints := Some(map["max_items" := IntValue(maxItems),
                                                "actual_items" := IntValue(|arr|)]))),
        ""))
    else None
  }

  /** A task ID given through an optional field: checked only when present
      and non-empty. */
  function OptionalTaskID(id: Option<string>, fieldName: string): (r: Option<MCPError>)
    ensures r.None? <==> id.None? || id.value == "" || TaskIds.MatchesTaskIDPattern(id.value)
  {
    if id.Some? && id.value != "" then ValidateTaskID(id.value, fieldName) else None
  }

  /** A string given through an optional field: length-checked when present. */
  function OptionalLength(value: Option<string>, fieldName: string, maxLength: int): (r: Option<MCPError>)
    ensures r.None? <==> value.None? || Utf8Len(value.value) <= maxLength
  {
    if value.Some? then ValidateStringLength(value.value, fieldName, maxLength) else None
  }

  // ------------------------------------------------------ element checks

  /** One AC index check: 1..1000. */
  function ACIndexCheck(idx: int, i: int, fieldName: string): (r: Option<MCPError>)
    ensures r.None? <==> 1 <= idx <= 1000
    ensures r.Some? ==>
      r.value.code == InvalidInput && r.value.details.Some?
      && r.value.details.value.field == IndexedField(fieldName, i)
      && r.value.details.value.value == Some(IntValue(idx))
  {
    if idx < 1 || idx > 1000 then
      Some(MCPError(InvalidInput,
        "Invalid index in '" + fieldName + "': " + FormatInt(idx) + ". Indices must be 1-based and <= 1000",
        Validation,
        Some(NoDetails.(field := IndexedField(fieldName, i), value := Some(IntValue(idx)),
                        expected := "1-based index between 1 and 1000",
                        constraints := Some(map["min_value" := IntValue(1), "max_value" := IntValue(1000)]))),
        ""))
    else None
  }

  function ACIndexChecks(indices: seq<int>, fieldName: string): (checks: seq<Option<MCPError>>)
    ensures |checks| == |indices|
    ensures forall i :: 0 <= i < |indices| ==> checks[i] == ACIndexCheck(indices[i], i, fieldName)
  {
    seq(|indices|, i requires 0 <= i < |indices| => ACIndexCheck(indices[i], i, fieldName))
  }

  function TaskIDChecks(ids: seq<string>, fieldName: string): (checks: seq<Option<MCPError>>)
    ensures |checks| == |ids|
    ensures forall i :: 0 <= i < |ids| ==> checks[i] == ValidateTaskID(ids[i], IndexedField(fieldName, i))
  {
    seq(|ids|, i requires 0 <= i < |ids| => ValidateTaskID(ids[i], IndexedField(fieldName, i)))
  }

  function StatusChecks(mw: Middleware, statuses: seq<string>, fieldName: string): (checks: seq<Option<MCPError>>)
    ensures |checks| == |statuses|
    ensures forall i :: 0 <= i < |statuses| ==> checks[i] == ValidateStatus(mw, statuses[i], IndexedField(fieldName, i))
  {
    seq(|statuses|, i requires 0 <= i < |statuses| => ValidateStatus(mw, statuses[i], IndexedField(fieldName, i)))
  }

  /** The first failure is at a position all of whose predecessors pass. */
  lemma {:induction false} FirstErrorAt(checks: seq<Option<MCPError>>, i: nat)
    requires i < |checks| && checks[i].Some? && forall j :: 0 <= j < i ==> checks[j].None?
    ensures FirstError(checks) == checks[i]
    decreases i
  {
    if i > 0 {
      assert checks[1..][i - 1] == checks[i];
      FirstErrorAt(checks[1..], i - 1);
    }
  }

  /** A concatenation of checks passes when both halves pass. */
  lemma {:induction false} FirstErrorAppendNone(a: seq<Option<MCPError>>, b: seq<Option<MCPError>>)
    ensures FirstError(a + b).None? <==> FirstError(a).None? && FirstError(b).None?
  {
    FirstErrorAppend(a, b);
  }

  /** A loop over a list of checks that stops at the first failure. */
  method FirstFailing(checks: seq<Option<MCPError>>) returns (r: Option<MCPError>)
    ensures r == FirstError(checks)
  {
    var i := 0;
    while i < |checks|
      invariant 0 <= i <= |checks|
      invariant forall j :: 0 <= j < i ==> checks[j].None?
    {
      if checks[i].Some? {
        FirstErrorAt(checks, i);
        return checks[i];
      }
      i := i + 1;
    }
    return None;
  }

  /** `validateACIndices`: every index must lie in 1..1000; the first one
      that does not is reported with its position. */
  method ValidateACIndices(indices: seq<int>, fieldName: string) returns (r: Option<MCPError>)
    ensures r.None? <==> forall i :: 0 <= i < |indices| ==> 1 <= indices[i] <= 1000
    ensures r.Some? ==>
      exists i ::
        && 0 <= i < |indices| && !(1 <= indices[i] <= 1000)
        && (forall j :: 0 <= j < i ==> 1 <= indices[j] <= 1000)
        && r == ACIndexCheck(indices[i], i, fieldName)
    ensures r == FirstError(ACIndexChecks(indices, fieldName))
  {
    var i := 0;
    while i < |indices|
      invariant 0 <= i <= |indices|
      invariant forall j :: 0 <= j < i ==> 1 <= indices[j] <= 1000
    {
      if indices[i] < 1 || indices[i] > 1000 {
        FirstErrorAt(ACIndexChecks(indices, fieldName), i);
        return ACIndexCheck(indices[i], i, fieldName);
      }
      i := i + 1;
    }
    return None;
  }

  /** The dependency loop: each ID checked in order, stopping at the first
      invalid one. */
  method ValidateTaskIDList(ids: seq<string>, fieldName: string) returns (r: Option<MCPError>)
    ensures r.None? <==> forall i :: 0 <= i < |ids| ==> ids[i] != "" && TaskIds.MatchesTaskIDPattern(ids[i])
    ensures r == FirstError(TaskIDChecks(ids, fieldName))
  {
    var i := 0;
    while i < |ids|
      invariant 0 <= i <= |ids|
      invariant forall j :: 0 <= j < i ==> ids[j] != "" && TaskIds.MatchesTaskIDPattern(ids[j])
    {
      var check := ValidateTaskID(ids[i], IndexedField(fieldName, i));
      if check.Some? {
        FirstErrorAt(TaskIDChecks(ids, fieldName), i);
        return check;
      }
      i := i + 1;
    }
    return None;
  }

  // ------------------------------------------------------------- create

  /** The two required-field checks that open a creation request. */
  function RequiredChecks(p: CreateTaskParams): (checks: seq<Option<MCPError>>)
  {
    [ ValidateRequired(p.title, "title"), ValidateRequired(p.description, "description") ]
  }

  /** The length, priority, parent and list-size checks that follow. */
  function CreateLimitChecks(mw: Middleware, p: CreateTaskParams): (checks: seq<Option<MCPError>>)
  {
    [ ValidateStringLength(p.title, "title", 200),
      ValidateStringLength(p.description, "description", 5000),
      ValidatePriority(mw, p.priority, "priority"),
      OptionalTaskID(p.parent, "parent"),
      ValidateArray(p.assignees, "assigned", 10),
      ValidateArray(p.labels, "labels", 20),
      ValidateArray(p.dependencies, "dependencies", 50),
      ValidateArray(p.ac, "ac", 100) ]
  }

  function CreatePreChecks(mw: Middleware, p: CreateTaskParams): (checks: seq<Option<MCPError>>)
  {
    RequiredChecks(p) + CreateLimitChecks(mw, p)
  }

  function CreatePostChecks(p: CreateTaskParams): (checks: seq<Option<MCPError>>)
  {
    [ OptionalLength(p.plan, "plan", 10000), OptionalLength(p.notes, "notes", 10000) ]
  }

  /** The checks of `ValidateCreateTaskParams`, in the order it runs them. */
  function CreateChecks(mw: Middleware, p: CreateTaskParams): (checks: seq<Option<MCPError>>)
  {
    CreatePreChecks(mw, p) + TaskIDChecks(p.dependencies, "dependencies") + CreatePostChecks(p)
  }

  predicate AllTaskIDs(ids: seq<string>)
  {
    forall i :: 0 <= i < |ids| ==> ids[i] != "" && TaskIds.MatchesTaskIDPattern(ids[i])
  }

  /** The fields checked before the dependency loop of a creation request. */
  predicate CreateFieldsValid(p: CreateTaskParams)
  {
    && NonBlank(p.title) && NonBlank(p.description)
    && Utf8Len(p.title) <= 200 && Utf8Len(p.description) <= 5000
    && (p.priority == "" || Normalize(p.priority) in PriorityValues)
    && (p.parent.None? || p.parent.value == "" || TaskIds.MatchesTaskIDPattern(p.parent.value))
    && |p.assignees| <= 10 && |p.labels| <= 20 && |p.dependencies| <= 50 && |p.ac| <= 100
  }

  /** What a valid creation request is, stated field by field. */
  predicate CreateParamsValid(p: CreateTaskParams)
  {
    && CreateFieldsValid(p)
    && AllTaskIDs(p.dependencies)
    && (p.plan.None? || Utf8Len(p.plan.value) <= 10000)
    && (p.notes.None? || Utf8Len(p.notes.value) <= 10000)
  }

  lemma {:induction false} TaskIDChecksPass(ids: seq<string>, fieldName: string)
    ensures FirstError(TaskIDChecks(ids, fieldName)).None? <==> AllTaskIDs(ids)
  {
    var checks := TaskIDChecks(ids, fieldName);
    assert forall i :: 0 <= i < |ids| ==> (checks[i].None? <==> ids[i] != "" && TaskIds.MatchesTaskIDPattern(ids[i]));
  }

  // Whether a fixed-length list of checks passes, stated element by element;
  // proved on an arbitrary list so that the solver does not unfold the
  // checks themselves.
  lemma {:induction false} NoneOfTwo(c: seq<Option<MCPError>>)
    requires |c| == 2
    ensures FirstError(c).None? <==> c[0].None? && c[1].None?
  {
  }

  lemma {:induction false} NoneOfFive(c: seq<Option<MCPError>>)
    requires |c| == 5
    ensures FirstError(c).None? <==> c[0].None? && c[1].None? && c[2].None? && c[3].None? && c[4].None?
  {
  }

  lemma {:induction false} NoneOfEight(c: seq<Option<MCPError>>)
    requires |c| == 8
    ensures FirstError(c).None? <==>
      (c[0].None? && c[1].None? && c[2].None? && c[3].None?
       && c[4].None? && c[5].None? && c[6].None? && c[7].None?)
  {
  }

  lemma {:induction false} NoneOfSix(c: seq<Option<MCPError>>)
    requires |c| == 6
    ensures FirstError(c).None? <==>
      (c[0].None? && c[1].None? && c[2].None? && c[3].None? && c[4].None? && c[5].None?)
  {
  }

  lemma {:induction false} CreatePreChecksPass(mw: Middleware, p: CreateTaskParams)
    ensures FirstError(CreatePreChecks(mw, p)).None? <==> CreateFieldsValid(p)
  {
    FirstErrorAppendNone(RequiredChecks(p), CreateLimitChecks(mw, p));
    NoneOfTwo(RequiredChecks(p));
    CreateLimitChecksPass(mw, p);
  }

  lemma {:induction false} CreateLimitChecksPass(mw: Middleware, p: CreateTaskParams)
    ensures FirstError(CreateLimitChecks(mw, p)).None? <==>
      && Utf8Len(p.title) <= 200 && Utf8Len(p.description) <= 5000
      && (p.priority == "" || Normalize(p.priority) in PriorityValues)
      && (p.parent.None? || p.parent.value == "" || TaskIds.MatchesTaskIDPattern(p.parent.value))
      && |p.assignees| <= 10 && |p.labels| <= 20 && |p.dependencies| <= 50 && |p.ac| <= 100
  {
    NoneOfEight(CreateLimitChecks(mw, p));
  }

  /** Creation passes exactly when every field is valid. */
  lemma {:induction false} CreateChecksPass(mw: Middleware, p: CreateTaskParams)
    ensures FirstError(CreateChecks(mw, p)).None? <==> CreateParamsValid(p)
  {
    var pre := CreatePreChecks(mw, p);
    var deps := TaskIDChecks(p.dependencies, "dependencies");
    var post := CreatePostChecks(p);
    FirstErrorAppendNone(pre + deps, post);
    FirstErrorAppendNone(pre, deps);
    CreatePreChecksPass(mw, p);
    TaskIDChecksPass(p.dependencies, "dependencies");
    NoneOfTwo(post);
  }

  /** `ValidateCreateTaskParams`. */
  method ValidateCreateTaskParams(mw: Middleware, p: CreateTaskParams) returns (r: Option<MCPError>)
    ensures r == FirstError(CreateChecks(mw, p))
    ensures r.None? <==> CreateParamsValid(p)
  {
    var pre := CreatePreChecks(mw, p);
    var deps := TaskIDChecks(p.dependencies, "dependencies");
    var post := CreatePostChecks(p);
    FirstErrorAppend(pre + deps, post);
    FirstErrorAppend(pre, deps);
    CreateChecksPass(mw, p);
    r := FirstFailing(pre);
    if r.None? {
      r := ValidateTaskIDList(p.dependencies, "dependencies");
      if r.None? {
        r := FirstFailing(post);
      }
    }
  }

  /** A blank title is reported before anything else is looked at. */
  lemma {:induction false} CreateBlankTitleFirst(mw: Middleware, p: CreateTaskParams)
    requires !NonBlank(p.title)
    ensures FirstError(CreateChecks(mw, p)) == Some(NewMissingRequiredError("title"))
  {
    CreateRequiredFirst(mw, p);
  }

  /** A blank description is reported before an over-long title. */
  lemma {:induction false} CreateDescriptionBeforeLength(mw: Middleware, p: CreateTaskParams)
    requires NonBlank(p.title) && !NonBlank(p.description)
    ensures FirstError(CreateChecks(mw, p)) == Some(NewMissingRequiredError("description"))
  {
    CreateRequiredFirst(mw, p);
  }

  /** A failing required-field check is the error of the whole request. */
  lemma {:induction false} CreateRequiredFirst(mw: Middleware, p: CreateTaskParams)
    ensures FirstError(RequiredChecks(p)).Some? ==> FirstError(CreateChecks(mw, p)) == FirstError(RequiredChecks(p))
  {
    var req, limits := RequiredChecks(p), CreateLimitChecks(mw, p);
    var deps, post := TaskIDChecks(p.dependencies, "dependencies"), CreatePostChecks(p);
    FirstErrorAppend(req, limits);
    FirstErrorAppend(req + limits, deps + post);
    AppendAssoc(req + limits, deps, post);
  }

  // --------------------------------------------------------------- edit

  function OptionalStatus(mw: Middleware, s: Option<string>, fieldName: string): (r: Option<MCPError>)
    ensures r.None? <==> s.None? || s.value == "" || Normalize(s.value) in StatusValues
  {
    if s.Some? then ValidateStatus(mw, s.value, fieldName) else None
  }

  function OptionalPriority(mw: Middleware, s: Option<string>, fieldName: string): (r: Option<MCPError>)
    ensures r.None? <==> s.None? || s.value == "" || Normalize(s.value) in PriorityValues
  {
    if s.Some? then ValidatePriority(mw, s.value, fieldName) else None
  }

  /** The ID, text and status checks that open an edit request. */
  function EditFieldChecks(mw: Middleware, p: EditTaskParams): (checks: seq<Option<MCPError>>)
  {
    [ ValidateTaskID(p.id, "id"),
      OptionalLength(p.newTitle, "new_title", 200),
      OptionalLength(p.newDescription, "new_description", 5000),
      OptionalStatus(mw, p.newStatus, "new_status"),
      OptionalPriority(mw, p.newPriority, "new_priority"),
      OptionalTaskID(p.newParent, "new_parent") ]
  }

  /** The list-size checks that follow. */
  function EditArrayChecks(p: EditTaskParams): (checks: seq<Option<MCPError>>)
  {
    [ ValidateArray(p.addAssigned, "add_assigned", 10),
      ValidateArray(p.removeAssigned, "remove_assigned", 10),
      ValidateArray(p.addLabels, "add_labels", 20),
      ValidateArray(p.removeLabels, "remove_labels", 20),
      ValidateArray(p.newDependencies, "new_dependencies", 50),
      ValidateArray(p.addAC, "add_ac", 100) ]
  }

  function EditPreChecks(mw: Middleware, p: EditTaskParams): (checks: seq<Option<MCPError>>)
  {
    EditFieldChecks(mw, p) + EditArrayChecks(p)
  }

  function EditMidChecks(p: EditTaskParams): (checks: seq<Option<MCPError>>)
  {
    [ OptionalLength(p.newPlan, "new_plan", 10000), OptionalLength(p.newNotes, "new_notes", 10000) ]
  }

  /** The checks of `ValidateEditTaskParams`, in the order it runs them. */
  function EditChecks(mw: Middleware, p: EditTaskParams): (checks: seq<Option<MCPError>>)
  {
    EditPreChecks(mw, p) + TaskIDChecks(p.newDependencies, "new_dependencies") + EditMidChecks(p)
    + ACIndexChecks(p.checkAC, "check_ac") + ACIndexChecks(p.uncheckAC, "uncheck_ac")
    + ACIndexChecks(p.removeAC, "remove_ac")
  }

  predicate ACIndicesValid(indices: seq<int>) { forall i :: 0 <= i < |indices| ==> 1 <= indices[i] <= 1000 }

  /** The fields checked before the dependency loop of an edit request. */
  predicate EditFieldsValid(p: EditTaskParams)
  {
    && p.id != "" && TaskIds.MatchesTaskIDPattern(p.id)
    && (p.newTitle.None? || Utf8Len(p.newTitle.value) <= 200)
    && (p.newDescription.None? || Utf8Len(p.newDescription.value) <= 5000)
    && (p.newStatus.None? || p.newStatus.value == "" || Normalize(p.newStatus.value) in StatusValues)
    && (p.newPriority.None? || p.newPriority.value == "" || Normalize(p.newPriority.value) in PriorityValues)
    && (p.newParent.None? || p.newParent.value == "" || TaskIds.MatchesTaskIDPattern(p.newParent.value))
    && |p.addAssigned| <= 10 && |p.removeAssigned| <= 10 && |p.addLabels| <= 20 && |p.removeLabels| <= 20
    && |p.newDependencies| <= 50 && |p.addAC| <= 100
  }

  /** What a valid edit request is, stated field by field. */
  predicate EditParamsValid(p: EditTaskParams)
  {
    && EditFieldsValid(p)
    && AllTaskIDs(p.newDependencies)
    && (p.newPlan.None? || Utf8Len(p.newPlan.value) <= 10000)
    && (p.newNotes.None? || Utf8Len(p.newNotes.value) <= 10000)
    && ACIndicesValid(p.checkAC) && ACIndicesValid(p.uncheckAC) && ACIndicesValid(p.removeAC)
  }

  lemma {:induction false} ACIndexChecksPass(indices: seq<int>, fieldName: string)
    ensures FirstError(ACIndexChecks(indices, fieldName)).None? <==> ACIndicesValid(indices)
  {
    var checks := ACIndexChecks(indices, fieldName);
    assert forall i :: 0 <= i < |indices| ==> (checks[i].None? <==> 1 <= indices[i] <= 1000);
  }

  lemma {:induction false} EditPreChecksPass(mw: Middleware, p: EditTaskParams)
    ensures FirstError(EditPreChecks(mw, p)).None? <==> EditFieldsValid(p)
  {
    FirstErrorAppendNone(EditFieldChecks(mw, p), EditArrayChecks(p));
    EditFieldChecksPass(mw, p);
    NoneOfSix(EditArrayChecks(p));
  }

  lemma {:induction false} EditFieldChecksPass(mw: Middleware, p: EditTaskParams)
    ensures FirstError(EditFieldChecks(mw, p)).None? <==>
      && p.id != "" && TaskIds.MatchesTaskIDPattern(p.id)
      && (p.newTitle.None? || Utf8Len(p.newTitle.value) <= 200)
      && (p.newDescription.None? || Utf8Len(p.newDescription.value) <= 5000)
      && (p.newStatus.None? || p.newStatus.value == "" || Normalize(p.newStatus.value) in StatusValues)
      && (p.newPriority.None? || p.newPriority.value == "" || Normalize(p.newPriority.value) in PriorityValues)
      && (p.newParent.None? || p.newParent.value == "" || TaskIds.MatchesTaskIDPattern(p.newParent.value))
  {
    NoneOfSix(EditFieldChecks(mw, p));
  }

  /** Editing passes exactly when every field is valid. */
  lemma {:induction false} EditChecksPass(mw: Middleware, p: EditTaskParams)
    ensures FirstError(EditChecks(mw, p)).None? <==> EditParamsValid(p)
  {
    var pre := EditPreChecks(mw, p);
    var deps := TaskIDChecks(p.newDependencies, "new_dependencies");
    var mid := EditMidChecks(p);
    var c1 := ACIndexChecks(p.checkAC, "check_ac");
    var c2 := ACIndexChecks(p.uncheckAC, "uncheck_ac");
    var c3 := ACIndexChecks(p.removeAC, "remove_ac");
    FirstErrorAppendNone(pre + deps + mid + c1 + c2, c3);
    FirstErrorAppendNone(pre + deps + mid + c1, c2);
    FirstErrorAppendNone(pre + deps + mid, c1);
    FirstErrorAppendNone(pre + deps, mid);
    FirstErrorAppendNone(pre, deps);
    EditPreChecksPass(mw, p);
    TaskIDChecksPass(p.newDependencies, "new_dependencies");
    ACIndexChecksPass(p.checkAC, "check_ac");
    ACIndexChecksPass(p.uncheckAC, "uncheck_ac");
    ACIndexChecksPass(p.removeAC, "remove_ac");
    NoneOfTwo(mid);
  }

  /** `ValidateEditTaskParams`. */
  method ValidateEditTaskParams(mw: Middleware, p: EditTaskParams) returns (r: Option<MCPError>)
    ensures r == FirstError(EditChecks(mw, p))
    ensures r.None? <==> EditParamsValid(p)
  {
    var pre := EditPreChecks(mw, p);
    var deps := TaskIDChecks(p.newDependencies, "new_dependencies");
    var mid := EditMidChecks(p);
    var c1 := ACIndexChecks(p.checkAC, "check_ac");
    var c2 := ACIndexChecks(p.uncheckAC, "uncheck_ac");
    var c3 := ACIndexChecks(p.removeAC, "remove_ac");
    FirstErrorAppend(pre + deps + mid + c1 + c2, c3);
    FirstErrorAppend(pre + deps + mid + c1, c2);
    FirstErrorAppend(pre + deps + mid, c1);
    FirstErrorAppend(pre + deps, mid);
    FirstErrorAppend(pre, deps);
    EditChecksPass(mw, p);
    r := FirstFailing(pre);
    if r.Some? { return; }
    r := ValidateTaskIDList(p.newDependencies, "new_dependencies");
    if r.Some? { return; }
    r := FirstFailing(mid);
    if r.Some? { return; }
    r := ValidateACIndices(p.checkAC, "check_ac");
    if r.Some? { return; }
    r := ValidateACIndices(p.uncheckAC, "uncheck_ac");
    if r.Some? { return; }
    r := ValidateACIndices(p.removeAC, "remove_ac");
  }

  /** `ValidateViewParams`: the task ID check on field "id". */
  function ValidateViewParams(taskID: string): (r: Option<MCPError>)
    ensures r.None? <==> taskID != "" && TaskIds.MatchesTaskIDPattern(taskID)
    ensures r.Some? ==> r.value.details.Some? && r.value.details.value.field == "id"
  {
    ValidateTaskID(taskID, "id")
  }

  // --------------------------------------------------------------- list

  function NegativeCheck(value: Option<int>, fieldName: string, message: string): (r: Option<MCPError>)
    ensures r.None? <==> value.None? || value.value >= 0
    ensures r.Some? ==>
      r.value.code == InvalidInput && r.value.message == message
      && r.value.details == Some(NoDetails.(field := fieldName, value := Some(IntValue(value.value)),
                                            expected := "integer >= 0"))
  {
    if value.Some? && value.value < 0 then
      Some(MCPError(InvalidInput, message, Validation,
        Some(NoDetails.(field := fieldName, value := Some(IntValue(value.value)), expected := "integer >= 0")), ""))
    else None
  }

  function ListPreChecks(mw: Middleware, p: ListTasksParams): (checks: seq<Option<MCPError>>)
  {
    [ OptionalTaskID(p.parent, "parent"), OptionalPriority(mw, p.priority, "priority") ]
  }

  function ListPostChecks(p: ListTasksParams): (checks: seq<Option<MCPError>>)
  {
    [ ValidateArray(p.assignees, "assigned", 10),
      ValidateArray(p.labels, "labels", 20),
      ValidateArray(p.sort, "sort", 10),
      NegativeCheck(p.limit, "limit", "Limit must be >= 0"),
      NegativeCheck(p.offset, "offset", "Offset must be >= 0") ]
  }

  /** The checks of `ValidateListParams`, in the order it runs them. */
  function ListChecks(mw: Middleware, p: ListTasksParams): (checks: seq<Option<MCPError>>)
  {
    ListPreChecks(mw, p) + StatusChecks(mw, p.status, "status") + ListPostChecks(p)
  }

  predicate StatusesValid(statuses: seq<string>)
  {
    forall i :: 0 <= i < |statuses| ==> statuses[i] == "" || Normalize(statuses[i]) in StatusValues
  }

  /** What a valid list request is, stated field by field. */
  predicate ListParamsValid(p: ListTasksParams)
  {
    && (p.parent.None? || p.parent.value == "" || TaskIds.MatchesTaskIDPattern(p.parent.value))
    && (p.priority.None? || p.priority.value == "" || Normalize(p.priority.value) in PriorityValues)
    && StatusesValid(p.status)
    && |p.assignees| <= 10 && |p.labels| <= 20 && |p.sort| <= 10
    && (p.limit.None? || p.limit.value >= 0)
    && (p.offset.None? || p.offset.value >= 0)
  }

  /** The status checks pass exactly when every status is known or empty. */
  lemma {:induction false} StatusChecksPass(mw: Middleware, statuses: seq<string>, fieldName: string)
    ensures FirstError(StatusChecks(mw, statuses, fieldName)).None? <==> StatusesValid(statuses)
  {
    var checks := StatusChecks(mw, statuses, fieldName);
    assert forall i :: 0 <= i < |statuses| ==>
      (checks[i].None? <==> statuses[i] == "" || Normalize(statuses[i]) in StatusValues);
  }

  /** Listing passes exactly when every field is valid. */
  lemma {:induction false} ListChecksPass(mw: Middleware, p: ListTasksParams)
    ensures FirstError(ListChecks(mw, p)).None? <==> ListParamsValid(p)
  {
    var pre := ListPreChecks(mw, p);
    var statuses := StatusChecks(mw, p.status, "status");
    var post := ListPostChecks(p);
    FirstErrorAppendNone(pre + statuses, post);
    FirstErrorAppendNone(pre, statuses);
    NoneOfTwo(pre);
    NoneOfFive(post);
    StatusChecksPass(mw, p.status, "status");
  }

  /** The status loop: each status checked in order, stopping at the first
      invalid one. */
  method ValidateStatusList(mw: Middleware, statuses: seq<string>, fieldName: string) returns (r: Option<MCPError>)
    ensures r == FirstError(StatusChecks(mw, statuses, fieldName))
    ensures r.None? <==> StatusesValid(statuses)
  {
    var checks := StatusChecks(mw, statuses, fieldName);
    StatusChecksPass(mw, statuses, fieldName);
    r := FirstFailing(checks);
  }

  /** `ValidateListParams`. */
  method ValidateListParams(mw: Middleware, p: ListTasksParams) returns (r: Option<MCPError>)
    ensures r == FirstError(ListChecks(mw, p))
    ensures r.None? <==> ListParamsValid(p)
  {
    var pre := ListPreChecks(mw, p);
    var statuses := StatusChecks(mw, p.status, "status");
    var post := ListPostChecks(p);
    FirstErrorAppend(pre + statuses, post);
    FirstErrorAppend(pre, statuses);
    ListChecksPass(mw, p);
    r := FirstFailing(pre);
    if r.Some? { return; }
    r := ValidateStatusList(mw, p.status, "status");
    if r.Some? { return; }
    r := FirstFailing(post);
  }

  /** A negative limit is rejected, and so is a negative offset, but the
      limit is reported first. */
  lemma {:induction false} NegativeLimitReportedFirst(mw: Middleware, p: ListTasksParams)
    requires ListParamsValid(p.(limit := None, offset := None))
    requires p.limit.Some? && p.limit.value < 0
    ensures FirstError(ListChecks(mw, p)).Some?
    ensures FirstError(ListChecks(mw, p)).value.message == "Limit must be >= 0"
  {
    var pre := ListPreChecks(mw, p);
    var statuses := StatusChecks(mw, p.status, "status");
    var post := ListPostChecks(p);
    FirstErrorAppend(pre + statuses, post);
    FirstErrorAppend(pre, statuses);
    ListChecksPass(mw, p.(limit := None, offset := None));
    assert ListPreChecks(mw, p) == ListPreChecks(mw, p.(limit := None, offset := None));
    assert statuses == StatusChecks(mw, p.(limit := None, offset := None).status, "status");
    FirstErrorAt(post, 3);
  }
}
