/** The parameter records of the task store's create, edit and list
    operations (internal/core/create.go, update.go, list.go).  A Go pointer
    field becomes an `Option`; a slice becomes a sequence, and a nil slice
    the empty one. */
module CoreParams {
  import opened Wrappers

  /** Task creation.  The MCP validator treats parent, plan and notes as
      optional, so they are optional here. */
  datatype CreateTaskParams = CreateTaskParams(
    title: string,
    description: string,
    priority: string,
    parent: Option<string>,
    assignees: seq<string>,
    labels: seq<string>,
    dependencies: seq<string>,
    ac: seq<string>,
    plan: Option<string>,
    notes: Option<string>)

  /** Task editing: every field but the ID is an optional change. */
  datatype EditTaskParams = EditTaskParams(
    id: string,
    newTitle: Option<string>,
    newDescription: Option<string>,
    newStatus: Option<string>,
    newPriority: Option<string>,
    newParent: Option<string>,
    addAssigned: seq<string>,
    removeAssigned: seq<string>,
    addLabels: seq<string>,
    removeLabels: seq<string>,
    newDependencies: seq<string>,
    newNotes: Option<string>,
    newPlan: Option<string>,
    addAC: seq<string>,
    checkAC: seq<int>,
    uncheckAC: seq<int>,
    removeAC: seq<int>)

  /** Task listing: filters, sort keys and pagination. */
  datatype ListTasksParams = ListTasksParams(
    parent: Option<string>,
    status: seq<string>,
    assignees: seq<string>,
    labels: seq<string>,
    sort: seq<string>,
    priority: Option<string>,
    unassigned: bool,
    dependedOn: bool,
    hasDependency: bool,
    reverse: bool,
    limit: Option<int>,
    offset: Option<int>)
}
