# A verified model of the backlog task manager's core

`backlog` is a task manager for Markdown task files, with a command-line
interface and an MCP server. Each task lives in a file named
`T<id>-<slug>.md`. The file holds YAML front matter followed by a Markdown
body with the sections Description, Acceptance Criteria, Implementation Plan
and Implementation Notes. This project models the in-memory logic behind
those files in Dafny and proves what that logic guarantees.

The model covers:

- **Task IDs.** Hierarchical IDs (`T01.02.03`): parsing, printing, ordering,
  parents, siblings and next-child allocation from a directory listing.
- **The task record.** Its file name and slug, the body it writes, the
  status and priority names, and the JSON shape of string lists.
- **Reading a task file.** The ID in the file name, the split of the body by
  its four headers, and the acceptance-criteria checkbox lines, read back
  from the lines the writer produces.
- **Editing a task.** The set-like label and assignee merge and the sorting
  list comparison. Acceptance-criteria edits run in the order remove, check,
  uncheck, add, re-index. `Update` applies an edit field by field, with one
  history entry per effective change.
- **Listing.** The filter pass, the "depended on" graph, the multi-key sort,
  offset/limit pagination, the index-based "smart" filter with its cost
  estimates, and the CLI's default-pagination rule.
- **ID conflicts.** Detection of duplicate IDs, orphaned children and
  misplaced children, the per-type summary, the three resolution strategies
  and the dry run of a plan.
- **Input checks.** The CLI validators, the MCP validators with their
  structured errors and error classification, the string sanitizers, and the
  secure file layer's path check.
- **The two documentation generators.** The Python script's `get_section`
  and page loop, and the Go generator's `slugify` and section filter.

Each source file is a module. Where the source loops, the module has a
`method` with the same loop. The method is proved equal to a specification
function, and the promised properties are proved of that function as
lemmas. Where the source only computes, the model is a function with lemmas.

Shared modules:

- `Text`: the Go and Python string functions the code calls.
- `StringOrder`: Go's string order and `slices.Sort`.
- `Paths`: `filepath.Clean`.
- `ExchangeSort`: the swap sort used in conflict resolution.
- `Selection` and `Steps`: two loop shapes several modules share, namely
  "append what each element yields" and "step until the first error".

Everything outside the process becomes an input. That includes the
directory listing and whether it could be read, a file's parsed contents,
whether the lock was taken, the fuzzy-match distance function, and the
Unicode letter/digit classifier.

## Model

| member | source | states |
|---|---|---|
| TaskIds.ParseErrorMessage | internal/core/id.go:39 | the error text starts with "invalid segment in task ID " |
| TaskIds.StripPrefix | internal/core/id.go:31-33 | one leading "T" is removed when present, otherwise the text is kept |
| TaskIds.ParseSegments | internal/core/id.go:36-43 | succeeds iff every part is accepted by `strconv.Atoi`; then one segment per part, each the part's value; a failure names an unreadable part |
| TaskIds.Parts | internal/core/id.go:34 | the split after the optional "T" always has at least one part |
| TaskIds.ParseTaskID | internal/core/id.go:30-44 | succeeds iff every dot-separated part is an integer; the segments are those integers, one per part |
| TaskIds.ScanTaskID | internal/core/id.go:30-44 | the loop that stops at the first unreadable part returns exactly `ParseTaskID` |
| TaskIds.ParseSegmentsStops | internal/core/id.go:37-40 | the error names the first part that fails to parse |
| TaskIds.Pad2 | internal/core/id.go:98 | `%02d` gives at least two characters and no dot; digits only for a non-negative value, a leading '-' otherwise |
| TaskIds.PaddedSegments | internal/core/id.go:94-99 | one padded text per segment, in order |
| TaskIds.String | internal/core/id.go:92-101 | the text is empty exactly for the zero ID |
| TaskIds.BufferString | internal/core/id.go:92-101 | the buffer loop returns exactly `String` |
| TaskIds.StringSplits | internal/core/id.go:92-101 | splitting `String` at dots gives back the padded segments |
| TaskIds.Name | internal/core/id.go:104-106 | "T" followed by `String` |
| TaskIds.EqualSeg | internal/core/id.go:130-140 | true iff the two segment lists are equal |
| TaskIds.Equals | internal/core/id.go:130-140 | true iff the lengths agree and every segment agrees |
| TaskIds.EqualIDs | internal/core/id.go:130-140 | the length check and segment loop return exactly `Equals` |
| TaskIds.CompareIDs | internal/core/id.go:113-128 | the segment loop returns exactly `Less` |
| TaskIds.Parent | internal/core/id.go:142-147 | present iff the ID has more than one segment; then it is the ID without its last segment |
| TaskIds.NextSubTaskID | internal/core/id.go:148-153 | the segments with 1 appended |
| TaskIds.NextSiblingID | internal/core/id.go:155-163 | [1] for the zero ID, otherwise the last segment plus one and the rest unchanged |
| TaskIds.PatternParses | internal/core/id.go:30-44 | an ID matching `^T?\d+(\.\d+)*$` whose segments fit in 64 bits parses, to the values of its digit runs |
| TaskIds.SignedSegmentParsesButIsNotValid | internal/core/id.go:37 | "-1" parses (`Atoi` accepts a sign) yet does not match the validated syntax |
| TaskIds.Pad2Parses | internal/core/id.go:98 | `Atoi` reads a padded non-negative 64-bit value back to that value |
| TaskIds.ParsePadded | internal/core/id.go:30-44 | text whose parts are an ID's padded segments parses to that ID |
| TaskIds.ParseString | internal/core/id.go:92-106 | `ParseTaskID(String(t)) == Ok(t)` and `ParseTaskID(Name(t)) == Ok(t)` for non-empty IDs with non-negative 64-bit segments |
| TaskIds.EqualsIsEquality | internal/core/id.go:130-140 | `Equals` holds iff the IDs are the same value |
| TaskIds.LessIrreflexive | internal/core/id.go:113-128 | no ID is less than itself |
| TaskIds.LessAsymmetric | internal/core/id.go:113-128 | `Less(a, b)` excludes `Less(b, a)` |
| TaskIds.LessTransitive | internal/core/id.go:113-128 | `Less` is transitive |
| TaskIds.LessTotal | internal/core/id.go:113-128 | any two different IDs are ordered one way or the other |
| TaskIds.PrefixLess | internal/core/id.go:126-127 | a proper prefix is less than the longer ID |
| TaskIds.FirstDifferenceDecides | internal/core/id.go:119-125 | the first differing segment decides the order |
| TaskIds.ParentLess | internal/core/id.go:142-147 | a parent is less than its child |
| TaskIds.NextSubTaskParent | internal/core/id.go:142-153 | the first sub-task of a non-zero ID has that ID as parent and comes after it |
| TaskIds.NextSiblingOrder | internal/core/id.go:142-163 | the next sibling has the same parent and comes after |
| TaskIds.ParseRejectsLetterSegment | internal/core/id.go:37-40 | "T1.a.3" does not parse |
| TaskIds.ParseRejectsEmptySegment | internal/core/id.go:34-40 | "", "T" and any ID containing ".." do not parse |
| TaskIds.JSONRoundTrip | internal/core/id.go:59-71 | unmarshalling the JSON form of an ID gives the ID back |
| Tasks.TaskRef.constructor | internal/core/task.go:31-52 | the reference holds the given task |
| Tasks.DropDisallowed | internal/core/task.go:54 | drops a leading run outside the slug class; what is left is a suffix of the input starting with a slug character |
| Tasks.ReplaceDisallowedRuns | internal/core/task.go:54-62 | the result is no longer than the input and holds only slug characters, each either "_" or taken from the input; input already in the slug class is unchanged |
| Tasks.ReplacedIsSlugText | internal/core/task.go:61-62 | replacing the runs of a lower-cased title leaves slug text |
| Tasks.TrimmedIsSlugText | internal/core/task.go:64 | trimming underscores keeps slug text |
| Tasks.SlugBody | internal/core/task.go:61-64 | the lowered, replaced and trimmed title is slug text that neither starts nor ends with "_" |
| Tasks.SlugTextByteLength | internal/core/task.go:66 | slug text is ASCII, so its byte length is its length |
| Tasks.UntitledSlugIsSlugText | internal/core/task.go:69-71 | "untitled_task" is slug text not starting with "_" |
| Tasks.Slug | internal/core/task.go:60-71 | 1 to 50 slug characters, not starting with "_"; "untitled_task" for an empty body, the body when it fits in 50 bytes, its first 50 bytes otherwise |
| Tasks.FileNameParts | internal/core/task.go:56-72 | the prefix, slug and ".md" can be read back from a file name |
| Tasks.FileName | internal/core/task.go:59-73 | "<Name>-<slug>.md": the name starts with the ID's Name and "-", ends with ".md", and the slug sits between |
| Tasks.SlugOfPlainTitle | internal/core/task.go:60-71 | a title of at most 50 slug characters, not starting or ending with "_", is its own slug |
| Tasks.SlugOfBlankTitle | internal/core/task.go:69-71 | a title of spaces and underscores gives "untitled_task" |
| Tasks.InsertByIndex | internal/core/parse.go:143-145 | inserting into a list sorted by index keeps it sorted and adds exactly the one criterion |
| Tasks.SortByIndex | internal/core/parse.go:143-145 | the criteria sorted by index, a permutation of the input |
| Tasks.SameHead | internal/core/parse.go:143-145 | two sorted arrangements of the same criteria, one strictly sorted, start alike |
| Tasks.SortedArrangementUnique | internal/core/parse.go:143-145 | a strictly sorted list is the only sorted arrangement of its elements, so an unstable sort still has one outcome |
| Tasks.ACLines | internal/core/task.go:99-105 | empty exactly when there are no criteria |
| Tasks.WriteACLines | internal/core/task.go:99-105 | the loop appends exactly `ACLines` to the buffer |
| Tasks.BodyBytes | internal/core/task.go:97-110 | the buffer writes give exactly the markdown body `Body` |
| Tasks.PriorityString | internal/core/task.go:199-214 | the name of priorities 0..4, "" for any other value |
| Tasks.Compact | internal/core/task.go:171 | the compacted input holds no space |
| Tasks.FirstWithin | internal/core/task.go:172-177 | the first name within distance 2 from position k, and none exactly when every name is at distance 3 or more |
| Tasks.FindClose | internal/core/task.go:172-177 | the loop returns exactly `FirstWithin` from position 0 |
| Tasks.ParseStatus | internal/core/task.go:167-179 | "" gives todo; otherwise the first status within distance 2 of the compacted input; an error naming the input iff no status is that close |
| Tasks.MatchStatus | internal/core/task.go:167-179 | the method with its loop returns exactly `ParseStatus` |
| Tasks.ParsePriority | internal/core/task.go:216-242 | "" gives unknown; otherwise the priority whose name is the first within distance 2; an error naming the input iff none is that close |
| Tasks.MatchPriority | internal/core/task.go:216-242 | the method with its loop returns exactly `ParsePriority` |
| Tasks.CompactName | internal/core/task.go:171 | a lower-case name without spaces is its own compact form |
| Tasks.FirstWithinIs | internal/core/task.go:172-177 | the search stops at the first close name |
| Tasks.ParsePriorityString | internal/core/task.go:199-242 | every priority's name parses back to that priority, when distinct names are at least 3 apart |
| Tasks.ParseStatusName | internal/core/task.go:167-179 | every status name parses back to itself, when distinct names are at least 3 apart |
| Tasks.MarshalMaybeStringArray | internal/core/task.go:302-311 | null for no item, a string for one, an array of the items, in order, for two or more |
| Tasks.UnmarshalMaybeStringArray | internal/core/task.go:287-300 | an array of strings or a single string is accepted, a null item in the array decodes as the empty string, null gives the empty list, anything else is an error |
| Tasks.MaybeStringArrayRoundTrip | internal/core/task.go:287-311 | decoding what was encoded gives the list back, whatever its length |
| Parse.BeforeSeparator | internal/core/parse.go:69-72 | none iff the name has no "-"; otherwise the text before the first "-", which holds no "-" |
| Parse.BeforeSeparatorOf | internal/core/parse.go:69 | any "-"-free prefix followed by "-" is the text before the first "-" |
| Parse.ParseTaskIDFromFileName | internal/core/parse.go:67-78 | the wrong-format error iff the name has no "-"; otherwise the text before the first "-" parses as an ID, with its parse error passed on |
| Parse.NameHasNoDash | internal/core/id.go:104-106 | the Name of an ID with non-negative segments holds no "-" |
| Parse.FileNameRoundTrip | internal/core/parse.go:67-78 | the ID read back from a task's file name is the task's ID |
| Parse.FileNameWithoutDash | internal/core/parse.go:70-72 | a name without "-" is rejected with the wrong-format error |
| Parse.NextHeader | internal/core/parse.go:103-109 | the first later-listed header occurring at or after `from`; none iff there is no such header |
| Parse.SectionEnd | internal/core/parse.go:102-109 | the section stops at the chosen header's first occurrence, or at the end of the content |
| Parse.SectionStart | internal/core/parse.go:97-111 | the section starts right after the header's first occurrence |
| Parse.SectionText | internal/core/parse.go:111-112 | the trimmed text is no longer than what follows the header |
| Parse.SectionOrEmpty | internal/core/parse.go:118-123 | "" when the header is missing, otherwise its section |
| Parse.SectionAsWritten | internal/core/parse.go:102-111 | the slice bound panics exactly when the next present header starts before this section does; otherwise the section |
| Parse.NoPanicAgrees | internal/core/parse.go:103-109 | where the search does not panic, it stops at the same header as the search that starts after the current header |
| Parse.SecondBeforeFirstPanics | internal/core/parse.go:102-111 | whenever the second header occurs before the first, the split panics on the first |
| Parse.SwappedHeadersPanic | internal/core/parse.go:92-116 | "## Acceptance Criteria" before "## Description" makes the split panic |
| Parse.Present | internal/core/parse.go:97-100 | which headers occur in the content |
| Parse.Texts | internal/core/parse.go:96-113 | the section of every header, "" for a missing one |
| Parse.FindSectionEnd | internal/core/parse.go:102-109 | the inner loop returns exactly `SectionEnd` |
| Parse.FoundSection | internal/core/parse.go:97-112 | a header the loop finds is present, and its text is the trimmed slice between start and end |
| Parse.SplitSections | internal/core/parse.go:92-116 | the map holds exactly the present headers, each mapped to its section |
| Parse.SplitByHeaders | internal/core/parse.go:92-116 | over the four task headers: the map holds exactly the present headers, each mapped to its section |
| Parse.Panics | internal/core/parse.go:111 | on which headers the as-written slice panics |
| Parse.FoundAsWritten | internal/core/parse.go:97-112 | a found header panics iff its end is before its start; otherwise it gets its section |
| Parse.MissingAsWritten | internal/core/parse.go:98-100 | a missing header is skipped and cannot panic |
| Parse.SplitSectionsAsWritten | internal/core/parse.go:92-116 | the as-written loop panics iff some present header's end precedes its start; otherwise it builds the section map |
| Parse.SplitByHeadersAsWritten | internal/core/parse.go:92-116 | over the four task headers: panics exactly as `SplitPanics` says, otherwise builds the section map |
| Parse.GetSectionContent | internal/core/parse.go:118-123 | the stored section, or "" when the header is missing |
| Parse.GetSectionOfSplit | internal/core/parse.go:118-123 | looking up a header in the split gives its section, or "" when the header does not occur |
| Parse.DropCR | internal/core/parse.go:127-131 | the scanner drops one trailing carriage return |
| Parse.DropFinalEmpty | internal/core/parse.go:127-131 | the scanner yields no final empty line |
| Parse.ScanTerminated | internal/core/parse.go:127-131 | scanning newline-terminated plain lines gives them back |
| Parse.ScanUnterminatedLast | internal/core/parse.go:127-131 | a last line without a newline is scanned too |
| Parse.DigitRun | internal/core/parse.go:128 | the length of the digit run of `(\d+)` starting at a position stays in the line |
| Parse.DigitRunMaximal | internal/core/parse.go:128 | the run is all digits and cannot be extended |
| Parse.DigitRunIs | internal/core/parse.go:128 | a maximal digit run is the run |
| Parse.FirstACMatch | internal/core/parse.go:128-132 | a position where `- \[( \|x)\] #(\d+) (.*)` matches |
| Parse.FirstACMatchLeftmost | internal/core/parse.go:132 | the match found is the leftmost, and there is none when none is found |
| Parse.Capture | internal/core/parse.go:133-139 | the criterion captured at a match: checked iff "x", the index read by `Atoi`, the rest of the line as text |
| Parse.ParseACLineMeaning | internal/core/parse.go:132-140 | a line yields a criterion iff the pattern matches somewhere in it, and the criterion is captured at the leftmost match |
| Parse.CollectACs | internal/core/parse.go:130-141 | at most one criterion per line, in line order |
| Parse.CollectAppend | internal/core/parse.go:130-141 | collecting criteria distributes over concatenated lines |
| Parse.ParseAcceptanceCriteria | internal/core/parse.go:125-147 | the result is sorted by index and a permutation of the criteria found line by line |
| Parse.ParseMarkdownBody | internal/core/parse.go:80-90 | description, plan and notes become their sections under the corrected split and the criteria are parsed from theirs; no other field changes |
| Parse.ACPrefix | internal/core/task.go:104 | the seven characters before a criterion's index |
| Parse.MatchOfShape | internal/core/parse.go:128-139 | a line laid out as a criterion line matches at its start and captures its parts |
| Parse.ParseACText | internal/core/task.go:99-105 | a written criterion line reads back as the same criterion |
| Parse.ACTexts | internal/core/task.go:99-105 | one written line per criterion |
| Parse.ACLinesTerminated | internal/core/task.go:99-105 | the criteria block is the written lines, each ended by a newline |
| Parse.CollectParsed | internal/core/parse.go:130-141 | lines that each parse to a criterion give exactly those criteria |
| Parse.CollectACTexts | internal/core/parse.go:130-141 | the written lines of criteria parse back to those criteria |
| Parse.ACLinesRoundTrip | internal/core/parse.go:125-147 | criteria with distinct increasing indices, written and parsed back, come back unchanged, sort included |
| Parse.NoBracketNoCriterion | internal/core/parse.go:132 | a line without "[" holds no criterion |
| Parse.CollectBracketless | internal/core/parse.go:130-141 | lines without "[" contribute no criteria |
| Parse.EmbeddedRoundTrip | internal/core/parse.go:125-147 | criterion lines between bracket-free lines are scanned back as exactly those criteria |
| Parse.FramedText | internal/core/task.go:98-106 | the criteria section is its comment lines around the criterion lines |
| Parse.ACSectionRoundTrip | internal/core/task.go:98-106 | scanning the written criteria section yields exactly the criteria, in order |
| Pagination.StartIndex | internal/core/pagination.go:23-26 | the offset when given and positive, otherwise 0 |
| Pagination.GetLimit | internal/core/pagination.go:105-110 | 0 for no limit, otherwise the limit |
| Pagination.Paginate | internal/core/pagination.go:19-73 | the page is the contiguous run from the start index, empty past the end, to the end without a positive limit and otherwise `min(limit, rest)` long; total, displayed count, offset and limit are reported, and more pages remain iff the page ends before the list does |
| Pagination.PaginateTasks | internal/core/pagination.go:78-103 | an empty list comes back as it is and a start at or past the end gives an empty page, whatever the limit; a negative limit is excluded only when the offset lands inside a non-empty list |
| Pagination.PaginateTasksAgrees | internal/core/pagination.go:19-103 | `PaginateTasks` returns the tasks of `Paginate` on every input |
| Pagination.ConsecutivePages | internal/core/pagination.go:57-59 | two consecutive pages of size n make up the page of size 2n |
| Pagination.PagesCoverList | internal/core/pagination.go:19-73 | walking pages of size n from an offset visits the rest of the list exactly once, in order |
| CmdPagination.ApplyDefaultPagination | internal/cmd/pagination.go:16-35 | the offset is never changed; with a positive offset the limit passes through; otherwise a positive limit above the maximum becomes the maximum and nothing else is replaced |
| CmdPagination.ApplyDefaultPaginationIdempotent | internal/cmd/pagination.go:16-35 | applying the defaults twice changes nothing more |
| PaginationConfig.DefaultConfig | internal/mcp/pagination_config.go:26-34 | the default configuration (50, 200, 100, on) has its default size within 1..maximum |
| PaginationConfig.CustomConfig | internal/mcp/pagination_config.go:37-45 | the settings as given: sane iff 1 <= default <= maximum, and auto-pagination above the threshold iff enabled |
| PaginationConfig.GoDiv | internal/mcp/pagination_config.go:126-127 | Go's integer division truncates toward zero |
| PaginationConfig.GoQuot | internal/mcp/pagination_config.go:69 | Go's integer division for any non-zero divisor |
| PaginationConfig.ValidatePageSize | internal/mcp/pagination_config.go:48-56 | the default for a non-positive request, the maximum above it, the request otherwise |
| PaginationConfig.ValidatePageSizeRange | internal/mcp/pagination_config.go:48-56 | under a sane configuration the size is in 1..maximum, and validating again changes nothing |
| PaginationConfig.ShouldAutoPaginate | internal/mcp/pagination_config.go:59-61 | true iff enabled and the total is above the threshold |
| PaginationConfig.OptimalPageSize | internal/mcp/pagination_config.go:64-89 | panics iff the average item size is 0; otherwise at least 1, at most the default (or 1), at most the maximum, within the byte budget when one item fits, and the default when the default fits |
| PaginationConfig.OptimalPageSizeFits | internal/mcp/pagination_config.go:64-89 | when one item fits the budget, the suggested page of average items fits too |
| PaginationConfig.CreateAdvancedPaginationMetadata | internal/mcp/pagination_config.go:115-167 | current page offset/limit + 1 and total pages by ceiling division when the limit is positive, else 1 and 1; next page iff more remain, at offset+limit; previous page iff offset > 0, at offset-limit clamped to 0; a suggested size and message iff the estimate exceeds the token limit with a non-empty page, the size being `OptimalPageSize` of the average item size, at least 1; defined unless that average is 0, where the source divides by zero |
| PaginationConfig.PageNumbers | internal/mcp/pagination_config.go:122-128 | the current page contains the offset, and the total pages exactly cover the total |
| PaginationConfig.NextThenPrev | internal/mcp/pagination_config.go:132-142 | going to the next page and back returns to the same offset, one page number further and back |
| PaginationConfig.NormalizePaginationRequest | internal/mcp/pagination_config.go:193-219 | the strategy defaults to offset-based; a missing or negative offset becomes 0; a missing limit becomes the default, a given one is validated; cursor and token budget untouched |
| PaginationConfig.NormalizeIdempotent | internal/mcp/pagination_config.go:193-219 | normalising a normalised request changes nothing, under a sane configuration |
| McpErrors.ErrorText | internal/mcp/errors.go:71-76 | "CODE: message", followed by " (field: f)" exactly when there are details with a non-empty field |
| McpErrors.NewMCPError | internal/mcp/errors.go:90-97 | the given code, message and category, with no details and no operation |
| McpErrors.NewValidationError | internal/mcp/errors.go:100-111 | INVALID_INPUT in the validation category, with details naming the field and the value |
| McpErrors.NewMissingRequiredError | internal/mcp/errors.go:114-124 | MISSING_REQUIRED, validation category, message "Required field '<f>' is missing", details naming the field |
| McpErrors.NewTaskNotFoundError | internal/mcp/errors.go:127-138 | TASK_NOT_FOUND in the not-found category, message naming the ID, details with field "id" and the ID |
| McpErrors.NewInvalidTaskIDError | internal/mcp/errors.go:141-153 | INVALID_TASK_ID, validation category, message naming the ID and the reason, details with the expected format |
| McpErrors.UnderlyingContext | internal/mcp/errors.go:156-183 | a context holding the underlying error iff there is one |
| McpErrors.NewSystemError | internal/mcp/errors.go:156-174 | SYSTEM_ERROR in the system category with the caller's message, the operation and the underlying-error context |
| McpErrors.NewStorageError | internal/mcp/errors.go:177-195 | STORAGE_ERROR in the system category with the caller's message, the operation and the underlying-error context |
| McpErrors.ContainsAt | internal/mcp/errors.go:280-287 | the scan finds the substring iff it occurs at some position from `start` on |
| McpErrors.ContainsSub | internal/mcp/errors.go:274-278 | the hand-written `contains` is exactly substring containment |
| McpErrors.Classify | internal/mcp/errors.go:208-270 | the first matching pattern group decides: task-ID parse text gives INVALID_TASK_ID/validation, then not-found text gives TASK_NOT_FOUND/not-found, then parse text gives PARSE_ERROR/system, otherwise SYSTEM_ERROR |
| McpErrors.WrapError | internal/mcp/errors.go:198-271 | a structured error keeps everything and gets the operation only if it had none; a plain error is classified, keeps its text as message and underlying error, and gets the operation |
| McpErrors.WrapErrorTwice | internal/mcp/errors.go:199-205 | wrapping twice with a non-empty operation is wrapping once: the first operation sticks |
| McpErrors.ParseErrorsAreInvalidTaskID | internal/mcp/errors.go:211-224 | every task-ID parse error is classified as INVALID_TASK_ID |
| McpErrors.NotFoundBeforeParse | internal/mcp/errors.go:226-256 | a not-found message wins over a parse message |
| McpErrors.FirstError | internal/mcp/validation.go:168-230 | the validators run their checks in order and return the first failure: none iff every check passes, otherwise the earliest failing check |
| McpErrors.FirstErrorAppend | internal/mcp/validation.go:168-230 | running two groups of checks in turn reports the first group's failure before the second's |
| McpValidation.ValidateTaskID | internal/mcp/validation.go:45-55 | passes iff the ID is non-empty and matches the dotted-decimal syntax; empty is a missing field, otherwise an invalid-ID error |
| McpValidation.ValidateRequired | internal/mcp/validation.go:58-63 | passes iff the value is not blank after trimming; otherwise a missing-field error |
| McpValidation.ValidateStringLength | internal/mcp/validation.go:66-84 | passes iff the UTF-8 length is at most the maximum; the error names the field, the maximum and the actual length |
| McpValidation.Normalize | internal/mcp/validation.go:91 | trimming and lower-casing never lengthen the value |
| McpValidation.NotOneOf | internal/mcp/validation.go:99-112 | the error for a value outside an enumeration names the field and the normalised value |
| McpValidation.ValidatePriority | internal/mcp/validation.go:87-114 | passes iff the value is empty or one of the four priorities after trimming and lower-casing |
| McpValidation.ValidateStatus | internal/mcp/validation.go:117-144 | passes iff the value is empty or one of the four statuses after trimming and lower-casing |
| McpValidation.ValidateArray | internal/mcp/validation.go:147-165 | passes iff there are at most `maxItems` elements; the error names the field and the count |
| McpValidation.OptionalTaskID | internal/mcp/validation.go:191-196 | an optional ID passes iff it is absent, empty, or of the ID syntax |
| McpValidation.OptionalLength | internal/mcp/validation.go:219-228 | an optional text passes iff it is absent or short enough |
| McpValidation.ACIndexCheck | internal/mcp/validation.go:329-344 | an index passes iff it is in 1..1000; the error names the indexed field and the value |
| McpValidation.ACIndexChecks | internal/mcp/validation.go:328-345 | one check per index, in order |
| McpValidation.TaskIDChecks | internal/mcp/validation.go:212-216 | one ID check per dependency, on field "name[i]" |
| McpValidation.StatusChecks | internal/mcp/validation.go:371-375 | one status check per status, on field "name[i]" |
| McpValidation.FirstErrorAt | internal/mcp/validation.go:328-345 | the first failure is at a position all of whose predecessors pass |
| McpValidation.FirstFailing | internal/mcp/validation.go:328-345 | the loop that returns on the first failure returns exactly `FirstError` |
| McpValidation.ValidateACIndices | internal/mcp/validation.go:327-347 | passes iff every index is in 1..1000; otherwise the first out-of-range index is reported with its position |
| McpValidation.ValidateTaskIDList | internal/mcp/validation.go:212-216 | passes iff every ID is valid; otherwise the first invalid one is reported |
| McpValidation.TaskIDChecksPass | internal/mcp/validation.go:212-216 | the ID checks pass iff every ID is valid |
| McpValidation.CreatePreChecksPass | internal/mcp/validation.go:170-196 | the required, length, priority and parent checks pass iff those fields are valid |
| McpValidation.CreateLimitChecksPass | internal/mcp/validation.go:178-208 | the length and count checks pass iff title <= 200 and description <= 5000 bytes, priority and parent valid, at most 10 assignees, 20 labels, 50 dependencies and 100 criteria |
| McpValidation.CreateChecksPass | internal/mcp/validation.go:168-231 | creation passes iff every field is valid |
| McpValidation.ValidateCreateTaskParams | internal/mcp/validation.go:168-231 | returns the first failing check in source order, and passes iff every field is valid |
| McpValidation.CreateBlankTitleFirst | internal/mcp/validation.go:170-172 | a blank title is reported before anything else |
| McpValidation.CreateDescriptionBeforeLength | internal/mcp/validation.go:173-180 | a blank description is reported before an over-long title |
| McpValidation.CreateRequiredFirst | internal/mcp/validation.go:170-175 | a failing required-field check is the error of the whole request |
| McpValidation.OptionalStatus | internal/mcp/validation.go:253-258 | an optional status passes iff absent, empty or known |
| McpValidation.OptionalPriority | internal/mcp/validation.go:260-265 | an optional priority passes iff absent, empty or known |
| McpValidation.ACIndexChecksPass | internal/mcp/validation.go:327-347 | the index checks pass iff every index is in 1..1000 |
| McpValidation.EditPreChecksPass | internal/mcp/validation.go:236-298 | the edit checks before the plan and notes pass iff those fields are valid |
| McpValidation.EditFieldChecksPass | internal/mcp/validation.go:236-272 | the ID, title, description, status, priority and parent checks pass iff those fields are valid |
| McpValidation.EditChecksPass | internal/mcp/validation.go:234-324 | editing passes iff every field is valid |
| McpValidation.ValidateEditTaskParams | internal/mcp/validation.go:234-324 | returns the first failing check in source order, and passes iff every field is valid |
| McpValidation.ValidateViewParams | internal/mcp/validation.go:350-352 | passes iff the ID is valid; the error is on field "id" |
| McpValidation.NegativeCheck | internal/mcp/validation.go:389-412 | a limit or offset passes iff absent or non-negative; the error carries the message, the field and the value |
| McpValidation.StatusChecksPass | internal/mcp/validation.go:371-375 | the status checks pass iff every status is known or empty |
| McpValidation.ListChecksPass | internal/mcp/validation.go:355-415 | listing passes iff every field is valid |
| McpValidation.ValidateStatusList | internal/mcp/validation.go:371-375 | the loop returns the first failing status check, and passes iff every status is valid |
| McpValidation.ValidateListParams | internal/mcp/validation.go:355-415 | returns the first failing check in source order, and passes iff every field is valid |
| McpValidation.NegativeLimitReportedFirst | internal/mcp/validation.go:389-412 | with both negative, the limit is reported before the offset |
| Validation.Error | internal/validation/validate.go:26-39 | the message-collecting loop yields exactly the combined message of the error list |
| Validation.ErrorsTextCases | internal/validation/validate.go:26-39 | no errors gives "no validation errors"; one error gives that error's own text; several give the "multiple validation errors: " prefix followed by text containing every error's message |
| Validation.HasErrorsIffReported | internal/validation/validate.go:42-44 | the list has errors exactly when its message is not the "no errors" text |
| Validation.ContainsDangerousChars | internal/validation/validate.go:464-488 | the loop returns true iff the lower-cased input contains one of the twelve dangerous patterns |
| Validation.DangerousIgnoresCase | internal/validation/validate.go:480 | lower-casing the input first does not change the verdict |
| Validation.DangerousExamples | internal/validation/validate.go:465-477 | a script tag in upper case and a NUL byte anywhere are both dangerous |
| Validation.CheckText | internal/validation/validate.go:80-134 | a text passes iff it is non-blank when required, within the length limit and not dangerous; the error code follows that order |
| Validation.ValidateTitle | internal/validation/validate.go:80-110 | passes iff non-blank, at most 200 runes and not dangerous; blank, too long and dangerous are reported in that order |
| Validation.ValidateDescription | internal/validation/validate.go:113-134 | passes iff at most 5000 runes and not dangerous; too long is reported before dangerous |
| Validation.ValidateAcceptanceCriterion | internal/validation/validate.go:288-318 | passes iff non-blank, at most 500 runes and not dangerous, reported in that order |
| Validation.ValidatePlan | internal/validation/validate.go:338-359 | passes iff at most 10000 runes and not dangerous |
| Validation.ValidateNotes | internal/validation/validate.go:361-382 | passes iff at most 10000 runes and not dangerous |
| Validation.SpacelessNotBlank | internal/validation/validate.go:183-211 | a non-empty name over an alphabet without white space is never blank, so the format check subsumes the blank check |
| Validation.CheckName | internal/validation/validate.go:182-258 | a name passes iff it is non-empty, within the rune limit and every rune is in the alphabet; blank, too long and bad format are reported in that order |
| Validation.ValidateLabel | internal/validation/validate.go:182-211 | passes iff 1 to 50 runes, all in `[a-zA-Z0-9_-]` |
| Validation.ValidateAssignee | internal/validation/validate.go:228-258 | passes iff 1 to 100 runes, all in `[a-zA-Z0-9._-]` |
| Validation.ValidateTaskID | internal/validation/validate.go:136-165 | passes iff non-empty, at most 20 bytes and of the form `T?\d+(\.\d+)*`; empty, too long and bad format are reported in that order on field "task_id" |
| Validation.CheckOneOf | internal/validation/validate.go:320-335 | empty or exactly one of the names passes; otherwise the fixed error |
| Validation.ValidatePriority | internal/validation/validate.go:320-335 | passes iff empty or one of low, medium, high, critical |
| Validation.ValidateLogLevel | internal/validation/validate.go:428-443 | passes iff empty or one of debug, info, warn, error |
| Validation.ValidateLogFormat | internal/validation/validate.go:446-461 | passes iff empty, json or text |
| Validation.PriorityIsCaseSensitive | internal/validation/validate.go:320-335 | "High" is rejected while "high" passes |
| Validation.ValidateFilePath | internal/validation/validate.go:384-425 | passes iff non-empty, at most 4096 bytes, free of ".." after lexical cleaning and free of NUL; the failures are reported in that order |
| Validation.EscapingPathRejected | internal/validation/validate.go:404-413 | a relative path starting with ".." is reported as a traversal |
| Validation.ListErrorsShape | internal/validation/validate.go:168-179 | exactly one error per rejected element, in element order, each that element's error with field "name[i]" |
| Validation.ValidateLabels | internal/validation/validate.go:168-179 | the loop returns exactly the list errors of the labels |
| Validation.ValidateAssignees | internal/validation/validate.go:214-225 | the loop returns exactly the list errors of the assignees |
| Validation.ValidateDependencies | internal/validation/validate.go:260-271 | the loop returns exactly the list errors of the dependencies, each checked as a task ID |
| Validation.ValidateAcceptanceCriteria | internal/validation/validate.go:274-285 | the loop returns exactly the list errors of the criteria |
| UpdateAC.SurvivorsMembers | internal/core/update_ac.go:37-46 | a criterion is kept exactly when it was there and its index is not to be removed |
| UpdateAC.RemovalLogCount | internal/core/update_ac.go:37-46 | a removal pass logs one entry per criterion it drops, each a removal of that index |
| UpdateAC.SurvivorsTwice | internal/core/update_ac.go:37-47 | two removal passes remove what one pass over both index lists removes |
| UpdateAC.SurvivorsSameMembers | internal/core/update_ac.go:33-48 | only which indices are listed matters, not their order or repetition |
| UpdateAC.RemoveAllIsSurvivors | internal/core/update_ac.go:37-47 | the removal passes drop exactly the listed criteria and keep the rest in order |
| UpdateAC.RemoveLogCount | internal/core/update_ac.go:37-47 | every dropped criterion is logged exactly once |
| UpdateAC.InsertDescending | internal/core/update_ac.go:35 | inserting into a descending list keeps it descending and adds exactly one element |
| UpdateAC.SortDescending | internal/core/update_ac.go:35 | the reverse sort yields a descending permutation of the indices |
| UpdateAC.RemoveSortedIsSurvivors | internal/core/update_ac.go:33-48 | sorting the indices first does not change what is removed |
| UpdateAC.SetAllIsMarked | internal/core/update_ac.go:51-73 | checking (or unchecking) sets the flag of exactly the listed criteria and changes nothing else |
| UpdateAC.FlipLogCount | internal/core/update_ac.go:53-59 | one pass logs one entry per flag it actually changes |
| UpdateAC.SetAllLogCount | internal/core/update_ac.go:51-73 | one history entry per flag actually changed, so a criterion already in that state, or listed twice, is logged at most once |
| UpdateAC.MaxIndexBound | internal/core/update_ac.go:77-82 | no criterion's index exceeds the highest index |
| UpdateAC.MaxIndexAfterAdd | internal/core/update_ac.go:75-92 | after adding n texts the highest index has grown by exactly n |
| UpdateAC.AddedAbove | internal/core/update_ac.go:75-92 | every added criterion is numbered above every existing one, and the added ones increase |
| UpdateAC.Renumber | internal/core/update_ac.go:100-102 | criteria numbered 1, 2, ... keep everything but the index |
| UpdateAC.ReindexedIndices | internal/core/update_ac.go:95-103 | after re-indexing the indices are exactly 1..n in order |
| UpdateAC.ReindexDistinct | internal/core/update_ac.go:95-103 | with distinct prior indices re-indexing is determined: the criteria sorted by index, numbered from 1 |
| UpdateAC.SortedDistinctIsStrict | internal/core/update_ac.go:96-98 | sorting criteria without repeated indices yields a strictly increasing order |
| UpdateAC.EditedIs | internal/core/update_ac.go:17-27 | before renumbering an edit removes, then checks, then unchecks, then appends the new texts |
| UpdateAC.UncheckRemovedDoesNothing | internal/core/update_ac.go:17-23 | unchecking an index that was removed changes and logs nothing |
| UpdateAC.EditLogCount | internal/core/update_ac.go:17-30 | the history of an edit has one entry per removed criterion, per flag changed and per added text |
| UpdateAC.RemoveIndex | internal/core/update_ac.go:38-46 | one removal pass drops the criteria with that index, logs each, and touches nothing but criteria and history |
| UpdateAC.RemoveEach | internal/core/update_ac.go:37-47 | one removal pass per listed index, in the given order |
| UpdateAC.RemoveACs | internal/core/update_ac.go:33-48 | the indices are sorted largest first and each is removed in turn |
| UpdateAC.SetFlag | internal/core/update_ac.go:51-72 | one pass sets the flag of the criteria with that index and logs each actual change |
| UpdateAC.SetFlags | internal/core/update_ac.go:51-73 | the check and uncheck loops set the flag of the listed criteria, logging each actual change |
| UpdateAC.HighestIndex | internal/core/update_ac.go:77-82 | the scan returns the highest index, or 0 |
| UpdateAC.AddACs | internal/core/update_ac.go:75-92 | each text is appended unchecked with index one above the highest so far, and logged |
| UpdateAC.ReindexACs | internal/core/update_ac.go:95-103 | the criteria are sorted by index and numbered from 1; nothing else in the task changes |
| UpdateAC.FlagAndAdd | internal/core/update_ac.go:21-26 | check, then uncheck, then add |
| UpdateAC.EditACs | internal/core/update_ac.go:17-26 | remove, check, uncheck, add, with the history of each step appended |
| UpdateAC.HandleACChanges | internal/core/update_ac.go:17-30 | the criteria end as a re-indexing of the edited criteria, the history grows by the edit's log, and nothing else in the task changes |
| UpdateAC.CombinedEditSteps | internal/core/update_ac_test.go:62-94 | the combined edit of the unit test, before renumbering |
| UpdateAC.ReindexStrictlySorted | internal/core/update_ac.go:95-103 | re-indexing criteria already in strictly increasing order keeps their order |
| UpdateAC.CombinedEditExample | internal/core/update_ac_test.go:62-94 | the combined edit yields exactly the criteria the unit test expects |
| Update.BatchRemoveAdd | internal/core/update.go:152-172 | no change is requested iff the result is nil; otherwise the result has no duplicates and holds exactly the original and added strings minus the removed ones |
| Update.SingletonList | internal/core/update.go:152-172 | a duplicate-free list whose members are one string is that string alone |
| Update.LabelMergeExample | internal/core/update.go:152-172 | removing "bug" and adding "bug" and "urgent" to ["bug"] yields ["urgent"]: removal comes after addition |
| Update.MergeIdempotent | internal/core/update.go:152-172 | merging again with the same lists gives the same members |
| Update.SortInPlace | internal/core/update.go:179-180 | the in-place sort leaves the sorted arrangement of the old contents |
| Update.EqualStringSlices | internal/core/update.go:174-186 | true iff same length and same strings with multiplicities; both slices are sorted in place when the lengths agree and untouched otherwise |
| Update.AfterCompare | internal/core/update.go:174-186 | what the comparison leaves in a slice is a permutation of it, sorted when the lengths agree |
| Update.CompareLists | internal/core/update.go:174-186 | the comparison answers multiset equality and leaves both lists as `AfterCompare` says |
| Update.SameStringsSorted | internal/core/update.go:174-186 | equal sorted contents is the same as equal multisets |
| Update.Recorded | internal/core/task.go:134-140 | recording a change appends one history entry and changes nothing else |
| Update.EditTitle | internal/core/update.go:35-39 | a different new title is set and logged, and the old file name is kept for the move; otherwise nothing changes |
| Update.EditDescription | internal/core/update.go:41-44 | a different new description is set and logged; otherwise nothing changes |
| Update.EditStatus | internal/core/update.go:46-55 | an unparsable status is an error that leaves the task unchanged; a parsed, different status is set and logged |
| Update.MergeList | internal/core/update.go:57-74 | the merge result, whether it differs from the current list, and what the comparison leaves of the current list |
| Update.SortedNoDuplicates | internal/core/update.go:152-186 | a rearrangement of a duplicate-free list has no duplicates |
| Update.EditAssigned | internal/core/update.go:57-65 | with something added or removed the assignees become the merge, logged when the merge differs, and sorted when the old and new lists have the same length (the comparison sorts them in place); otherwise nothing changes |
| Update.EditLabels | internal/core/update.go:66-74 | the same for labels, sorted under the same condition |
| Update.EditPriority | internal/core/update.go:76-85 | an unparsable priority is an error that leaves the task unchanged; a parsed, different priority is set and logged |
| Update.EditParent | internal/core/update.go:87-105 | an unparsable parent is an error; an equal parent changes nothing; a different parent is logged and set, the old file name kept, and the ID replaced by the next free child ID, or an error when the store is locked or unreadable |
| Update.EditNotes | internal/core/update.go:107-110 | different notes are set and logged; otherwise nothing changes |
| Update.EditPlan | internal/core/update.go:112-115 | a different plan is logged and stored with a trailing newline; otherwise nothing changes |
| Update.ResolveOne | internal/core/update.go:120-130 | a resolved dependency is the canonical name of a parsed ID whose task file the corrected lookup finds |
| Update.ResolveAllEach | internal/core/update.go:120-130 | a resolved list holds each text's resolution, in order |
| Update.ResolveDepsEach | internal/core/update.go:120-130 | each resolved dependency is the canonical name of the given one, and names an existing task file |
| Update.ResolveAllOk | internal/core/update.go:120-130 | a list resolves iff every text resolves |
| Update.ResolveDepsOk | internal/core/update.go:120-130 | the dependency list resolves iff every dependency does |
| Update.ResolveDependencies | internal/core/update.go:118-130 | the loop returns the list resolution, stopping at the first failure (with the corrected lookup) |
| Update.ResolveFails | internal/core/update.go:121-128 | the first dependency that fails is the error of the whole list |
| Update.ResolveStops | internal/core/update.go:121-128 | once a prefix fails the whole list fails the same way |
| Update.EditDependencies | internal/core/update.go:117-134 | new dependencies equal as multisets change nothing but the sort the comparison leaves; otherwise they are resolved in order with the corrected lookup and set and logged, or the first failure is returned |
| Update.NewOr | internal/core/update.go:35-44 | an optional new text replaces the field, its absence keeps it |
| Update.StatusAfter | internal/core/update.go:46-55 | the status after a successful status step |
| Update.PriorityAfter | internal/core/update.go:76-85 | the priority after a successful priority step |
| Update.ParentAfter | internal/core/update.go:87-97 | the parent after a successful parent step |
| Update.PlanAfter | internal/core/update.go:112-115 | a different plan is stored with a trailing newline, otherwise the current plan stays |
| Update.EditHeader | internal/core/update.go:35-55 | the title, description and status steps succeed iff the status parses, and touch only those fields and the history; a bad status is reported with its parse error after title and description were edited |
| Update.EditLists | internal/core/update.go:57-74 | the assignee and label steps |
| Update.EditPlacement | internal/core/update.go:76-105 | the priority and parent steps succeed iff both parse and a new parent's next ID is found, and touch only priority, parent, ID and history; a bad priority is reported with its parse error |
| Update.EditParentAfter | internal/core/update.go:87-105 | once the priority step has succeeded, the parent step succeeds iff the new parent parses and its next ID is found; then priority, parent and ID are as the placement steps say, touching only parent, ID and history, and the old file name is kept or taken exactly when the parent changes |
| Update.EditDetails | internal/core/update.go:107-134 | the notes, plan and dependency steps succeed iff the dependencies resolve under the corrected lookup, and touch only those fields and the history |
| Update.EditRest | internal/core/update.go:107-139 | the steps after the parent step succeed iff the dependencies resolve under the corrected lookup; then notes, plan, dependencies and criteria are edited as their steps say and the update time is set, and on failure the criteria and update time are untouched |
| Update.TailComposes | internal/core/update.go:57-139 | the steps after the status step compose: each field is set by exactly one of them and left alone by the others |
| Update.UpdateComposes | internal/core/update.go:31-139 | the header steps and the rest compose into the whole update: every field is set by exactly one step |
| Update.EditTail | internal/core/update.go:57-139 | the steps after the status step succeed iff the priority, the parent and the dependencies do; then every field but title, description and status is edited as its step says; the old file name is kept or taken exactly when the parent changes; a failure leaves the criteria and update time alone, and a bad priority returns its parse error |
| Update.UpdateTask | internal/core/update.go:31-150 | the update succeeds iff every step does (dependencies under the corrected lookup); then every field is edited as its step says, the history only grows, the creation time is kept, and the old file name is returned exactly when the title or the parent changed, even where the file name stays the same (see Findings); a failure leaves the criteria and update time alone, and a bad status (title and description already edited, nothing else) or a bad priority returns that step's error |
| Update.FilesAfterUpdateAsWritten | internal/core/update.go:141-146 | the task is written under its new file name, then the returned old name is removed, whatever it is; other files are untouched |
| Update.CaseOnlyRenameLosesTask | internal/core/update.go:35-37 | retitling "Fix bug" to "fix bug" changes the title but not the file name, so the write-back as written leaves no file for the task |
| Update.FilesAfterUpdate | internal/core/update.go:141-146 | the corrected write-back: the task's file is always present afterwards, the old file is gone when its name differs, other files are untouched, and it agrees with the source whenever the names differ |
| List.ParseStatuses | internal/core/list.go:109-115 | a parsed list holds each text's status in order; a failure names a text that is no status and its error |
| List.TrimAll | internal/core/list.go:116-121 | one trimmed text per text |
| List.Select | internal/core/list.go:131-157 | the filtered tasks are exactly the input tasks that pass every filter |
| List.SelectSubsequence | internal/core/list.go:131-157 | the filtered list keeps the input order |
| List.AtLeastOneIntersect | internal/core/list.go:192-202 | true iff some element of `got` is in `want`, so false for an empty `got` |
| List.MatchesFilter | internal/core/list.go:133-154 | one pass of the loop keeps a task iff it passes the parent, priority, unassigned, status, assignee, label and has-dependency checks |
| List.SelectMatching | internal/core/list.go:131-157 | the filter loop returns exactly `Select` |
| List.ParseStatusList | internal/core/list.go:109-115 | the status loop returns exactly the list parse, stopping at the first failure |
| List.StatusesFail | internal/core/list.go:109-113 | the first status text that does not parse is the error of the whole call |
| List.StatusesStop | internal/core/list.go:109-113 | a failing prefix makes the whole list fail the same way |
| List.TrimList | internal/core/list.go:116-121 | the trimming loops return each text trimmed, never longer |
| List.FilterTasks | internal/core/list.go:85-158 | an unparsable parent, priority or status is the error; with no filter the input is returned unchanged; otherwise exactly the passing tasks, in order, of the input or of its depended-on tasks |
| List.NameIndex | internal/core/list.go:165-168 | every task is indexed under its name, and each entry is an input task with that name |
| List.DepIndex | internal/core/list.go:165-174 | the dependency index has the same keys as the task index |
| List.DependentGraphFromInput | internal/core/list.go:160-190 | the depended-on tasks are input tasks, at most one per indexed name |
| List.BuildDependencyIndex | internal/core/list.go:165-174 | the indexing loop builds both indices |
| List.Visit | internal/core/list.go:178-187 | a visit marks the name and adds its task once when one has that name |
| List.VisitAll | internal/core/list.go:178-187 | visiting a dependency set marks all of it and keeps the collected tasks exactly the indexed visited ones, each once |
| List.Traverse | internal/core/list.go:177-188 | after the outer loop every dependency has been visited and each indexed one collected once |
| List.DependentGraphBy | internal/core/list.go:160-190 | the traversal returns exactly the indexed tasks some task depends on, each once |
| List.DependentGraph | internal/core/list.go:160-190 | `dependentGraph` returns exactly the tasks, indexed by name, that some task depends on, each once |
| List.ParseSortField | internal/core/list.go:218-257 | a sort field is unknown iff, lower-cased and trimmed, it is none of id, title, status, priority, created, updated |
| List.SortKey | internal/core/list.go:221-258 | a known field has a key, an unknown one none |
| List.KeyCompareOrder | internal/core/list.go:221-258 | the keys of one field compare like a total order |
| List.TextOrder | internal/core/list.go:230-232 | string comparison is antisymmetric, equal only on equal strings, and transitive |
| List.CompareAntisymmetric | internal/core/list.go:214-270 | swapping the tasks negates the comparison |
| List.CompareTransitive | internal/core/list.go:214-270 | the comparator is a total preorder |
| List.InsertTask | internal/core/list.go:214-270 | inserting into a sorted list keeps it sorted and adds exactly the task |
| List.SortBy | internal/core/list.go:214-270 | a sorted permutation under the comparator exists |
| List.Reversed | internal/core/list.go:210 | the reversed list |
| List.ReversedMultiset | internal/core/list.go:210 | reversing keeps the tasks |
| List.Swap | internal/core/list.go:210 | exchanges two tasks and nothing else |
| List.ReverseInPlace | internal/core/list.go:206-275 | the in-place reversal leaves the reversed old contents |
| List.SortTasks | internal/core/list.go:206-275 | the tasks are permuted; without sort fields they are only reversed on request; with fields they end sorted by the comparator, or its reverse when asked |
| List.PriorityFirst | internal/core/list.go:233-240 | under a leading priority field a higher priority comes first |
| List.UnknownFieldSkipped | internal/core/list.go:255-257 | an unknown field changes no comparison |
| List.OnlyUnknownFields | internal/core/list.go:255-269 | sort fields that are all unknown order no pair |
| Filtering.Appended | internal/core/filtering.go:63-89 | appending to one slice of an index changes only that slice, by the value |
| Filtering.AppendedUnder | internal/core/filtering.go:76-84 | the value is appended under each key, and nothing else is added |
| Filtering.IndexBySound | internal/core/filtering.go:63-74 | every accepted task is under its key, and a key holds only accepted tasks with that key |
| Filtering.ListIndexComplete | internal/core/filtering.go:76-84 | every task is under each of its assignees or labels |
| Filtering.ListIndexSound | internal/core/filtering.go:76-84 | an entry holds only tasks whose field has that entry |
| Filtering.ValuesUnderComplete | internal/core/filtering.go:86-89 | every task's name is under each of its dependencies |
| Filtering.IndexesStep | internal/core/filtering.go:62-90 | one more task grows each index by that task alone |
| Filtering.DependentsIndexed | internal/core/filtering.go:86-89 | a dependency of a task lists that task's name in the dependency graph |
| Filtering.TasksIndexed | internal/core/filtering.go:53-91 | a task is under its status, its priority, each assignee, each label and, when it has one, its parent |
| Filtering.DedupBySound | internal/core/filtering.go:307-372 | the seen-map loops keep only input tasks, no two with the same name, and one for every name of the input |
| Filtering.DedupByAppend | internal/core/filtering.go:313-320 | one more task is kept exactly when its name is new |
| Filtering.Gather | internal/core/filtering.go:307-372 | the gathered slices hold exactly the tasks under the keys asked for |
| Filtering.ParsedStatusesMembers | internal/core/filtering.go:309-312 | the statuses looked up are exactly those of the texts that parse |
| Filtering.Keep | internal/core/filtering.go:240-247 | the kept candidates are exactly those that pass every filter, in order |
| Filtering.MatchesAllAgrees | internal/core/filtering.go:398-453 | with trimmed names, `matchesAllFilters` agrees with the plain filter loop |
| Filtering.ParsedFilterFields | internal/core/list.go:95-121 | an accepted filter holds the parsed parent, priority and statuses and the trimmed names |
| Filtering.ParseFilterOrder | internal/core/list.go:95-115 | a bad parent is reported before a bad priority, and both before a bad status |
| Filtering.ValidateFilterParams | internal/core/filtering.go:255-281 | the check fails iff the parameters do not parse, with the same first error |
| Filtering.FiltersCost | internal/core/filtering.go:145-207 | no filter set costs nothing; an unknown priority costs at least 50 |
| Filtering.FilterNames | internal/core/filtering.go:102-130 | the plan lists the set filters in the order status, priority, assigned, labels, parent, and is empty iff none is set |
| Filtering.FilterOptimizer.constructor | internal/core/filtering.go:41-50 | a new optimizer has every index empty |
| Filtering.FilterOptimizer.BuildIndexes | internal/core/filtering.go:53-91 | the indexes are cleared and hold exactly the tasks' indexes afterwards |
| Filtering.FilterOptimizer.EstimateStatusFilterCost | internal/core/filtering.go:172-180 | twice the size of each parsed status's slice, summed |
| Filtering.FilterOptimizer.EstimateListFilterCost | internal/core/filtering.go:189-203 | three times the summed slice sizes |
| Filtering.FilterOptimizer.EstimateFilterCost | internal/core/filtering.go:145-169 | 100 for loading plus the cost of each filter set, so never below 100 |
| Filtering.FilterOptimizer.OptimizeFilter | internal/core/filtering.go:94-135 | the plan always uses indexes, sums the filter costs and lists the filters set, unsorted |
| Filtering.FilterOptimizer.TasksByStatus | internal/core/filtering.go:307-323 | the slices of the statuses that parse, each task name once |
| Filtering.FilterOptimizer.TasksByAssigned | internal/core/filtering.go:342-356 | the slices of the assignees, each task name once |
| Filtering.FilterOptimizer.TasksByLabels | internal/core/filtering.go:358-372 | the slices of the labels, each task name once |
| Filtering.FilterOptimizer.InitialCandidatesOf | internal/core/filtering.go:284-304 | candidates from the first set filter among status, priority, parent, assigned, labels; all tasks when none is set |
| Filtering.AddTaskTo | internal/core/filtering.go:62-90 | one pass of the index loop adds exactly that task |
| Filtering.AppendUnderEach | internal/core/filtering.go:76-84 | the inner loop appends the value under each key |
| Filtering.AddUnseen | internal/core/filtering.go:313-320 | the loop over one slice appends exactly the tasks with unseen names |
| Filtering.GatherUnseen | internal/core/filtering.go:342-372 | the seen-map loop returns the deduplicated gathered slices |
| Filtering.KeepMatching | internal/core/filtering.go:240-247 | the keep loop returns exactly `Keep` |
| Filtering.SmartFilterTasks | internal/core/filtering.go:210-252 | bad parameters are the error; with no filter the input comes back; otherwise the candidates from the indexes (fresh ones when depended-on tasks replace the input) that pass every filter; the optimizer ends with the indexes used |
| Filtering.EmptyParentSelectsNothing | internal/core/filtering.go:332-340 | an empty parent counts as a filter and, with no status or priority, yields no candidates |
| Filtering.NoFiltersAgree | internal/core/filtering.go:375-384 | with nothing set that `hasAnyFilters` sees, the plain filter finds no filter either |
| Filtering.KeepAll | internal/core/filtering.go:240-247 | when every candidate passes, all are kept |
| Filtering.SelectDistinct | internal/core/list.go:131-157 | filtering distinct tasks yields distinct tasks |
| Filtering.DedupKeepsDistinct | internal/core/filtering.go:307-323 | with distinct names, a task reached through several slices survives deduplication |
| Filtering.GatherStatuses | internal/core/filtering.go:307-323 | the status slices hold exactly the tasks with a status asked for |
| Filtering.StatusCandidates | internal/core/filtering.go:284-323 | the candidates of a status filter are the tasks with one of the parsed statuses |
| Filtering.StatusFilterMembers | internal/core/filtering.go:210-252 | for a status-only filter the indexed path keeps a task iff the plain filter loop does |
| Filtering.StatusFilterDistinct | internal/core/filtering.go:210-252 | for a status-only filter the indexed path lists no task twice |
| Filtering.StatusFilterAgrees | internal/core/filtering.go:210-252 | for a status-only filter both paths return the same tasks, as many of them |
| Store.ChildID | internal/core/store.go:73-94 | an entry contributes an ID iff it is a task file whose name parses to a direct child of the tree path |
| Store.MatchingIDs | internal/core/store.go:72-95 | every collected ID is a direct child of the tree path |
| Store.MatchingIDsComplete | internal/core/store.go:72-95 | every child ID in the listing is collected |
| Store.MatchingIDsSound | internal/core/store.go:72-95 | every collected ID comes from an entry of the listing |
| Store.MaxLast | internal/core/store.go:97-115 | the largest last segment, or 0: an upper bound that is attained unless 0 |
| Store.NextIDShape | internal/core/store.go:97-120 | the new ID is a child of the tree path with positive last segment, and ends in 1 when the path has no children yet |
| Store.NextIDFresh | internal/core/store.go:97-120 | the new ID is above, hence distinct from, every existing child ID |
| Store.IgnoredEntry | internal/core/store.go:74-80 | directories, files without the "T" prefix or ".md" suffix, and names that do not parse do not affect the result |
| Store.SegmentsMatch | internal/core/store.go:85-91 | the matching loop answers whether the ID starts with the tree path |
| Store.CollectChildren | internal/core/store.go:72-95 | the first loop collects exactly the child IDs, in listing order |
| Store.HighestSegment | internal/core/store.go:97-118 | the second loop finds the largest last segment (the first segment at top level) |
| Store.NextTaskID | internal/core/store.go:56-121 | a lock failure and a listing failure are errors; otherwise the next free child ID |
| Store.FirstNamedLike | internal/core/store.go:132-140 | the first ".md" file named like the prefix, and no earlier one |
| Store.FindTaskFileAsWritten | internal/core/store.go:136 | the file found starts with the ID's name, with nothing requiring the "-" that follows it |
| Store.FindTaskFilePrefixClash | internal/core/store.go:136 | looking up task 10 finds "T100-x.md" |
| Store.FindTaskFile | internal/core/store.go:132-140 | the corrected lookup: the file found starts with the ID's name followed by "-" |
| Store.FoundFileHasID | internal/core/store.go:125-145 | the corrected lookup finds a file whose name parses back to exactly the ID looked up |
| Store.FindFirstNamedLike | internal/core/store.go:132-140 | the lookup loop returns exactly the first entry named like the prefix |
| Store.FindTaskFileByID | internal/core/store.go:125-147 | a listing failure is returned; otherwise the name of the first file the corrected lookup matches, or not-found |
| Conflict.ConflictTypeNames | internal/core/conflict.go:22-33 | the three conflict types print as three distinct names, every other value as "unknown" |
| Conflict.ParsedIDNotZero | internal/core/conflict.go:169-171 | the zero ID is zero, and no parsed ID is |
| Conflict.LoadedSound | internal/core/conflict.go:74-84 | every loaded file is a task file of the listing whose text parsed to its task |
| Conflict.GroupOfMembers | internal/core/conflict.go:86-88 | the group of a key holds exactly the loaded files with that key |
| Conflict.IndexIsGroup | internal/core/conflict.go:70-90 | both maps hold, under each key, the paths and tasks of that key's group, in load order, and have exactly the loaded keys |
| Conflict.IndexTaskFiles | internal/core/conflict.go:70-90 | the loading loop skips non-task files and unparsable ones and files each task under its key in both maps |
| Conflict.IndexStep | internal/core/conflict.go:86-89 | one more file appends its path and task under its key |
| Conflict.DuplicateConflicts | internal/core/conflict.go:92-105 | one duplicate-ID conflict per key with more than one file, holding all its files and tasks, the keys in some order without repeats |
| Conflict.FilterMembers | internal/core/conflict.go:108-141 | the filter keeps exactly the accepted tasks |
| Conflict.OrphanConflicts | internal/core/conflict.go:107-123 | one orphan conflict per orphaned task |
| Conflict.IsOrphanMeans | internal/core/conflict.go:109-111 | a task is an orphan iff its parent is set and no loaded task has that ID |
| Conflict.OrphanConflictsExact | internal/core/conflict.go:107-123 | the orphan conflicts are exactly one per orphaned task, naming that task alone with one file |
| Conflict.OrphanLoop | internal/core/conflict.go:107-123 | the orphan loop returns exactly the orphan conflicts |
| Conflict.HierarchyConflicts | internal/core/conflict.go:125-141 | one invalid-hierarchy conflict per misplaced task |
| Conflict.HierarchyConflictsExact | internal/core/conflict.go:125-141 | the hierarchy conflicts are exactly one per task whose parent differs from the one its ID implies, naming that task alone |
| Conflict.HierarchyLoop | internal/core/conflict.go:125-141 | the hierarchy loop returns exactly the hierarchy conflicts |
| Conflict.DetectConflicts | internal/core/conflict.go:60-144 | an unreadable directory is an error; otherwise the duplicate, then orphan, then hierarchy conflicts of the loaded files |
| Conflict.DetectedWellFormed | internal/core/conflict.go:92-141 | every detected conflict has a known type, at least one file and as many tasks as files |
| Conflict.OrphanAndMisplaced | internal/core/conflict.go:107-141 | a lone task "1.2" whose parent is "2" is reported both as an orphan and as misplaced |
| Conflict.SummarizeConflicts | internal/core/conflict.go:183-203 | the total and the three per-type counts, and the conflicts grouped by type |
| Conflict.ByTypeGroups | internal/core/conflict.go:189-190 | each group is the conflicts of its type, in order, and a type is a key iff some conflict has it |
| Conflict.OfTypeMembers | internal/core/conflict.go:189-190 | the groups hold exactly the conflicts of their type |
| Conflict.GroupsPartition | internal/core/conflict.go:183-203 | when every conflict has a known type the three groups partition the conflicts, so the counts sum to the total |
| Conflict.LoneChildIsOrphan | internal/core/conflict.go:107-123 | a lone task 1.2 whose parent 2 does not exist is reported as an orphan |
| Conflict.LoneChildMisplaced | internal/core/conflict.go:125-141 | the same task is also reported as misplaced, its parent not being 1 |
| ConflictPlan.FindNextAvailableID | internal/core/conflict.go:395-407 | the next free ID under the conflicting ID's parent, or at top level |
| ConflictPlan.NextAvailableSibling | internal/core/conflict.go:395-407 | fails iff the store cannot be locked or listed; otherwise a sibling of the ID (a top-level ID for a top-level one), numbered from 1 and distinct from every existing sibling |
| ConflictPlan.AllocateUniform | internal/core/conflict.go:395-407 | a usable store allocates for every ID; an unusable one fails every allocation with the same error |
| ConflictPlan.RenumbersShape | internal/core/conflict.go:284-332 | with a working allocator the renumbering succeeds; with a failing one it stops at the second task, if there is one |
| ConflictPlan.RenumberLoop | internal/core/conflict.go:316-332 | the loop allocates once per task after the first and stops at the first failure |
| ConflictPlan.DetectedPlannable | internal/core/conflict.go:60-144 | every conflict the detector reports has the files and tasks the planners index |
| ConflictPlan.AutoRenumberPlan | internal/core/conflict.go:311-373 | the auto plan, conflict by conflict |
| ConflictPlan.AutoActionsForShape | internal/core/conflict.go:313-368 | a duplicate renumbers all but its first task; an orphan drops its parent; a misplaced sub-task gets the parent its ID implies; only duplicates allocate, so only they can fail |
| ConflictPlan.AutoPlanCount | internal/core/conflict.go:311-373 | the auto plan fails iff the store is unusable and some duplicate needs an allocation; otherwise it has one action per unit of the conflicts' counts |
| ConflictPlan.RenumbersShareID | internal/core/conflict.go:316-332 | renumbering tasks with one ID asks for that ID each time, so every action gets the same new ID |
| ConflictPlan.AutoRenumbersShareID | internal/core/conflict.go:316-332 | all renumbers of one duplicate go to the same new ID, since nothing is written before the next allocation |
| ConflictPlan.ChronoRenumbersKeptFile | internal/core/conflict.go:284-294 | with the newer task listed first, the plan as written renumbers the older task's file, while the corrected plan renumbers the newer one's |
| ConflictPlan.ChronoKeepsOldest | internal/core/conflict.go:267-308 | the corrected plan keeps an oldest task; its i-th action renames the file of the (i+1)-th task in age order, and the renamed files are exactly the conflict's files less the kept task's own file |
| ConflictPlan.ChronoAsWrittenKeepsFirstFile | internal/core/conflict.go:284-294 | the plan as written renames the files after the first, in list order, whichever task is oldest |
| ConflictPlan.SortedByAge | internal/core/conflict.go:271-281 | the exchange sort orders a duplicate's tasks oldest first |
| ConflictPlan.ChronologicalPlan | internal/core/conflict.go:267-308 | the corrected chronological plan, conflict by conflict: each task renumbered through its own file, not through the file at its sorted position as the source does |
| ConflictPlan.CreateManualPlan | internal/core/conflict.go:376-392 | the manual plan |
| ConflictPlan.ManualPlanShape | internal/core/conflict.go:376-392 | one manual action per conflict, in order, naming its ID and no file |
| ConflictPlan.CreateResolutionPlan | internal/core/conflict.go:247-264 | the plan of the chosen strategy, the chronological one in its corrected form |
| ConflictPlan.PlanStrategy | internal/core/conflict.go:247-264 | a plan carries its strategy; any other strategy is an error |
| ConflictPlan.ExecuteDryRun | internal/core/conflict.go:410-426 | the dry run: the banner, then one line per action until the first unsupported one |
| ConflictPlan.DryRunActionShape | internal/core/conflict.go:429-440 | an action of a known type gets its line, any other an error naming it |
| ConflictPlan.DryRunReport | internal/core/conflict.go:410-426 | the lines gathered are the banner and one per action before the first failure, whose error is returned |
| ConflictPlan.PlanSupported | internal/core/conflict.go:247-392 | every action of every plan the resolver builds has a known type |
| ConflictPlan.DryRunReportsEveryAction | internal/core/conflict.go:247-440 | a dry run of any plan the resolver builds reports every action, without error |
| ConflictPlan.MaybeStringArrayFromSlice | internal/core/conflict.go:644-650 | an empty slice gives nil, any other its own copy |
| Sanitize.EscapeChar | internal/validation/sanitize.go:40 | an escaped character contains no `<`, `>`, `&`, quote or apostrophe of its own; a harmless character is kept |
| Sanitize.HtmlEscape | internal/validation/sanitize.go:40 | the escaped text has no raw markup character and only characters of the input or its entities; text without special characters is unchanged |
| Sanitize.CollapseRuns | internal/validation/sanitize.go:310-313 | every run of separators becomes one replacement: never longer, no two separators in a row, every other character kept from the input |
| Sanitize.CollapseKeepsAll | internal/validation/sanitize.go:106-108 | collapsing keeps a property shared by every character and the replacement |
| Sanitize.CollapseKeepsSingle | internal/validation/sanitize.go:191-192 | collapsing slashes cannot create a pair of dots |
| Sanitize.CapNewlines | internal/validation/sanitize.go:322-323 | runs of three or more line feeds are cut to two, and only input characters remain |
| Sanitize.NormalizeLineBreaksShape | internal/validation/sanitize.go:316-325 | normalised text has no carriage return and no three line feeds in a row |
| Sanitize.CapKeepsShortRuns | internal/validation/sanitize.go:322-323 | text without three line feeds in a row is left as it is |
| Sanitize.NormalizeLineBreaksIdempotent | internal/validation/sanitize.go:316-325 | normalising line breaks twice is normalising once |
| Sanitize.NoCarriageReturnPairs | internal/validation/sanitize.go:318 | text without a carriage return has no CRLF to replace |
| Sanitize.SanitizeText | internal/validation/sanitize.go:20-51 | the steps in order: drop NUL, drop control characters, escape HTML, collapse white space |
| Sanitize.SanitizedTextShape | internal/validation/sanitize.go:20-51 | sanitised text has no control character and no raw markup character, and its only white space is single spaces |
| Sanitize.SanitizeLabel | internal/validation/sanitize.go:90-114 | the label steps in order |
| Sanitize.TrimKeepsShape | internal/validation/sanitize.go:111 | trimming keeps what holds of every character and of every pair of neighbours |
| Sanitize.CollapsedLabelShape | internal/validation/sanitize.go:103-108 | after filtering to `[a-z0-9_-]` and collapsing separator runs the text is over `[a-z0-9-]` with no double hyphen |
| Sanitize.SanitizedLabelShape | internal/validation/sanitize.go:90-114 | a sanitised label is over `[a-z0-9-]`, starts and ends with neither hyphen, and has no double hyphen |
| Sanitize.SanitizedLabelValidates | internal/validation/sanitize.go:90-114 | a non-empty sanitised label of at most 50 runes passes the label validator |
| Sanitize.SanitizeTaskID | internal/validation/sanitize.go:142-167 | the ID steps in order |
| Sanitize.SanitizedTaskIDShape | internal/validation/sanitize.go:142-167 | a sanitised ID is over `[T0-9.]`, and an ID already over that alphabet comes back unchanged |
| Sanitize.ValidTaskIDUnchanged | internal/validation/sanitize.go:142-167 | an ID the validator accepts passes the sanitiser unchanged |
| Sanitize.SanitizeFilePath | internal/validation/sanitize.go:170-198 | the path steps in order |
| Sanitize.DotDotRemoval | internal/validation/sanitize.go:188 | deleting every ".." leaves no two dots in a row |
| Sanitize.CollapsedPathShape | internal/validation/sanitize.go:191-195 | collapsing slashes and trimming leave no "..", no "//" and no control character |
| Sanitize.SanitizedFilePathShape | internal/validation/sanitize.go:170-198 | a sanitised path has no "..", no "//" and no control character |
| Sanitize.TruncateString | internal/validation/sanitize.go:290-305 | empty for a non-positive limit; otherwise a prefix of the input, the whole input when it fits and exactly `maxLength` runes when it does not |
| Sanitize.SanitizeSlice | internal/validation/sanitize.go:333-347 | the loop returns the sanitised items that are not empty |
| Sanitize.SanitizedSliceShape | internal/validation/sanitize.go:333-347 | the result keeps input order, holds no empty string, and drops exactly the items that sanitise to "" |
| FileOps.FirstSuspicious | internal/validation/fileops.go:80-97 | the first listed pattern the lower-cased path contains, or none iff it contains none |
| FileOps.ValidatePath | internal/validation/fileops.go:37-99 | every error is for the "validate" operation on the path; a violation is logged exactly for an empty path, a NUL byte or "..", and each of those rejects |
| FileOps.ValidatePathOrder | internal/validation/fileops.go:38-77 | empty, then NUL, then "..", then more than 4096 bytes, in that order, each with its own reason |
| FileOps.CheckPath | internal/validation/fileops.go:37-99 | the guards and the pattern loop return exactly the verdict of `ValidatePath` |
| FileOps.SuspiciousPathRejected | internal/validation/fileops.go:80-97 | past the guards a path is rejected iff its lower-cased form holds a kernel, device or Windows device pattern, and the reason names one |
| FileOps.ValidatePathAccepts | internal/validation/fileops.go:37-99 | a path is accepted iff it passes every guard and holds no suspicious pattern |
| FileOps.UpperCaseProcRejected | internal/validation/fileops.go:80-97 | "/Proc/" is rejected as the "/proc/" pattern, whatever its case |
| GenDocs.FindHeading | scripts/gen_docs.py:9-17 | the first line start at or after a position that begins with the heading text, or -1 when there is none |
| GenDocs.MatchUntilNext | scripts/gen_docs.py:8-11 | the first heading line whose section is followed by another level-two heading line, cut just before that line |
| GenDocs.SectionSpan | scripts/gen_docs.py:8-21 | the section lies at a heading line for the title, and none is found iff no line starts with it |
| GenDocs.HeadingsApart | scripts/gen_docs.py:9 | two heading lines without a line break in the heading never overlap |
| GenDocs.GetSectionNone | scripts/gen_docs.py:5-23 | `get_section` returns nothing iff no line starts with "## " followed by the title |
| GenDocs.SectionSpanFirst | scripts/gen_docs.py:8-21 | the section runs from the first heading line for the title to the next level-two heading line, or to the end when none follows |
| GenDocs.SectionOfSpan | scripts/gen_docs.py:13-21 | the section returned is the span's text stripped |
| GenDocs.GetSectionFirst | scripts/gen_docs.py:5-23 | the section is the stripped text from the first heading line for the title up to the next level-two heading line, and holds no level-two heading line after its own |
| GenDocs.StripKeepsHeading | scripts/gen_docs.py:13-21 | stripping a span that starts with a heading keeps its "##" |
| GenDocs.SectionStartsWithHeading | scripts/gen_docs.py:5-23 | a section found starts with "##" (and with the whole heading line when the title does not end in white space), so it is never empty |
| GenDocs.NoRelativeLinksUnchanged | scripts/gen_docs.py:41-57 | text without a relative link `(./` is left as it is |
| GenDocs.WritePages | scripts/gen_docs.py:81-91 | the loop writes exactly the pages of the section table |
| GenDocs.PagesShape | scripts/gen_docs.py:74-91 | a page is written for exactly the table entries whose heading occurs in the README, in table order, each under its own file name with its front matter and its section with the links rewritten |
| DocGen.Slugify | internal/tools/docgen/docgen.go:291-304 | the slug: lower-cased, spaces and hyphens turned into underscores, then only letters, digits and underscores kept |
| DocGen.SlugSpacedChars | internal/tools/docgen/docgen.go:293-295 | before filtering each character is lowered, with space and hyphen turned into an underscore |
| DocGen.SlugShape | internal/tools/docgen/docgen.go:291-304 | a slug is no longer than its title and holds only lower-case ASCII letters, ASCII digits, underscores and non-ASCII letters or digits |
| DocGen.SlugConcat | internal/tools/docgen/docgen.go:291-304 | the slug of a concatenation is the concatenation of the slugs |
| DocGen.SlugDrops | internal/tools/docgen/docgen.go:298-302 | a character that is no letter, digit, underscore, space or hyphen leaves no trace in the slug |
| DocGen.SlugOfPlainTitle | internal/tools/docgen/docgen.go:291-304 | a title of ASCII letters, digits, spaces, hyphens and underscores keeps one character per character |
| DocGen.SplitReadMe | internal/tools/docgen/docgen.go:202-215 | the loop writes exactly the titled sections whose slug is listed |
| DocGen.SectionsWrittenShape | internal/tools/docgen/docgen.go:202-215 | exactly the titled sections whose slug is one of the three listed are written, in README order and unchanged |
| StringOrder.StrLessIrreflexive | internal/core/list.go:222-224 | no string is below itself under Go's byte-wise string order |
| StringOrder.StrLessTransitive | internal/core/list.go:222-224 | the string order is transitive |
| StringOrder.StrLessTotal | internal/core/list.go:222-224 | any two different strings are ordered one way |
| StringOrder.StrLessAsymmetric | internal/core/list.go:222-224 | at most one direction of the order holds |
| StringOrder.StrLeqTransitive | internal/core/update.go:178-179 | the non-strict string order is transitive |
| StringOrder.StrLeqAntisymmetric | internal/core/update.go:178-179 | strings below each other are equal |
| StringOrder.InsertString | internal/core/update.go:178-179 | inserting into a sorted list keeps it sorted and adds exactly the one string |
| StringOrder.SortStrings | internal/core/update.go:178-179 | `slices.Sort` gives a sorted permutation of its input |
| StringOrder.SortedSameHead | internal/core/update.go:178-179 | two sorted arrangements of the same strings start with the same string |
| StringOrder.TailStringMultiset | internal/core/update.go:178-179 | dropping the first string removes one copy of it |
| StringOrder.SortedStringsUnique | internal/core/update.go:178-179 | a multiset of strings has exactly one sorted arrangement |
| StringOrder.SortEqualIff | internal/core/update.go:174-186 | sorting two lists gives the same list iff they hold the same strings with the same multiplicities |
| StringOrder.SortSorted | internal/core/update.go:178-179 | sorting a sorted list changes nothing |
| ExchangeSort.SwapIfKeeps | internal/core/conflict.go:277-279 | one inner step keeps the settled prefix and extends the scanned part by one |
| ExchangeSort.InnerSettles | internal/core/conflict.go:276-280 | after the inner loop position `i` holds a key no larger than any later one |
| ExchangeSort.ScannedSettles | internal/core/conflict.go:275-281 | a fully scanned position joins the settled prefix |
| ExchangeSort.OuterSorts | internal/core/conflict.go:275-281 | the outer loop from a settled prefix leaves the keys sorted |
| ExchangeSort.ExchangeSortedSorted | internal/core/conflict.go:274-281 | the exchange sort puts the creation times in non-decreasing order |
| ExchangeSort.InnerPermutes | internal/core/conflict.go:276-280 | the inner loop only swaps |
| ExchangeSort.OuterPermutes | internal/core/conflict.go:275-281 | the outer loop only swaps |
| ExchangeSort.ExchangeSortedPermutes | internal/core/conflict.go:274-281 | the exchange sort is a permutation of its input |
| ExchangeSort.ExchangeSortedFirstIsLeast | internal/core/conflict.go:274-281 | the task kept first has the earliest creation time |
| ExchangeSort.SortByKey | internal/core/conflict.go:274-281 | the nested swap loops leave the array holding the exchange-sorted arrangement of its old contents |
| Paths.CleanFromKeepsLead | internal/validation/validate.go:404 | cleaning keeps ".." elements only at the front, and none in a rooted path |
| Paths.CleanFromKeepsFirst | internal/validation/validate.go:404 | a leading ".." survives the rest of the cleaning |
| Paths.RootedCleanHasNoDotDot | internal/validation/validate.go:404 | a rooted path cleans to one without a ".." element |
| Paths.LeadingDotDotSurvives | internal/validation/validate.go:404-405 | a relative path starting with a ".." element cleans to one starting with "..", so the traversal check rejects it |

## Left out

**Integer width.** Integers are unbounded. Every count and index in the core stays far below Go's `int` range, so no wrap-around is modelled.

**Unicode and text.**
- Strings are sequences of code points. Invalid UTF-8, and Go's replacement of it by U+FFFD when ranging over a string, is not modelled. Go's byte length is `Text.Utf8Len`.
- Text.ToLower: lowers ASCII letters only. Go's `strings.ToLower` also lowers other scripts, so the dangerous-text check, the path check, the label sanitizer (`Sanitize.SanitizeLabel`), the priority and status comparison (`McpValidation.Normalize`) and the slugs agree with the source on ASCII text only.
- `unicode.IsLetter || unicode.IsNumber` in `slugify` is the parameter `isWord` of DocGen. It is constrained only on ASCII.

**Matching libraries.**
- The Levenshtein fuzzy matching behind `ParseStatus` and `ParsePriority` is the parameter `dist`, an arbitrary distance function.
- Regular expressions appear as hand-written matchers of the exact patterns used: the task-ID pattern, the checkbox-line pattern and the two `get_section` patterns.

**Persistence and serialisation.**
- YAML front matter is not modelled. That covers `ParseTask`'s front-matter half, `Bytes`' front-matter half, `MaybeStringArray`'s YAML methods and `ToSlice`.
- JSON is modelled only as the shape of `MaybeStringArray`. `MCPError.ToJSON` is left out.
- File-system reads, writes, renames and deletes are left out. This affects the store's `write`, `Create`, `Get`, `Archive`, `List` and `loadAll`, the file writes at the end of `Update` beyond the set of file names they leave (`Update.FilesAfterUpdate`), and the non-dry-run branches of `executeRenumberAction` and `executeUpdateParentAction`.
- `ReferenceUpdater` (`UpdateReferences`, `FindTaskReferences`) and `ExecuteResolutionPlanWithReferences` only load, rewrite and save files, so they are left out.
- `SecureFileOps` is modelled by its `ValidatePath` only. Its read, write, move and delete wrappers are file I/O.
- McpErrors.WrapError: returns the updated error as a value. The source sets `Operation` on the caller's `MCPError` in place and returns that same object; that aliasing is not modelled.
- PaginationConfig.NormalizePaginationRequest: the source points the normalised request's `Limit` at the configuration's own `DefaultPageSize` field when no limit is given; the model copies the value. Nothing in the core writes through that pointer, so only the aliasing is lost.

**Logging, clocks and randomness.**
- `LogSanitizationAlert` and `LogFileAccessViolation` are side effects. `FileOps.ValidatePath` records only whether a violation was logged.
- Timestamps and `time.Now` are not modelled. This covers history entry times, `CreatedAt` on plans and the generation time in the pagination metadata. History entries are structured `Change` values, not the `%q`-formatted text.
- `generateRandomSuffix` is not modelled.

**Floating point.**
- PaginationConfig.OptimalPageSize: takes the response budget in bytes as an integer. The token-to-byte conversion in floating point is not modelled.
- PaginationConfig.CreateAdvancedPaginationMetadata: takes the same byte budget as an integer parameter, and excludes a zero average item size, on which the source's division panics.

**Sanitizers.**
- The sanitizers modelled are `SanitizeText`, `SanitizeLabel`, `SanitizeTaskID`, `SanitizeFilePath`, `TruncateString`, `SanitizeSlice`, `normalizeWhitespace` and `normalizeLineBreaks`.
- `SanitizeTitle`, `SanitizeDescription`, `SanitizeAssignee`, `SanitizeSearchQuery`, `SanitizeAcceptanceCriterion`, `SanitizePlan` and `SanitizeNotes` are left out. Each is `SanitizeText` followed by a truncation and these same normalisers.
- `RemoveUnsafeCharacters` is a set of regular expressions and is left out.
- `IsValidUTF8` is left out because strings here are always valid.

**Paths.**
- Paths.CleanFromKeepsLead: `filepath.Clean` is modelled for slash-separated paths. Windows volume names and back-slash separators are not modelled.

**Ordering and nondeterminism.**
- List.SortTasks: Go's `sort.Slice` is not stable, so the model promises only what every correct sort gives: a permutation ordered by the comparator. It does not promise the particular arrangement of equal elements.
- Go map iteration order is random. Where the source iterates a map (duplicate detection, the dependency graph traversal, `batchRemoveAdd`'s set), the model either picks an arbitrary element or states the result as a set.
- A nil slice and an empty slice are not distinguished. An empty `NewDependencies` means "not given".

**Partial operations.**
- Pagination.Paginate: a negative limit with an offset inside the list makes the source panic on a slice bound. The model excludes only that case (`PaginateDefined`); past the end the empty page is returned whatever the limit.
- Pagination.PaginateTasks: the same; an empty list or a start past the end returns whatever the limit.

**Corrected behaviour used by the operations.** Each Findings row below is modelled twice: as written, with the input that shows it, and corrected. The operations that build on the first three use the corrected half, so on the inputs the Findings name they do what the source evidently intended, not what it does.
- Store.FindTaskFileByID: matches the prefix `T<id>-`. The source matches `T<id>` alone, so where one task's name is a prefix of another's (T10 and T100) it can return the other task's file; the model does not.
- Update.ResolveOne: a dependency resolves when the corrected lookup finds its file. The source's lookup also accepts a task whose name merely starts with the dependency's.
- Update.ResolveDependencies: the same corrected lookup, for every dependency in turn.
- Update.EditDependencies: the same corrected lookup.
- Update.EditDetails: the same corrected lookup.
- Update.UpdateTask: the same corrected lookup. Its failure path states the error and the state only for the status and priority steps; after a parent or dependency failure it promises only that the history grew and the criteria, creation and update times are kept.
- The source's dependency check calls `Get`, which also reads and parses the file it found; a file that cannot be read or parsed is not modelled as a failure.
- ConflictPlan.ChronologicalPlan: renumbers each newer task through its own file. The source pairs the i-th task in age order with the i-th file of the unsorted list, so with the newer task listed first it renames the file of the task it keeps.
- ConflictPlan.CreateResolutionPlan: dispatches to the corrected `ChronologicalPlan` for the chronological strategy.
- Parse.ParseMarkdownBody: splits the body with the corrected `SplitByHeaders`. Where the source panics (headers in another order than Description, Acceptance Criteria, Implementation Plan, Implementation Notes; `Parse.Panics`), the model returns the sections the intended split gives.

**Input limits and aliasing.**
- Parse.ParseAcceptanceCriteria: the source reads the section with a `bufio.Scanner`, whose default token limit is 64 KiB, and does not check `scanner.Err()`. A line longer than that ends the scan silently and drops every later criterion; the model scans lines of any length.
- UpdateAC.RemoveACs: the source sorts the caller's `params.RemoveAC` slice in place (largest first) before removing; the model takes the indices as a value, so the caller's reordered slice is not modelled.
- The CLI's maximum list limit comes from the configuration in the source. It is the parameter `maxLimit` of `CmdPagination.ApplyDefaultPagination`.

**Not part of the model.** The CLI commands and table output, the MCP server and its transports, git commits, the security monitor, the response estimator and limiter, the file lockers, and the page files of the documentation generator: the prompt pages copy fixed files, and the index page is the README passed through `GenDocs.ReplaceInternalLinks` under a fixed front matter; only that link rewriting is modelled.

**Markdown parsing.** The Go generator's goldmark parse of the README is an input: the list of `(title, content)` sections it yields.

## Findings

| source | as written | input that shows it | evidently intended | confidence | as-written member | corrected member |
|---|---|---|---|---|---|---|
| internal/core/store.go:136 | the lookup takes the first file whose name starts with the task's name, without the "-" that follows the ID | task T10 in a directory holding "T100-x.md" finds that file | match `T<id>-` so that only the task's own file is found | high, not executed | Store.FindTaskFilePrefixClash | Store.FoundFileHasID |
| internal/core/conflict.go:284-294 | the chronological plan sorts the tasks by age but pairs the i-th sorted task with the i-th file of the unsorted list | a conflict listing the newer task first: the plan renumbers the file of the older task, which should be kept | renumber each newer task through its own file | high, not executed | ConflictPlan.ChronoRenumbersKeptFile | ConflictPlan.ChronoKeepsOldest |
| internal/core/parse.go:92-116 | a section is cut from its header to the next header of the fixed list that is present, so a body whose headers appear in another order cuts a slice whose end lies before its start | the body "## Acceptance Criteria\n## Description\n" panics with a slice-bounds error | end each section at the first later-listed header that occurs after it | high, not executed | Parse.SwappedHeadersPanic | Parse.SplitByHeaders |
| internal/core/update.go:141-146 | the old file is removed whenever the title changed, after the task was written under its new name, even when both names are the same | retitling "Fix bug" to "fix bug": both give the file name `T<id>-fix_bug.md`, so the file just written is deleted | remove the old file only when its name differs from the new one | high, not executed | Update.CaseOnlyRenameLosesTask | Update.FilesAfterUpdate |
