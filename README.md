# Sisu CRUD and form-wizard core, in Dafny

Sisu is a small productivity command-line tool. Each of its six entities
(milestones, coach entries, calendar entries, tasks, practice sessions and
reviews) plugs into one generic framework:

- a registrar that gives every entity a `list` and an `rm` command;
- a builder of shell-completion suggestions for record ids;
- an ASCII table renderer;
- a form wizard that asks for one field at a time and runs validate, parse and
  assign on each confirmed text.

This project models that framework and the entities' parsers, display lines
and wizard seeds. It then proves what they promise.

Layout, one module per file:

- `wrappers.dfy`: `Option` and `Result`.
- `text.dfy`: `strings.TrimSpace`, `strings.HasPrefix` and `strings.Repeat`.
- `strconv.dfy`: `strconv.ParseInt(s, 10, 64)` and `strconv.FormatInt(n, 10)`.
- `dates.dfy`: the date layout "2006-01-02". This is the full-date form of
  section 5.6 of RFC 3339, with the day limits of its section 5.7.
- `scalars.dfy`:
  - the tagged value a Parse closure hands to its Assign closure (`int64`,
    `string`, `null.String`, `null.Int64`, `time.Time`, `null.Time`);
  - the parse errors;
  - the shared field parsers;
  - the renderings of nullable columns.
- `completion.dfy`: `buildIDCompletions`, `AttachEditCompletion`,
  `AttachRmCompletion`, and the `rm` completion of the registrar
  (cmd/utilCRUD.go).
- `table.dfy`: `RenderTable` (cmd/utilCRUD.go). It is imperative. The width
  pass updates an `array<nat>` in place. The `divider` and `writeRow` closures
  only read the widths, so they receive them as a sequence. Everything is
  specified by a function of the headers and rows.
- `form.dfy`: `Field`, `NewFormModel`, `FormModel.Update` and
  `RunFormWizard[WithSubmit]` (cmd/utilCRUD.go). `FormModel` is a class, and
  `Update` is proved against the step function `Step`.
- `crud.dfy`: the `list` and `rm` command bodies of `RegisterCrudSubcommands`
  (cmd/utilCRUD.go), over a store class holding rows in id order.
- `legacy.dfy`: the older registrar and wizard of cmd/crud.go. They redeclare
  the same names, so they live in a module of their own:
  - the handle hooks;
  - the single-id `rm`;
  - bare-id completion;
  - the wizard without a validate step.

  It proves how each of these relates to the newer version.
- `milestone.dfy`, `coach.dfy`, `calendar.dfy`, `task.dfy`, `session.dfy`,
  `review.dfy`: each entity's record, its `Format` display line, and its
  fields. Add and edit share the same fields and differ only in seed texts.
  Each file also proves what a completed add wizard stores, and what
  confirming the edit seeds unchanged stores.

## Decisions

- **Assign.** Each `Assign` closure writes one struct field by reflection. Here
  it is a setter `(record, Value) -> record` on a record datatype. The Go type
  assertion inside the closure panics when the value has the wrong kind. The
  setters keep the record unchanged on such a value instead. Each field's
  parser never produces such a value.
- **The database.**
  - The store is a sequence of `(id, record)` pairs in increasing id order,
    which is the `ORDER BY id ASC` of every `ListFn`. `RemoveFn` deletes by
    id, or fails with `sql: no rows in result set`.
  - A failing `ListFn` or `EnsureDB` is a parameter.
  - "today" (`time.Now()`) is a parameter.
- **Failures.** `log.Fatalf` becomes a returned failure carrying the message.
  Effects already done before it stay done.
- **The wizard's input.**
  - The text input widget is reduced to the text the user confirms: the
    message `Enter(text)`. Every other message is `Other`.
  - Update returns the widget's own command for `Other`; the model names it
    `InputCmd`.
- **Absent dates in milestone and coach.** cmd/cmdMilestone.go:93 and 290 and
  cmd/cmdCoach.go:74 and 212 call `.Format` directly on a column.
  cmd/cmdExport.go:236-237 and 324-325 treat the same columns as `null.Time`,
  which keeps its time in the field `Time` and has no `Format` method. So as
  shown, the sources do not agree on the column's type. The model reads the
  call as `.Time.Format`. That prints Go's zero time, `0001-01-01`, for an
  absent date. The two date findings below rest on this reading.
- **Cancellation.** The code has no `Cancelled` terminal state. Ctrl-c is handled by the
  terminal-UI library, `RunFormWizard` does not report it, and every caller
  persists the holder regardless.
- **Duplicates.** Completion does not deduplicate. Ids are unique in the store anyway.
- **Fatal exits.** A `log.Fatalf` exits the process, so the post-run hook that closes the handle
  does not run after a failure.
- **Typed ids.** The registrar's `rm` completion excludes the ids already typed.
  `AttachRmCompletion` does not (see Findings).

## Model

| member | source | states |
|---|---|---|
| Text.TrimSpace | cmd/utilCRUD.go:141 | the result is a slice of the input with only white space before and after it in the input; it has no white space at either end, is empty exactly when the input is all white space, and is the input itself when the input has none at its ends |
| StrConv.ParseInt | cmd/utilCRUD.go:96 | succeeds exactly on an optionally signed decimal numeral whose value fits in int64; the error carries "ParseInt", the whole text and syntax versus range |
| StrConv.FormatInt | cmd/utilCRUD.go:145 | the text is a well-formed decimal of the number, with no '+', and ParseInt reads it back for every int64 |
| StrConv.ParseIntRejectsStray | cmd/utilCRUD.go:96 | a character other than a digit (or a leading sign) makes ParseInt fail |
| Dates.ParseDate | cmd/cmdMilestone.go:179 | success only on the exact layout with a month 1-12 and a day within that month of that year; formatting the result gives the text back; "" fails |
| Dates.FormatDateRoundTrip | cmd/cmdCalendar.go:154-157 | parsing a formatted date gives the same date |
| Dates.LeapDay | cmd/cmdCalendar.go:100 | February 29th parses exactly in leap years |
| Scalars.ParseNonBlank | cmd/cmdCoach.go:102-107 | fails exactly on "", with the field's "cannot be blank" message; otherwise the text unchanged |
| Scalars.ParsePresentString | cmd/cmdMilestone.go:142-144 | always a present string, "" included |
| Scalars.ParseInt64 | cmd/cmdSession.go:130-132 | an int64 numeral or strconv's own error, unwrapped |
| Scalars.ParseInt64Wrapped | cmd/cmdMilestone.go:125-131 | an int64 numeral, or strconv's error wrapped with the field's context |
| Scalars.ParseRequiredNullInt64 | cmd/cmdSession.go:161-166 | a present int64 exactly on an int64 numeral, so "" fails although the column is nullable |
| Scalars.ParseOptInt64 | cmd/cmdMilestone.go:155-164 | "" is absent; other text is a present int64 or the wrapped error |
| Scalars.ParseTime | cmd/cmdCalendar.go:99-101 | a date exactly when the text is one in the layout |
| Scalars.ParseRequiredNullTime | cmd/cmdTask.go:130-136 | a present date exactly when the text is one in the layout |
| Scalars.ParseOptTime | cmd/cmdMilestone.go:175-184 | "" is absent; other text must be a date in the layout |
| Scalars.StringOrEmpty | cmd/cmdMilestone.go:88 | the text of a present string, "" for an absent one |
| Scalars.IntOrZero | cmd/cmdMilestone.go:89 | the "%d" text parses back as the value, absent as 0 |
| Scalars.IntOrEmpty | cmd/cmdSession.go:85-88 | "" exactly when absent; otherwise the decimal text, which parses back |
| Scalars.TimeText | cmd/cmdMilestone.go:93 | a non-empty text that parses back as the date, or as 0001-01-01 when absent |
| Scalars.OptTimeText | cmd/cmdMilestone.go:264-268 | the seed that the optional-date parser reads back as the same optional date |
| Scalars.OptInt64RoundTrip | cmd/cmdMilestone.go:263-279 | the Value seed ("" or decimal) parses back to the same optional value |
| Scalars.PresentStringRoundTrip | cmd/cmdTask.go:192-194 | a nullable string's seed parses back to it exactly when it was present |
| Completion.BuildIDCompletions | cmd/utilCRUD.go:124-161 | an unavailable database or a failing list gives no suggestions and never an error directive; otherwise the suggestions for the trimmed partial text |
| Completion.FilterRecords | cmd/utilCRUD.go:141-159 | the loop collects exactly the entries of the offered records, in list order |
| Completion.Suggestion | cmd/utilCRUD.go:144-158 | a record is kept exactly when its id text is not excluded and the partial text is empty or prefixes it; its entry is id, tab, hint (hint function or display line) |
| Completion.FilterMapSound | cmd/utilCRUD.go:142-159 | every suggestion is the entry of some kept record |
| Completion.FilterMapComplete | cmd/utilCRUD.go:142-159 | every kept record's entry is suggested |
| Completion.CompletionsAppend | cmd/utilCRUD.go:143-159 | suggestions follow list order: those of a + b are those of a, then those of b |
| Completion.CompletionsMember | cmd/utilCRUD.go:143-158 | a text is suggested if and only if it is the entry of an offered record |
| Completion.SuggestionsRespectFilter | cmd/utilCRUD.go:146-153 | every suggestion's id is not excluded and, for a non-empty partial text, starts with it |
| Completion.ExcludedNeverSuggested | cmd/utilCRUD.go:146-150 | a record whose id text is excluded never appears, whatever its hint |
| Completion.NoFilterKeepsAll | cmd/utilCRUD.go:151-153 | with an empty partial text and nothing excluded, every record is suggested, in order |
| Completion.BeforeTabOfEntry | cmd/utilCRUD.go:158 | the text before the tab of an entry is the id |
| Completion.UsedSet | cmd/utilCRUD.go:111-114 | the exclusion set is exactly the typed arguments |
| Completion.EditCompletion | cmd/utilCRUD.go:171-177 | nothing once an argument is present or without a formatter; otherwise the suggestions excluding nothing |
| Completion.AttachRmCompletion | cmd/utilCRUD.go:186-197 | as written: the typed arguments are collected but not passed, so the suggestions exclude nothing |
| Completion.RmCompletion | cmd/utilCRUD.go:107-117 | the suggestions exclude every typed argument |
| Completion.RmAsWrittenReoffersTypedId | cmd/utilCRUD.go:186-196 | a typed id is suggested again as written and not when the arguments are passed |
| Table.RenderTable | cmd/utilCRUD.go:202-252 | the output is the rendered table: divider, header row, divider, one row per input row, divider |
| Table.ColumnWidths | cmd/utilCRUD.go:204-214 | the width array holds, per header, the widths function of headers and rows |
| Table.WriteDivider | cmd/utilCRUD.go:218-225 | appends "+", then w[i]+2 dashes and "+" per column, then a newline |
| Table.WriteRow | cmd/utilCRUD.go:226-241 | appends the row line: each cell padded right to its width between "| " and " " |
| Table.WriteRows | cmd/utilCRUD.go:246-248 | appends the lines of all rows in order |
| Table.ColWidthIsMax | cmd/utilCRUD.go:204-214 | a column's width is at least its header and every cell, and equals one of them |
| Table.WidthsFit | cmd/utilCRUD.go:204-214 | the header and every row fit the computed widths |
| Table.LinesAligned | cmd/utilCRUD.go:218-249 | the table has rows + 4 lines, each of length 1 + sum of (w[i] + 3) plus its newline |
| Table.RenderedLength | cmd/utilCRUD.go:243-251 | the whole text is (rows + 4) times the line width |
| Table.CellShown | cmd/utilCRUD.go:226-241 | each cell appears at its column's start, followed by spaces up to the column width |
| Table.ExtraCellsIgnored | cmd/utilCRUD.go:228-232 | cells beyond the headers do not change the row line |
| Form.Outcome | cmd/utilCRUD.go:303-314 | validation runs first and its error wins; otherwise the parse result |
| Form.Init | cmd/utilCRUD.go:275-290 | the initial state is well formed |
| Form.FormModel.constructor | cmd/utilCRUD.go:275-290 | inputs seeded with the fields' initial texts, only field 0 focused, index 0, no errors |
| Form.FormModel.Update | cmd/utilCRUD.go:294-328 | the new state and command are the step function's |
| Form.RunFormWizard | cmd/utilCRUD.go:347-352 | the holder is the one left when the run of messages stops |
| Form.RunFormWizardWithSubmit | cmd/utilCRUD.go:354-362 | the holder goes to submit whether or not the wizard completed; a submit error aborts with "submit failed: " |
| Form.StepWellFormed | cmd/utilCRUD.go:294-328 | a step keeps the index in bounds and exactly the fields up to it focused |
| Form.EnterRejected | cmd/utilCRUD.go:303-314 | a rejected text keeps the index and the holder, records the error, returns no command |
| Form.EnterAccepted | cmd/utilCRUD.go:316-324 | an accepted text assigns once, clears the error, advances, and quits after the last field |
| Form.OtherKeepsState | cmd/utilCRUD.go:297-327 | any other message changes nothing and returns the widget's command |
| Form.QuitOnlyAtEnd | cmd/utilCRUD.go:319-322 | Quit is returned exactly when the index reaches the number of fields |
| Form.RunFrom | cmd/utilCRUD.go:294-328 | confirming accepted texts from field k on completes the wizard, assigning fields k.. in order |
| Form.WizardCompletes | cmd/utilCRUD.go:347-352 | confirming an accepted text per field completes the wizard after exactly that many confirmations, each field assigned once, in order |
| Form.RejectionIsRetried | cmd/utilCRUD.go:303-314 | a rejected confirmation leaves the rest of the run as if the user retried |
| Crud.Store.List | cmd/utilCRUD.go:65 | the records, in id order |
| Crud.Store.Remove | cmd/utilCRUD.go:101 | succeeds exactly when the id is stored; the rows are the old ones without it, still in id order; otherwise the no-rows error |
| Crud.ListCmd | cmd/utilCRUD.go:63-85 | a list error aborts with "list <singular>: <err>"; otherwise the output for the descriptor |
| Crud.ListTable | cmd/utilCRUD.go:70-77 | the rendered table of one TableRow per record, and Println's newline |
| Crud.ListPlain | cmd/utilCRUD.go:80-84 | one "<id>\t<line>\n" per record, in order |
| Crud.RmCmd | cmd/utilCRUD.go:94-106 | no arguments is cobra's error; otherwise the store, the printed lines and the failure are those of removing the ids in order until the first failure |
| Crud.WithoutIds | cmd/utilCRUD.go:101 | removing an id leaves exactly the other ids |
| Crud.WithoutIncreasing | cmd/utilCRUD.go:101 | removing keeps the id order |
| Crud.RmRunAppend | cmd/utilCRUD.go:95-105 | removing a + b is removing a, then (if a succeeded) removing b from what is left; a failure in b keeps a's removals |
| Crud.RmRunRows | cmd/utilCRUD.go:95-105 | the remaining ids are the old ones minus those removed, still in id order |
| Crud.RmRunRemoved | cmd/utilCRUD.go:95-105 | each removed id is the parsed argument at its position and was stored; no failure exactly when every argument was removed |
| Legacy.Handle.PreRun | cmd/crud.go:34-38 | an InitDB error aborts with "init DB: <err>"; the handle is otherwise left alone |
| Legacy.Handle.PostRun | cmd/crud.go:39-44 | closes and clears the handle only when it is open |
| Legacy.PostRunIdempotent | cmd/crud.go:39-44 | after the hook there is no handle, it closed at most once, and a second call changes nothing |
| Legacy.ListCmd | cmd/crud.go:50-60 | a list error aborts with "list <singular>: <err>"; otherwise one "<id>\t<line>\n" per record |
| Legacy.RmCmd | cmd/crud.go:65-79 | anything but exactly one argument is cobra's error and changes nothing; otherwise what the registrar's rm does with that one argument, printed with the older line |
| Legacy.RmCompletion | cmd/crud.go:81-96 | a failing list is the error directive; otherwise the bare ids the untrimmed partial text (if any) prefixes, in order |
| Legacy.BareIdsAgree | cmd/crud.go:81-96 | the older suggestions are the ids, before the tab, of the newer suggestions excluding nothing |
| Legacy.FormModel.constructor | cmd/crud.go:119-134 | inputs seeded with the initial texts, only field 0 focused, index 0 |
| Legacy.FormModel.Update | cmd/crud.go:138-166 | the new state and command are the older step function's |
| Legacy.StepWellFormed | cmd/crud.go:138-166 | a step keeps the index in bounds and the focus up to it |
| Legacy.ParseFailureStays | cmd/crud.go:145-150 | a text that fails to parse keeps the index and the holder and records nothing |
| Legacy.ParseSuccessAdvances | cmd/crud.go:153-162 | a parsed text is assigned once, the index advances, and Quit comes exactly after the last field |
| Legacy.OtherStays | cmd/crud.go:138-165 | any other message changes nothing |
| Legacy.StepAgrees | cmd/crud.go:138-166 | one older step is one newer step on the same fields without validation, errors aside |
| Legacy.RunAgrees | cmd/crud.go:138-166 | over any run of messages the two wizards end in the same index, holder, inputs and focus |
| Legacy.WizardsAgree | cmd/crud.go:178-183 | both wizards leave the same holder |
| Legacy.RunFormWizard | cmd/crud.go:178-183 | the holder left when the run of messages stops |
| Legacy.RunFormWizardWithSubmit | cmd/crud.go:186-199 | the holder goes to submit; a submit error aborts with "submit failed: " |
| Milestone.ListsPlain | cmd/cmdMilestone.go:72-101 | no table: list prints one line per milestone |
| Milestone.TaskField | cmd/cmdMilestone.go:125-131 | Task ID accepts exactly int64 numerals; errors are wrapped as "invalid task ID" |
| Milestone.TextFields | cmd/cmdMilestone.go:142-144 | Type and Message always accept, "" as a present empty string |
| Milestone.ValueField | cmd/cmdMilestone.go:155-164 | "" is absent; other text is an int64 numeral or fails wrapped as "invalid value" |
| Milestone.AchievedField | cmd/cmdMilestone.go:175-184 | "" is absent; other text must be a calendar date |
| Milestone.AddRecord | cmd/cmdMilestone.go:118-207 | the stored milestone holds each confirmed text's value in its column |
| Milestone.EditKeepsDatedRecord | cmd/cmdMilestone.go:231-324 | confirming every seed unchanged stores the same milestone when it has an achieved date and its Type and Message are present, as in every milestone the add wizard can store |
| Milestone.EditInventsAchievedDate | cmd/cmdMilestone.go:287-291 | as written, confirming the seeds of a milestone with Type and Message present but no achieved date stores 0001-01-01 |
| Milestone.EditCorrectedResubmit | cmd/cmdMilestone.go:231-324 | with the date seeded as the Value field is seeded, confirming every seed unchanged stores the same milestone, except that an absent Type or Message comes back present and empty |
| Milestone.EditCorrectedKeeps | cmd/cmdMilestone.go:263-269 | seeding the date as the Value field is seeded, confirming every seed unchanged stores the same milestone when its Type and Message are present, as in every milestone the add wizard can store |
| Milestone.ValueSeedRoundTrip | cmd/cmdMilestone.go:263-279 | the Value seed reads back as the stored value, absent included |
| Milestone.AbsentValueShowsZero | cmd/cmdMilestone.go:88-100 | an absent Value lists exactly like the value 0 |
| Coach.ListsPlain | cmd/cmdCoach.go:65-79 | no table: list prints one line per entry |
| Coach.BlankFields | cmd/cmdCoach.go:102-122 | Trigger and Content reject exactly "", each with its own message, and keep other text |
| Coach.DateField | cmd/cmdCoach.go:134-142 | "" is absent; other text must be a calendar date |
| Coach.AddRecord | cmd/cmdCoach.go:95-153 | the stored entry holds the confirmed trigger, content and date |
| Coach.EditKeepsDatedRecord | cmd/cmdCoach.go:176-233 | confirming every seed unchanged stores the same dated entry, for every entry the add wizard can store (trigger and content non-empty) |
| Coach.EditInventsDate | cmd/cmdCoach.go:211-213 | as written, confirming the seeds of an undated entry with non-empty trigger and content stores 0001-01-01 |
| Coach.EditCorrectedKeeps | cmd/cmdCoach.go:176-233 | with an absent date seeded as "", confirming every seed unchanged stores the same entry, for every entry the add wizard can store (trigger and content non-empty) |
| Coach.AbsentDateShowsYearOne | cmd/cmdCoach.go:72-78 | an undated entry lists exactly like one dated 0001-01-01 |
| Calendar.ListsPlain | cmd/cmdCalendar.go:65-86 | no table: list prints one line per entry |
| Calendar.DateField | cmd/cmdCalendar.go:99-101 | the date is required: "" and malformed text fail |
| Calendar.NoteField | cmd/cmdCalendar.go:112-117 | the note rejects exactly "", as "note cannot be blank" |
| Calendar.DateSeedRoundTrip | cmd/cmdCalendar.go:154-157 | the formatted date seed parses back as the same date |
| Calendar.AddToday | cmd/cmdCalendar.go:92-127 | keeping today's seed and typing a note stores an entry for today with that note |
| Calendar.EditKeeps | cmd/cmdCalendar.go:151-183 | confirming every seed unchanged stores the same entry, for every entry the add wizard can store (non-empty note) |
| Task.ListsPlain | cmd/cmdTask.go:69-88 | no table: list prints one line per task |
| Task.NameField | cmd/cmdTask.go:101-106 | the name rejects exactly "", as "name cannot be blank" |
| Task.DescriptionField | cmd/cmdTask.go:117-119 | the description always accepts; "" is present and empty, not absent |
| Task.TargetField | cmd/cmdTask.go:130-136 | the target date is required and must be a calendar date |
| Task.AddRecord | cmd/cmdTask.go:94-146 | the stored task holds the name, a present description and a present target date |
| Task.EditKeeps | cmd/cmdTask.go:175-218 | confirming every seed unchanged stores the same task, for every task the add wizard can store |
| Session.ListsPlain | cmd/cmdSession.go:69-117 | no table: list prints one line per session |
| Session.TaskField | cmd/cmdSession.go:130-132 | Task ID is a plain int64 parse whose error passes through unwrapped |
| Session.CountFields | cmd/cmdSession.go:161-183 | Duration and Score accept exactly int64 numerals, so "" fails |
| Session.NotesField | cmd/cmdSession.go:195-197 | Notes always accepts, as a present string |
| Session.EditSeeds | cmd/cmdSession.go:229-296 | the Task, Duration and Score seeds are rejected as they stand; the date seed is today; only the notes seed reads back as the record's |
| Session.AbsentDurationShown | cmd/cmdSession.go:85-88 | an absent duration lists as "" and so differs from 0 |
| Session.AbsentScoreShown | cmd/cmdSession.go:89-92 | an absent score lists as "" and so differs from 0 |
| Session.AddRecord | cmd/cmdSession.go:123-207 | the stored session holds the confirmed task, date, duration, score and notes |
| Review.RowMatchesHeaders | cmd/cmdReview.go:79-91 | a row has exactly the 4 header cells; the id, task and week cells read back as the record's, the week "" exactly when absent |
| Review.LineIsLabelledRow | cmd/cmdReview.go:71-91 | the display line is the row's cells after the id, each after its header's name; so the week renders alike in both |
| Review.ListsAsTable | cmd/cmdReview.go:64-101 | review list goes through RenderTable: |reviews| + 4 lines of one width |
| Review.TaskSeedRoundTrip | cmd/cmdReview.go:138 | the task seed is the task id's decimal text and reads back as it |
| Review.SeedsAreShownCells | cmd/cmdReview.go:138-140 | the task and summary seeds are the task and summary cells the list shows; the summary seed is "" exactly when the summary is absent or empty, and is the summary otherwise |

## Findings

| source | as written | input that shows it | evidently intended | confidence | as-written member | corrected member |
|---|---|---|---|---|---|---|
| cmd/utilCRUD.go:196 | `AttachRmCompletion` builds the set of typed ids, then passes `nil` | records with id 3, argument "3" already typed, empty partial text: "3\t..." is offered again | pass the set, as the registrar's own `rm` completion does at line 116 | high, not executed | Completion.RmAsWrittenReoffersTypedId | Completion.RmCompletion |
| cmd/cmdMilestone.go:288-291 | the achieved-date seed formats an absent date as Go's zero time | a milestone added with an empty achieved date, then edited with every seed confirmed: it now has achieved = 0001-01-01 | seed "" when absent, as the Value seed does (lines 263-269) | medium, not executed | Milestone.EditInventsAchievedDate | Milestone.EditCorrectedKeeps |
| cmd/cmdCoach.go:211-213 | the date seed formats an absent date as Go's zero time | a coach entry added with an empty date, then edited with every seed confirmed: it now has date = 0001-01-01 | seed "" when absent | medium, not executed | Coach.EditInventsDate | Coach.EditCorrectedKeeps |

## Left out

- View (cmd/utilCRUD.go:330-343, cmd/crud.go:168-176): rendering the prompt and the error line is terminal output. The error it shows is modelled as the per-field error state.
- The text input widget, keystroke editing and the Bubble Tea program loop are a foreign library. The wizard sees only the confirmed texts. The program's own error (`form wizard failed`) is not modelled.
- A wizard with no fields: `Update` indexes the field list and would panic. The model's step function requires a current field, and its run stops at once on an empty list.
- Cancellation (ctrl-c) belongs to the library. The source does not report it, so there is no cancelled state.
- Cobra wiring is not modelled: help texts, `Use`/`Short`, flag parsing, and the exact-args and minimum-args checks beyond the error texts modelled in the `rm` commands.
- Persistence is a store of rows in id order, not the SQLite code: `Insert`, `Update`, `Find*`, `Delete`, db/db.go `InitDB`, migrations and the "created"/"updated" lines the `run*Add`/`run*Edit` procedures print after persisting. The edit procedures' id parsing and lookup are persistence plumbing and are not modelled either.
- `EnsureDB`, `dbPreRun`/`dbPostRun` and `db.Ctx()` are not part of this model. Their outcomes are parameters. `db.Conn` is declared outside the modelled files, so the handle is a two-field object.
- Review's fields use `FInt`, `FOptInt`, `FOptString` and `OptInt64Initial`, which are not part of this model. Only the task and summary seeds are modelled, and what the summary seed reads back as is not.
- cmd/cmdSession.go assigns to struct fields named `TaskID`, `DurationMinutes` and `Score`, while its display line reads `Task`, `DurationMins` and `ScoreFeedback`. The model assigns to the columns the display line reads.
- cmd/cmdExport.go (CSV export), cmd/cmdMigrate.go, cmd/cmdTrack.go (commented out), cmd/root.go and cmd/utilHelp.go (help styling) are outside this model.
- Strings are sequences of characters, one per byte. The byte length of non-ASCII text (which `len` measures in `RenderTable`) is not modelled. Table widths count characters.
- Dates: only years 0000-9999, which the four-digit layout can print. Time zones and clock times are not modelled.
- `strconv.NumError` text is modelled with the raw input. Go's `%q` quoting escapes special characters, which the model does not.
- Legacy.Handle.PreRun: the model does not track the handle InitDB opens, because the source discards it.
