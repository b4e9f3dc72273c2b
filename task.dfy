/**
 * Tasks (cmd/cmdTask.go): the record, its display line, and the three
 * fields the add and edit wizards share.
 */
module Task {
  import opened Wrappers
  import opened Dates
  import opened Scalars
  import Form
  import Crud
  import Table

  /** models.Task: the target date is a nullable column the wizard always fills. */
  datatype Task = Task(id: Option<I64>, name: string, description: Option<string>,
                       dateTarget: Option<Day>, archived: Option<bool>)

  /** The zero record the add wizard fills in. */
  const Empty: Task := Task(None, "", None, None, None)

  /** "%v" of a bool. */
  function BoolText(b: bool): string {
    if b then "true" else "false"
  }

  /** Format: the id and "<name> (archived=<bool>)"; an absent Archived prints as false. */
  function Format(t: Task): (int, string) {
    (t.id.GetOr(0), t.name + " (archived=" + BoolText(t.archived.GetOr(false)) + ")")
  }

  function Descriptor(): Crud.CrudModel<Task> {
    Crud.CrudModel("task", Some(Format), None, None, None)
  }

  /** The descriptor has no table, so `list` prints one "<id>\t<line>" line per record. */
  lemma ListsPlain(items: seq<Task>)
    ensures !Crud.TableMode(Descriptor())
    ensures Crud.ListOutput(Descriptor(), items) == Table.Join(Crud.PlainLines(Format, items))
  {
  }

  // ---------------------------------------------------------------- parsers and setters

  function ParseName(s: string): Result<Value, Error> {
    ParseNonBlank("name cannot be blank", s)
  }

  function SetName(t: Task, v: Value): Task {
    if v.Str? then t.(name := v.s) else t
  }

  function SetDescription(t: Task, v: Value): Task {
    if v.NullString? then t.(description := v.os) else t
  }

  function SetDateTarget(t: Task, v: Value): Task {
    if v.NullTime? then t.(dateTarget := v.ot) else t
  }

  /** The three fields, seeded with the given texts. */
  function Fields(seeds: seq<string>): (fs: seq<Form.Field<Task>>)
    requires |seeds| == 3
    ensures |fs| == 3
  {
    [Form.Field("", "Task name", seeds[0], None, ParseName, SetName),
     Form.Field("", "Description (optional)", seeds[1], None, ParsePresentString, SetDescription),
     Form.Field("", "Target date (YYYY-MM-DD)", seeds[2], None, ParseRequiredNullTime, SetDateTarget)]
  }

  /** runTaskAdd's fields: the target date seeded with today. */
  function AddFields(today: Day): seq<Form.Field<Task>> {
    Fields(["", "", FormatDate(today)])
  }

  /** runTaskEdit's fields: the stored name, description text and target date (Go's zero time when absent). */
  function EditFields(t: Task): seq<Form.Field<Task>> {
    Fields([t.name, StringOrEmpty(t.description), TimeText(t.dateTarget)])
  }

  // ---------------------------------------------------------------- the fields' parsers

  /** Name: exactly "" is rejected, as "name cannot be blank". */
  lemma NameField(seeds: seq<string>, s: string)
    requires |seeds| == 3
    ensures var r := Form.Outcome(Fields(seeds)[0], s);
      (r.Failure? <==> s == "") && (r.Failure? ==> r.error == Blank("name cannot be blank"))
      && (r.Success? ==> r.value == Str(s))
  {
  }

  /** Description: always accepted; "" is a present empty description, not an absent one. */
  lemma DescriptionField(seeds: seq<string>, s: string)
    requires |seeds| == 3
    ensures Form.Outcome(Fields(seeds)[1], s) == Success(NullString(Some(s)))
  {
  }

  /** Target date: required; only a calendar date in the layout is accepted. */
  lemma TargetField(seeds: seq<string>, s: string)
    requires |seeds| == 3
    ensures var r := Form.Outcome(Fields(seeds)[2], s);
      (r.Success? <==> ParseDate(s).Success?) && (s == "" ==> r.Failure?)
      && (r.Success? ==> r.value == NullTime(Some(ParseDate(s).value)))
  {
  }

  // ---------------------------------------------------------------- the wizards

  /** What the add wizard stores: the name, a present description and a present target date. */
  lemma {:induction false} AddRecord(today: Day, texts: seq<string>)
    requires Form.AllAccepted(AddFields(today), texts)
    ensures var t := Form.Run(AddFields(today), Form.Init(AddFields(today), Empty), Form.Confirmations(texts, 0)).holder;
      t == Task(None, texts[0], Some(texts[1]), Some(ParseDate(texts[2]).value), None) && t.name != ""
  {
    var fs := AddFields(today);
    NameField(["", "", FormatDate(today)], texts[0]);
    TargetField(["", "", FormatDate(today)], texts[2]);
    Form.WizardCompletes(fs, texts, Empty);
    Form.ApplyUnrolled3(fs, texts, Empty);
  }

  /**
   * Confirming the edit wizard's seeds unchanged stores the record it was
   * seeded from, for every record the add wizard can have stored (name,
   * description and target date present).
   */
  lemma {:induction false} EditKeeps(t: Task)
    requires t.name != "" && t.description.Some? && t.dateTarget.Some?
    ensures Form.Resubmit(EditFields(t), t) == t
  {
    var fs := EditFields(t);
    var texts := Form.Initials(fs);
    FormatDateRoundTrip(t.dateTarget.value);
    assert Form.AllAccepted(fs, texts);
    Form.WizardCompletes(fs, texts, t);
    Form.ApplyUnrolled3(fs, texts, t);
  }
}
