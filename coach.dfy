/**
 * Coach entries (cmd/cmdCoach.go): the record, its display line, and the
 * three fields the add and edit wizards share.
 */
module Coach {
  import opened Wrappers
  import opened Dates
  import opened Scalars
  import Form
  import Crud
  import Table

  /** models.Coach. */
  datatype Coach = Coach(id: Option<I64>, trigger: string, content: string, date: Option<Day>)

  /** The zero record the add wizard fills in. */
  const Empty: Coach := Coach(None, "", "", None)

  /** Format: the id and "trigger=%s content=%s date=%s"; an absent date prints as Go's zero time. */
  function Format(c: Coach): (int, string) {
    (c.id.GetOr(0), "trigger=" + c.trigger + " content=" + c.content + " date=" + TimeText(c.date))
  }

  function Descriptor(): Crud.CrudModel<Coach> {
    Crud.CrudModel("coach", Some(Format), None, None, None)
  }

  /** The descriptor has no table, so `list` prints one "<id>\t<line>" line per record. */
  lemma ListsPlain(items: seq<Coach>)
    ensures !Crud.TableMode(Descriptor())
    ensures Crud.ListOutput(Descriptor(), items) == Table.Join(Crud.PlainLines(Format, items))
  {
  }

  // ---------------------------------------------------------------- parsers and setters

  function ParseTrigger(s: string): Result<Value, Error> {
    ParseNonBlank("trigger cannot be blank", s)
  }

  function ParseContent(s: string): Result<Value, Error> {
    ParseNonBlank("content cannot be blank", s)
  }

  function SetTrigger(c: Coach, v: Value): Coach {
    if v.Str? then c.(trigger := v.s) else c
  }

  function SetContent(c: Coach, v: Value): Coach {
    if v.Str? then c.(content := v.s) else c
  }

  function SetDate(c: Coach, v: Value): Coach {
    if v.NullTime? then c.(date := v.ot) else c
  }

  /** The three fields, seeded with the given texts (the edit prompts drop the "(non-empty)" hint). */
  function Fields(prompts: seq<string>, seeds: seq<string>): (fs: seq<Form.Field<Coach>>)
    requires |prompts| == 2 && |seeds| == 3
    ensures |fs| == 3
  {
    [Form.Field("", prompts[0], seeds[0], None, ParseTrigger, SetTrigger),
     Form.Field("", prompts[1], seeds[1], None, ParseContent, SetContent),
     Form.Field("", "Date (YYYY-MM-DD, optional)", seeds[2], None, ParseOptTime, SetDate)]
  }

  /** runCoachAdd's fields: all seeds empty. */
  function AddFields(): seq<Form.Field<Coach>> {
    Fields(["Trigger (non-empty)", "Content (non-empty)"], ["", "", ""])
  }

  /** runCoachEdit's fields, as written: an absent date is seeded as Go's zero time. */
  function EditFields(c: Coach): seq<Form.Field<Coach>> {
    Fields(["Trigger", "Content"], [c.trigger, c.content, TimeText(c.date)])
  }

  /** runCoachEdit's fields with an absent date seeded as "". */
  function EditFieldsCorrected(c: Coach): seq<Form.Field<Coach>> {
    Fields(["Trigger", "Content"], [c.trigger, c.content, OptTimeText(c.date)])
  }

  // ---------------------------------------------------------------- the fields' parsers

  /** Trigger and Content: exactly "" is rejected, with its own message; other text is kept as typed. */
  lemma BlankFields(prompts: seq<string>, seeds: seq<string>, s: string)
    requires |prompts| == 2 && |seeds| == 3
    ensures var r := Form.Outcome(Fields(prompts, seeds)[0], s);
      (r.Failure? <==> s == "") && (r.Failure? ==> r.error == Blank("trigger cannot be blank"))
      && (r.Success? ==> r.value == Str(s))
    ensures var r := Form.Outcome(Fields(prompts, seeds)[1], s);
      (r.Failure? <==> s == "") && (r.Failure? ==> r.error == Blank("content cannot be blank"))
      && (r.Success? ==> r.value == Str(s))
  {
  }

  /** Date: "" is absent; other text must be a calendar date in the layout. */
  lemma DateField(prompts: seq<string>, seeds: seq<string>, s: string)
    requires |prompts| == 2 && |seeds| == 3
    ensures var r := Form.Outcome(Fields(prompts, seeds)[2], s);
      (s == "" ==> r == Success(NullTime(None)))
      && (s != "" ==> (r.Success? <==> ParseDate(s).Success?))
      && (s != "" && r.Success? ==> r.value == NullTime(Some(ParseDate(s).value)))
  {
  }

  // ---------------------------------------------------------------- the wizards

  /** What the add wizard stores when every field accepts its text. */
  lemma {:induction false} AddRecord(texts: seq<string>)
    requires Form.AllAccepted(AddFields(), texts)
    ensures var c := Form.Run(AddFields(), Form.Init(AddFields(), Empty), Form.Confirmations(texts, 0)).holder;
      c.id == None && c.trigger == texts[0] && c.content == texts[1] && c.trigger != "" && c.content != ""
      && c.date == (if texts[2] == "" then None else Some(ParseDate(texts[2]).value))
  {
    var fs := AddFields();
    Form.WizardCompletes(fs, texts, Empty);
    BlankFields(["Trigger (non-empty)", "Content (non-empty)"], ["", "", ""], texts[0]);
    BlankFields(["Trigger (non-empty)", "Content (non-empty)"], ["", "", ""], texts[1]);
    DateField(["Trigger (non-empty)", "Content (non-empty)"], ["", "", ""], texts[2]);
    Form.ApplyUnrolled3(fs, texts, Empty);
  }

  /** Confirming the corrected edit wizard's seeds unchanged stores the record it was seeded from. */
  lemma {:induction false} EditCorrectedKeeps(c: Coach)
    requires c.trigger != "" && c.content != ""
    ensures Form.Resubmit(EditFieldsCorrected(c), c) == c
  {
    var fs := EditFieldsCorrected(c);
    var texts := Form.Initials(fs);
    assert Form.AllAccepted(fs, texts);
    Form.WizardCompletes(fs, texts, c);
    Form.ApplyUnrolled3(fs, texts, c);
  }

  /** As written, the edit wizard keeps a record that has a date. */
  lemma {:induction false} EditKeepsDatedRecord(c: Coach)
    requires c.trigger != "" && c.content != "" && c.date.Some?
    ensures Form.Resubmit(EditFields(c), c) == c
  {
    assert EditFields(c) == EditFieldsCorrected(c);
    EditCorrectedKeeps(c);
  }

  /** As written, confirming the seeds of an undated record stores the date 0001-01-01. */
  lemma {:induction false} EditInventsDate(c: Coach)
    requires c.trigger != "" && c.content != "" && c.date.None?
    ensures Form.Resubmit(EditFields(c), c) == c.(date := Some(ZeroTime))
  {
    var fs := EditFields(c);
    var texts := Form.Initials(fs);
    FormatDateRoundTrip(ZeroTime);
    assert Form.AllAccepted(fs, texts);
    Form.WizardCompletes(fs, texts, c);
    Form.ApplyUnrolled3(fs, texts, c);
  }

  /** In the list, an undated entry reads exactly like one dated 0001-01-01. */
  lemma AbsentDateShowsYearOne(c: Coach)
    ensures Format(c.(date := None)) == Format(c.(date := Some(ZeroTime)))
  {
  }
}
