/**
 * Calendar entries (cmd/cmdCalendar.go): the record, its display line, and
 * the two fields the add and edit wizards share.
 */
module Calendar {
  import opened Wrappers
  import opened Dates
  import opened Scalars
  import Form
  import Crud
  import Table

  /** models.Calendar: the date is a required time.Time. */
  datatype Calendar = Calendar(id: Option<I64>, date: Day, note: string)

  /** The zero record the add wizard fills in. */
  const Empty: Calendar := Calendar(None, ZeroTime, "")

  /** Format: the id and "date=%s note=%s". */
  function Format(c: Calendar): (int, string) {
    (c.id.GetOr(0), "date=" + FormatDate(c.date) + " note=" + c.note)
  }

  function Descriptor(): Crud.CrudModel<Calendar> {
    Crud.CrudModel("calendar", Some(Format), None, None, None)
  }

  /** The descriptor has no table, so `list` prints one "<id>\t<line>" line per record. */
  lemma ListsPlain(items: seq<Calendar>)
    ensures !Crud.TableMode(Descriptor())
    ensures Crud.ListOutput(Descriptor(), items) == Table.Join(Crud.PlainLines(Format, items))
  {
  }

  // ---------------------------------------------------------------- parsers and setters

  function ParseNote(s: string): Result<Value, Error> {
    ParseNonBlank("note cannot be blank", s)
  }

  function SetDate(c: Calendar, v: Value): Calendar {
    if v.Time? then c.(date := v.t) else c
  }

  function SetNote(c: Calendar, v: Value): Calendar {
    if v.Str? then c.(note := v.s) else c
  }

  /** The two fields, seeded with the given texts. */
  function Fields(seeds: seq<string>): (fs: seq<Form.Field<Calendar>>)
    requires |seeds| == 2
    ensures |fs| == 2
  {
    [Form.Field("", "Date (YYYY-MM-DD)", seeds[0], None, ParseTime, SetDate),
     Form.Field("", "Note", seeds[1], None, ParseNote, SetNote)]
  }

  /** runCalendarAdd's fields: the date seeded with today, the note empty. */
  function AddFields(today: Day): seq<Form.Field<Calendar>> {
    Fields([FormatDate(today), ""])
  }

  /** runCalendarEdit's fields: the stored date and note. */
  function EditFields(c: Calendar): seq<Form.Field<Calendar>> {
    Fields([FormatDate(c.date), c.note])
  }

  // ---------------------------------------------------------------- the fields' parsers

  /** Date: required; "" and every text that is not a calendar date in the layout fail. */
  lemma DateField(seeds: seq<string>, s: string)
    requires |seeds| == 2
    ensures var r := Form.Outcome(Fields(seeds)[0], s);
      (r.Success? <==> ParseDate(s).Success?) && (s == "" ==> r.Failure?)
      && (r.Success? ==> r.value == Time(ParseDate(s).value))
  {
  }

  /** Note: exactly "" is rejected, as "note cannot be blank". */
  lemma NoteField(seeds: seq<string>, s: string)
    requires |seeds| == 2
    ensures var r := Form.Outcome(Fields(seeds)[1], s);
      (r.Failure? <==> s == "") && (r.Failure? ==> r.error == Blank("note cannot be blank"))
      && (r.Success? ==> r.value == Str(s))
  {
  }

  /** The date seed of either wizard reads back as the date it was formatted from. */
  lemma DateSeedRoundTrip(d: Day)
    ensures Form.Outcome(Fields([FormatDate(d), ""])[0], FormatDate(d)) == Success(Time(d))
  {
    FormatDateRoundTrip(d);
  }

  // ---------------------------------------------------------------- the wizards

  /** Keeping today's date and typing a note stores an entry for today with that note. */
  lemma {:induction false} AddToday(today: Day, note: string)
    requires note != ""
    ensures var fs := AddFields(today);
      Form.Run(fs, Form.Init(fs, Empty), Form.Confirmations([FormatDate(today), note], 0)).holder
      == Calendar(None, today, note)
  {
    var fs := AddFields(today);
    var texts := [FormatDate(today), note];
    FormatDateRoundTrip(today);
    assert Form.AllAccepted(fs, texts);
    Form.WizardCompletes(fs, texts, Empty);
    Form.ApplyUnrolled2(fs, texts, Empty);
  }

  /** Confirming the edit wizard's seeds unchanged stores the record it was seeded from. */
  lemma {:induction false} EditKeeps(c: Calendar)
    requires c.note != ""
    ensures Form.Resubmit(EditFields(c), c) == c
  {
    var fs := EditFields(c);
    var texts := Form.Initials(fs);
    FormatDateRoundTrip(c.date);
    assert Form.AllAccepted(fs, texts);
    Form.WizardCompletes(fs, texts, c);
    Form.ApplyUnrolled2(fs, texts, c);
  }
}
