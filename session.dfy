/**
 * Practice sessions (cmd/cmdSession.go): the record, its display line, and
 * the five fields the add and edit wizards share.
 */
module Session {
  import opened Wrappers
  import opened StrConv
  import opened Dates
  import opened Scalars
  import Form
  import Crud
  import Table

  /** models.Session: duration and score are nullable, the date a nullable column the wizard always fills. */
  datatype Session = Session(id: Option<I64>, task: I64, date: Option<Day>, durationMins: Option<I64>,
                             scoreFeedback: Option<I64>, notes: Option<string>)

  /** The zero record the add wizard fills in. */
  const Empty: Session := Session(None, 0, None, None, None, None)

  /** Format: the id and "task=%d date=%s dur=%s score=%s notes=%s"; absent duration and score print as "". */
  function Format(s: Session): (int, string) {
    (s.id.GetOr(0),
     "task=" + FormatInt(s.task) + " date=" + TimeText(s.date) + " dur=" + IntOrEmpty(s.durationMins)
     + " score=" + IntOrEmpty(s.scoreFeedback) + " notes=" + StringOrEmpty(s.notes))
  }

  function Descriptor(): Crud.CrudModel<Session> {
    Crud.CrudModel("session", Some(Format), None, None, None)
  }

  /** The descriptor has no table, so `list` prints one "<id>\t<line>" line per record. */
  lemma ListsPlain(items: seq<Session>)
    ensures !Crud.TableMode(Descriptor())
    ensures Crud.ListOutput(Descriptor(), items) == Table.Join(Crud.PlainLines(Format, items))
  {
  }

  // ---------------------------------------------------------------- setters

  function SetTask(s: Session, v: Value): Session {
    if v.Int64? then s.(task := v.i) else s
  }

  function SetDate(s: Session, v: Value): Session {
    if v.NullTime? then s.(date := v.ot) else s
  }

  function SetDuration(s: Session, v: Value): Session {
    if v.NullInt64? then s.(durationMins := v.oi) else s
  }

  function SetScore(s: Session, v: Value): Session {
    if v.NullInt64? then s.(scoreFeedback := v.oi) else s
  }

  function SetNotes(s: Session, v: Value): Session {
    if v.NullString? then s.(notes := v.os) else s
  }

  /** The five fields, seeded with the given texts. */
  function Fields(seeds: seq<string>): (fs: seq<Form.Field<Session>>)
    requires |seeds| == 5
    ensures |fs| == 5
  {
    [Form.Field("", "Task ID", seeds[0], None, ParseInt64, SetTask),
     Form.Field("", "Session date (YYYY-MM-DD)", seeds[1], None, ParseRequiredNullTime, SetDate),
     Form.Field("", "Duration (minutes)", seeds[2], None, ParseRequiredNullInt64, SetDuration),
     Form.Field("", "Score (1\U{2013}5)", seeds[3], None, ParseRequiredNullInt64, SetScore),
     Form.Field("", "Notes (optional)", seeds[4], None, ParsePresentString, SetNotes)]
  }

  /** runSessionAdd's fields: the date seeded with today, the rest empty. */
  function AddFields(today: Day): seq<Form.Field<Session>> {
    Fields(["", FormatDate(today), "", "", ""])
  }

  /** runSessionEdit's fields: only the notes come from the record; the date is today again. */
  function EditFields(s: Session, today: Day): seq<Form.Field<Session>> {
    Fields(["", FormatDate(today), "", "", StringOrEmpty(s.notes)])
  }

  // ---------------------------------------------------------------- the fields' parsers

  /** Task ID: a plain int64 parse whose error is strconv's own, unwrapped. */
  lemma TaskField(seeds: seq<string>, s: string)
    requires |seeds| == 5
    ensures var r := Form.Outcome(Fields(seeds)[0], s);
      (r.Success? <==> IsInt64Text(s)) && (r.Success? ==> r.value == Int64(SignedValue(s)))
      && (r.Failure? ==> r.error == NumErr(ParseInt(s).error))
  {
  }

  /** Duration and Score: nullable in type, yet "" fails like any other non-numeral. */
  lemma CountFields(seeds: seq<string>, s: string)
    requires |seeds| == 5
    ensures var r := Form.Outcome(Fields(seeds)[2], s);
      (r.Success? <==> IsInt64Text(s)) && (r.Success? ==> r.value == NullInt64(Some(SignedValue(s))))
    ensures Form.Outcome(Fields(seeds)[3], s) == Form.Outcome(Fields(seeds)[2], s)
    ensures s == "" ==> Form.Outcome(Fields(seeds)[2], s).Failure?
  {
  }

  /** Notes: always accepted as a present string. */
  lemma NotesField(seeds: seq<string>, s: string)
    requires |seeds| == 5
    ensures Form.Outcome(Fields(seeds)[4], s) == Success(NullString(Some(s)))
  {
  }

  /**
   * The edit wizard does not start from the record: its Task, Duration and
   * Score seeds are rejected as they stand, its date seed is today whatever
   * the stored date, and only the notes seed reads back as the stored notes.
   */
  lemma EditSeeds(s: Session, today: Day)
    requires s.notes.Some?
    ensures var fs := EditFields(s, today);
      Form.Outcome(fs[0], fs[0].initial).Failure?
      && Form.Outcome(fs[2], fs[2].initial).Failure?
      && Form.Outcome(fs[3], fs[3].initial).Failure?
      && Form.Outcome(fs[1], fs[1].initial) == Success(NullTime(Some(today)))
      && Form.Outcome(fs[4], fs[4].initial) == Success(NullString(s.notes))
  {
    FormatDateRoundTrip(today);
  }

  // ---------------------------------------------------------------- the display line

  /** In the list an absent duration prints as "" and so reads differently from a duration of 0. */
  lemma AbsentDurationShown(s: Session)
    ensures |Format(s.(durationMins := None)).1| + 1 == |Format(s.(durationMins := Some(0))).1|
  {
    assert IntOrEmpty(Some(0)) == "0";
  }

  /** The same for the score. */
  lemma AbsentScoreShown(s: Session)
    ensures |Format(s.(scoreFeedback := None)).1| + 1 == |Format(s.(scoreFeedback := Some(0))).1|
  {
    assert IntOrEmpty(Some(0)) == "0";
  }

  // ---------------------------------------------------------------- the wizard

  /** What the add wizard stores: every column present, from the texts in field order. */
  lemma {:induction false} AddRecord(today: Day, texts: seq<string>)
    requires Form.AllAccepted(AddFields(today), texts)
    ensures var s := Form.Run(AddFields(today), Form.Init(AddFields(today), Empty), Form.Confirmations(texts, 0)).holder;
      s == Session(None, SignedValue(texts[0]), Some(ParseDate(texts[1]).value),
                   Some(SignedValue(texts[2])), Some(SignedValue(texts[3])), Some(texts[4]))
  {
    var fs := AddFields(today);
    var seeds := ["", FormatDate(today), "", "", ""];
    TaskField(seeds, texts[0]);
    CountFields(seeds, texts[2]);
    CountFields(seeds, texts[3]);
    Form.WizardCompletes(fs, texts, Empty);
    Form.ApplyUnrolled5(fs, texts, Empty);
  }
}
