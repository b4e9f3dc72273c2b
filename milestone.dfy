/**
 * Milestones (cmd/cmdMilestone.go): the record, its display line, and the
 * five fields the add and edit wizards share, which differ only in their
 * seed texts.
 */
module Milestone {
  import opened Wrappers
  import opened StrConv
  import opened Dates
  import opened Scalars
  import Form
  import Crud
  import Table

  /** models.Milestone; `kind` is the Type column. */
  datatype Milestone = Milestone(
    id: Option<I64>,
    task: I64,
    kind: Option<string>,
    value: Option<I64>,
    achieved: Option<Day>,
    message: Option<string>)

  /** The zero record the add wizard fills in. */
  const Empty: Milestone := Milestone(None, 0, None, None, None, None)

  /** Format: the id and "task=%d type=%s value=%d achieved=%s msg=%s". */
  function Format(m: Milestone): (int, string) {
    (m.id.GetOr(0),
     "task=" + FormatInt(m.task) + " type=" + StringOrEmpty(m.kind) + " value=" + IntOrZero(m.value)
     + " achieved=" + TimeText(m.achieved) + " msg=" + StringOrEmpty(m.message))
  }

  function Descriptor(): Crud.CrudModel<Milestone> {
    Crud.CrudModel("milestone", Some(Format), None, None, None)
  }

  /** The descriptor has no table, so `list` prints one "<id>\t<line>" line per record. */
  lemma ListsPlain(items: seq<Milestone>)
    ensures !Crud.TableMode(Descriptor())
    ensures Crud.ListOutput(Descriptor(), items) == Table.Join(Crud.PlainLines(Format, items))
  {
  }

  // ---------------------------------------------------------------- parsers and setters

  function ParseTask(s: string): Result<Value, Error> {
    ParseInt64Wrapped("invalid task ID", s)
  }

  function ParseValue(s: string): Result<Value, Error> {
    ParseOptInt64("invalid value", s)
  }

  /** The Assign closures: each sets one column from the value its field's parser produces. */
  function SetTask(m: Milestone, v: Value): Milestone {
    if v.Int64? then m.(task := v.i) else m
  }

  function SetKind(m: Milestone, v: Value): Milestone {
    if v.NullString? then m.(kind := v.os) else m
  }

  function SetValue(m: Milestone, v: Value): Milestone {
    if v.NullInt64? then m.(value := v.oi) else m
  }

  function SetAchieved(m: Milestone, v: Value): Milestone {
    if v.NullTime? then m.(achieved := v.ot) else m
  }

  function SetMessage(m: Milestone, v: Value): Milestone {
    if v.NullString? then m.(message := v.os) else m
  }

  /** The five fields, seeded with the given texts. */
  function Fields(seeds: seq<string>): (fs: seq<Form.Field<Milestone>>)
    requires |seeds| == 5
    ensures |fs| == 5
  {
    [Form.Field("", "Task ID", seeds[0], None, ParseTask, SetTask),
     Form.Field("", "Type (optional)", seeds[1], None, ParsePresentString, SetKind),
     Form.Field("", "Value (optional)", seeds[2], None, ParseValue, SetValue),
     Form.Field("", "Achieved date (YYYY-MM-DD, optional)", seeds[3], None, ParseOptTime, SetAchieved),
     Form.Field("", "Message (optional)", seeds[4], None, ParsePresentString, SetMessage)]
  }

  /** runMilestoneAdd's fields: all seeds empty. */
  function AddFields(): seq<Form.Field<Milestone>> {
    Fields(["", "", "", "", ""])
  }

  /** runMilestoneEdit's fields, as written: an absent achieved date is seeded as Go's zero time. */
  function EditFields(m: Milestone): seq<Form.Field<Milestone>> {
    Fields([FormatInt(m.task), StringOrEmpty(m.kind), IntOrEmpty(m.value), TimeText(m.achieved), StringOrEmpty(m.message)])
  }

  /** runMilestoneEdit's fields with the achieved date seeded as the Value column is: "" when absent. */
  function EditFieldsCorrected(m: Milestone): seq<Form.Field<Milestone>> {
    Fields([FormatInt(m.task), StringOrEmpty(m.kind), IntOrEmpty(m.value), OptTimeText(m.achieved), StringOrEmpty(m.message)])
  }

  // ---------------------------------------------------------------- the fields' parsers

  /** Task ID: an int64 numeral; anything else fails wrapped as "invalid task ID". */
  lemma TaskField(seeds: seq<string>, s: string)
    requires |seeds| == 5
    ensures var r := Form.Outcome(Fields(seeds)[0], s);
      (r.Success? <==> IsInt64Text(s))
      && (r.Success? ==> r.value == Int64(SignedValue(s)))
      && (r.Failure? ==> r.error.Wrapped? && r.error.context == "invalid task ID")
  {
  }

  /** Type and Message: always accepted, as a present string (present but empty for ""). */
  lemma TextFields(seeds: seq<string>, s: string)
    requires |seeds| == 5
    ensures Form.Outcome(Fields(seeds)[1], s) == Success(NullString(Some(s)))
    ensures Form.Outcome(Fields(seeds)[4], s) == Success(NullString(Some(s)))
  {
  }

  /** Value: "" is absent; other text is an int64 numeral or fails wrapped as "invalid value". */
  lemma ValueField(seeds: seq<string>, s: string)
    requires |seeds| == 5
    ensures var r := Form.Outcome(Fields(seeds)[2], s);
      (s == "" ==> r == Success(NullInt64(None)))
      && (s != "" ==> (r.Success? <==> IsInt64Text(s)))
      && (s != "" && r.Success? ==> r.value == NullInt64(Some(SignedValue(s))))
      && (r.Failure? ==> r.error.Wrapped? && r.error.context == "invalid value")
  {
  }

  /** Achieved: "" is absent; other text must be a calendar date in the layout. */
  lemma AchievedField(seeds: seq<string>, s: string)
    requires |seeds| == 5
    ensures var r := Form.Outcome(Fields(seeds)[3], s);
      (s == "" ==> r == Success(NullTime(None)))
      && (s != "" ==> (r.Success? <==> ParseDate(s).Success?))
      && (s != "" && r.Success? ==> r.value == NullTime(Some(ParseDate(s).value)))
  {
  }

  // ---------------------------------------------------------------- the wizards

  /** What the add wizard stores when every field accepts its text. */
  lemma {:induction false} AddRecord(texts: seq<string>)
    requires Form.AllAccepted(AddFields(), texts)
    ensures var m := Form.Run(AddFields(), Form.Init(AddFields(), Empty), Form.Confirmations(texts, 0)).holder;
      m.id == None && m.task == SignedValue(texts[0]) && m.kind == Some(texts[1])
      && m.value == (if texts[2] == "" then None else Some(SignedValue(texts[2])))
      && m.achieved == (if texts[3] == "" then None else Some(ParseDate(texts[3]).value))
      && m.message == Some(texts[4])
  {
    var fs := AddFields();
    Form.WizardCompletes(fs, texts, Empty);
    TaskField(["", "", "", "", ""], texts[0]);
    TextFields(["", "", "", "", ""], texts[1]);
    ValueField(["", "", "", "", ""], texts[2]);
    AchievedField(["", "", "", "", ""], texts[3]);
    TextFields(["", "", "", "", ""], texts[4]);
    Form.ApplyUnrolled5(fs, texts, Empty);
  }

  /**
   * Confirming every seed of the corrected edit wizard unchanged stores the
   * record it was seeded from, except that an absent Type or Message comes
   * back present and empty: its seed is "" and "" parses as a present string.
   */
  lemma {:induction false} EditCorrectedResubmit(m: Milestone)
    ensures Form.Resubmit(EditFieldsCorrected(m), m)
         == m.(kind := Some(StringOrEmpty(m.kind)), message := Some(StringOrEmpty(m.message)))
  {
    var fs := EditFieldsCorrected(m);
    var texts := Form.Initials(fs);
    TaskField(texts, texts[0]);
    TextFields(texts, texts[1]);
    OptInt64RoundTrip("invalid value", m.value);
    TextFields(texts, texts[4]);
    assert Form.AllAccepted(fs, texts);
    Form.WizardCompletes(fs, texts, m);
    Form.ApplyUnrolled5(fs, texts, m);
  }

  /**
   * So the corrected edit wizard keeps every record whose Type and Message
   * are present, as they are in every record the add wizard stores.
   */
  lemma EditCorrectedKeeps(m: Milestone)
    requires m.kind.Some? && m.message.Some?
    ensures Form.Resubmit(EditFieldsCorrected(m), m) == m
  {
    EditCorrectedResubmit(m);
  }

  /** As written, the edit wizard keeps a record whose achieved date is present. */
  lemma {:induction false} EditKeepsDatedRecord(m: Milestone)
    requires m.kind.Some? && m.message.Some? && m.achieved.Some?
    ensures Form.Resubmit(EditFields(m), m) == m
  {
    assert EditFields(m) == EditFieldsCorrected(m);
    EditCorrectedKeeps(m);
  }

  /**
   * As written, confirming the seeds of a record with no achieved date
   * stores the date 0001-01-01 in its place.
   */
  lemma {:induction false} EditInventsAchievedDate(m: Milestone)
    requires m.kind.Some? && m.message.Some? && m.achieved.None?
    ensures Form.Resubmit(EditFields(m), m) == m.(achieved := Some(ZeroTime))
  {
    var fs := EditFields(m);
    var texts := Form.Initials(fs);
    TaskField(texts, texts[0]);
    TextFields(texts, texts[1]);
    OptInt64RoundTrip("invalid value", m.value);
    FormatDateRoundTrip(ZeroTime);
    TextFields(texts, texts[4]);
    assert Form.AllAccepted(fs, texts);
    Form.WizardCompletes(fs, texts, m);
    Form.ApplyUnrolled5(fs, texts, m);
  }

  /** The Value seed reads back as the stored value, absent included. */
  lemma ValueSeedRoundTrip(m: Milestone)
    ensures Form.Outcome(EditFields(m)[2], EditFields(m)[2].initial) == Success(NullInt64(m.value))
  {
    OptInt64RoundTrip("invalid value", m.value);
  }

  /** In the list, an absent Value reads exactly like the value 0. */
  lemma AbsentValueShowsZero(m: Milestone)
    ensures Format(m.(value := None)) == Format(m.(value := Some(0)))
  {
  }
}
