/**
 * The scalar kinds a form field converts between text and value: the
 * tagged value a Parse closure hands to its Assign closure, the errors it
 * can return, the parsers the entity forms use, and the text renderings the
 * display lines and the edit forms use for nullable columns.
 */
module Scalars {
  import opened Wrappers
  import opened StrConv
  import opened Dates

  /** Go's int64. */
  type I64 = n: int | InInt64(n)

  /** A time.Time the layout "2006-01-02" can print: a valid date of years 0000 to 9999. */
  type Day = d: Date | Valid(d) witness ZeroTime

  /** What a Parse closure returns as `any`: one tag per Go type the parsers produce. */
  datatype Value =
    | Int64(i: I64)                   // int64
    | Str(s: string)                  // string
    | NullString(os: Option<string>)  // null.String
    | NullInt64(oi: Option<I64>)      // null.Int64
    | Time(t: Day)                    // time.Time
    | NullTime(ot: Option<Day>)       // null.Time

  /** The errors a Parse closure returns. */
  datatype Error =
    | NumErr(num: NumError)                   // from strconv.ParseInt
    | DateErr(date: DateError)                // from time.Parse
    | Blank(msg: string)                      // fmt.Errorf("... cannot be blank")
    | Wrapped(context: string, cause: Error)  // fmt.Errorf("<context>: %w", cause)

  /** The text strconv.ParseInt accepts: an optionally signed numeral within int64. */
  predicate IsInt64Text(s: string) {
    WellFormedDecimal(s) && InInt64(SignedValue(s))
  }

  // ---------------------------------------------------------------- parsers

  /** A required string: only the empty text is rejected, with the given message. */
  function ParseNonBlank(blankMsg: string, s: string): (r: Result<Value, Error>)
    ensures r.Failure? <==> s == ""
    ensures r.Failure? ==> r.error == Blank(blankMsg)
    ensures r.Success? ==> r.value == Str(s)
  {
    if s == "" then Failure(Blank(blankMsg)) else Success(Str(s))
  }

  /** null.StringFrom(s): always present, the empty text as a present empty string. */
  function ParsePresentString(s: string): (r: Result<Value, Error>)
    ensures r.Success? && r.value.NullString? && r.value.os == Some(s)
  {
    Success(NullString(Some(s)))
  }

  /** strconv.ParseInt(s, 10, 64) with its error passed through unwrapped. */
  function ParseInt64(s: string): (r: Result<Value, Error>)
    ensures r.Success? <==> IsInt64Text(s)
    ensures r.Success? ==> r.value == Int64(SignedValue(s))
    ensures r.Failure? ==> r.error.NumErr? && r.error.num.num == s
  {
    match ParseInt(s)
    case Success(n) => Success(Int64(n))
    case Failure(e) => Failure(NumErr(e))
  }

  /** strconv.ParseInt with its error wrapped as "<context>: %w". */
  function ParseInt64Wrapped(context: string, s: string): (r: Result<Value, Error>)
    ensures r.Success? <==> IsInt64Text(s)
    ensures r.Success? ==> r.value == Int64(SignedValue(s))
    ensures r.Failure? ==> r.error.Wrapped? && r.error.context == context && r.error.cause.NumErr?
  {
    match ParseInt(s)
    case Success(n) => Success(Int64(n))
    case Failure(e) => Failure(Wrapped(context, NumErr(e)))
  }

  /** strconv.ParseInt then null.Int64From: nullable in type, but the empty text fails. */
  function ParseRequiredNullInt64(s: string): (r: Result<Value, Error>)
    ensures r.Success? <==> IsInt64Text(s)
    ensures r.Success? ==> r.value == NullInt64(Some(SignedValue(s)))
    ensures r.Failure? ==> r.error.NumErr?
  {
    match ParseInt(s)
    case Success(n) => Success(NullInt64(Some(n)))
    case Failure(e) => Failure(NumErr(e))
  }

  /** An optional int64: the empty text is the absent value, other text must parse. */
  function ParseOptInt64(context: string, s: string): (r: Result<Value, Error>)
    ensures s == "" ==> r == Success(NullInt64(None))
    ensures s != "" ==> (r.Success? <==> IsInt64Text(s))
    ensures s != "" && r.Success? ==> r.value == NullInt64(Some(SignedValue(s)))
    ensures r.Failure? ==> r.error.Wrapped? && r.error.context == context && r.error.cause.NumErr?
  {
    if s == "" then Success(NullInt64(None))
    else match ParseInt(s)
      case Success(n) => Success(NullInt64(Some(n)))
      case Failure(e) => Failure(Wrapped(context, NumErr(e)))
  }

  /** time.Parse("2006-01-02", s) as a plain time.Time. */
  function ParseTime(s: string): (r: Result<Value, Error>)
    ensures r.Success? <==> ParseDate(s).Success?
    ensures r.Success? ==> r.value.Time? && Valid(r.value.t) && FormatDate(r.value.t) == s
    ensures r.Failure? ==> r.error == DateErr(DateError(s))
  {
    match ParseDate(s)
    case Success(d) => Success(Time(d))
    case Failure(e) => Failure(DateErr(e))
  }

  /** time.Parse then null.TimeFrom: a required date held in a nullable column. */
  function ParseRequiredNullTime(s: string): (r: Result<Value, Error>)
    ensures r.Success? <==> ParseDate(s).Success?
    ensures r.Success? ==>
      r.value.NullTime? && r.value.ot.Some? && Valid(r.value.ot.value) && FormatDate(r.value.ot.value) == s
    ensures r.Failure? ==> r.error == DateErr(DateError(s))
  {
    match ParseDate(s)
    case Success(d) => Success(NullTime(Some(d)))
    case Failure(e) => Failure(DateErr(e))
  }

  /** An optional date: the empty text is the absent value, other text must be a date. */
  function ParseOptTime(s: string): (r: Result<Value, Error>)
    ensures s == "" ==> r == Success(NullTime(None))
    ensures s != "" ==> (r.Success? <==> ParseDate(s).Success?)
    ensures s != "" && r.Success? ==>
      r.value.NullTime? && r.value.ot.Some? && Valid(r.value.ot.value) && FormatDate(r.value.ot.value) == s
    ensures r.Failure? ==> r.error == DateErr(DateError(s))
  {
    if s == "" then Success(NullTime(None)) else ParseRequiredNullTime(s)
  }

  // ---------------------------------------------------------------- renderings

  /** null.String's .String: the text, or "" when absent. */
  function StringOrEmpty(o: Option<string>): (r: string)
    ensures o.Some? ==> r == o.value
    ensures o.None? ==> r == ""
  {
    o.GetOr("")
  }

  /** "%d" of null.Int64's .Int64: an absent value prints as 0. */
  function IntOrZero(o: Option<I64>): (r: string)
    ensures ParseInt(r) == Success(if o.Some? then o.value else 0)
  {
    FormatInt(o.GetOr(0))
  }

  /** The `if x.Valid { strconv.FormatInt(...) }` rendering: "" exactly when absent. */
  function IntOrEmpty(o: Option<I64>): (r: string)
    ensures r == "" <==> o.None?
    ensures o.Some? ==> ParseInt(r) == Success(o.value)
  {
    if o.Some? then FormatInt(o.value) else ""
  }

  /** null.Time formatted with "2006-01-02": an absent time is Go's zero time. */
  function TimeText(o: Option<Day>): (r: string)
    ensures ParseDate(r) == Success(o.GetOr(ZeroTime))
    ensures r != ""
  {
    FormatDateRoundTrip(o.GetOr(ZeroTime));
    FormatDate(o.GetOr(ZeroTime))
  }

  /** The seed of an optional date that the optional-date parser reads back: "" when absent. */
  function OptTimeText(o: Option<Day>): (r: string)
    ensures ParseOptTime(r) == Success(NullTime(o))
  {
    if o.Some? then
      FormatDateRoundTrip(o.value);
      FormatDate(o.value)
    else ""
  }

  // ---------------------------------------------------------------- round trips

  /** An optional int64 rendered as "" or decimal parses back to itself. */
  lemma OptInt64RoundTrip(context: string, o: Option<I64>)
    ensures ParseOptInt64(context, IntOrEmpty(o)) == Success(NullInt64(o))
  {
  }

  /** A null.String rendered with .String parses back to itself only when present: absent becomes present-but-empty. */
  lemma PresentStringRoundTrip(o: Option<string>)
    ensures ParsePresentString(StringOrEmpty(o)) == Success(NullString(Some(StringOrEmpty(o))))
    ensures ParsePresentString(StringOrEmpty(o)) == Success(NullString(o)) <==> o.Some?
  {
  }
}
