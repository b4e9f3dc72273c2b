/**
 * The form wizard of cmd/utilCRUD.go: NewFormModel and FormModel.Update,
 * a state machine that walks an ordered list of fields one at a time. On
 * enter the focused field's text is validated, then parsed, then assigned
 * to the holder record; a rejection records the field's error and stays on
 * the field, an acceptance clears it and advances, and the last acceptance
 * quits the program.
 *
 * The text input widget is reduced to its current text: an Enter message
 * carries the text the user confirms, every other message is passed to the
 * widget and changes nothing the wizard reads.
 */
module Form {
  import opened Wrappers
  import opened Scalars

  /** A field of the wizard: its prompt, its seed text and its three steps. */
  datatype Field<!H> = Field(
    name: string,
    prompt: string,
    initial: string,
    validate: Option<string -> Option<Error>>,
    parse: string -> Result<Value, Error>,
    assign: (H, Value) -> H)

  /** The messages Update tells apart: a confirmed text, or anything else. */
  datatype Msg = Enter(text: string) | Other

  /** The commands Update returns: none, tea.Quit, or the text input's own command. */
  datatype Cmd = NoCmd | Quit | InputCmd

  /** What a field does with a confirmed text: validate first, then parse. */
  function Outcome<H>(f: Field<H>, text: string): (r: Result<Value, Error>)
    ensures f.validate.Some? && f.validate.value(text).Some? ==> r == Failure(f.validate.value(text).value)
    ensures f.validate.None? || f.validate.value(text).None? ==> r == f.parse(text)
  {
    if f.validate.Some? && f.validate.value(text).Some? then Failure(f.validate.value(text).value)
    else f.parse(text)
  }

  /** The wizard's state: per-field input text, focus and error, the current field and the holder. */
  datatype Wizard<H> = Wizard(inputs: seq<string>, focused: seq<bool>, errs: seq<Option<Error>>,
                              idx: nat, holder: H)

  /**
   * A well-formed state for these fields: one input, focus flag and error
   * per field, the index within bounds, the current field and every earlier
   * one focused (focus is set on arrival and never taken away) and every
   * later one not.
   */
  predicate WellFormed<H>(fields: seq<Field<H>>, w: Wizard<H>) {
    |w.inputs| == |fields| && |w.focused| == |fields| && |w.errs| == |fields|
    && w.idx <= |fields|
    && (forall k :: 0 <= k < |fields| ==> (w.focused[k] <==> k <= w.idx))
  }

  /** The state NewFormModel builds: inputs seeded, only field 0 focused, no errors, at field 0. */
  function Init<H>(fields: seq<Field<H>>, holder: H): (w: Wizard<H>)
    ensures WellFormed(fields, w)
  {
    Wizard(seq(|fields|, k requires 0 <= k < |fields| => fields[k].initial),
           seq(|fields|, k => k == 0),
           seq(|fields|, k => None),
           0, holder)
  }

  /** One call of Update on a state whose current field exists. */
  function Step<H>(fields: seq<Field<H>>, w: Wizard<H>, msg: Msg): (Wizard<H>, Cmd)
    requires WellFormed(fields, w) && w.idx < |fields|
  {
    match msg
    case Other => (w, InputCmd)
    case Enter(text) =>
      var i := w.idx;
      var w1 := w.(inputs := w.inputs[i := text]);
      match Outcome(fields[i], text)
      case Failure(e) => (w1.(errs := w.errs[i := Some(e)]), NoCmd)
      case Success(v) =>
        var w2 := w1.(holder := fields[i].assign(w.holder, v), errs := w.errs[i := None], idx := i + 1);
        if i + 1 >= |fields| then (w2, Quit)
        else (w2.(focused := w.focused[i + 1 := true]), NoCmd)
  }

  /** The states a program goes through on a run of messages, until Update returns Quit. */
  function Run<H>(fields: seq<Field<H>>, w: Wizard<H>, msgs: seq<Msg>): Wizard<H>
    requires WellFormed(fields, w)
    decreases |msgs|
  {
    if msgs == [] || w.idx == |fields| then w
    else
      StepWellFormed(fields, w, msgs[0]);
      Run(fields, Step(fields, w, msgs[0]).0, msgs[1..])
  }

  // ---------------------------------------------------------------- the model object

  /** FormModel: the fields with their inputs and errors, the current index and the holder. */
  class FormModel<H> {
    var fields: seq<Field<H>>
    var inputs: seq<string>
    var focused: seq<bool>
    var errs: seq<Option<Error>>
    var idx: nat
    var holder: H

    function State(): Wizard<H>
      reads this
    {
      Wizard(inputs, focused, errs, idx, holder)
    }

    ghost predicate Valid()
      reads this
    {
      WellFormed(fields, State())
    }

    /** NewFormModel: one input per field, seeded with its initial text; only the first is focused. */
    constructor (fs: seq<Field<H>>, h: H)
      ensures fields == fs && State() == Init(fs, h) && Valid()
    {
      var ins: seq<string> := [];
      var foc: seq<bool> := [];
      var i := 0;
      while i < |fs|
        invariant 0 <= i <= |fs|
        invariant ins == seq(i, k requires 0 <= k < i => fs[k].initial)
        invariant foc == seq(i, k => k == 0)
      {
        ins := ins + [fs[i].initial];
        foc := foc + [i == 0];
        i := i + 1;
      }
      fields := fs;
      inputs := ins;
      focused := foc;
      errs := seq(|fs|, k => None);
      idx := 0;
      holder := h;
    }

    /** Update: indexes the current field, so it needs one (Go panics past the last field). */
    method Update(msg: Msg) returns (cmd: Cmd)
      requires Valid() && idx < |fields|
      modifies this
      ensures fields == old(fields) && Valid()
      ensures (State(), cmd) == Step(fields, old(State()), msg)
    {
      if msg.Enter? {
        var raw := msg.text;
        inputs := inputs[idx := raw];
        var f := fields[idx];
        if f.validate.Some? {
          var err := f.validate.value(raw);
          if err.Some? {
            errs := errs[idx := err];
            return NoCmd;
          }
        }
        var parsed := f.parse(raw);
        if parsed.Failure? {
          errs := errs[idx := Some(parsed.error)];
          return NoCmd;
        }
        holder := f.assign(holder, parsed.value);
        errs := errs[idx := None];
        idx := idx + 1;
        if idx >= |fields| {
          return Quit;
        }
        focused := focused[idx := true];
        return NoCmd;
      }
      return InputCmd;
    }
  }

  /** RunFormWizard: the program feeds the messages to Update until it quits; the holder is what is left. */
  method RunFormWizard<H>(fields: seq<Field<H>>, holder: H, msgs: seq<Msg>) returns (h: H)
    ensures h == Run(fields, Init(fields, holder), msgs).holder
  {
    var m := new FormModel(fields, holder);
    var i := 0;
    while i < |msgs| && m.idx < |m.fields|
      invariant 0 <= i <= |msgs|
      invariant m.fields == fields && m.Valid()
      invariant Run(fields, Init(fields, holder), msgs) == Run(fields, m.State(), msgs[i..])
    {
      assert msgs[i..][1..] == msgs[i + 1..];
      var _ := m.Update(msgs[i]);
      i := i + 1;
    }
    h := m.holder;
  }

  /**
   * RunFormWizardWithSubmit: the holder goes to the submit step whether or
   * not every field was confirmed; a submit error aborts.
   */
  method RunFormWizardWithSubmit<H>(fields: seq<Field<H>>, holder: H, msgs: seq<Msg>,
                                    onSubmit: H -> Option<string>)
    returns (r: Result<H, string>)
    ensures var h := Run(fields, Init(fields, holder), msgs).holder;
      r == if onSubmit(h).Some? then Failure("submit failed: " + onSubmit(h).value) else Success(h)
  {
    var h := RunFormWizard(fields, holder, msgs);
    var err := onSubmit(h);
    if err.Some? {
      return Failure("submit failed: " + err.value);
    }
    return Success(h);
  }

  // ---------------------------------------------------------------- properties

  /** Update keeps the state well formed: the index stays in bounds and the current field focused. */
  lemma StepWellFormed<H>(fields: seq<Field<H>>, w: Wizard<H>, msg: Msg)
    requires WellFormed(fields, w) && w.idx < |fields|
    ensures WellFormed(fields, Step(fields, w, msg).0)
  {
  }

  /**
   * Enter on a text the field rejects (by validation or by parsing): the
   * index and holder stay, the error is recorded, no command.
   */
  lemma EnterRejected<H>(fields: seq<Field<H>>, w: Wizard<H>, text: string)
    requires WellFormed(fields, w) && w.idx < |fields|
    requires Outcome(fields[w.idx], text).Failure?
    ensures var (w', cmd) := Step(fields, w, Enter(text));
      w'.idx == w.idx && w'.holder == w.holder && cmd == NoCmd
      && w'.errs == w.errs[w.idx := Some(Outcome(fields[w.idx], text).error)]
  {
  }

  /**
   * Enter on a text the field accepts: the holder is assigned once with the
   * parsed value, the error cleared and the index advanced; Quit exactly
   * when that was the last field.
   */
  lemma EnterAccepted<H>(fields: seq<Field<H>>, w: Wizard<H>, text: string)
    requires WellFormed(fields, w) && w.idx < |fields|
    requires Outcome(fields[w.idx], text).Success?
    ensures var (w', cmd) := Step(fields, w, Enter(text));
      w'.idx == w.idx + 1
      && w'.holder == fields[w.idx].assign(w.holder, Outcome(fields[w.idx], text).value)
      && w'.errs == w.errs[w.idx := None]
      && (cmd == Quit <==> w.idx + 1 == |fields|)
  {
  }

  /** A message other than enter changes nothing the wizard keeps. */
  lemma OtherKeepsState<H>(fields: seq<Field<H>>, w: Wizard<H>)
    requires WellFormed(fields, w) && w.idx < |fields|
    ensures Step(fields, w, Other) == (w, InputCmd)
  {
  }

  /** Update quits exactly when an accepted enter confirms the last field. */
  lemma QuitOnlyAtEnd<H>(fields: seq<Field<H>>, w: Wizard<H>, msg: Msg)
    requires WellFormed(fields, w) && w.idx < |fields|
    ensures Step(fields, w, msg).1 == Quit <==> Step(fields, w, msg).0.idx == |fields|
    ensures Step(fields, w, msg).0.idx == w.idx || Step(fields, w, msg).0.idx == w.idx + 1
  {
  }

  /** Every confirmed text is accepted by its field. */
  predicate AllAccepted<H>(fields: seq<Field<H>>, texts: seq<string>) {
    |texts| == |fields| && forall k :: 0 <= k < |fields| ==> Outcome(fields[k], texts[k]).Success?
  }

  /** The holder after fields k.. assign the parsed texts, in field order. */
  function Apply<H>(fields: seq<Field<H>>, texts: seq<string>, k: nat, h: H): H
    requires AllAccepted(fields, texts) && k <= |fields|
    decreases |fields| - k
  {
    if k == |fields| then h
    else Apply(fields, texts, k + 1, fields[k].assign(h, Outcome(fields[k], texts[k]).value))
  }

  /** The assignments of a completed two-field wizard, in field order. */
  lemma ApplyUnrolled2<H>(fs: seq<Field<H>>, texts: seq<string>, h: H)
    requires |fs| == 2 && AllAccepted(fs, texts)
    ensures Apply(fs, texts, 0, h)
         == fs[1].assign(fs[0].assign(h, Outcome(fs[0], texts[0]).value), Outcome(fs[1], texts[1]).value)
  {
    var h1 := fs[0].assign(h, Outcome(fs[0], texts[0]).value);
    var h2 := fs[1].assign(h1, Outcome(fs[1], texts[1]).value);
    assert Apply(fs, texts, 2, h2) == h2;
    assert Apply(fs, texts, 1, h1) == h2;
  }

  /** The assignments of a completed three-field wizard, in field order. */
  lemma ApplyUnrolled3<H>(fs: seq<Field<H>>, texts: seq<string>, h: H)
    requires |fs| == 3 && AllAccepted(fs, texts)
    ensures Apply(fs, texts, 0, h)
         == fs[2].assign(fs[1].assign(fs[0].assign(h,
              Outcome(fs[0], texts[0]).value), Outcome(fs[1], texts[1]).value),
              Outcome(fs[2], texts[2]).value)
  {
    var h1 := fs[0].assign(h, Outcome(fs[0], texts[0]).value);
    var h2 := fs[1].assign(h1, Outcome(fs[1], texts[1]).value);
    var h3 := fs[2].assign(h2, Outcome(fs[2], texts[2]).value);
    assert Apply(fs, texts, 3, h3) == h3;
    assert Apply(fs, texts, 2, h2) == h3;
    assert Apply(fs, texts, 1, h1) == h3;
  }

  /** The assignments of a completed five-field wizard, in field order. */
  lemma ApplyUnrolled5<H>(fs: seq<Field<H>>, texts: seq<string>, h: H)
    requires |fs| == 5 && AllAccepted(fs, texts)
    ensures Apply(fs, texts, 0, h)
         == fs[4].assign(fs[3].assign(fs[2].assign(fs[1].assign(fs[0].assign(h,
              Outcome(fs[0], texts[0]).value), Outcome(fs[1], texts[1]).value),
              Outcome(fs[2], texts[2]).value), Outcome(fs[3], texts[3]).value),
              Outcome(fs[4], texts[4]).value)
  {
    var h1 := fs[0].assign(h, Outcome(fs[0], texts[0]).value);
    var h2 := fs[1].assign(h1, Outcome(fs[1], texts[1]).value);
    var h3 := fs[2].assign(h2, Outcome(fs[2], texts[2]).value);
    var h4 := fs[3].assign(h3, Outcome(fs[3], texts[3]).value);
    var h5 := fs[4].assign(h4, Outcome(fs[4], texts[4]).value);
    assert Apply(fs, texts, 5, h5) == h5;
    assert Apply(fs, texts, 4, h4) == h5;
    assert Apply(fs, texts, 3, h3) == h5;
    assert Apply(fs, texts, 2, h2) == h5;
    assert Apply(fs, texts, 1, h1) == h5;
  }

  /** The messages that confirm texts k.. in turn. */
  function Confirmations(texts: seq<string>, k: nat): (msgs: seq<Msg>)
    requires k <= |texts|
    ensures |msgs| == |texts| - k
    decreases |texts| - k
  {
    if k == |texts| then [] else [Enter(texts[k])] + Confirmations(texts, k + 1)
  }

  /** The seed texts of the fields, in field order. */
  function Initials<H>(fields: seq<Field<H>>): seq<string> {
    seq(|fields|, k requires 0 <= k < |fields| => fields[k].initial)
  }

  /** The holder after the user confirms every seeded text unchanged. */
  function Resubmit<H>(fields: seq<Field<H>>, holder: H): H {
    Run(fields, Init(fields, holder), Confirmations(Initials(fields), 0)).holder
  }

  lemma {:induction false} RunFrom<H>(fields: seq<Field<H>>, texts: seq<string>, w: Wizard<H>)
    requires AllAccepted(fields, texts) && WellFormed(fields, w)
    ensures Run(fields, w, Confirmations(texts, w.idx)).idx == |fields|
    ensures Run(fields, w, Confirmations(texts, w.idx)).holder == Apply(fields, texts, w.idx, w.holder)
    decreases |fields| - w.idx
  {
    if w.idx < |fields| {
      var msgs := Confirmations(texts, w.idx);
      EnterAccepted(fields, w, texts[w.idx]);
      StepWellFormed(fields, w, msgs[0]);
      var w' := Step(fields, w, msgs[0]).0;
      assert msgs[1..] == Confirmations(texts, w'.idx);
      RunFrom(fields, texts, w');
    }
  }

  /**
   * Confirming an accepted text for every field, in order, completes the
   * wizard, and the holder has had every field's value assigned once, in
   * field order.
   */
  lemma WizardCompletes<H>(fields: seq<Field<H>>, texts: seq<string>, holder: H)
    requires AllAccepted(fields, texts)
    ensures Run(fields, Init(fields, holder), Confirmations(texts, 0)).idx == |fields|
    ensures Run(fields, Init(fields, holder), Confirmations(texts, 0)).holder == Apply(fields, texts, 0, holder)
  {
    RunFrom(fields, texts, Init(fields, holder));
  }

  /** A rejected confirmation can be followed by a retry: it leaves the run from there unchanged. */
  lemma {:induction false} RejectionIsRetried<H>(fields: seq<Field<H>>, w: Wizard<H>, text: string, rest: seq<Msg>)
    requires WellFormed(fields, w) && w.idx < |fields|
    requires Outcome(fields[w.idx], text).Failure?
    ensures Run(fields, w, [Enter(text)] + rest).holder == Run(fields, w.(inputs := w.inputs[w.idx := text], errs := w.errs[w.idx := Some(Outcome(fields[w.idx], text).error)]), rest).holder
    ensures Run(fields, w, [Enter(text)] + rest).idx == Run(fields, w.(inputs := w.inputs[w.idx := text], errs := w.errs[w.idx := Some(Outcome(fields[w.idx], text).error)]), rest).idx
  {
    assert ([Enter(text)] + rest)[1..] == rest;
    EnterRejected(fields, w, text);
  }
}
