/**
 * The older registrar and wizard of cmd/crud.go, which redeclare the names of
 * cmd/utilCRUD.go: handle hooks around every subcommand, a one-line `list`, a
 * single-id `rm` with bare-id completion, and a wizard without a validate
 * step that records no error.
 */
module Legacy {
  import opened Wrappers
  import opened Text
  import opened StrConv
  import Scalars
  import Completion
  import Crud
  import Form

  // ---------------------------------------------------------------- handle hooks

  /** The process-wide database handle: open or nil, and how many times it was closed. */
  class Handle {
    var open: bool
    var closes: nat

    constructor ()
      ensures !open && closes == 0
    {
      open := false;
      closes := 0;
    }

    /**
     * PersistentPreRun: an InitDB error aborts with "init DB: <err>"; the
     * handle InitDB returns is dropped, so this hook leaves the handle as it was.
     */
    method PreRun(initErr: Option<string>) returns (failure: Option<string>)
      ensures failure == if initErr.Some? then Some("init DB: " + initErr.value) else None
    {
      if initErr.Some? {
        return Some("init DB: " + initErr.value);
      }
      return None;
    }

    /** PersistentPostRun: close and forget the handle, if there is one. */
    method PostRun()
      modifies this
      ensures (open, closes) == AfterPostRun(old(open), old(closes))
    {
      if open {
        closes := closes + 1;
        open := false;
      }
    }
  }

  /** The handle state after the post-run hook. */
  function AfterPostRun(open: bool, closes: nat): (bool, nat) {
    if open then (false, closes + 1) else (false, closes)
  }

  /** The post-run hook leaves no handle, closes at most once, and a second run changes nothing. */
  lemma PostRunIdempotent(open: bool, closes: nat)
    ensures !AfterPostRun(open, closes).0
    ensures AfterPostRun(open, closes).1 == if open then closes + 1 else closes
    ensures var (o, c) := AfterPostRun(open, closes); AfterPostRun(o, c) == (o, c)
  {
  }

  // ---------------------------------------------------------------- list and rm

  /** The older CrudModel: a name and a formatter besides the list and remove functions. */
  datatype CrudModel<!T> = CrudModel(singular: string, format: T -> (int, string))

  /** The older `list`: the one-line format only. */
  method ListCmd<T(==)>(desc: CrudModel<T>, store: Crud.Store<T>, listErr: Option<string>)
    returns (out: string, failure: Option<string>)
    ensures listErr.Some? ==> out == "" && failure == Some("list " + desc.singular + ": " + listErr.value)
    ensures listErr.None? ==> failure.None? && out == Crud.ListOutput(Crud.CrudModel(desc.singular, Some(desc.format), None, None, None), Crud.Records(store.rows))
  {
    if listErr.Some? {
      return "", Some("list " + desc.singular + ": " + listErr.value);
    }
    var items := store.List();
    out := Crud.ListPlain(desc.format, items);
    failure := None;
  }

  /** The line the older rm prints. */
  function RemovedLine(singular: string, id: int): string {
    "\U{1F5D1}\U{FE0F}  Removed " + singular + " " + FormatInt(id) + "\n"
  }

  /** Cobra's ExactArgs(1) message, given before Run. */
  function ArgCountError(n: nat): string {
    "accepts 1 arg(s), received " + FormatInt(n)
  }

  /**
   * The older `rm [id]`: exactly one argument, and then what the registrar's
   * rm does with a one-argument list, up to the printed text.
   */
  method RmCmd<T(==)>(singular: string, store: Crud.Store<T>, args: seq<string>)
    returns (printed: seq<string>, failure: Option<string>)
    requires store.Valid()
    modifies store
    ensures store.Valid()
    ensures |args| != 1 ==> printed == [] && failure == Some(ArgCountError(|args|)) && store.rows == old(store.rows)
    ensures |args| == 1 ==>
      var o := Crud.RmRun(singular, old(store.rows), args);
      store.rows == o.rows && failure == o.failure
      && printed == seq(|o.removed|, k requires 0 <= k < |o.removed| => RemovedLine(singular, o.removed[k]))
  {
    if |args| != 1 {
      return [], Some(ArgCountError(|args|));
    }
    assert args[1..] == [];
    var parsed := ParseInt(args[0]);
    if parsed.Failure? {
      return [], Some("invalid id: " + NumErrorText(parsed.error));
    }
    var raw := parsed.value;
    ghost var before := store.rows;
    var err := store.Remove(raw);
    if err.Some? {
      Crud.WithoutNotIn(before, raw);
      return [], Some("rm " + singular + ": " + err.value);
    }
    return [RemovedLine(singular, raw)], None;
  }

  // ---------------------------------------------------------------- completion

  /** A record is offered when the raw partial text is empty or prefixes its id. */
  function PrefixBy<T>(format: T -> (int, string), partial: string): T -> bool {
    it => partial == "" || HasPrefix(Completion.IdText(format, it), partial)
  }

  function IdBy<T>(format: T -> (int, string)): T -> string {
    it => Completion.IdText(format, it)
  }

  /** The older completion's suggestions: bare ids, filtered by the untrimmed partial text only. */
  function BareIds<T>(items: seq<T>, format: T -> (int, string), partial: string): seq<string> {
    Completion.FilterMap(items, PrefixBy(format, partial), IdBy(format))
  }

  /** The older ValidArgsFunction: a failing list is a completion error. */
  method RmCompletion<T>(listed: Result<seq<T>, string>, format: T -> (int, string), toComplete: string)
    returns (comps: seq<string>, directive: Completion.Directive)
    ensures listed.Failure? ==> comps == [] && directive == Completion.DirectiveError
    ensures listed.Success? ==> comps == BareIds(listed.value, format, toComplete) && directive == Completion.NoFileComp
  {
    if listed.Failure? {
      return [], Completion.DirectiveError;
    }
    var items := listed.value;
    comps := [];
    var i := 0;
    ghost var keep := PrefixBy(format, toComplete);
    ghost var entry := IdBy(format);
    while i < |items|
      invariant 0 <= i <= |items|
      invariant comps == Completion.FilterMap(items[..i], keep, entry)
    {
      Completion.FilterMapSnoc(items, i, keep, entry);
      var p := format(items[i]);
      var s := FormatInt(p.0);
      if toComplete == "" || HasPrefix(s, toComplete) {
        comps := comps + [s];
      }
      i := i + 1;
    }
    assert items[..i] == items;
    directive := Completion.NoFileComp;
  }

  /** The ids before the tabs of a list of suggestions. */
  function IdsOfEntries(es: seq<string>): seq<string> {
    seq(|es|, k requires 0 <= k < |es| => Completion.BeforeTab(es[k]))
  }

  /**
   * For the same partial text the older completion offers the same ids, in
   * the same order, as the registrar's completion excluding nothing, without
   * the hints; the registrar trims the partial text first, the older one does not.
   */
  lemma {:induction false} BareIdsAgree<T>(items: seq<T>, format: T -> (int, string), partial: string,
                                           hintFn: Option<T -> string>)
    ensures BareIds(items, format, partial) == IdsOfEntries(Completion.Completions(items, format, partial, {}, hintFn))
  {
    if items != [] {
      var n := |items| - 1;
      BareIdsAgree(items[..n], format, partial, hintFn);
      var before := Completion.Completions(items[..n], format, partial, {}, hintFn);
      var tail := OneCompletion(items[n], format, partial, hintFn);
      assert Completion.Completions(items, format, partial, {}, hintFn) == before + tail;
      IdsOfEntriesAppend(before, tail);
    }
  }

  /** The registrar's suggestions for one record, and their ids. */
  function OneCompletion<T>(it: T, format: T -> (int, string), partial: string, hintFn: Option<T -> string>): (r: seq<string>)
    ensures IdsOfEntries(r) == (if PrefixBy(format, partial)(it) then [IdBy(format)(it)] else [])
  {
    if Completion.Offered(format, partial, {}, it) then
      FormatIntChars(format(it).0);
      Completion.BeforeTabOfEntry(Completion.IdText(format, it), Completion.Hint(format, hintFn, it));
      [Completion.Entry(format, hintFn, it)]
    else []
  }

  lemma IdsOfEntriesAppend(a: seq<string>, b: seq<string>)
    ensures IdsOfEntries(a + b) == IdsOfEntries(a) + IdsOfEntries(b)
  {
  }

  // ---------------------------------------------------------------- wizard

  /** The older Field: no validate step. */
  datatype Field<!H> = Field(
    name: string,
    prompt: string,
    initial: string,
    parse: string -> Result<Scalars.Value, Scalars.Error>,
    assign: (H, Scalars.Value) -> H)

  /** The older wizard state: no per-field error. */
  datatype Wizard<H> = Wizard(inputs: seq<string>, focused: seq<bool>, idx: nat, holder: H)

  predicate WellFormed<H>(fields: seq<Field<H>>, w: Wizard<H>) {
    |w.inputs| == |fields| && |w.focused| == |fields| && w.idx <= |fields|
    && (forall k :: 0 <= k < |fields| ==> (w.focused[k] <==> k <= w.idx))
  }

  /** NewFormModel: inputs seeded with the initial texts, only field 0 focused, at field 0. */
  function Init<H>(fields: seq<Field<H>>, holder: H): (w: Wizard<H>)
    ensures WellFormed(fields, w)
  {
    Wizard(seq(|fields|, k requires 0 <= k < |fields| => fields[k].initial), seq(|fields|, k => k == 0), 0, holder)
  }

  /** One call of the older Update. */
  function Step<H>(fields: seq<Field<H>>, w: Wizard<H>, msg: Form.Msg): (Wizard<H>, Form.Cmd)
    requires WellFormed(fields, w) && w.idx < |fields|
  {
    match msg
    case Other => (w, Form.InputCmd)
    case Enter(text) =>
      var i := w.idx;
      var w1 := w.(inputs := w.inputs[i := text]);
      match fields[i].parse(text)
      case Failure(_) => (w1, Form.NoCmd)
      case Success(v) =>
        var w2 := w1.(holder := fields[i].assign(w.holder, v), idx := i + 1);
        if i + 1 >= |fields| then (w2, Form.Quit)
        else (w2.(focused := w.focused[i + 1 := true]), Form.NoCmd)
  }

  /** The older FormModel. */
  class FormModel<H> {
    var fields: seq<Field<H>>
    var inputs: seq<string>
    var focused: seq<bool>
    var idx: nat
    var holder: H

    function State(): Wizard<H>
      reads this
    {
      Wizard(inputs, focused, idx, holder)
    }

    ghost predicate Valid()
      reads this
    {
      WellFormed(fields, State())
    }

    constructor (fs: seq<Field<H>>, h: H)
      ensures fields == fs && State() == Init(fs, h) && Valid()
    {
      var ins: seq<string> := [];
      var foc: seq<bool> := [];
      var i := 0;
      while i < |fs|
        invariant 0 <= i <= |fs|
        invariant ins == seq(i, k requires 0 <= k < i => fs[k].initial)
        invariant foc == seq(i, k => k == 0)
      {
        ins := ins + [fs[i].initial];
        foc := foc + [i == 0];
        i := i + 1;
      }
      fields := fs;
      inputs := ins;
      focused := foc;
      idx := 0;
      holder := h;
    }

    method Update(msg: Form.Msg) returns (cmd: Form.Cmd)
      requires Valid() && idx < |fields|
      modifies this
      ensures fields == old(fields) && Valid()
      ensures (State(), cmd) == Step(fields, old(State()), msg)
    {
      if msg.Enter? {
        var raw := msg.text;
        inputs := inputs[idx := raw];
        var f := fields[idx];
        var val := f.parse(raw);
        if val.Failure? {
          return Form.NoCmd;
        }
        holder := f.assign(holder, val.value);
        idx := idx + 1;
        if idx >= |fields| {
          return Form.Quit;
        }
        focused := focused[idx := true];
        return Form.NoCmd;
      }
      return Form.InputCmd;
    }
  }

  lemma StepWellFormed<H>(fields: seq<Field<H>>, w: Wizard<H>, msg: Form.Msg)
    requires WellFormed(fields, w) && w.idx < |fields|
    ensures WellFormed(fields, Step(fields, w, msg).0)
  {
  }

  /** The states the older program goes through on a run of messages, until Update returns Quit. */
  function Run<H>(fields: seq<Field<H>>, w: Wizard<H>, msgs: seq<Form.Msg>): Wizard<H>
    requires WellFormed(fields, w)
    decreases |msgs|
  {
    if msgs == [] || w.idx == |fields| then w
    else
      StepWellFormed(fields, w, msgs[0]);
      Run(fields, Step(fields, w, msgs[0]).0, msgs[1..])
  }

  /** The older RunFormWizard: the holder left when the program stops. */
  method RunFormWizard<H>(fields: seq<Field<H>>, holder: H, msgs: seq<Form.Msg>) returns (h: H)
    ensures h == Run(fields, Init(fields, holder), msgs).holder
  {
    var m := new FormModel(fields, holder);
    var i := 0;
    while i < |msgs| && m.idx < |m.fields|
      invariant 0 <= i <= |msgs|
      invariant m.fields == fields && m.Valid()
      invariant Run(fields, Init(fields, holder), msgs) == Run(fields, m.State(), msgs[i..])
    {
      assert msgs[i..][1..] == msgs[i + 1..];
      var _ := m.Update(msgs[i]);
      i := i + 1;
    }
    h := m.holder;
  }

  /** The older RunFormWizardWithSubmit: the holder goes to the submit step, whose error aborts. */
  method RunFormWizardWithSubmit<H>(fields: seq<Field<H>>, holder: H, msgs: seq<Form.Msg>,
                                    onSubmit: H -> Option<string>)
    returns (r: Result<H, string>)
    ensures var h := Run(fields, Init(fields, holder), msgs).holder;
      r == if onSubmit(h).Some? then Failure("submit failed: " + onSubmit(h).value) else Success(h)
  {
    var h := RunFormWizard(fields, holder, msgs);
    var err := onSubmit(h);
    if err.Some? {
      return Failure("submit failed: " + err.value);
    }
    return Success(h);
  }

  /** The older field as a field of the registrar's wizard with no validate step. */
  function Lift<H>(f: Field<H>): Form.Field<H> {
    Form.Field(f.name, f.prompt, f.initial, None, f.parse, f.assign)
  }

  function LiftAll<H>(fields: seq<Field<H>>): seq<Form.Field<H>> {
    seq(|fields|, k requires 0 <= k < |fields| => Lift(fields[k]))
  }

  /**
   * The older Update is the newer one without validation and without error
   * bookkeeping: whatever errors the newer state holds, both move the
   * index, the holder, the inputs and the focus alike and return the same command.
   */
  lemma StepAgrees<H>(fields: seq<Field<H>>, w: Wizard<H>, errs: seq<Option<Scalars.Error>>, msg: Form.Msg)
    requires WellFormed(fields, w) && w.idx < |fields| && |errs| == |fields|
    ensures var fw := Form.Wizard(w.inputs, w.focused, errs, w.idx, w.holder);
      Form.WellFormed(LiftAll(fields), fw)
      && var (w', cmd) := Step(fields, w, msg);
         var (fw', fcmd) := Form.Step(LiftAll(fields), fw, msg);
         w' == Wizard(fw'.inputs, fw'.focused, fw'.idx, fw'.holder) && cmd == fcmd
  {
    var lf := LiftAll(fields);
    assert lf[w.idx] == Lift(fields[w.idx]);
  }

  /**
   * Over any run of messages the older wizard ends where the newer one does
   * on the same fields without validation: same index, holder, inputs and focus.
   */
  lemma {:induction false} RunAgrees<H>(fields: seq<Field<H>>, w: Wizard<H>, errs: seq<Option<Scalars.Error>>,
                                        msgs: seq<Form.Msg>)
    requires WellFormed(fields, w) && |errs| == |fields|
    ensures var fw := Form.Wizard(w.inputs, w.focused, errs, w.idx, w.holder);
      Form.WellFormed(LiftAll(fields), fw)
      && var r := Run(fields, w, msgs);
         var fr := Form.Run(LiftAll(fields), fw, msgs);
         r == Wizard(fr.inputs, fr.focused, fr.idx, fr.holder)
    decreases |msgs|
  {
    var fw := Form.Wizard(w.inputs, w.focused, errs, w.idx, w.holder);
    assert Form.WellFormed(LiftAll(fields), fw);
    if msgs != [] && w.idx < |fields| {
      StepAgrees(fields, w, errs, msgs[0]);
      StepWellFormed(fields, w, msgs[0]);
      var fw' := Form.Step(LiftAll(fields), fw, msgs[0]).0;
      RunAgrees(fields, Step(fields, w, msgs[0]).0, fw'.errs, msgs[1..]);
    }
  }

  /** The older and the newer wizard leave the same holder, from the initial state on. */
  lemma WizardsAgree<H>(fields: seq<Field<H>>, holder: H, msgs: seq<Form.Msg>)
    ensures Run(fields, Init(fields, holder), msgs).holder == Form.Run(LiftAll(fields), Form.Init(LiftAll(fields), holder), msgs).holder
  {
    var w := Init(fields, holder);
    var fw := Form.Init(LiftAll(fields), holder);
    assert fw == Form.Wizard(w.inputs, w.focused, fw.errs, w.idx, w.holder);
    RunAgrees(fields, w, fw.errs, msgs);
  }

  /** Enter on a text the field cannot parse: nothing but the input text changes, no command. */
  lemma ParseFailureStays<H>(fields: seq<Field<H>>, w: Wizard<H>, text: string)
    requires WellFormed(fields, w) && w.idx < |fields| && fields[w.idx].parse(text).Failure?
    ensures Step(fields, w, Form.Enter(text)) == (w.(inputs := w.inputs[w.idx := text]), Form.NoCmd)
  {
  }

  /** Enter on a parsed text: one assignment, the next field, and Quit after the last. */
  lemma ParseSuccessAdvances<H>(fields: seq<Field<H>>, w: Wizard<H>, text: string)
    requires WellFormed(fields, w) && w.idx < |fields| && fields[w.idx].parse(text).Success?
    ensures var (w', cmd) := Step(fields, w, Form.Enter(text));
      w'.idx == w.idx + 1 && w'.holder == fields[w.idx].assign(w.holder, fields[w.idx].parse(text).value)
      && (cmd == Form.Quit <==> w.idx + 1 >= |fields|)
  {
  }

  /** A message other than enter changes nothing. */
  lemma OtherStays<H>(fields: seq<Field<H>>, w: Wizard<H>)
    requires WellFormed(fields, w) && w.idx < |fields|
    ensures Step(fields, w, Form.Other) == (w, Form.InputCmd)
  {
  }
}
