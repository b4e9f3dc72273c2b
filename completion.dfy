/**
 * Shell completion of record ids (cmd/utilCRUD.go): buildIDCompletions
 * turns the records an entity lists into "<id>\t<hint>" suggestions, and the
 * two Attach*Completion helpers decide what to exclude.
 */
module Completion {
  import opened Wrappers
  import opened Text
  import opened StrConv

  /** The cobra directives the completion functions return. */
  datatype Directive = NoFileComp | DirectiveError

  /** The decimal text of a record's id, as strconv.FormatInt(id, 10) prints it. */
  function IdText<T>(format: T -> (int, string), it: T): string {
    FormatInt(format(it).0)
  }

  /** The hint of a suggestion: the hint function's text if there is one, else the display line. */
  function Hint<T>(format: T -> (int, string), hintFn: Option<T -> string>, it: T): string {
    if hintFn.Some? then hintFn.value(it) else format(it).1
  }

  function Entry<T>(format: T -> (int, string), hintFn: Option<T -> string>, it: T): string {
    IdText(format, it) + "\t" + Hint(format, hintFn, it)
  }

  /** A record is suggested when its id text is not excluded and the (trimmed) partial text, if any, prefixes it. */
  predicate Offered<T>(format: T -> (int, string), partial: string, used: set<string>, it: T) {
    IdText(format, it) !in used && (partial == "" || HasPrefix(IdText(format, it), partial))
  }

  /** The entries of the kept records, in list order. */
  function FilterMap<T>(items: seq<T>, keep: T -> bool, entry: T -> string): (r: seq<string>)
    ensures |r| <= |items|
  {
    if items == [] then []
    else
      var last := items[|items| - 1];
      FilterMap(items[..|items| - 1], keep, entry) + (if keep(last) then [entry(last)] else [])
  }

  function OfferedBy<T>(format: T -> (int, string), partial: string, used: set<string>): T -> bool {
    it => Offered(format, partial, used, it)
  }

  function EntryBy<T>(format: T -> (int, string), hintFn: Option<T -> string>): T -> string {
    it => Entry(format, hintFn, it)
  }

  /** The suggestions for a list of records: the entries of the offered ones, in list order. */
  function Completions<T>(items: seq<T>, format: T -> (int, string), partial: string,
                          used: set<string>, hintFn: Option<T -> string>): seq<string>
  {
    FilterMap(items, OfferedBy(format, partial, used), EntryBy(format, hintFn))
  }

  /**
   * buildIDCompletions: an unavailable database or a failing list gives no
   * suggestions (never an error); otherwise the partial text is trimmed and
   * the records are filtered in list order.
   */
  method BuildIDCompletions<T>(ensureErr: Option<string>, listed: Result<seq<T>, string>,
                               format: T -> (int, string), toComplete: string,
                               used: set<string>, hintFn: Option<T -> string>)
    returns (comps: seq<string>, directive: Directive)
    ensures directive == NoFileComp
    ensures ensureErr.Some? || listed.Failure? ==> comps == []
    ensures ensureErr.None? && listed.Success? ==>
      comps == Completions(listed.value, format, TrimSpace(toComplete), used, hintFn)
  {
    directive := NoFileComp;
    if ensureErr.Some? || listed.Failure? {
      return [], directive;
    }
    comps := FilterRecords(listed.value, format, TrimSpace(toComplete), used, hintFn);
  }

  /** The loop of buildIDCompletions: the offered records' suggestions, in list order. */
  method FilterRecords<T>(items: seq<T>, format: T -> (int, string), partial: string,
                          used: set<string>, hintFn: Option<T -> string>)
    returns (comps: seq<string>)
    ensures comps == Completions(items, format, partial, used, hintFn)
  {
    comps := [];
    var i := 0;
    ghost var keep := OfferedBy(format, partial, used);
    ghost var entry := EntryBy(format, hintFn);
    while i < |items|
      invariant 0 <= i <= |items|
      invariant comps == FilterMap(items[..i], keep, entry)
    {
      FilterMapSnoc(items, i, keep, entry);
      var kept, e := Suggestion(items[i], format, partial, used, hintFn);
      if kept {
        comps := comps + [e];
      }
      i := i + 1;
    }
    assert items[..|items|] == items;
  }

  /** The loop body of buildIDCompletions for one record: whether it is offered, and its suggestion text. */
  method Suggestion<T>(it: T, format: T -> (int, string), partial: string,
                       used: set<string>, hintFn: Option<T -> string>)
    returns (kept: bool, e: string)
    ensures kept == Offered(format, partial, used, it) == OfferedBy(format, partial, used)(it)
    ensures kept ==> e == Entry(format, hintFn, it) == EntryBy(format, hintFn)(it)
  {
    var p := format(it);
    var s := FormatInt(p.0);
    kept := s !in used && (partial == "" || HasPrefix(s, partial));
    e := "";
    if kept {
      var hint := p.1;
      if hintFn.Some? {
        hint := hintFn.value(it);
      }
      e := s + "\t" + hint;
    }
  }

  /** One more record: its entry, if kept, comes after the earlier ones. */
  lemma FilterMapSnoc<T>(items: seq<T>, i: nat, keep: T -> bool, entry: T -> string)
    requires i < |items|
    ensures FilterMap(items[..i + 1], keep, entry)
         == FilterMap(items[..i], keep, entry) + (if keep(items[i]) then [entry(items[i])] else [])
  {
    assert items[..i + 1][..i] == items[..i];
  }

  /** The already-typed arguments, as the set the rm completion excludes. */
  method UsedSet(args: seq<string>) returns (used: set<string>)
    ensures forall a :: a in used <==> a in args
  {
    used := {};
    var i := 0;
    while i < |args|
      invariant 0 <= i <= |args|
      invariant forall a :: a in used <==> a in args[..i]
    {
      used := used + {args[i]};
      i := i + 1;
    }
    assert args[..|args|] == args;
  }

  /** AttachEditCompletion: nothing once an id is typed or without a formatter; otherwise every record qualifies. */
  method EditCompletion<T>(args: seq<string>, ensureErr: Option<string>, listed: Result<seq<T>, string>,
                           format: Option<T -> (int, string)>, toComplete: string,
                           hintFn: Option<T -> string>)
    returns (comps: seq<string>, directive: Directive)
    ensures directive == NoFileComp
    ensures |args| > 0 || format.None? ==> comps == []
    ensures |args| == 0 && format.Some? && ensureErr.None? && listed.Success? ==>
      comps == Completions(listed.value, format.value, TrimSpace(toComplete), {}, hintFn)
  {
    if |args| > 0 || format.None? {
      return [], NoFileComp;
    }
    comps, directive := BuildIDCompletions(ensureErr, listed, format.value, toComplete, {}, hintFn);
  }

  /**
   * AttachRmCompletion as written: it collects the typed arguments but then
   * passes no exclusion set, so the suggestions do not depend on them.
   */
  method AttachRmCompletion<T>(args: seq<string>, ensureErr: Option<string>, listed: Result<seq<T>, string>,
                               format: Option<T -> (int, string)>, toComplete: string,
                               hintFn: Option<T -> string>)
    returns (comps: seq<string>, directive: Directive)
    ensures directive == NoFileComp
    ensures format.None? ==> comps == []
    ensures format.Some? && ensureErr.None? && listed.Success? ==>
      comps == Completions(listed.value, format.value, TrimSpace(toComplete), {}, hintFn)
  {
    if format.None? {
      return [], NoFileComp;
    }
    var used := UsedSet(args);
    comps, directive := BuildIDCompletions(ensureErr, listed, format.value, toComplete, {}, hintFn);
  }

  /**
   * The registrar's rm completion: the typed arguments are excluded, so an
   * id already on the command line is not offered again.
   */
  method RmCompletion<T>(args: seq<string>, ensureErr: Option<string>, listed: Result<seq<T>, string>,
                         format: Option<T -> (int, string)>, toComplete: string,
                         hintFn: Option<T -> string>)
    returns (comps: seq<string>, directive: Directive)
    ensures directive == NoFileComp
    ensures format.None? ==> comps == []
    ensures format.Some? && ensureErr.None? && listed.Success? ==>
      comps == Completions(listed.value, format.value, TrimSpace(toComplete), (set a | a in args), hintFn)
  {
    if format.None? {
      return [], NoFileComp;
    }
    var used := UsedSet(args);
    assert used == (set a | a in args);
    comps, directive := BuildIDCompletions(ensureErr, listed, format.value, toComplete, used, hintFn);
  }

  // ---------------------------------------------------------------- properties

  /** Filtering commutes with concatenation: the kept entries keep the order of the list. */
  lemma {:induction false} FilterMapAppend<T>(a: seq<T>, b: seq<T>, keep: T -> bool, entry: T -> string)
    ensures FilterMap(a + b, keep, entry) == FilterMap(a, keep, entry) + FilterMap(b, keep, entry)
  {
    if b == [] {
      assert a + b == a;
    } else {
      var b' := b[..|b| - 1];
      assert (a + b)[..|a + b| - 1] == a + b';
      assert (a + b)[|a + b| - 1] == b[|b| - 1];
      FilterMapAppend(a, b', keep, entry);
    }
  }

  /** Only the entries of kept records are produced. */
  lemma {:induction false} FilterMapSound<T>(items: seq<T>, keep: T -> bool, entry: T -> string, e: string)
    requires e in FilterMap(items, keep, entry)
    ensures exists k :: 0 <= k < |items| && keep(items[k]) && e == entry(items[k])
  {
    var n := |items| - 1;
    FilterMapSnoc(items, n, keep, entry);
    assert items[..n + 1] == items;
    if e in FilterMap(items[..n], keep, entry) {
      FilterMapSound(items[..n], keep, entry, e);
      var k :| 0 <= k < n && keep(items[..n][k]) && e == entry(items[..n][k]);
      assert items[..n][k] == items[k];
    }
  }

  /** Every kept record's entry is produced. */
  lemma {:induction false} FilterMapComplete<T>(items: seq<T>, k: int, keep: T -> bool, entry: T -> string)
    requires 0 <= k < |items| && keep(items[k])
    ensures entry(items[k]) in FilterMap(items, keep, entry)
  {
    var n := |items| - 1;
    FilterMapSnoc(items, n, keep, entry);
    assert items[..n + 1] == items;
    if k < n {
      assert items[..n][k] == items[k];
      FilterMapComplete(items[..n], k, keep, entry);
    }
  }

  /** Completion commutes with concatenation: suggestions keep the order of the list. */
  lemma CompletionsAppend<T>(a: seq<T>, b: seq<T>, format: T -> (int, string),
                             partial: string, used: set<string>, hintFn: Option<T -> string>)
    ensures Completions(a + b, format, partial, used, hintFn)
         == Completions(a, format, partial, used, hintFn) + Completions(b, format, partial, used, hintFn)
  {
    FilterMapAppend(a, b, OfferedBy(format, partial, used), EntryBy(format, hintFn));
  }

  /** A string is suggested exactly when it is the entry of some offered record. */
  lemma CompletionsMember<T>(items: seq<T>, format: T -> (int, string), partial: string,
                             used: set<string>, hintFn: Option<T -> string>, e: string)
    ensures e in Completions(items, format, partial, used, hintFn) <==>
      exists k :: 0 <= k < |items| && Offered(format, partial, used, items[k]) && e == Entry(format, hintFn, items[k])
  {
    var keep := OfferedBy(format, partial, used);
    var entry := EntryBy(format, hintFn);
    if e in Completions(items, format, partial, used, hintFn) {
      FilterMapSound(items, keep, entry, e);
    }
    if exists k :: 0 <= k < |items| && Offered(format, partial, used, items[k]) && e == Entry(format, hintFn, items[k]) {
      var k :| 0 <= k < |items| && Offered(format, partial, used, items[k]) && e == Entry(format, hintFn, items[k]);
      FilterMapComplete(items, k, keep, entry);
    }
  }

  /** The text of a suggestion before its first tab: the id the shell inserts. */
  function BeforeTab(e: string): string {
    if e == [] || e[0] == '\t' then [] else [e[0]] + BeforeTab(e[1..])
  }

  lemma {:induction false} BeforeTabOfEntry(id: string, hint: string)
    requires forall k :: 0 <= k < |id| ==> id[k] != '\t'
    ensures BeforeTab(id + "\t" + hint) == id
  {
    if id != [] {
      assert (id + "\t" + hint)[1..] == id[1..] + "\t" + hint;
      BeforeTabOfEntry(id[1..], hint);
    }
  }

  /**
   * Every suggestion names, before its tab, an id that is not excluded and
   * that the trimmed partial text (when non-empty) prefixes.
   */
  lemma SuggestionsRespectFilter<T>(items: seq<T>, format: T -> (int, string), partial: string,
                                    used: set<string>, hintFn: Option<T -> string>, e: string)
    requires e in Completions(items, format, partial, used, hintFn)
    ensures BeforeTab(e) !in used
    ensures partial != "" ==> HasPrefix(BeforeTab(e), partial)
  {
    CompletionsMember(items, format, partial, used, hintFn, e);
    var k :| 0 <= k < |items| && Offered(format, partial, used, items[k]) && e == Entry(format, hintFn, items[k]);
    var id := IdText(format, items[k]);
    FormatIntChars(format(items[k]).0);
    BeforeTabOfEntry(id, Hint(format, hintFn, items[k]));
  }

  /** A record whose id text is excluded is never suggested, whatever its hint. */
  lemma ExcludedNeverSuggested<T>(items: seq<T>, format: T -> (int, string), partial: string,
                                  used: set<string>, hintFn: Option<T -> string>, it: T, hint: string)
    requires IdText(format, it) in used
    ensures IdText(format, it) + "\t" + hint !in Completions(items, format, partial, used, hintFn)
  {
    var e := IdText(format, it) + "\t" + hint;
    if e in Completions(items, format, partial, used, hintFn) {
      SuggestionsRespectFilter(items, format, partial, used, hintFn, e);
      var id := IdText(format, it);
      FormatIntChars(format(it).0);
      BeforeTabOfEntry(id, hint);
      assert false;
    }
  }

  /** With an empty (or all-space) partial text and no exclusions, every record is suggested, in order. */
  lemma {:induction false} NoFilterKeepsAll<T>(items: seq<T>, format: T -> (int, string), hintFn: Option<T -> string>)
    ensures Completions(items, format, "", {}, hintFn) == seq(|items|, k requires 0 <= k < |items| => Entry(format, hintFn, items[k]))
  {
    if items != [] {
      NoFilterKeepsAll(items[..|items| - 1], format, hintFn);
    }
  }

  /**
   * An id already typed on the command line: the rm completion as attached by
   * AttachRmCompletion (no exclusions) offers it again, the registrar's (the
   * typed arguments excluded) does not.
   */
  lemma RmAsWrittenReoffersTypedId<T>(items: seq<T>, k: int, format: T -> (int, string),
                                      hintFn: Option<T -> string>, args: seq<string>)
    requires 0 <= k < |items| && IdText(format, items[k]) in args
    ensures Entry(format, hintFn, items[k]) in Completions(items, format, "", {}, hintFn)
    ensures Entry(format, hintFn, items[k]) !in Completions(items, format, "", (set a | a in args), hintFn)
  {
    CompletionsMember(items, format, "", {}, hintFn, Entry(format, hintFn, items[k]));
    ExcludedNeverSuggested(items, format, "", (set a | a in args), hintFn, items[k], Hint(format, hintFn, items[k]));
  }
}
