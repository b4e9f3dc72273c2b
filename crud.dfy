/**
 * The generic registrar of cmd/utilCRUD.go: the CrudModel descriptor an
 * entity hands to RegisterCrudSubcommands, and the `list` and `rm` commands
 * it attaches. The database behind ListFn and RemoveFn is a Store of rows
 * kept in id order (every ListFn orders by id ascending; every RemoveFn
 * finds the row by id and deletes it, failing when there is none).
 */
module Crud {
  import opened Wrappers
  import opened StrConv
  import Table

  /** CrudModel: what an entity supplies besides its list and remove functions. */
  datatype CrudModel<!T> = CrudModel(
    singular: string,
    format: Option<T -> (int, string)>,
    tableHeaders: Option<seq<string>>,
    tableRow: Option<T -> seq<string>>,
    hintFn: Option<T -> string>)

  /** The error a find-by-id returns when there is no such row. */
  const NoRows: string := "sql: no rows in result set"

  /** Ids strictly increasing: the order ListFn returns. */
  predicate Increasing<T>(rows: seq<(int, T)>) {
    forall a, b :: 0 <= a < b < |rows| ==> rows[a].0 < rows[b].0
  }

  function IdsOf<T(==)>(rows: seq<(int, T)>): set<int> {
    set r | r in rows :: r.0
  }

  function Records<T>(rows: seq<(int, T)>): seq<T> {
    seq(|rows|, k requires 0 <= k < |rows| => rows[k].1)
  }

  /** The rows without the one of this id. */
  function Without<T>(rows: seq<(int, T)>, id: int): seq<(int, T)> {
    if rows == [] then []
    else (if rows[0].0 == id then [] else [rows[0]]) + Without(rows[1..], id)
  }

  /** The table the entity's ListFn and RemoveFn work on. */
  class Store<T(==)> {
    var rows: seq<(int, T)>

    ghost predicate Valid()
      reads this
    {
      Increasing(rows)
    }

    constructor (initial: seq<(int, T)>)
      requires Increasing(initial)
      ensures rows == initial && Valid()
    {
      rows := initial;
    }

    /** ListFn: every record, in id order. */
    method List() returns (items: seq<T>)
      ensures items == Records(rows)
    {
      items := [];
      var i := 0;
      while i < |rows|
        invariant 0 <= i <= |rows|
        invariant items == Records(rows[..i])
      {
        items := items + [rows[i].1];
        i := i + 1;
      }
      assert rows[..i] == rows;
    }

    /** RemoveFn: find the row by id, then delete it; no row is an error. */
    method Remove(id: int) returns (err: Option<string>)
      requires Valid()
      modifies this
      ensures Valid()
      ensures err.None? <==> id in old(IdsOf(rows))
      ensures err.Some? ==> err.value == NoRows
      ensures rows == Without(old(rows), id)
    {
      var i := 0;
      while i < |rows| && rows[i].0 != id
        invariant 0 <= i <= |rows|
        invariant forall k :: 0 <= k < i ==> rows[k].0 != id
      {
        i := i + 1;
      }
      if i == |rows| {
        WithoutAbsent(rows, id);
        return Some(NoRows);
      }
      WithoutAt(rows, i);
      WithoutIncreasing(rows, id);
      WithoutIds(rows, id);
      rows := rows[..i] + rows[i + 1..];
      return None;
    }
  }

  // ---------------------------------------------------------------- list

  /** The descriptor renders `list` as a table. */
  predicate TableMode<T>(desc: CrudModel<T>) {
    desc.tableHeaders.Some? && desc.tableRow.Some?
  }

  /** A line of the one-line fallback: "%d\t%s\n". */
  function PlainLine<T>(format: T -> (int, string), it: T): string {
    FormatInt(format(it).0) + "\t" + format(it).1 + "\n"
  }

  /** The table's rows: one TableRow per record, in list order. */
  function RowsOf<T>(tableRow: T -> seq<string>, items: seq<T>): seq<seq<string>> {
    seq(|items|, k requires 0 <= k < |items| => tableRow(items[k]))
  }

  /**
   * What `list` prints: the rendered table and Println's newline when the
   * descriptor has headers and a row function, otherwise one line per record.
   */
  function ListOutput<T>(desc: CrudModel<T>, items: seq<T>): string
    requires TableMode(desc) || desc.format.Some?
  {
    if TableMode(desc) then Table.Rendered(desc.tableHeaders.value, RowsOf(desc.tableRow.value, items)) + "\n"
    else Table.Join(PlainLines(desc.format.value, items))
  }

  /**
   * The `list` command: a failing ListFn aborts with "list <singular>: <err>".
   * Without a table the descriptor's Format is called (a nil Format panics in Go).
   */
  method ListCmd<T(==)>(desc: CrudModel<T>, store: Store<T>, listErr: Option<string>)
    returns (out: string, failure: Option<string>)
    requires TableMode(desc) || desc.format.Some?
    ensures listErr.Some? ==> out == "" && failure == Some("list " + desc.singular + ": " + listErr.value)
    ensures listErr.None? ==> failure.None? && out == ListOutput(desc, Records(store.rows))
  {
    if listErr.Some? {
      return "", Some("list " + desc.singular + ": " + listErr.value);
    }
    var items := store.List();
    failure := None;
    if TableMode(desc) {
      out := ListTable(desc.tableHeaders.value, desc.tableRow.value, items);
    } else {
      out := ListPlain(desc.format.value, items);
    }
  }

  /** The table branch of `list`: one TableRow per record, rendered, then Println's newline. */
  method ListTable<T>(headers: seq<string>, tableRow: T -> seq<string>, items: seq<T>) returns (out: string)
    ensures out == Table.Rendered(headers, RowsOf(tableRow, items)) + "\n"
  {
    var rows: seq<seq<string>> := [];
    var i := 0;
    while i < |items|
      invariant 0 <= i <= |items|
      invariant rows == RowsOf(tableRow, items[..i])
    {
      rows := rows + [tableRow(items[i])];
      i := i + 1;
    }
    assert items[..i] == items;
    var table := Table.RenderTable(headers, rows);
    out := table + "\n";
  }

  /** The fallback lines of `list`, one per record. */
  function PlainLines<T>(format: T -> (int, string), items: seq<T>): seq<string> {
    seq(|items|, k requires 0 <= k < |items| => PlainLine(format, items[k]))
  }

  /** The fallback branch of `list`: "%d\t%s\n" per record. */
  method ListPlain<T>(format: T -> (int, string), items: seq<T>) returns (out: string)
    ensures out == Table.Join(PlainLines(format, items))
  {
    out := "";
    var i := 0;
    while i < |items|
      invariant 0 <= i <= |items|
      invariant out == Table.Join(PlainLines(format, items[..i]))
    {
      var p := format(items[i]);
      var line := FormatInt(p.0) + "\t" + p.1 + "\n";
      PlainLinesSnoc(format, items, i);
      out := out + line;
      i := i + 1;
    }
    assert items[..i] == items;
  }

  lemma PlainLinesSnoc<T>(format: T -> (int, string), items: seq<T>, i: nat)
    requires i < |items|
    ensures Table.Join(PlainLines(format, items[..i + 1])) == Table.Join(PlainLines(format, items[..i])) + PlainLine(format, items[i])
  {
    assert PlainLines(format, items[..i + 1]) == PlainLines(format, items[..i]) + [PlainLine(format, items[i])];
    Table.JoinSnoc(PlainLines(format, items[..i]), PlainLine(format, items[i]));
  }

  // ---------------------------------------------------------------- rm

  /** What `rm` did: the rows left, the ids removed (in argument order) and the abort message, if any. */
  datatype RmOutcome<T> = RmOutcome(rows: seq<(int, T)>, removed: seq<int>, failure: Option<string>)

  /**
   * rm over its arguments, left to right: an argument that is not an int64
   * aborts with "invalid id: ...", an id without a row aborts with
   * "rm <singular>: ...", every other id is removed.
   */
  function RmRun<T(==)>(singular: string, rows: seq<(int, T)>, args: seq<string>): RmOutcome<T>
    decreases |args|
  {
    if args == [] then RmOutcome(rows, [], None)
    else
      match ParseInt(args[0])
      case Failure(e) => RmOutcome(rows, [], Some("invalid id: " + NumErrorText(e)))
      case Success(id) =>
        if id !in IdsOf(rows) then RmOutcome(rows, [], Some("rm " + singular + ": " + NoRows))
        else
          var o := RmRun(singular, Without(rows, id), args[1..]);
          o.(removed := [id] + o.removed)
  }

  /** The line rm prints for a removed id. */
  function RemovedLine(singular: string, id: int): string {
    "Removed " + singular + " " + FormatInt(id) + "\n"
  }

  function RemovedLines(singular: string, ids: seq<int>): seq<string> {
    seq(|ids|, k requires 0 <= k < |ids| => RemovedLine(singular, ids[k]))
  }

  /** Cobra's MinimumNArgs(1) message, given before Run when rm gets no argument. */
  const NoArgs: string := "requires at least 1 arg(s), only received 0"

  /** The `rm [id]...` command. */
  method RmCmd<T(==)>(singular: string, store: Store<T>, args: seq<string>)
    returns (printed: seq<string>, failure: Option<string>)
    requires store.Valid()
    modifies store
    ensures store.Valid()
    ensures args == [] ==> printed == [] && failure == Some(NoArgs) && store.rows == old(store.rows)
    ensures args != [] ==>
      var o := RmRun(singular, old(store.rows), args);
      store.rows == o.rows && printed == RemovedLines(singular, o.removed) && failure == o.failure
  {
    if args == [] {
      return [], Some(NoArgs);
    }
    ghost var rows0 := store.rows;
    ghost var removed: seq<int> := [];
    printed := [];
    var i := 0;
    while i < |args|
      invariant 0 <= i <= |args| && store.Valid()
      invariant printed == RemovedLines(singular, removed)
      invariant var o := RmRun(singular, store.rows, args[i..]);
        RmRun(singular, rows0, args) == o.(removed := removed + o.removed)
    {
      var parsed := ParseInt(args[i]);
      if parsed.Failure? {
        return printed, Some("invalid id: " + NumErrorText(parsed.error));
      }
      var raw := parsed.value;
      ghost var before := store.rows;
      var err := store.Remove(raw);
      if err.Some? {
        WithoutNotIn(before, raw);
        return printed, Some("rm " + singular + ": " + err.value);
      }
      RmLoopStep(singular, rows0, args, i, before, removed, raw);
      assert RemovedLines(singular, removed + [raw]) == printed + [RemovedLine(singular, raw)];
      printed := printed + [RemovedLine(singular, raw)];
      removed := removed + [raw];
      i := i + 1;
    }
    failure := None;
  }

  /** One removal of the rm loop, in terms of RmRun. */
  lemma RmLoopStep<T>(singular: string, rows0: seq<(int, T)>, args: seq<string>, i: nat,
                          before: seq<(int, T)>, removed: seq<int>, raw: int)
    requires i < |args| && ParseInt(args[i]) == Success(raw) && raw in IdsOf(before)
    requires var o := RmRun(singular, before, args[i..]);
      RmRun(singular, rows0, args) == o.(removed := removed + o.removed)
    ensures var o := RmRun(singular, Without(before, raw), args[i + 1..]);
      RmRun(singular, rows0, args) == o.(removed := (removed + [raw]) + o.removed)
  {
    assert args[i..][0] == args[i];
    assert args[i..][1..] == args[i + 1..];
    var o := RmRun(singular, Without(before, raw), args[i + 1..]);
    assert RmRun(singular, before, args[i..]) == o.(removed := [raw] + o.removed);
    assert removed + ([raw] + o.removed) == (removed + [raw]) + o.removed;
  }

  // ---------------------------------------------------------------- properties

  lemma {:induction false} WithoutAbsent<T>(rows: seq<(int, T)>, id: int)
    requires forall k :: 0 <= k < |rows| ==> rows[k].0 != id
    ensures Without(rows, id) == rows
    ensures id !in IdsOf(rows)
  {
    if rows != [] {
      WithoutAbsent(rows[1..], id);
      assert rows == [rows[0]] + rows[1..];
    }
  }

  /** Removing the id found at i cuts exactly that row (ids are distinct). */
  lemma {:induction false} WithoutAt<T>(rows: seq<(int, T)>, i: nat)
    requires Increasing(rows) && i < |rows|
    ensures Without(rows, rows[i].0) == rows[..i] + rows[i + 1..]
  {
    var id := rows[i].0;
    if i == 0 {
      WithoutAbsent(rows[1..], id);
    } else {
      WithoutAt(rows[1..], i - 1);
      assert rows[1..][..i - 1] == rows[1..i];
      assert rows[1..][i..] == rows[i + 1..];
      assert [rows[0]] + rows[1..i] == rows[..i];
    }
  }

  /** The rows kept are exactly those of another id. */
  lemma {:induction false} WithoutMembers<T>(rows: seq<(int, T)>, id: int)
    ensures forall r :: r in Without(rows, id) ==> r in rows && r.0 != id
    ensures forall r :: r in rows && r.0 != id ==> r in Without(rows, id)
  {
    if rows != [] {
      WithoutMembers(rows[1..], id);
      assert rows == [rows[0]] + rows[1..];
    }
  }

  lemma WithoutNotIn<T>(rows: seq<(int, T)>, id: int)
    requires id !in IdsOf(rows)
    ensures Without(rows, id) == rows
  {
    forall k | 0 <= k < |rows| ensures rows[k].0 != id {
      assert rows[k] in rows;
    }
    WithoutAbsent(rows, id);
  }

  /** Removing keeps the id order. */
  lemma {:induction false} WithoutIncreasing<T>(rows: seq<(int, T)>, id: int)
    requires Increasing(rows)
    ensures Increasing(Without(rows, id))
  {
    if rows != [] {
      WithoutIncreasing(rows[1..], id);
      var rest := Without(rows[1..], id);
      WithoutMembers(rows[1..], id);
      forall k | 0 <= k < |rest|
        ensures rows[0].0 < rest[k].0
      {
        assert rest[k] in rest;
        var m :| 0 <= m < |rows[1..]| && rows[1..][m] == rest[k];
        assert rows[1..][m] == rows[m + 1];
      }
    }
  }

  /** Removing takes exactly that id out of the table. */
  lemma WithoutIds<T>(rows: seq<(int, T)>, id: int)
    ensures IdsOf(Without(rows, id)) == IdsOf(rows) - {id}
  {
    WithoutMembers(rows, id);
    var w := Without(rows, id);
    forall x | x in IdsOf(w) ensures x in IdsOf(rows) - {id} {
      var r :| r in w && r.0 == x;
    }
    forall x | x in IdsOf(rows) - {id} ensures x in IdsOf(w) {
      var r :| r in rows && r.0 == x;
      assert r in w;
    }
  }

  /**
   * rm is removal argument by argument: running it on a + b is running it
   * on a and, unless that aborted, on b from the rows a left; the ids
   * removed before an abort stay removed and later arguments are untouched.
   */
  lemma {:induction false} RmRunAppend<T>(singular: string, rows: seq<(int, T)>, a: seq<string>, b: seq<string>)
    decreases |a|
    ensures var oa := RmRun(singular, rows, a);
      RmRun(singular, rows, a + b)
      == if oa.failure.Some? then oa
         else var ob := RmRun(singular, oa.rows, b); ob.(removed := oa.removed + ob.removed)
  {
    if a == [] {
      assert a + b == b;
    } else {
      assert (a + b)[0] == a[0];
      assert (a + b)[1..] == a[1..] + b;
      match ParseInt(a[0])
      case Failure(_) =>
      case Success(id) =>
        if id in IdsOf(rows) {
          RmRunAppend(singular, Without(rows, id), a[1..], b);
          var oa := RmRun(singular, Without(rows, id), a[1..]);
          if oa.failure.None? {
            var ob := RmRun(singular, oa.rows, b);
            assert [id] + (oa.removed + ob.removed) == ([id] + oa.removed) + ob.removed;
          }
        }
    }
  }

  /** The rows rm leaves: still in id order, and without exactly the ids it removed. */
  lemma {:induction false} RmRunRows<T>(singular: string, rows: seq<(int, T)>, args: seq<string>)
    requires Increasing(rows)
    ensures Increasing(RmRun(singular, rows, args).rows)
    ensures forall x :: x in IdsOf(RmRun(singular, rows, args).rows)
                        <==> x in IdsOf(rows) && x !in RmRun(singular, rows, args).removed
    decreases |args|
  {
    if args != [] {
      match ParseInt(args[0])
      case Failure(_) =>
      case Success(id) =>
        if id in IdsOf(rows) {
          WithoutIncreasing(rows, id);
          WithoutIds(rows, id);
          RmRunRows(singular, Without(rows, id), args[1..]);
        }
    }
  }

  /**
   * The ids rm removed: the leading arguments, parsed, in order, each
   * present when reached; no abort means every argument was removed.
   */
  lemma {:induction false} RmRunRemoved<T>(singular: string, rows: seq<(int, T)>, args: seq<string>)
    requires Increasing(rows)
    ensures var o := RmRun(singular, rows, args);
      |o.removed| <= |args|
      && (forall k :: 0 <= k < |o.removed| ==> ParseInt(args[k]) == Success(o.removed[k]))
      && (forall k :: 0 <= k < |o.removed| ==> o.removed[k] in IdsOf(rows))
      && (o.failure.None? <==> |o.removed| == |args|)
    decreases |args|
  {
    if args != [] {
      match ParseInt(args[0])
      case Failure(_) =>
      case Success(id) =>
        if id in IdsOf(rows) {
          var rest := Without(rows, id);
          WithoutIncreasing(rows, id);
          WithoutIds(rows, id);
          RmRunRemoved(singular, rest, args[1..]);
          var o' := RmRun(singular, rest, args[1..]);
          var o := RmRun(singular, rows, args);
          assert o.removed == [id] + o'.removed;
          forall k | 0 <= k < |o.removed|
            ensures ParseInt(args[k]) == Success(o.removed[k]) && o.removed[k] in IdsOf(rows)
          {
            if k > 0 {
              assert args[1..][k - 1] == args[k];
              assert o'.removed[k - 1] == o.removed[k];
            }
          }
        }
    }
  }
}
