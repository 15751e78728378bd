/** The forward-only migration runner: one transaction per file, in name order, each
    recorded with the checksum of what was run. */
module Migrations {

  /** Equal checksums mean equal contents. */
  datatype Checksum = Checksum(of: string)

  type Table = map<string, Checksum>

  /** A directory, file name to content. */
  type Directory = map<string, string>

  // ------------------------------------------------------------ the sorted file list

  predicate IsSql(name: string) { |name| >= 4 && name[|name| - 4..] == ".sql" }

  /** The place of a character in the order of UTF-16, where surrogates come before the last
      characters of the basic plane. */
  function Rank(c: char): nat { if '\U{E000}' <= c <= '\U{FFFF}' then c as int + 0x110000 else c as int }

  /** The order in which names are sorted. */
  predicate Before(a: string, b: string) {
    a == "" || (b != "" && (Rank(a[0]) < Rank(b[0]) || (a[0] == b[0] && Before(a[1..], b[1..]))))
  }

  function Units(s: string): seq<nat> {
    if s == "" then [] else UnitsOf(s[0]) + Units(s[1..])
  }

  /** The UTF-16 code units of a character. */
  function UnitsOf(c: char): seq<nat> {
    var n := c as int;
    if n < 0x10000 then [n] else [0xD800 + (n - 0x10000) / 0x400, 0xDC00 + (n - 0x10000) % 0x400]
  }

  predicate UnitsBefore(a: seq<nat>, b: seq<nat>) {
    a == [] || (b != [] && (a[0] < b[0] || (a[0] == b[0] && UnitsBefore(a[1..], b[1..]))))
  }

  /** It is the order of `sort`: by UTF-16 code units. */
  lemma {:induction false} BeforeIsByUnits(a: string, b: string)
    ensures Before(a, b) <==> UnitsBefore(Units(a), Units(b))
  {
    if a != "" && b != "" {
      var u, v := UnitsOf(a[0]), UnitsOf(b[0]);
      var x, y := Units(a[1..]), Units(b[1..]);
      if a[0] == b[0] {
        BeforeIsByUnits(a[1..], b[1..]);
        SameFront(u, x, y);
      } else {
        RankByUnits(a[0], b[0], x, y);
      }
    }
  }

  lemma {:induction false} SameFront(u: seq<nat>, x: seq<nat>, y: seq<nat>)
    ensures UnitsBefore(u + x, u + y) <==> UnitsBefore(x, y)
  {
    if u == [] {
      assert u + x == x && u + y == y;
    } else {
      assert (u + x)[1..] == u[1..] + x && (u + y)[1..] == u[1..] + y;
      SameFront(u[1..], x, y);
    }
  }

  lemma RankByUnits(c: char, d: char, x: seq<nat>, y: seq<nat>)
    requires c != d
    ensures UnitsBefore(UnitsOf(c) + x, UnitsOf(d) + y) <==> Rank(c) < Rank(d)
  {
    var u, v := UnitsOf(c) + x, UnitsOf(d) + y;
    if |UnitsOf(c)| == 2 == |UnitsOf(d)| {
      HalvesOrder(c as int - 0x10000, d as int - 0x10000);
      assert u[1..][0] == UnitsOf(c)[1] && v[1..][0] == UnitsOf(d)[1];
    }
  }

  lemma HalvesOrder(m: nat, n: nat)
    requires m != n
    ensures m < n <==> m / 0x400 < n / 0x400 || (m / 0x400 == n / 0x400 && m % 0x400 < n % 0x400)
    ensures m / 0x400 != n / 0x400 || m % 0x400 != n % 0x400
  {
  }

  lemma {:induction false} BeforeTotal(a: string, b: string)
    ensures Before(a, b) || Before(b, a)
    ensures Before(a, b) && Before(b, a) ==> a == b
  {
    if a != "" && b != "" && a[0] == b[0] {
      BeforeTotal(a[1..], b[1..]);
      assert a == a[..1] + a[1..] && b == b[..1] + b[1..];
    }
  }

  lemma {:induction false} BeforeTransitive(a: string, b: string, c: string)
    requires Before(a, b) && Before(b, c)
    ensures Before(a, c)
  {
    if a != "" && a[0] == b[0] == c[0] {
      BeforeTransitive(a[1..], b[1..], c[1..]);
    }
  }

  ghost predicate Sorted(names: seq<string>) {
    forall i, j :: 0 <= i < j < |names| ==> Before(names[i], names[j])
  }

  ghost predicate Distinct(names: seq<string>) {
    forall i, j :: 0 <= i < j < |names| ==> names[i] != names[j]
  }

  function Insert(x: string, names: seq<string>): (r: seq<string>)
    ensures forall n :: n in r <==> n == x || n in names
    ensures |r| == |names| + 1
  {
    if names == [] || Before(x, names[0]) then [x] + names
    else [names[0]] + Insert(x, names[1..])
  }

  function SortSql(listing: seq<string>): (r: seq<string>)
    ensures forall n :: n in r <==> n in listing && IsSql(n)
  {
    if listing == [] then []
    else if IsSql(listing[0]) then Insert(listing[0], SortSql(listing[1..]))
    else SortSql(listing[1..])
  }

  lemma {:induction false} InsertSorted(x: string, names: seq<string>)
    requires Sorted(names)
    ensures Sorted(Insert(x, names))
    ensures Distinct(names) && x !in names ==> Distinct(Insert(x, names))
  {
    if names == [] {
    } else if Before(x, names[0]) {
      forall j | 0 <= j < |names| ensures Before(x, names[j]) {
        if j > 0 { BeforeTransitive(x, names[0], names[j]); }
      }
    } else {
      BeforeTotal(x, names[0]);
      InsertSorted(x, names[1..]);
      var r := Insert(x, names[1..]);
      forall j | 0 <= j < |r| ensures Before(names[0], r[j]) {
        assert r[j] == x || r[j] in names[1..];
      }
      if Distinct(names) && x !in names {
        forall j | 0 <= j < |r| ensures names[0] != r[j] {
          assert r[j] == x || r[j] in names[1..];
        }
      }
    }
  }

  lemma {:induction false} SortSqlSorted(listing: seq<string>)
    requires Distinct(listing)
    ensures Sorted(SortSql(listing)) && Distinct(SortSql(listing))
  {
    if listing != [] {
      SortSqlSorted(listing[1..]);
      if IsSql(listing[0]) {
        InsertSorted(listing[0], SortSql(listing[1..]));
      }
    }
  }

  // ------------------------------------------------------------ one run, undisturbed

  datatype Outcome =
    | Done(applied: seq<string>, skipped: seq<string>)
    | FileGone
    | FileChanged(name: string)
    | ScriptFailed(name: string)

  /** A migration script that ran, by file name and content. */
  type Execution = (string, string)

  /** The database: the bookkeeping table and everything that was ever executed and
      committed. */
  class Database {
    var table: Table
    var executed: seq<Execution>

    constructor ()
      ensures table == map[] && executed == []
    {
      table, executed := map[], [];
    }

    /** One transaction: the script and its record, or neither. A script that fails and
        a name that is already recorded both roll back. */
    method Transact(name: string, content: string, scriptOk: bool) returns (committed: bool)
      modifies this
      ensures committed == (scriptOk && name !in old(table))
      ensures table == if committed then old(table)[name := Checksum(content)] else old(table)
      ensures executed == if committed then old(executed) + [(name, content)] else old(executed)
    {
      committed := scriptOk && name !in table;
      if committed {
        table, executed := table[name := Checksum(content)], executed + [(name, content)];
      }
    }
  }

  /** The first file, in order, at which a run stops; the number of files when none. */
  function Stop(files: seq<string>, known: Table, dir: Directory, failing: set<string>): (k: nat)
    requires forall f :: f in files ==> f in dir
    ensures k <= |files|
    ensures k < |files| ==> Stops(files[k], known, dir, failing)
    ensures forall i :: 0 <= i < k ==> !Stops(files[i], known, dir, failing)
  {
    if files == [] || Stops(files[0], known, dir, failing) then 0
    else 1 + Stop(files[1..], known, dir, failing)
  }

  predicate Stops(f: string, known: Table, dir: Directory, failing: set<string>)
    requires f in dir
  {
    if f in known then known[f] != Checksum(dir[f]) else f in failing
  }

  /** The files of a list that are, or are not, in the table, in the list's order. */
  function Select(files: seq<string>, known: Table, recorded: bool): (r: seq<string>)
    ensures forall f :: f in r <==> f in files && ((f in known) == recorded)
  {
    if files == [] then []
    else
      var rest := Select(files[..|files| - 1], known, recorded);
      var last := files[|files| - 1];
      if (last in known) == recorded then rest + [last] else rest
  }

  function Executions(names: seq<string>, dir: Directory): (r: seq<Execution>)
    requires forall f :: f in names ==> f in dir
    ensures |r| == |names|
    ensures forall i :: 0 <= i < |names| ==> r[i] == (names[i], dir[names[i]])
  {
    seq(|names|, i requires 0 <= i < |names| => (names[i], dir[names[i]]))
  }

  function Recorded(known: Table, names: seq<string>, dir: Directory): Table
    requires forall f :: f in names ==> f in dir
  {
    map f | f in known.Keys + (set n | n in names) :: if f in names then Checksum(dir[f]) else known[f]
  }

  /** What a run leaves, as a function of what it started from. */
  function RunOf(known: Table, ran: seq<Execution>, dir: Directory, files: seq<string>, failing: set<string>)
      : (Outcome, Table, seq<Execution>)
    requires forall f :: f in files ==> f in dir
  {
    if !(forall n :: n in known ==> n in files) then (FileGone, known, ran)
    else
      var k := Stop(files, known, dir, failing);
      var applied := Select(files[..k], known, false);
      (if k == |files| then Done(applied, Select(files, known, true))
       else if files[k] in known then FileChanged(files[k]) else ScriptFailed(files[k]),
       Recorded(known, applied, dir), ran + Executions(applied, dir))
  }

  /** Where a run stands after the first `i` files. */
  ghost predicate Upto(known: Table, ran: seq<Execution>, dir: Directory, files: seq<string>, i: nat,
                       applied: seq<string>, skipped: seq<string>, table: Table, executed: seq<Execution>)
    requires forall f :: f in files ==> f in dir
  {
    && i <= |files|
    && applied == Select(files[..i], known, false) && skipped == Select(files[..i], known, true)
    && table == Recorded(known, applied, dir) && executed == ran + Executions(applied, dir)
  }

  lemma UptoSkips(known: Table, ran: seq<Execution>, dir: Directory, files: seq<string>, i: nat,
                  applied: seq<string>, skipped: seq<string>, table: Table, executed: seq<Execution>)
    requires forall f :: f in files ==> f in dir
    requires Upto(known, ran, dir, files, i, applied, skipped, table, executed) && i < |files| && files[i] in known
    ensures Upto(known, ran, dir, files, i + 1, applied, skipped + [files[i]], table, executed)
  {
    assert files[..i + 1][..i] == files[..i];
  }

  lemma UptoApplies(known: Table, ran: seq<Execution>, dir: Directory, files: seq<string>, i: nat,
                    applied: seq<string>, skipped: seq<string>, table: Table, executed: seq<Execution>)
    requires forall f :: f in files ==> f in dir
    requires Upto(known, ran, dir, files, i, applied, skipped, table, executed) && i < |files| && files[i] !in known
    requires Distinct(files)
    ensures files[i] !in table
    ensures var f := files[i];
            Upto(known, ran, dir, files, i + 1, applied + [f], skipped, table[f := Checksum(dir[f])],
                 executed + [(f, dir[f])])
  {
    var f := files[i];
    SelectNew(known, files, i);
    hide Select;
    RecordedOneMore(known, applied, dir, f);
    ExecutionsOneMore(applied, dir, f);
    assert f !in table;
    hide Recorded;
    hide Executions;
    assert ran + (Executions(applied, dir) + [(f, dir[f])]) == executed + [(f, dir[f])];
  }

  lemma SelectNew(known: Table, files: seq<string>, i: nat)
    requires i < |files| && files[i] !in known && Distinct(files)
    ensures var f := files[i];
            && f !in Select(files[..i], known, false)
            && Select(files[..i + 1], known, false) == Select(files[..i], known, false) + [f]
            && Select(files[..i + 1], known, true) == Select(files[..i], known, true)
            && forall n :: n in Select(files[..i], known, false) + [f] ==> n in files
  {
    assert files[..i + 1][..i] == files[..i];
    assert forall j :: 0 <= j < i ==> files[j] != files[i];
  }

  lemma RecordedOneMore(known: Table, names: seq<string>, dir: Directory, f: string)
    requires (forall n :: n in names ==> n in dir) && f in dir
    ensures Recorded(known, names + [f], dir) == Recorded(known, names, dir)[f := Checksum(dir[f])]
  {
  }

  lemma ExecutionsOneMore(names: seq<string>, dir: Directory, f: string)
    requires (forall n :: n in names ==> n in dir) && f in dir
    ensures Executions(names + [f], dir) == Executions(names, dir) + [(f, dir[f])]
  {
  }

  lemma UptoStart(known: Table, ran: seq<Execution>, dir: Directory, files: seq<string>)
    requires forall f :: f in files ==> f in dir
    ensures Upto(known, ran, dir, files, 0, [], [], known, ran)
  {
    assert Recorded(known, [], dir) == known;
    assert ran + Executions([], dir) == ran;
  }

  /** All files before `i` went through. */
  ghost predicate Through(known: Table, dir: Directory, files: seq<string>, failing: set<string>, i: nat)
    requires forall f :: f in files ==> f in dir
  {
    i <= Stop(files, known, dir, failing)
  }

  lemma UptoEnds(known: Table, ran: seq<Execution>, dir: Directory, files: seq<string>, failing: set<string>, i: nat,
                 applied: seq<string>, skipped: seq<string>, table: Table, executed: seq<Execution>)
    requires forall f :: f in files ==> f in dir
    requires Upto(known, ran, dir, files, i, applied, skipped, table, executed)
    requires Through(known, dir, files, failing, i) && forall n :: n in known ==> n in files
    ensures i == |files| ==> RunOf(known, ran, dir, files, failing) == (Done(applied, skipped), table, executed)
    ensures i < |files| && Stops(files[i], known, dir, failing) ==>
              RunOf(known, ran, dir, files, failing) ==
              (if files[i] in known then FileChanged(files[i]) else ScriptFailed(files[i]), table, executed)
    ensures i < |files| && !Stops(files[i], known, dir, failing) ==> Through(known, dir, files, failing, i + 1)
  {
    assert i == |files| ==> files[..i] == files;
  }

  /** One run of the runner over a directory that does not change meanwhile; `failing`
      are the scripts the database rejects. */
  method Migrate(db: Database, dir: Directory, listing: seq<string>, failing: set<string>) returns (outcome: Outcome)
    requires Distinct(listing) && (forall n :: n in listing <==> n in dir)
    modifies db
    ensures (outcome, db.table, db.executed) ==
            RunOf(old(db.table), old(db.executed), dir, SortSql(listing), failing)
  {
    hide Upto, Through, Stop, Select, Distinct, RunOf;
    var files := SortSql(listing);
    SortSqlSorted(listing);
    var known, ran := db.table, db.executed;
    GoneIs(known, ran, dir, files, failing);
    if !(forall n <- known.Keys :: n in files) {
      return FileGone;
    }
    var applied: seq<string>, skipped: seq<string> := [], [];
    var i := 0;
    UptoStart(known, ran, dir, files);
    ThroughStart(known, dir, files, failing);
    hide *;
    while i < |files|
      invariant i <= |files| && Through(known, dir, files, failing, i)
      invariant Upto(known, ran, dir, files, i, applied, skipped, db.table, db.executed)
    {
      var file := files[i];
      var content := dir[file];
      UptoEnds(known, ran, dir, files, failing, i, applied, skipped, db.table, db.executed);
      if file in known {
        if known[file] != Checksum(content) {
          return FileChanged(file);
        }
        UptoSkips(known, ran, dir, files, i, applied, skipped, db.table, db.executed);
        skipped := skipped + [file];
      } else {
        UptoApplies(known, ran, dir, files, i, applied, skipped, db.table, db.executed);
        var committed := db.Transact(file, content, file !in failing);
        if !committed {
          return ScriptFailed(file);
        }
        applied := applied + [file];
      }
      i := i + 1;
    }
    UptoEnds(known, ran, dir, files, failing, i, applied, skipped, db.table, db.executed);
    return Done(applied, skipped);
  }

  lemma GoneIs(known: Table, ran: seq<Execution>, dir: Directory, files: seq<string>, failing: set<string>)
    requires forall f :: f in files ==> f in dir
    ensures !(forall n <- known.Keys :: n in files) ==>
            RunOf(known, ran, dir, files, failing) == (FileGone, known, ran)
  {
    hide Stop, Select;
  }

  lemma ThroughStart(known: Table, dir: Directory, files: seq<string>, failing: set<string>)
    requires forall f :: f in files ==> f in dir
    ensures Through(known, dir, files, failing, 0)
  {
  }

  // ------------------------------------------------------------ what a run guarantees

  function Checksums(dir: Directory): Table {
    map f | f in dir && IsSql(f) :: Checksum(dir[f])
  }

  lemma SortedOneMore(names: seq<string>, x: string)
    requires Sorted(names) && Distinct(names) && forall n :: n in names ==> Before(n, x) && n != x
    ensures Sorted(names + [x]) && Distinct(names + [x])
  {
  }

  lemma {:induction false} SelectKeepsOrder(files: seq<string>, known: Table, recorded: bool)
    requires Sorted(files) && Distinct(files)
    ensures Sorted(Select(files, known, recorded)) && Distinct(Select(files, known, recorded))
  {
    if files != [] {
      var n := |files| - 1;
      SelectKeepsOrder(files[..n], known, recorded);
      var rest := Select(files[..n], known, recorded);
      forall f | f in rest ensures Before(f, files[n]) && f != files[n] {
        assert f in files[..n];
      }
      SortedOneMore(rest, files[n]);
    }
  }

  lemma {:induction false} SelectSplits(files: seq<string>, known: Table)
    ensures |Select(files, known, true)| + |Select(files, known, false)| == |files|
    ensures multiset(Select(files, known, true)) + multiset(Select(files, known, false)) == multiset(files)
  {
    if files != [] {
      var init := files[..|files| - 1];
      SelectSplits(init, known);
      assert files == init + [files[|files| - 1]];
    }
  }

  /** What stops nothing: every recorded file is still there with the content it was
      recorded with, and no new script is rejected. */
  ghost predicate Smooth(known: Table, dir: Directory, failing: set<string>) {
    && (forall n :: n in known ==> n in Checksums(dir) && known[n] == Checksums(dir)[n])
    && (forall n :: n in Checksums(dir) && n !in known ==> n !in failing)
  }

  /** The applied and skipped files, each in name order, divide the sorted list between
      them by whether they were recorded before. */
  ghost predicate Divides(known: Table, files: seq<string>, applied: seq<string>, skipped: seq<string>) {
    && Sorted(applied) && Sorted(skipped)
    && multiset(applied) + multiset(skipped) == multiset(files)
    && (forall n :: n in skipped ==> n in known)
    && (forall n :: n in applied ==> n !in known)
  }

  lemma SmoothIff(known: Table, dir: Directory, files: seq<string>, failing: set<string>)
    requires forall f :: f in files <==> f in dir && IsSql(f)
    ensures Smooth(known, dir, failing) <==>
            (forall n :: n in known ==> n in files) && Stop(files, known, dir, failing) == |files|
  {
    StopIsEnd(files, known, dir, failing);
    assert forall f :: f in files <==> f in Checksums(dir);
    if (forall n :: n in known ==> n in files) && Stop(files, known, dir, failing) == |files| {
      forall n | n in known ensures n in Checksums(dir) && known[n] == Checksums(dir)[n] {
        assert !Stops(n, known, dir, failing);
      }
      forall n | n in Checksums(dir) && n !in known ensures n !in failing {
        assert !Stops(n, known, dir, failing);
      }
    }
  }

  lemma SmoothTable(known: Table, dir: Directory, files: seq<string>, failing: set<string>)
    requires (forall f :: f in files <==> f in dir && IsSql(f)) && Smooth(known, dir, failing)
    ensures Recorded(known, Select(files, known, false), dir) == Checksums(dir)
  {
    var applied := Select(files, known, false);
    forall f | f in Checksums(dir) ensures f in known || f in applied {
      assert f in files;
    }
  }

  /** A run is done exactly when nothing stops it; the table is then the checksum map of
      the directory, and the run's lists divide the sorted list of files. */
  lemma DoneIff(known: Table, ran: seq<Execution>, dir: Directory, listing: seq<string>, failing: set<string>)
    requires Distinct(listing) && (forall n :: n in listing <==> n in dir)
    ensures var files := SortSql(listing);
            var (outcome, table, executed) := RunOf(known, ran, dir, files, failing);
            && (outcome.Done? <==> Smooth(known, dir, failing))
            && (outcome.Done? ==>
                  && table == Checksums(dir) && Divides(known, files, outcome.applied, outcome.skipped)
                  && executed == ran + Executions(outcome.applied, dir))
  {
    var files := SortSql(listing);
    SortSqlSorted(listing);
    SmoothIff(known, dir, files, failing);
    if Smooth(known, dir, failing) {
      SmoothRun(known, ran, dir, files, failing);
    }
    hide Smooth;
    hide Select;
    hide Divides;
    hide Checksums;
    hide Recorded;
    hide Executions;
  }

  lemma SmoothRun(known: Table, ran: seq<Execution>, dir: Directory, files: seq<string>, failing: set<string>)
    requires (forall f :: f in files <==> f in dir && IsSql(f)) && Smooth(known, dir, failing)
    requires Sorted(files) && Distinct(files)
    ensures var applied, skipped := Select(files, known, false), Select(files, known, true);
            && RunOf(known, ran, dir, files, failing) ==
               (Done(applied, skipped), Checksums(dir), ran + Executions(applied, dir))
            && Divides(known, files, applied, skipped)
  {
    SmoothIff(known, dir, files, failing);
    SmoothTable(known, dir, files, failing);
    assert files[..|files|] == files;
    SelectDivides(known, files);
    hide Smooth;
    hide Divides;
    hide Select;
    hide Recorded;
    hide Checksums;
  }

  lemma SelectDivides(known: Table, files: seq<string>)
    requires Sorted(files) && Distinct(files)
    ensures Divides(known, files, Select(files, known, false), Select(files, known, true))
  {
    SelectKeepsOrder(files, known, true);
    SelectKeepsOrder(files, known, false);
    SelectSplits(files, known);
    hide Sorted;
  }

  lemma StopIsEnd(files: seq<string>, known: Table, dir: Directory, failing: set<string>)
    requires forall f :: f in files ==> f in dir
    ensures Stop(files, known, dir, failing) == |files| <==> forall f :: f in files ==> !Stops(f, known, dir, failing)
  {
  }

  /** Running again right after a run that was done applies nothing and executes nothing. */
  lemma RerunAppliesNothing(known: Table, ran: seq<Execution>, dir: Directory, listing: seq<string>,
                            failing: set<string>, failing': set<string>)
    requires Distinct(listing) && (forall n :: n in listing <==> n in dir)
    requires RunOf(known, ran, dir, SortSql(listing), failing).0.Done?
    ensures var files := SortSql(listing);
            var (_, table, executed) := RunOf(known, ran, dir, files, failing);
            RunOf(table, executed, dir, files, failing') == (Done([], files), table, executed)
  {
    var files := SortSql(listing);
    var (_, table, executed) := RunOf(known, ran, dir, files, failing);
    DoneIff(known, ran, dir, listing, failing);
    SettledRun(executed, dir, files, failing');
  }

  /** Over a table that already is the checksum map of the directory, a run only skips. */
  lemma SettledRun(ran: seq<Execution>, dir: Directory, files: seq<string>, failing: set<string>)
    requires forall f :: f in files <==> f in dir && IsSql(f)
    ensures RunOf(Checksums(dir), ran, dir, files, failing) == (Done([], files), Checksums(dir), ran)
  {
    var table := Checksums(dir);
    StopIsEnd(files, table, dir, failing);
    assert files[..|files|] == files;
    AllSelected(files, table);
    assert Recorded(table, [], dir) == table;
    assert ran + Executions([], dir) == ran;
  }

  lemma {:induction false} AllSelected(files: seq<string>, known: Table)
    requires forall f :: f in files ==> f in known
    ensures Select(files, known, true) == files && Select(files, known, false) == []
  {
    if files != [] {
      AllSelected(files[..|files| - 1], known);
      assert files == files[..|files| - 1] + [files[|files| - 1]];
    }
  }

  // ------------------------------------------------------------ in literal terms

  /** The file list holds the names of the listing that end in `.sql`. */
  lemma SqlFilesAre(listing: seq<string>, name: string)
    ensures name in SortSql(listing) <==>
            name in listing && |name| >= 4 && name[|name| - 4] == '.' && name[|name| - 3] == 's'
            && name[|name| - 2] == 'q' && name[|name| - 1] == 'l'
  {
    if |name| >= 4 {
      var tail := name[|name| - 4..];
      assert tail == [name[|name| - 4], name[|name| - 3], name[|name| - 2], name[|name| - 1]];
    }
  }

  /** Main result: how a run ends. A recorded file that is gone stops it before anything is done;
      otherwise it goes through the files in order up to the first recorded one whose content has
      changed or new one whose script is rejected, and stops there with that name. */
  lemma RunEnds(known: Table, ran: seq<Execution>, dir: Directory, files: seq<string>, failing: set<string>)
      returns (k: nat)
    requires forall f :: f in files ==> f in dir
    ensures var (outcome, table, executed) := RunOf(known, ran, dir, files, failing);
            if exists n :: n in known && n !in files then outcome == FileGone && table == known && executed == ran
            else
              && k <= |files| && (outcome.Done? <==> k == |files|) && !outcome.FileGone?
              && (forall i :: 0 <= i < k ==>
                    if files[i] in known then known[files[i]] == Checksum(dir[files[i]]) else files[i] !in failing)
              && (k < |files| ==>
                    if files[k] in known then
                      known[files[k]] != Checksum(dir[files[k]]) && outcome == FileChanged(files[k])
                    else files[k] in failing && outcome == ScriptFailed(files[k]))
              && Leaves(known, ran, dir, files[..k], table, executed)
  {
    k := Stop(files, known, dir, failing);
    if forall n :: n in known ==> n in files {
      RunStops(known, ran, dir, files, failing);
      assert forall i :: 0 <= i < k ==> !Stops(files[i], known, dir, failing);
      hide RunOf, Select, Stop, Leaves;
    } else {
      hide Select, Executions, Stop, Recorded, Leaves;
    }
  }

  lemma RunStops(known: Table, ran: seq<Execution>, dir: Directory, files: seq<string>, failing: set<string>)
    requires (forall f :: f in files ==> f in dir) && (forall n :: n in known ==> n in files)
    ensures var (outcome, table, executed) := RunOf(known, ran, dir, files, failing);
            var k := Stop(files, known, dir, failing);
            && (outcome.Done? <==> k == |files|) && !outcome.FileGone?
            && (k < |files| ==>
                  outcome == if files[k] in known then FileChanged(files[k]) else ScriptFailed(files[k]))
            && Leaves(known, ran, dir, files[..k], table, executed)
  {
    RunLeaves(known, ran, dir, files[..Stop(files, known, dir, failing)]);
    hide Select, Executions, Stop, Recorded, Leaves;
  }

  /** What a run that went through these files leaves: they are recorded and, if they were new,
      executed with their content, and nothing else is. */
  ghost predicate Leaves(known: Table, ran: seq<Execution>, dir: Directory, files: seq<string>,
                         table: Table, executed: seq<Execution>)
    requires forall f :: f in files ==> f in dir
  {
    && (forall n :: n in table <==> n in known || n in files)
    && (forall n :: n in table ==> n in known || n in dir)
    && (forall n :: n in table ==> table[n] == if n in known then known[n] else Checksum(dir[n]))
    && ran <= executed
    && forall e :: e in executed[|ran|..] <==> e.0 in files && e.0 in dir && e.0 !in known && e.1 == dir[e.0]
  }

  lemma RunLeaves(known: Table, ran: seq<Execution>, dir: Directory, files: seq<string>)
    requires forall f :: f in files ==> f in dir
    ensures var applied := Select(files, known, false);
            Leaves(known, ran, dir, files, Recorded(known, applied, dir), ran + Executions(applied, dir))
  {
    var applied := Select(files, known, false);
    ExecutedAre(applied, dir, ran);
    TableIs(known, applied, dir);
    hide Select, Executions, Recorded;
  }

  lemma TableIs(known: Table, applied: seq<string>, dir: Directory)
    requires forall f :: f in applied ==> f in dir && f !in known
    ensures var table := Recorded(known, applied, dir);
            && (forall n :: n in table <==> n in known || n in applied)
            && (forall n :: n in table ==> table[n] == if n in known then known[n] else Checksum(dir[n]))
  {
  }

  lemma ExecutedAre(applied: seq<string>, dir: Directory, ran: seq<Execution>)
    requires forall f :: f in applied ==> f in dir
    ensures (ran + Executions(applied, dir))[|ran|..] == Executions(applied, dir)
    ensures forall e :: e in Executions(applied, dir) <==> e.0 in applied && e.1 == dir[e.0]
  {
    var runs := Executions(applied, dir);
    forall e ensures e in runs <==> e.0 in applied && e.1 == dir[e.0] {
      if e.0 in applied && e.1 == dir[e.0] {
        var i :| 0 <= i < |applied| && applied[i] == e.0;
        assert runs[i] == e;
      }
    }
  }
}
