/**
 Runs of `Apply` over a fixed directory. Each run stops at the first database or file error; `budget` says how many
 calls succeed before that happens. The log lists every statement that ran and every file that was recorded.
 */
module MigrationRuns {
  import opened Ordering
  import opened Text
  import opened Migrate

  /** A migration file: its name and the statements its script splits into. */
  datatype File = File(name: string, stmts: seq<string>)

  datatype Event = Ran(file: string, stmt: string) | Recorded(file: string)

  datatype Progress = Progress(recorded: seq<string>, log: seq<Event>)

  /** The first `n` statements of a file, as log entries. */
  function Attempt(f: File, n: nat): (r: seq<Event>)
    requires n <= |f.stmts|
    ensures |r| == n
  {
    seq(n, i requires 0 <= i < n => Ran(f.name, f.stmts[i]))
  }

  function Skip(p: Progress, f: File, n: nat): Progress
    requires n <= |f.stmts|
  {
    Progress(p.recorded, p.log + Attempt(f, n))
  }

  function Complete(p: Progress, f: File): Progress {
    Progress(p.recorded + [f.name], p.log + Attempt(f, |f.stmts|) + [Recorded(f.name)])
  }

  /**
   From file `i` on: skip what is recorded, otherwise read, execute statement by statement, record. The read, each
   statement and the record take one call each.
   */
  function ApplyFrom(p: Progress, files: seq<File>, i: nat, budget: nat): (Progress, bool)
    requires i <= |files|
    decreases |files| - i
  {
    if i == |files| then (p, true)
    else if files[i].name in p.recorded then ApplyFrom(p, files, i + 1, budget)
    else if budget == 0 then (p, false)
    else if budget - 1 <= |files[i].stmts| then (Skip(p, files[i], budget - 1), false)
    else ApplyFrom(Complete(p, files[i]), files, i + 1, budget - 2 - |files[i].stmts|)
  }

  /** One run: preparing the tracking table, listing the directory and loading what is recorded take a call each. */
  function ApplyRun(p: Progress, files: seq<File>, budget: nat): (Progress, bool) {
    if budget < 3 then (p, false) else ApplyFrom(p, files, 0, budget - 3)
  }

  datatype Entry = Folder | Regular(text: string)

  const SUFFIX := ".up.sql"

  predicate IsMigration(dir: map<string, Entry>, name: string) {
    name in dir && dir[name].Regular? && HasSuffix(name, SUFFIX)
  }

  /** The names of the migration scripts of a directory, sorted. */
  function MigrationFiles(dir: map<string, Entry>): (names: seq<string>)
    ensures forall n :: n in names <==> IsMigration(dir, n)
    ensures Ordered(names, StringLess)
  {
    var found := set n | n in dir && IsMigration(dir, n);
    StringsTotal(found);
    SortBy(found, StringLess)
  }

  ghost predicate ListedSoFar(dir: map<string, Entry>, entries: seq<string>, files: seq<string>) {
    forall n :: n in files <==> n in entries && IsMigration(dir, n)
  }

  lemma OneEntryMore(dir: map<string, Entry>, entries: seq<string>, i: nat, files: seq<string>)
    requires i < |entries| && ListedSoFar(dir, entries[..i], files)
    ensures ListedSoFar(dir, entries[..i + 1], if IsMigration(dir, entries[i]) then files + [entries[i]] else files)
  {
    assert entries[..i + 1] == entries[..i] + [entries[i]];
  }

  lemma AllListed(dir: map<string, Entry>, entries: seq<string>, files: seq<string>, found: set<string>)
    requires ListedSoFar(dir, entries, files) && (forall n :: n in entries <==> n in dir)
    requires found == set n | n in files
    ensures found == set n | n in dir && IsMigration(dir, n)
  {
  }

  /** A list of names in ascending order, character by character. */
  ghost predicate Ascending(names: seq<string>) {
    forall i, j | 0 <= i < j < |names| :: Before(names[i], names[j])
  }

  lemma FilesAscend(dir: map<string, Entry>)
    ensures Ascending(MigrationFiles(dir))
  {
    var names := MigrationFiles(dir);
    forall i, j | 0 <= i < j < |names| ensures Before(names[i], names[j]) {
      StringLessIsBefore(names[i], names[j]);
    }
  }

  /** A script to run: a plain file of the directory whose name ends in .up.sql. */
  ghost predicate IsUpScript(dir: map<string, Entry>, name: string) {
    name in dir && dir[name].Regular? && exists stem: string :: name == stem + ".up.sql"
  }

  lemma MigrationsAreUpScripts(dir: map<string, Entry>, name: string)
    ensures IsMigration(dir, name) <==> IsUpScript(dir, name)
  {
    if IsMigration(dir, name) {
      var stem := name[..|name| - |SUFFIX|];
      assert name == stem + ".up.sql";
    }
    if IsUpScript(dir, name) {
      var stem: string :| name == stem + ".up.sql";
      assert name[|name| - |SUFFIX|..] == SUFFIX;
    }
  }

  /** Exactly the up scripts of the directory, in ascending order of names. */
  method ListMigrationFiles(dir: map<string, Entry>) returns (files: seq<string>)
    ensures files == MigrationFiles(dir)
    ensures forall n :: n in files <==> IsUpScript(dir, n)
    ensures Ascending(files)
  {
    FilesAscend(dir);
    forall n ensures IsMigration(dir, n) <==> IsUpScript(dir, n) {
      MigrationsAreUpScripts(dir, n);
    }
    StringsTotal(dir.Keys);
    var entries := SortBy(dir.Keys, StringLess);
    files := [];
    for i := 0 to |entries|
      invariant ListedSoFar(dir, entries[..i], files)
    {
      var name := entries[i];
      assert name in entries;
      OneEntryMore(dir, entries, i, files);
      if dir[name].Folder? {
        continue;
      }
      if HasSuffix(name, SUFFIX) {
        files := files + [name];
      }
    }
    assert entries[..|entries|] == entries;
    var found := set n | n in files;
    AllListed(dir, entries, files, found);
    StringsTotal(found);
    files := SortBy(found, StringLess);
  }

  /** The directory as the migrator works through it. */
  function Directory(dir: map<string, Entry>): (files: seq<File>)
    ensures |files| == |MigrationFiles(dir)|
  {
    var names := MigrationFiles(dir);
    seq(|names|, i requires 0 <= i < |names| =>
        assert names[i] in names; File(names[i], Statements(dir[names[i]].text)))
  }

  lemma DirectoryAt(dir: map<string, Entry>, i: nat)
    requires i < |MigrationFiles(dir)|
    ensures var name := MigrationFiles(dir)[i];
      IsMigration(dir, name) && Directory(dir)[i] == File(name, Statements(dir[name].text))
  {
    assert MigrationFiles(dir)[i] in MigrationFiles(dir);
  }

  predicate Distinct(files: seq<File>) {
    forall i, j | 0 <= i < j < |files| :: files[i].name != files[j].name
  }

  lemma DirectoryDistinct(dir: map<string, Entry>)
    ensures Distinct(Directory(dir))
  {
    var names := MigrationFiles(dir);
    forall i, j | 0 <= i < j < |names| ensures Directory(dir)[i].name != Directory(dir)[j].name {
      assert StringLess(names[i], names[j]);
      StringLessStrict(names[i]);
      DirectoryAt(dir, i);
      DirectoryAt(dir, j);
    }
  }

  /** `ok`, `left` and `q` are what becomes of one file's turn. */
  lemma ApplyHere(p: Progress, files: seq<File>, i: nat, budget: nat, q: Progress, left: nat, ok: bool)
    requires i < |files| && files[i].name !in p.recorded
    requires ok <==> budget >= |files[i].stmts| + 2
    requires ok ==> q == Complete(p, files[i]) && left == budget - 2 - |files[i].stmts|
    requires !ok ==> q == if budget == 0 then p else Skip(p, files[i], budget - 1)
    ensures ApplyFrom(p, files, i, budget) == if ok then ApplyFrom(q, files, i + 1, left) else (q, false)
  {
  }

  /** Recording one file leaves the rest as recorded or not as they were. */
  lemma OthersUnrecorded(dir: map<string, Entry>, i: nat, recorded: seq<string>, applied: set<string>)
    requires i < |MigrationFiles(dir)|
    requires forall j | i <= j < |MigrationFiles(dir)| :: MigrationFiles(dir)[j] in recorded <==>
        MigrationFiles(dir)[j] in applied
    ensures var names := MigrationFiles(dir);
      forall j | i < j < |names| :: names[j] in recorded + [names[i]] <==> names[j] in applied
  {
    var names := MigrationFiles(dir);
    forall j | i < j < |names| ensures names[j] != names[i] {
      assert StringLess(names[i], names[j]);
      StringLessStrict(names[i]);
    }
  }

  class Migrator {
    var progress: Progress

    constructor ()
      ensures progress == Progress([], [])
    {
      progress := Progress([], []);
    }

    /** Runs a file's statements until one fails. */
    method ExecScript(ghost f: File, name: string, script: string, budget: nat) returns (left: nat, ok: bool)
      requires f == File(name, Statements(script))
      modifies this
      ensures ok == (|f.stmts| <= budget)
      ensures progress == Skip(old(progress), f, if ok then |f.stmts| else budget)
      ensures ok ==> left == budget - |f.stmts|
    {
      var stmts := SplitStatements(script);
      left := budget;
      for i := 0 to |stmts|
        invariant left + i == budget
        invariant progress == Skip(old(progress), f, i)
      {
        if left == 0 {
          return left, false;
        }
        assert Attempt(f, i + 1) == Attempt(f, i) + [Ran(name, stmts[i])];
        progress := Progress(progress.recorded, progress.log + [Ran(name, stmts[i])]);
        left := left - 1;
      }
      ok := true;
    }

    /** Reads, executes and records one file. */
    method RunFile(ghost f: File, name: string, script: string, budget: nat) returns (left: nat, ok: bool)
      requires f == File(name, Statements(script))
      modifies this
      ensures ok <==> budget >= |f.stmts| + 2
      ensures ok ==> progress == Complete(old(progress), f) && left == budget - 2 - |f.stmts|
      ensures !ok ==> progress == if budget == 0 then old(progress) else Skip(old(progress), f, budget - 1)
    {
      if budget == 0 {
        return 0, false;
      }
      var ran;
      left, ran := ExecScript(f, name, script, budget - 1);
      if !ran || left == 0 {
        return left, false;
      }
      progress := Progress(progress.recorded + [name], progress.log + [Recorded(name)]);
      return left - 1, true;
    }

    /** One run over a directory; `budget` calls succeed. */
    method Apply(dir: map<string, Entry>, budget: nat) returns (ok: bool)
      modifies this
      ensures (progress, ok) == ApplyRun(old(progress), Directory(dir), budget)
    {
      if budget < 3 {
        return false;
      }
      var names := ListMigrationFiles(dir);
      var applied := set n | n in progress.recorded;
      var left: nat := budget - 3;
      ghost var files := Directory(dir);
      DirectoryDistinct(dir);
      for i := 0 to |names|
        invariant ApplyFrom(progress, files, i, left) == ApplyFrom(old(progress), files, 0, budget - 3)
        invariant forall j | i <= j < |names| :: names[j] in progress.recorded <==> names[j] in applied
      {
        var name := names[i];
        ghost var before := progress;
        DirectoryAt(dir, i);
        if name in applied {
          continue;
        }
        var rest, ran := RunFile(files[i], name, dir[name].text, left);
        ApplyHere(before, files, i, left, progress, rest, ran);
        left := rest;
        if !ran {
          return false;
        }
        OthersUnrecorded(dir, i, before.recorded, applied);
      }
      ok := true;
    }
  }

  // ----- The shape of what has happened -----

  predicate AtMost(tries: seq<nat>, n: nat) { forall t | t in tries :: t <= n }

  /** Broken-off executions of one file, one per entry of `tries`. */
  function Attempts(f: File, tries: seq<nat>): seq<Event>
    requires AtMost(tries, |f.stmts|)
  {
    if tries == [] then [] else
      assert tries[|tries| - 1] in tries;
      var front := tries[..|tries| - 1];
      assert forall t | t in front :: t in tries;
      Attempts(f, front) + Attempt(f, tries[|tries| - 1])
  }

  ghost predicate TriesOk(files: seq<File>, tries: seq<seq<nat>>) {
    |tries| <= |files| && forall i | 0 <= i < |tries| :: AtMost(tries[i], |files[i].stmts|)
  }

  /** Every recorded file: its broken-off attempts, one complete execution, the record. */
  ghost function Completed(files: seq<File>, tries: seq<seq<nat>>): seq<Event>
    requires TriesOk(files, tries)
  {
    if tries == [] then [] else
      var k := |tries| - 1;
      Completed(files, tries[..k]) + Attempts(files[k], tries[k]) + Attempt(files[k], |files[k].stmts|)
          + [Recorded(files[k].name)]
  }

  function Names(files: seq<File>): seq<string> {
    seq(|files|, i requires 0 <= i < |files| => files[i].name)
  }

  /**
   As many files as `done` has entries are recorded, in order, and each has been completed; of the next file there
   are only the attempts in `open`.
   */
  ghost predicate Shape(p: Progress, files: seq<File>, done: seq<seq<nat>>, open: seq<nat>) {
    && TriesOk(files, done)
    && p.recorded == Names(files[..|done|])
    && (if |done| < |files| then AtMost(open, |files[|done|].stmts|) else open == [])
    && p.log == Completed(files, done) + (if |done| < |files| then Attempts(files[|done|], open) else [])
  }

  lemma AttemptsSnoc(f: File, tries: seq<nat>, n: nat)
    requires AtMost(tries, |f.stmts|) && n <= |f.stmts|
    ensures AtMost(tries + [n], |f.stmts|)
    ensures Attempts(f, tries + [n]) == Attempts(f, tries) + Attempt(f, n)
  {
    assert (tries + [n])[..|tries|] == tries;
  }

  lemma OneMoreAttempt(p: Progress, files: seq<File>, done: seq<seq<nat>>, open: seq<nat>, n: nat)
    requires Shape(p, files, done, open) && |done| < |files| && n <= |files[|done|].stmts|
    ensures Shape(Skip(p, files[|done|], n), files, done, open + [n])
  {
    var f, c := files[|done|], Completed(files, done);
    AttemptsSnoc(f, open, n);
    assert c + Attempts(f, open) + Attempt(f, n) == c + (Attempts(f, open) + Attempt(f, n));
  }

  lemma CompleteAndRecord(p: Progress, files: seq<File>, done: seq<seq<nat>>, open: seq<nat>)
    requires Shape(p, files, done, open) && |done| < |files|
    ensures Shape(Complete(p, files[|done|]), files, done + [open], [])
  {
    var k := |done|;
    assert (done + [open])[..k] == done;
    assert Names(files[..k + 1]) == Names(files[..k]) + [files[k].name];
  }

  lemma ShapeSkips(p: Progress, files: seq<File>, i: nat, budget: nat, done: seq<seq<nat>>, open: seq<nat>)
    requires Shape(p, files, done, open) && i < |done|
    ensures i < |files| && ApplyFrom(p, files, i, budget) == ApplyFrom(p, files, i + 1, budget)
  {
    assert Names(files[..|done|])[i] == files[i].name;
  }

  /** One file's worth of a run, at the first file not yet recorded. */
  lemma {:induction false} ShapeStep(p: Progress, files: seq<File>, budget: nat, done: seq<seq<nat>>, open: seq<nat>)
    requires Distinct(files) && Shape(p, files, done, open) && |done| < |files|
    ensures var f := files[|done|];
      ApplyFrom(p, files, |done|, budget) ==
        if budget == 0 then (p, false)
        else if budget - 1 <= |f.stmts| then (Skip(p, f, budget - 1), false)
        else ApplyFrom(Complete(p, f), files, |done| + 1, budget - 2 - |f.stmts|)
  {
    assert files[|done|].name !in p.recorded;
  }

  /** The run breaks off in the first file not yet recorded. */
  lemma {:induction false} BreaksOff(p: Progress, files: seq<File>, budget: nat, done: seq<seq<nat>>, open: seq<nat>,
        r: (Progress, bool))
    returns (open': seq<nat>)
    requires Distinct(files) && Shape(p, files, done, open) && |done| < |files|
    requires budget < |files[|done|].stmts| + 2 && r == ApplyFrom(p, files, |done|, budget)
    ensures Shape(r.0, files, done, open') && !r.1
  {
    ShapeStep(p, files, budget, done, open);
    if budget == 0 {
      open' := open;
    } else {
      OneMoreAttempt(p, files, done, open, budget - 1);
      open' := open + [budget - 1];
    }
  }

  /** The run gets through the first file not yet recorded. */
  lemma {:induction false} GetsThrough(p: Progress, files: seq<File>, budget: nat, done: seq<seq<nat>>, open: seq<nat>,
        q: Progress, left: nat)
    requires Distinct(files) && Shape(p, files, done, open) && |done| < |files|
    requires budget == left + |files[|done|].stmts| + 2 && q == Complete(p, files[|done|])
    ensures Shape(q, files, done + [open], [])
    ensures ApplyFrom(p, files, |done|, budget) == ApplyFrom(q, files, |done| + 1, left)
  {
    ShapeStep(p, files, budget, done, open);
    CompleteAndRecord(p, files, done, open);
  }

  lemma {:induction false} ApplyShape(p: Progress, files: seq<File>, i: nat, budget: nat, done: seq<seq<nat>>,
        open: seq<nat>, r: (Progress, bool))
    returns (done': seq<seq<nat>>, open': seq<nat>)
    requires Distinct(files) && i <= |files| && Shape(p, files, done, open) && i <= |done|
    requires r == ApplyFrom(p, files, i, budget)
    ensures Shape(r.0, files, done', open') && (r.1 ==> |done'| == |files|)
    decreases |files| - i
  {
    if i == |files| {
      done', open' := done, open;
    } else if i < |done| {
      ShapeSkips(p, files, i, budget, done, open);
      done', open' := ApplyShape(p, files, i + 1, budget, done, open, r);
    } else if budget < |files[i].stmts| + 2 {
      done' := done;
      open' := BreaksOff(p, files, budget, done, open, r);
    } else {
      var q, left := Complete(p, files[i]), budget - 2 - |files[i].stmts|;
      GetsThrough(p, files, budget, done, open, q, left);
      done', open' := ApplyShape(q, files, i + 1, left, done + [open], [], r);
    }
  }

  lemma {:induction false} RunKeepsShape(p: Progress, files: seq<File>, budget: nat, done: seq<seq<nat>>,
        open: seq<nat>)
    returns (done': seq<seq<nat>>, open': seq<nat>)
    requires Distinct(files) && Shape(p, files, done, open)
    ensures Shape(ApplyRun(p, files, budget).0, files, done', open')
    ensures ApplyRun(p, files, budget).1 ==> |done'| == |files|
  {
    if budget < 3 {
      done', open' := done, open;
    } else {
      done', open' := ApplyShape(p, files, 0, budget - 3, done, open, ApplyRun(p, files, budget));
    }
  }

  /** One `Apply` after another, each stopped after its own number of successful calls. */
  function Runs(files: seq<File>, budgets: seq<nat>): Progress {
    if budgets == [] then Progress([], []) else
      ApplyRun(Runs(files, budgets[..|budgets| - 1]), files, budgets[|budgets| - 1]).0
  }

  lemma RecordedAscends(dir: map<string, Entry>, p: Progress, done: seq<seq<nat>>, open: seq<nat>)
    requires Shape(p, Directory(dir), done, open)
    ensures p.recorded <= MigrationFiles(dir) && Ascending(p.recorded)
  {
    FilesAscend(dir);
    var names := MigrationFiles(dir);
    forall i | 0 <= i < |p.recorded| ensures p.recorded[i] == names[i] {
      DirectoryAt(dir, i);
    }
  }

  /**
   After any sequence of runs, however each was cut short: the recorded names are a prefix of the sorted file list, and
   the log is, file by file in that order, a number of broken-off attempts and then a complete execution directly
   before the record; the first unrecorded file has attempts only.
   */
  lemma {:induction false} RunsShape(dir: map<string, Entry>, budgets: seq<nat>)
    returns (done: seq<seq<nat>>, open: seq<nat>)
    ensures Shape(Runs(Directory(dir), budgets), Directory(dir), done, open)
    ensures var recorded := Runs(Directory(dir), budgets).recorded;
      recorded <= MigrationFiles(dir) && Ascending(recorded)
  {
    if budgets == [] {
      done, open := [], [];
    } else {
      var files, front := Directory(dir), budgets[..|budgets| - 1];
      DirectoryDistinct(dir);
      done, open := RunsShape(dir, front);
      done, open := RunKeepsShape(Runs(files, front), files, budgets[|budgets| - 1], done, open);
    }
    RecordedAscends(dir, Runs(Directory(dir), budgets), done, open);
  }

  lemma {:induction false} SkipsAll(p: Progress, files: seq<File>, i: nat, budget: nat)
    requires i <= |files| && p.recorded == Names(files)
    ensures ApplyFrom(p, files, i, budget) == (p, true)
    decreases |files| - i
  {
    if i < |files| {
      assert Names(files)[i] == files[i].name;
      SkipsAll(p, files, i + 1, budget);
    }
  }

  /** With every file recorded a run has nothing to do. */
  lemma NothingLeft(p: Progress, files: seq<File>, budget: nat)
    requires p.recorded == Names(files)
    ensures ApplyRun(p, files, budget) == (p, budget >= 3)
  {
    if budget >= 3 {
      SkipsAll(p, files, 0, budget - 3);
    }
  }

  lemma AllRecorded(p: Progress, files: seq<File>, done: seq<seq<nat>>, open: seq<nat>)
    requires Shape(p, files, done, open) && |done| == |files|
    ensures p.recorded == Names(files)
  {
    assert files[..|files|] == files;
  }

  lemma CleanRunRecordsAll(dir: map<string, Entry>, budgets: seq<nat>, last: nat)
    requires ApplyRun(Runs(Directory(dir), budgets), Directory(dir), last).1
    ensures ApplyRun(Runs(Directory(dir), budgets), Directory(dir), last).0.recorded == Names(Directory(dir))
  {
    var files := Directory(dir);
    var p := Runs(files, budgets);
    DirectoryDistinct(dir);
    var done0, open0 := RunsShape(dir, budgets);
    var done, open := RunKeepsShape(p, files, last, done0, open0);
    AllRecorded(ApplyRun(p, files, last).0, files, done, open);
  }

  /** Once a run has returned without error, every file is recorded and a further run executes no statement. */
  lemma SecondRunDoesNothing(dir: map<string, Entry>, budgets: seq<nat>, last: nat, again: nat)
    requires ApplyRun(Runs(Directory(dir), budgets), Directory(dir), last).1
    ensures var p := ApplyRun(Runs(Directory(dir), budgets), Directory(dir), last).0;
      p.recorded == Names(Directory(dir)) && ApplyRun(p, Directory(dir), again) == (p, again >= 3)
  {
    CleanRunRecordsAll(dir, budgets, last);
    NothingLeft(ApplyRun(Runs(Directory(dir), budgets), Directory(dir), last).0, Directory(dir), again);
  }

  /** Calls it takes at most to get through the files from `i` on: a read, the statements and the record for each. */
  function Cost(files: seq<File>, i: nat): nat
    requires i <= |files|
    decreases |files| - i
  {
    if i == |files| then 0 else 2 + |files[i].stmts| + Cost(files, i + 1)
  }

  lemma {:induction false} EnoughFrom(p: Progress, files: seq<File>, i: nat, budget: nat)
    requires i <= |files| && budget >= Cost(files, i)
    ensures ApplyFrom(p, files, i, budget).1
    decreases |files| - i
  {
    if i < |files| {
      if files[i].name in p.recorded {
        EnoughFrom(p, files, i + 1, budget);
      } else {
        EnoughFrom(Complete(p, files[i]), files, i + 1, budget - 2 - |files[i].stmts|);
      }
    }
  }

  lemma EnoughRuns(p: Progress, files: seq<File>, last: nat)
    requires last >= 3 + Cost(files, 0)
    ensures ApplyRun(p, files, last).1
  {
    EnoughFrom(p, files, 0, last - 3);
  }

  lemma NamesOfDirectory(dir: map<string, Entry>)
    ensures Names(Directory(dir)) == MigrationFiles(dir)
  {
    forall i | 0 <= i < |MigrationFiles(dir)| ensures Names(Directory(dir))[i] == MigrationFiles(dir)[i] {
      DirectoryAt(dir, i);
    }
  }

  /** However earlier runs broke off, the next one with enough calls succeeding records every script. */
  lemma RunsCatchUp(dir: map<string, Entry>, budgets: seq<nat>, last: nat)
    requires last >= 3 + Cost(Directory(dir), 0)
    ensures var r := ApplyRun(Runs(Directory(dir), budgets), Directory(dir), last);
      r.1 && r.0.recorded == MigrationFiles(dir)
  {
    EnoughRuns(Runs(Directory(dir), budgets), Directory(dir), last);
    CleanRunRecordsAll(dir, budgets, last);
    NamesOfDirectory(dir);
  }

  /** A migrator started again and again over one directory. */
  method RunAgain(dir: map<string, Entry>, budgets: seq<nat>) returns (p: Progress)
    ensures p == Runs(Directory(dir), budgets)
  {
    var m := new Migrator();
    for i := 0 to |budgets|
      invariant fresh(m) && m.progress == Runs(Directory(dir), budgets[..i])
    {
      assert budgets[..i + 1][..i] == budgets[..i];
      var ok := m.Apply(dir, budgets[i]);
    }
    assert budgets[..|budgets|] == budgets;
    p := m.progress;
  }
}
