/** The migration runner: files sorted by name, each pending one applied in its own transaction together with the
    version row. */
module Migrations {
  import opened Common
  import opened CheckDigits

  // ---------------------------------------------------------------- file names

  /** Byte-wise string order, as sort.Strings uses it. */
  predicate Before(a: string, b: string)
    decreases |a|
  {
    if b == [] then false
    else if a == [] then true
    else if a[0] != b[0] then a[0] < b[0]
    else Before(a[1..], b[1..])
  }

  /** The leading digits of a name. */
  function Prefix(name: string): (p: string)
    ensures |p| <= |name| && p == name[..|p|]
    ensures |p| < |name| ==> !IsDigit(name[|p|])
    ensures forall i :: 0 <= i < |p| ==> IsDigit(p[i])
  {
    if name == [] || !IsDigit(name[0]) then [] else [name[0]] + Prefix(name[1..])
  }

  function Pow10(n: nat): (r: nat)
    ensures r >= 1
  {
    if n == 0 then 1 else 10 * Pow10(n - 1)
  }

  function Number(digits: string): (v: nat)
    requires forall i :: 0 <= i < |digits| ==> IsDigit(digits[i])
    ensures v < Pow10(|digits|)
  {
    if digits == [] then 0
    else
      assert IsDigit(digits[0]);
      DigitTimes(DigitOf(digits[0]), Pow10(|digits| - 1));
      DigitOf(digits[0]) * Pow10(|digits| - 1) + Number(digits[1..])
  }

  lemma DigitTimes(d: nat, n: nat)
    requires d <= 9
    ensures 0 <= d * n <= 9 * n
    ensures d >= 1 ==> n <= d * n
  {
  }

  lemma {:induction false} Multiples(x: nat, y: nat, n: nat)
    requires x < y
    ensures x * n + n <= y * n
    decreases y
  {
    assert y * n == (y - 1) * n + n;
    if x < y - 1 { Multiples(x, y - 1, n); }
  }

  /** Sscanf("%d"): no leading digit is an error. */
  function Version(name: string): Option<nat> {
    if Prefix(name) == [] then None else Some(Number(Prefix(name)))
  }

  /** A name has a version exactly when it starts with a digit. */
  lemma NoVersionExactly(name: string)
    ensures Version(name).None? <==> name == "" || !IsDigit(name[0])
  {
    hide Number;
  }

  predicate AllDecimal(digits: string) { forall i :: 0 <= i < |digits| ==> IsDigit(digits[i]) }

  /** And the version is the decimal number it starts with. */
  lemma VersionExact(digits: string, c: char, rest: string)
    requires AllDecimal(digits) && IsDigit(c) && (rest == [] || !IsDigit(rest[0]))
    ensures Version(digits + [c] + rest) == Some(10 * Number(digits) + DigitOf(c))
  {
    hide Number, Prefix;
    NumberSnoc(digits, c);
    PrefixOf(digits + [c], rest);
  }

  lemma {:induction false} PrefixOf(digits: string, rest: string)
    requires (forall i :: 0 <= i < |digits| ==> IsDigit(digits[i])) && (rest == [] || !IsDigit(rest[0]))
    ensures Prefix(digits + rest) == digits
  {
    if digits == [] {
      assert [] + rest == rest;
    } else {
      PrefixOf(digits[1..], rest);
      assert (digits + rest)[1..] == digits[1..] + rest;
    }
  }

  lemma {:induction false} NumberSnoc(digits: string, c: char)
    requires IsDigit(c) && forall i :: 0 <= i < |digits| ==> IsDigit(digits[i])
    ensures Number(digits + [c]) == 10 * Number(digits) + DigitOf(c)
  {
    if digits == [] {
      assert [] + [c] == [c] && [c][1..] == [];
    } else {
      NumberSnoc(digits[1..], c);
      assert (digits + [c])[1..] == digits[1..] + [c];
      var d, n := DigitOf(digits[0]), |digits|;
      assert Pow10(n) == 10 * Pow10(n - 1);
      assert d * (10 * Pow10(n - 1)) == 10 * (d * Pow10(n - 1));
    }
  }

  // ---------------------------------------------------------------- string order against numeric order

  lemma {:induction false} SameWidthDigits(p: string, q: string)
    requires (forall i :: 0 <= i < |p| ==> IsDigit(p[i])) && (forall i :: 0 <= i < |q| ==> IsDigit(q[i]))
    requires |p| == |q| && (p == q || Before(p, q))
    ensures Number(p) <= Number(q)
  {
    hide Pow10;
    if p != [] {
      if p[0] == q[0] {
        SameWidthDigits(p[1..], q[1..]);
      } else {
        Multiples(DigitOf(p[0]), DigitOf(q[0]), Pow10(|p| - 1));
      }
    }
  }

  lemma {:induction false} BeforePrefix(a: string, b: string)
    requires |Prefix(a)| == |Prefix(b)| && Before(a, b)
    ensures Prefix(a) == Prefix(b) || Before(Prefix(a), Prefix(b))
    decreases |a|
  {
    if Prefix(a) != [] && a[0] == b[0] {
      BeforePrefix(a[1..], b[1..]);
      assert Prefix(a)[1..] == Prefix(a[1..]) && Prefix(b)[1..] == Prefix(b[1..]);
    }
  }

  /** Two prefixes are comparable when they have the same width, or the narrower one is zero-padded and the wider one
      is not. */
  predicate Comparable(p: string, q: string) {
    || |p| == |q|
    || (0 < |p| < |q| && p[0] == '0' && q[0] != '0')
    || (0 < |q| < |p| && q[0] == '0' && p[0] != '0')
  }

  lemma {:induction false} Pow10Monotone(m: nat, n: nat)
    requires m <= n
    ensures Pow10(m) <= Pow10(n)
  {
    if m < n { Pow10Monotone(m, n - 1); }
  }

  lemma {:induction false} WiderIsLarger(p: string, q: string)
    requires (forall i :: 0 <= i < |p| ==> IsDigit(p[i])) && (forall i :: 0 <= i < |q| ==> IsDigit(q[i]))
    requires 0 < |p| < |q| && q[0] != '0'
    ensures Number(p) < Number(q)
  {
    hide Pow10, Number;
    Pow10Monotone(|p|, |q| - 1);
    LeadingDigit(q);
  }

  lemma {:induction false} LeadingDigit(q: string)
    requires (forall i :: 0 <= i < |q| ==> IsDigit(q[i])) && 0 < |q| && q[0] != '0'
    ensures Pow10(|q| - 1) <= Number(q)
  {
    hide Pow10;
    DigitTimes(DigitOf(q[0]), Pow10(|q| - 1));
  }

  /** For comparable prefixes, string order of the names never contradicts numeric order of the versions. */
  lemma {:induction false} StringOrderIsNumeric(a: string, b: string)
    requires Comparable(Prefix(a), Prefix(b)) && Before(a, b)
    ensures Number(Prefix(a)) <= Number(Prefix(b))
  {
    var p, q := Prefix(a), Prefix(b);
    if |p| == |q| {
      BeforePrefix(a, b);
      SameWidthDigits(p, q);
    } else if |p| < |q| {
      WiderIsLarger(p, q);
    }
  }

  // ---------------------------------------------------------------- the runner

  /** A migration file that parsed: its version and the statements it holds. */
  datatype Migration = Migration(version: nat, content: string)

  datatype VersionRow = VersionRow(version: nat, dirty: bool)

  /** The schema as the statements executed so far, and the schema_migrations row. */
  datatype Database = Database(schema: seq<string>, row: Option<VersionRow>)

  const FRESH: Database := Database([], None)

  function CurrentVersion(db: Database): nat { if db.row.Some? then db.row.value.version else 0 }

  /** A dirty row stops the runner before it does anything. */
  predicate Dirty(db: Database) { db.row.Some? && db.row.value.dirty }

  function Applied(db: Database, m: Migration): Database { Database(db.schema + [m.content], Some(VersionRow(m.version, false))) }

  /** How the application of one file ends. Every failure kills the runner; `CommitReplyLost` is a commit that took
      effect before it died. */
  datatype Fate = Unreadable | BeginFails | ClearFails | MarkFails | ScriptFails | UnmarkFails | CommitFails | CommitReplyLost | Succeeds

  class Runner {
    var db: Database

    constructor ()
      ensures db == FRESH
    {
      db := FRESH;
    }

    /** applyMigration; returns whether the runner is still alive. The dirty row never gets out of the transaction. */
    method ApplyMigration(m: Migration, fate: Fate) returns (alive: bool)
      modifies this
      ensures db == if fate.CommitReplyLost? || fate.Succeeds? then Applied(old(db), m) else old(db)
      ensures alive <==> fate.Succeeds?
      ensures alive ==> db == Database(old(db.schema) + [m.content], Some(VersionRow(m.version, false)))
    {
      if fate.Unreadable? || fate.BeginFails? { return false; }
      var tx := db;
      if fate.ClearFails? { return false; }
      tx := tx.(row := None);
      if fate.MarkFails? { return false; }
      tx := tx.(row := Some(VersionRow(m.version, true)));
      if fate.ScriptFails? { return false; }
      tx := tx.(schema := tx.schema + [m.content]);
      if fate.UnmarkFails? { return false; }
      tx := tx.(row := Some(VersionRow(m.version, false)));
      if fate.CommitFails? { return false; }
      db := tx;
      return fate.Succeeds?;
    }

    /** applyPendingMigrations on the sorted file names; the j-th file it applies meets `fates[j]`, and files beyond the
        list succeed. A name without a version kills the runner. */
    method ApplyPending(names: seq<string>, read: string -> string, fates: seq<Fate>)
      modifies this
      ensures var ms := Load(names, read);
              db == Run(old(db), ms, Survives(fates, |ms|))
      ensures old(db.row) != None && old(db.row).value.dirty ==> db == old(db)
    {
      hide *;
      ghost var ms := Load(names, read);
      var dirty := Dirty(db);
      RunStarts(db, ms, Survives(fates, |ms|));
      if dirty { return; }
      var current := CurrentVersion(db);
      var j := 0;
      assert names[0..] == names && ms[0..] == ms && From(fates, 0) == fates by { FromStart(fates); }
      for i := 0 to |names|
        invariant 0 <= j <= i <= |ms| && Load(names[i..], read) == ms[i..]
        invariant RunFrom(old(db), ms, current, Survives(fates, |ms|)) == RunFrom(db, ms[i..], current, Survives(From(fates, j), |ms| - j))
      {
        LoadStep(names, read, ms, i);
        var version := Version(names[i]);
        if version.None? {
          NoFiles(db, current, Survives(From(fates, j), |ms| - j));
          return;
        }
        var m := Migration(version.value, read(names[i]));
        var fate := if j < |fates| then fates[j] else Succeeds;
        RunStep(db, ms[i..], current, fates, j, |ms| - j);
        assert ms[i..][1..] == ms[i + 1..];
        if m.version > current {
          var alive := ApplyMigration(m, fate);
          j := j + 1;
          if !alive {
            NothingLeft(db, ms[i + 1..], current);
            return;
          }
        }
      }
      assert ms[|names|..] == [];
      NoFiles(db, current, Survives(From(fates, j), |ms| - j));
    }
  }

  /** How many applications take effect before the first failure, at most `max`. */
  function Survives(fates: seq<Fate>, max: nat): (n: nat)
    ensures n <= max
    decreases max
  {
    if max == 0 then 0
    else if fates == [] then max
    else if fates[0].Succeeds? then 1 + Survives(fates[1..], max - 1)
    else if fates[0].CommitReplyLost? then 1 else 0
  }

  lemma {:induction false} NothingLeft(db: Database, ms: seq<Migration>, current: nat)
    ensures RunFrom(db, ms, current, 0) == db
    decreases |ms|
  {
    if ms != [] && ms[0].version <= current { NothingLeft(db, ms[1..], current); }
  }

  lemma NoFiles(db: Database, current: nat, budget: nat)
    ensures RunFrom(db, [], current, budget) == db
  {
  }

  lemma RunStarts(db: Database, ms: seq<Migration>, budget: nat)
    ensures Run(db, ms, budget) == if Dirty(db) then db else RunFrom(db, ms, CurrentVersion(db), budget)
    ensures Dirty(db) <==> db.row != None && db.row.value.dirty
  {
  }

  function From<T>(s: seq<T>, j: nat): seq<T> { if j <= |s| then s[j..] else [] }

  lemma FromStart<T>(s: seq<T>)
    ensures From(s, 0) == s
  {
  }

  /** The next file either is skipped or meets the next fate. */
  lemma RunStep(db: Database, ms: seq<Migration>, current: nat, fates: seq<Fate>, j: nat, max: nat)
    requires ms != [] && max >= |ms|
    ensures var fate := if j < |fates| then fates[j] else Succeeds;
            RunFrom(db, ms, current, Survives(From(fates, j), max)) ==
              if ms[0].version <= current then RunFrom(db, ms[1..], current, Survives(From(fates, j), max))
              else if fate.Succeeds? then RunFrom(Applied(db, ms[0]), ms[1..], current, Survives(From(fates, j + 1), max - 1))
              else RunFrom(if fate.CommitReplyLost? then Applied(db, ms[0]) else db, ms[1..], current, 0)
  {
    hide Applied;
    assert j < |fates| ==> From(fates, j)[1..] == From(fates, j + 1);
    NothingLeft(db, ms[1..], current);
  }

  /** One process: it read `current` when it started and survives `budget` more applications. */
  function RunFrom(db: Database, ms: seq<Migration>, current: nat, budget: nat): Database
    decreases |ms|
  {
    if ms == [] then db
    else if ms[0].version <= current then RunFrom(db, ms[1..], current, budget)
    else if budget == 0 then db
    else RunFrom(Applied(db, ms[0]), ms[1..], current, budget - 1)
  }

  function Run(db: Database, ms: seq<Migration>, budget: nat): Database {
    if Dirty(db) then db else RunFrom(db, ms, CurrentVersion(db), budget)
  }

  function RunAll(db: Database, ms: seq<Migration>, budgets: seq<nat>): Database
    decreases |budgets|
  {
    if budgets == [] then db else RunAll(Run(db, ms, budgets[0]), ms, budgets[1..])
  }

  predicate Ascending(ms: seq<Migration>) {
    && (forall i :: 0 <= i < |ms| ==> ms[i].version > 0)
    && (forall i, j :: 0 <= i < j < |ms| ==> ms[i].version < ms[j].version)
  }

  function Contents(ms: seq<Migration>): (r: seq<string>)
    ensures |r| == |ms|
  {
    if ms == [] then [] else Contents(ms[..|ms| - 1]) + [ms[|ms| - 1].content]
  }

  /** The database after exactly the first n migrations. */
  function Reached(ms: seq<Migration>, n: nat): Database
    requires n <= |ms|
  {
    Database(Contents(ms[..n]), if n == 0 then None else Some(VersionRow(ms[n - 1].version, false)))
  }

  lemma ReachedNext(ms: seq<Migration>, n: nat)
    requires n < |ms|
    ensures Applied(Reached(ms, n), ms[n]) == Reached(ms, n + 1)
  {
    assert ms[..n + 1][..n] == ms[..n] && ms[..n + 1][n] == ms[n];
  }

  lemma ReachedVersion(ms: seq<Migration>, n: nat)
    requires n <= |ms|
    ensures CurrentVersion(Reached(ms, n)) == if n == 0 then 0 else ms[n - 1].version
  {
  }

  /** From position i of the file list, a process that started at version(n) with i <= n or i at the frontier goes on
      to apply the next `budget` migrations in order. */
  lemma {:induction false} RunFromPrefix(ms: seq<Migration>, i: nat, n: nat, at: nat, budget: nat)
    requires Ascending(ms) && i <= |ms| && n <= at <= |ms|
    requires (i <= n && at == n) || at == i
    ensures RunFrom(Reached(ms, at), ms[i..], CurrentVersion(Reached(ms, n)), budget)
         == Reached(ms, if at + budget <= |ms| then at + budget else |ms|)
    decreases |ms| - i
  {
    hide Contents, Applied, Reached;
    ReachedVersion(ms, n);
    if i < |ms| {
      assert ms[i..][0] == ms[i] && ms[i..][1..] == ms[i + 1..];
      if i < n {
        assert ms[i].version <= ms[n - 1].version;
        RunFromPrefix(ms, i + 1, n, at, budget);
      } else {
        assert n > 0 ==> ms[n - 1].version < ms[i].version;
        if budget > 0 {
          ReachedNext(ms, at);
          RunFromPrefix(ms, i + 1, n, at + 1, budget - 1);
        }
      }
    }
  }

  lemma RunExtendsPrefix(ms: seq<Migration>, n: nat, budget: nat)
    requires Ascending(ms) && n <= |ms|
    ensures Run(Reached(ms, n), ms, budget) == Reached(ms, if n + budget <= |ms| then n + budget else |ms|)
  {
    assert ms[0..] == ms;
    RunFromPrefix(ms, 0, n, n, budget);
  }

  /** Any sequence of crashed processes keeps the database at some complete prefix, never dirty. */
  lemma {:induction false} CrashesKeepPrefix(ms: seq<Migration>, n: nat, budgets: seq<nat>) returns (k: nat)
    requires Ascending(ms) && n <= |ms|
    ensures n <= k <= |ms| && RunAll(Reached(ms, n), ms, budgets) == Reached(ms, k)
    decreases |budgets|
  {
    hide Reached, Run;
    k := n;
    if budgets != [] {
      RunExtendsPrefix(ms, n, budgets[0]);
      k := CrashesKeepPrefix(ms, if n + budgets[0] <= |ms| then n + budgets[0] else |ms|, budgets[1..]);
    }
  }

  /** Any sequence of crashed runs followed by a complete one gives the database of one uninterrupted run: every
      migration applied once, in order, with the last version recorded. */
  lemma CrashSafe(ms: seq<Migration>, budgets: seq<nat>, last: nat)
    requires Ascending(ms) && last >= |ms|
    ensures Run(RunAll(FRESH, ms, budgets), ms, last) == Run(FRESH, ms, |ms|) == Reached(ms, |ms|)
  {
    assert Reached(ms, 0) == FRESH;
    var k := CrashesKeepPrefix(ms, 0, budgets);
    RunExtendsPrefix(ms, k, last);
    RunExtendsPrefix(ms, 0, |ms|);
  }

  /** The migrations the runner gets to see: the sorted files up to the first name without a version. */
  function Load(names: seq<string>, read: string -> string): (ms: seq<Migration>)
    ensures |ms| <= |names|
    ensures forall i :: 0 <= i < |ms| ==> Version(names[i]) == Some(ms[i].version) && ms[i].content == read(names[i])
    ensures |ms| < |names| ==> Version(names[|ms|]).None?
  {
    if names == [] || Version(names[0]).None? then []
    else [Migration(Version(names[0]).value, read(names[0]))] + Load(names[1..], read)
  }

  /** The step from one file name to the next. */
  lemma LoadStep(names: seq<string>, read: string -> string, ms: seq<Migration>, i: nat)
    requires i < |names| && i <= |ms| && Load(names[i..], read) == ms[i..]
    ensures Version(names[i]).None? ==> ms[i..] == []
    ensures Version(names[i]).Some? ==>
              i < |ms| && ms[i] == Migration(Version(names[i]).value, read(names[i])) && Load(names[i + 1..], read) == ms[i + 1..]
  {
    hide Version;
    assert names[i..][0] == names[i] && names[i..][1..] == names[i + 1..];
    if Version(names[i]).Some? {
      assert ms[i..][0] == ms[i] && ms[i..][1..] == ms[i + 1..];
    }
  }

  /** `a` is listed before `b`, their prefixes are comparable and they have different versions, if any. */
  predicate InOrder(a: string, b: string) {
    Before(a, b) && Comparable(Prefix(a), Prefix(b)) && (Version(a).Some? ==> Version(a) != Version(b))
  }

  lemma {:induction false} InOrderAscends(a: string, b: string)
    requires InOrder(a, b) && Version(a).Some? && Version(b).Some?
    ensures Version(a).value < Version(b).value
  {
    hide Before, Comparable;
    StringOrderIsNumeric(a, b);
  }

  /** Sorted file names: each pair in order, and no version zero. */
  predicate WellNamed(names: seq<string>) {
    && (forall i :: 0 <= i < |names| ==> Version(names[i]) != Some(0))
    && (forall i, j :: 0 <= i < j < |names| ==> InOrder(names[i], names[j]))
  }

  lemma WellNamedPair(names: seq<string>, i: nat, j: nat)
    requires WellNamed(names) && i < j < |names| && Version(names[i]).Some? && Version(names[j]).Some?
    ensures Version(names[i]).value < Version(names[j]).value
  {
    hide InOrder, Version;
    InOrderAscends(names[i], names[j]);
  }

  /** Sorted names with comparable prefixes and distinct positive versions are in ascending version order, which is
      what the crash-safety theorem asks for. */
  lemma {:induction false} SortedNamesAscend(names: seq<string>, read: string -> string, ms: seq<Migration>)
    requires WellNamed(names) && ms == Load(names, read)
    ensures Ascending(ms)
  {
    hide WellNamed, Version, Load;
    forall i | 0 <= i < |ms| ensures ms[i].version > 0 { NamedPositive(names, i); }
    forall i, j | 0 <= i < j < |ms| ensures ms[i].version < ms[j].version { WellNamedPair(names, i, j); }
  }

  lemma NamedPositive(names: seq<string>, i: nat)
    requires WellNamed(names) && i < |names|
    ensures Version(names[i]) != Some(0)
  {
    hide Version;
  }

  // ---------------------------------------------------------------- why the order of the files matters

  lemma {:induction false} FullRun(db: Database, ms: seq<Migration>, current: nat, budget: nat)
    requires budget >= |ms| && forall i :: 0 <= i < |ms| ==> ms[i].version > current
    ensures ms != [] ==> RunFrom(db, ms, current, budget).row == Some(VersionRow(ms[|ms| - 1].version, false))
    decreases |ms|
  {
    if |ms| > 0 {
      FullRun(Applied(db, ms[0]), ms[1..], current, budget - 1);
      if |ms| == 1 { assert ms[1..] == []; }
    }
  }

  lemma {:induction false} QuietExactly(db: Database, ms: seq<Migration>, current: nat, budget: nat)
    requires budget >= 1
    ensures RunFrom(db, ms, current, budget).schema == db.schema <==> forall i :: 0 <= i < |ms| ==> ms[i].version <= current
    ensures |RunFrom(db, ms, current, budget).schema| >= |db.schema|
    decreases |ms|
  {
    if ms != [] {
      if ms[0].version <= current {
        QuietExactly(db, ms[1..], current, budget);
        assert forall i :: 1 <= i < |ms| ==> ms[i] == ms[1..][i - 1];
      } else {
        Grows(Applied(db, ms[0]), ms[1..], current, budget - 1);
      }
    }
  }

  lemma {:induction false} Grows(db: Database, ms: seq<Migration>, current: nat, budget: nat)
    ensures |RunFrom(db, ms, current, budget).schema| >= |db.schema|
    decreases |ms|
  {
    if ms != [] {
      if ms[0].version <= current { Grows(db, ms[1..], current, budget); }
      else if budget > 0 { Grows(Applied(db, ms[0]), ms[1..], current, budget - 1); }
    }
  }

  /** In any file order, running again after a complete first run executes nothing if and only if the last file has the
      highest version; otherwise files are executed twice. */
  lemma RerunQuietExactly(ms: seq<Migration>)
    requires ms != [] && forall i :: 0 <= i < |ms| ==> ms[i].version > 0
    ensures var once := Run(FRESH, ms, |ms|);
            Run(once, ms, |ms|).schema == once.schema <==> forall i :: 0 <= i < |ms| ==> ms[i].version <= ms[|ms| - 1].version
  {
    FullRun(FRESH, ms, 0, |ms|);
    var once := Run(FRESH, ms, |ms|);
    QuietExactly(once, ms, ms[|ms| - 1].version, |ms|);
  }

  // ---------------------------------------------------------------- crash safety needs ascending versions

  function CountAbove(ms: seq<Migration>, version: nat): (n: nat)
    ensures n <= |ms|
  {
    if ms == [] then 0 else (if ms[0].version > version then 1 else 0) + CountAbove(ms[1..], version)
  }

  lemma {:induction false} CountAntitone(ms: seq<Migration>, v: nat, w: nat)
    requires v <= w
    ensures CountAbove(ms, w) <= CountAbove(ms, v)
  {
    if ms != [] { CountAntitone(ms[1..], v, w); }
  }

  /** A process that does not die executes exactly the files above the version it started from. */
  lemma {:induction false} FullRunSize(db: Database, ms: seq<Migration>, current: nat, budget: nat)
    requires budget >= |ms|
    ensures |RunFrom(db, ms, current, budget).schema| == |db.schema| + CountAbove(ms, current)
    decreases |ms|
  {
    if ms != [] {
      if ms[0].version <= current { FullRunSize(db, ms[1..], current, budget); }
      else { FullRunSize(Applied(db, ms[0]), ms[1..], current, budget - 1); }
    }
  }

  /** A process that starts below all versions and dies after k files has executed the first k and recorded the k-th. */
  lemma {:induction false} PartialRun(db: Database, ms: seq<Migration>, current: nat, k: nat)
    requires k <= |ms| && forall i :: 0 <= i < |ms| ==> ms[i].version > current
    ensures var e := RunFrom(db, ms, current, k);
            |e.schema| == |db.schema| + k && e.row == if k == 0 then db.row else Some(VersionRow(ms[k - 1].version, false))
    decreases |ms|
  {
    if ms != [] && k > 0 { PartialRun(Applied(db, ms[0]), ms[1..], current, k - 1); }
  }

  ghost predicate Positive(ms: seq<Migration>) { forall i :: 0 <= i < |ms| ==> ms[i].version > 0 }

  /** Whatever the file at which a first process dies, a second one that does not die completes its work. */
  ghost predicate EveryCrashRecovers(ms: seq<Migration>) {
    forall k :: 0 <= k <= |ms| ==> Run(Run(FRESH, ms, k), ms, |ms|) == Run(FRESH, ms, |ms|)
  }

  lemma RecoveryCounts(ms: seq<Migration>, k: nat)
    requires Positive(ms) && 0 < k <= |ms| && Run(Run(FRESH, ms, k), ms, |ms|) == Run(FRESH, ms, |ms|)
    ensures CountAbove(ms, ms[k - 1].version) == |ms| - k
  {
    PartialRun(FRESH, ms, 0, k);
    PartialRun(FRESH, ms, 0, |ms|);
    FullRunSize(Run(FRESH, ms, k), ms, ms[k - 1].version, |ms|);
  }

  /** Runs survive every crash if and only if the files, in the order of their names, have ascending versions. */
  lemma CrashSafeExactly(ms: seq<Migration>)
    requires Positive(ms)
    ensures EveryCrashRecovers(ms) <==> Ascending(ms)
  {
    hide Run;
    if EveryCrashRecovers(ms) {
      forall i, j | 0 <= i < j < |ms| ensures ms[i].version < ms[j].version {
        RecoveryCounts(ms, i + 1);
        RecoveryCounts(ms, j + 1);
        if ms[j].version <= ms[i].version { CountAntitone(ms, ms[j].version, ms[i].version); }
      }
    }
    if Ascending(ms) {
      forall k | 0 <= k <= |ms| ensures Run(Run(FRESH, ms, k), ms, |ms|) == Run(FRESH, ms, |ms|) {
        OneCrash(ms, k);
      }
    }
  }

  lemma OneCrash(ms: seq<Migration>, k: nat)
    requires Ascending(ms)
    ensures Run(Run(FRESH, ms, k), ms, |ms|) == Run(FRESH, ms, |ms|)
  {
    CrashSafe(ms, [k], |ms|);
    assert RunAll(FRESH, ms, [k]) == RunAll(Run(FRESH, ms, k), ms, [k][1..]) == Run(FRESH, ms, k);
  }

  /** Prefixes of different width and no padding: string order puts version 10 before version 9, and if the process dies
      after 10 was committed, 9 is never applied, however often it runs again. */
  lemma {:induction false} UnpaddedNamesMisorder(read: string -> string, again: seq<nat>)
    ensures Before("10_b.up.sql", "9_a.up.sql") && !Comparable(Prefix("10_b.up.sql"), Prefix("9_a.up.sql"))
    ensures var ms := Load(["10_b.up.sql", "9_a.up.sql"], read);
            && ms == [Migration(10, read("10_b.up.sql")), Migration(9, read("9_a.up.sql"))]
            && RunAll(Run(FRESH, ms, 1), ms, again).schema == [read("10_b.up.sql")]
            && Run(FRESH, ms, 2).schema == [read("10_b.up.sql"), read("9_a.up.sql")]
  {
    var names := ["10_b.up.sql", "9_a.up.sql"];
    var m10, m9 := Migration(10, read(names[0])), Migration(9, read(names[1]));
    TwoVersions();
    assert names[1..] == [names[1]] && names[1..][1..] == [];
    assert Load(names[1..], read) == [m9];
    assert Load(names, read) == [m10] + [m9] == [m10, m9];
    DiesAfterTen(m10, m9);
    StaysAtTen(Run(FRESH, [m10, m9], 1), m10, m9, again);
  }

  lemma TwoVersions()
    ensures Before("10_b.up.sql", "9_a.up.sql") && !Comparable(Prefix("10_b.up.sql"), Prefix("9_a.up.sql"))
    ensures Version("10_b.up.sql") == Some(10) && Version("9_a.up.sql") == Some(9)
  {
    assert Prefix("10_b.up.sql") == "10" && Prefix("9_a.up.sql") == "9";
    assert "10"[1..] == "0" && Number("0") == 0;
  }

  lemma DiesAfterTen(m10: Migration, m9: Migration)
    requires m10.version == 10 && m9.version == 9
    ensures Run(FRESH, [m10, m9], 1) == Database([m10.content], Some(VersionRow(10, false)))
    ensures Run(FRESH, [m10, m9], 2).schema == [m10.content, m9.content]
  {
    var rest := [m10, m9][1..];
    assert rest == [m9] && rest[1..] == [];
    var db1 := Applied(FRESH, m10);
    assert db1.schema == [m10.content] && Applied(db1, m9).schema == [m10.content, m9.content];
    assert RunFrom(db1, rest, 0, 0) == db1 && RunFrom(db1, rest, 0, 1) == RunFrom(Applied(db1, m9), rest[1..], 0, 0) == Applied(db1, m9);
    assert RunFrom(FRESH, [m10, m9], 0, 1) == RunFrom(db1, rest, 0, 0) && RunFrom(FRESH, [m10, m9], 0, 2) == RunFrom(db1, rest, 0, 1);
  }

  lemma {:induction false} StaysAtTen(db: Database, m10: Migration, m9: Migration, again: seq<nat>)
    requires m10.version == 10 && m9.version == 9 && db.row == Some(VersionRow(10, false))
    ensures RunAll(db, [m10, m9], again) == db
    decreases |again|
  {
    if again != [] {
      assert [m10, m9][1..] == [m9] && [m9][1..] == [];
      assert RunFrom(db, [m9], 10, again[0]) == db;
      assert Run(db, [m10, m9], again[0]) == db;
      StaysAtTen(db, m10, m9, again[1..]);
    }
  }
}
