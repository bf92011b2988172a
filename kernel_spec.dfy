/**
 * Value-level specification of the tick-driven kernel (src/core/kernel/kernel.ts):
 * the process table, the cascading kill, saving and loading the table, and
 * one scheduling pass with heat ageing under a CPU budget. The class in
 * module Kernel is proved against these functions.
 */
module KernelSpec {
  import opened Base
  import opened ProcessTypes

  /** A process table entry: the process and its current heat. */
  datatype KernelRecord = KernelRecord(heat: int, process: Process)

  /** The process table, keyed by pid. */
  type Table = map<Pid, KernelRecord>

  /** The per-process memory dictionary of kernel memory, possibly unset. */
  type PMem = Option<map<Pid, ProcessMemory>>

  /** Every record is stored under its own process's pid. */
  predicate WellKeyed(t: Table) {
    forall pid :: pid in t ==> t[pid].process.pid == pid
  }

  /** `getProcessById(pid)` finds a process: it is in the table and running. */
  predicate Live(t: Table, pid: Pid) {
    pid in t && t[pid].process.status == RUN
  }

  /** The table with the entries in `s` removed. */
  function Without(t: Table, s: set<Pid>): (r: Table)
    ensures r.Keys == t.Keys - s
    ensures forall q :: q in r ==> r[q] == t[q]
  {
    map q | q in t && q !in s :: t[q]
  }

  /** The memory dictionary with the entries in `s` deleted, if it is set. */
  function RemoveKeys(pm: PMem, s: set<Pid>): (r: PMem)
    ensures r.None? <==> pm.None?
    ensures r.Some? ==> r.value.Keys == pm.value.Keys - s
    ensures r.Some? ==> forall q :: q in r.value ==> r.value[q] == pm.value[q]
  {
    match pm
    case None => None
    case Some(m) => Some(map q | q in m && q !in s :: m[q])
  }

  /** `t` is `u` with some entries removed and no entry changed. */
  predicate SubTable(t: Table, u: Table) {
    forall q :: q in t ==> q in u && t[q] == u[q]
  }

  // ---------------------------------------------------------------------
  // killProcess: cascading termination
  // ---------------------------------------------------------------------

  /**
   * `q` is reached from `p` by `killProcess(p)` within `n` parent links:
   * `q` is running, and it is `p` or its parent is so reached within `n - 1`.
   * The kill only follows running processes: `killProcess` returns at once
   * for a pid `getProcessById` does not find.
   */
  ghost predicate DescendsWithin(t: Table, q: Pid, p: Pid, n: nat)
    decreases n
  {
    Live(t, q) && (q == p || (n > 0 && DescendsWithin(t, t[q].process.parentPid, p, n - 1)))
  }

  /** The pids `killProcess(p)` removes from table `t`. */
  ghost function Doomed(t: Table, p: Pid): (d: set<Pid>)
    ensures d <= t.Keys
  {
    set q | q in t && exists n: nat :: DescendsWithin(t, q, p, n)
  }

  /** The table after `killProcess(p)`. */
  ghost function KillTable(t: Table, p: Pid): Table {
    Without(t, Doomed(t, p))
  }

  /** Only processes that are running at the time of the kill are removed. */
  lemma {:induction false} DoomedAreLive(t: Table, p: Pid, q: Pid)
    requires q in Doomed(t, p)
    ensures Live(t, q) && Live(t, p)
  {
    var n: nat :| DescendsWithin(t, q, p, n);
    DescendsReachLive(t, q, p, n);
  }

  lemma {:induction false} DescendsReachLive(t: Table, q: Pid, p: Pid, n: nat)
    requires DescendsWithin(t, q, p, n)
    ensures Live(t, q) && Live(t, p)
    decreases n
  {
    if q != p {
      DescendsReachLive(t, t[q].process.parentPid, p, n - 1);
    }
  }

  /** Killing a pid that is not running (or not present) changes nothing. */
  lemma NotLiveNothingDoomed(t: Table, p: Pid)
    requires !Live(t, p)
    ensures Doomed(t, p) == {}
    ensures KillTable(t, p) == t
  {
    forall q | q in Doomed(t, p)
      ensures false
    {
      DoomedAreLive(t, p, q);
    }
  }

  /** A running process is removed by its own kill. */
  lemma LiveIsDoomed(t: Table, p: Pid)
    requires Live(t, p)
    ensures p in Doomed(t, p)
  {
    assert DescendsWithin(t, p, p, 0);
  }

  /** Closure: a running process whose parent is removed is removed too. */
  lemma {:induction false} DoomedClosed(t: Table, p: Pid, q: Pid)
    requires Live(t, q) && t[q].process.parentPid in Doomed(t, p)
    ensures q in Doomed(t, p)
  {
    var n: nat :| DescendsWithin(t, t[q].process.parentPid, p, n);
    assert DescendsWithin(t, q, p, n + 1);
  }

  /** Every set that contains a running `p` and is closed under running children contains everything the kill removes. */
  lemma {:induction false} DoomedLeast(t: Table, p: Pid, s: set<Pid>)
    requires Live(t, p) ==> p in s
    requires forall q :: Live(t, q) && t[q].process.parentPid in s ==> q in s
    ensures Doomed(t, p) <= s
  {
    forall q | q in Doomed(t, p)
      ensures q in s
    {
      var n: nat :| DescendsWithin(t, q, p, n);
      DescendsInClosed(t, q, p, n, s);
    }
  }

  lemma {:induction false} DescendsInClosed(t: Table, q: Pid, p: Pid, n: nat, s: set<Pid>)
    requires DescendsWithin(t, q, p, n)
    requires Live(t, p) ==> p in s
    requires forall q :: Live(t, q) && t[q].process.parentPid in s ==> q in s
    ensures q in s
    decreases n
  {
    if q != p {
      DescendsInClosed(t, t[q].process.parentPid, p, n - 1, s);
    } else {
      DescendsReachLive(t, q, p, n);
    }
  }

  /** Removing entries from a table never makes a kill reach further. */
  lemma {:induction false} DoomedShrinks(t: Table, u: Table, p: Pid)
    requires SubTable(t, u)
    ensures Doomed(t, p) <= Doomed(u, p)
  {
    forall q | q in Doomed(t, p)
      ensures q in Doomed(u, p)
    {
      var n: nat :| DescendsWithin(t, q, p, n);
      DescendsInSuper(t, u, q, p, n);
    }
  }

  lemma {:induction false} DescendsInSuper(t: Table, u: Table, q: Pid, p: Pid, n: nat)
    requires SubTable(t, u) && DescendsWithin(t, q, p, n)
    ensures DescendsWithin(u, q, p, n)
    decreases n
  {
    if q != p {
      DescendsInSuper(t, u, t[q].process.parentPid, p, n - 1);
    }
  }

  /** What a kill of a removed descendant removes, the ancestor's kill removes too. */
  lemma {:induction false} DoomedTransitive(t: Table, p: Pid, c: Pid)
    requires c in Doomed(t, p)
    ensures Doomed(t, c) <= Doomed(t, p)
  {
    var m: nat :| DescendsWithin(t, c, p, m);
    forall q | q in Doomed(t, c)
      ensures q in Doomed(t, p)
    {
      var n: nat :| DescendsWithin(t, q, c, n);
      DescendsConcat(t, q, c, p, n, m);
    }
  }

  lemma {:induction false} DescendsConcat(t: Table, q: Pid, c: Pid, p: Pid, n: nat, m: nat)
    requires DescendsWithin(t, q, c, n) && DescendsWithin(t, c, p, m)
    ensures DescendsWithin(t, q, p, n + m)
    decreases n
  {
    if q != c {
      DescendsConcat(t, t[q].process.parentPid, c, p, n - 1, m);
    } else {
      DescendsLonger(t, q, p, m, n + m);
    }
  }

  lemma {:induction false} DescendsLonger(t: Table, q: Pid, p: Pid, n: nat, m: nat)
    requires DescendsWithin(t, q, p, n) && n <= m
    ensures DescendsWithin(t, q, p, m)
    decreases n
  {
    if q != p {
      DescendsLonger(t, t[q].process.parentPid, p, n - 1, m - 1);
    }
  }

  /**
   * The kill spec exactly: a record is removed iff it is running and its
   * chain of running ancestors reaches `p`; a record that is not running is
   * never removed, and a running child of a removed record is removed too.
   */
  lemma KillTableCharacterised(t: Table, p: Pid)
    ensures SubTable(KillTable(t, p), t)
    ensures Live(t, p) ==> p !in KillTable(t, p)
    ensures forall q :: q in t && !Live(t, q) ==> q in KillTable(t, p)
    ensures forall q :: Live(t, q) && t[q].process.parentPid in t && t[q].process.parentPid !in KillTable(t, p) ==> q !in KillTable(t, p)
  {
    if Live(t, p) {
      LiveIsDoomed(t, p);
    }
    forall q | q in t && !Live(t, q)
      ensures q !in Doomed(t, p)
    {
      if q in Doomed(t, p) {
        DoomedAreLive(t, p, q);
      }
    }
    forall q | Live(t, q) && t[q].process.parentPid in t && t[q].process.parentPid !in KillTable(t, p)
      ensures q in Doomed(t, p)
    {
      DoomedClosed(t, p, q);
    }
  }

  /**
   * The state of the loop in `killProcess(p)` over `cs`, the children of
   * `p` found after `p` was removed, when the first `i` of them have been
   * killed, against the table `t` it started from: entries only leave, only
   * entries `killProcess(p)` removes have left, and every running entry whose
   * parent has left is gone too, unless it is a child still to be killed.
   */
  ghost predicate KillLoop(t: Table, p: Pid, u: Table, cs: seq<Pid>, i: nat) {
    i <= |cs| && Live(t, p) && p !in u && SubTable(u, t)
    && t.Keys - u.Keys <= Doomed(t, p)
    && (forall q :: q in cs ==> q in t && t[q].process.parentPid == p)
    && (forall q :: q in u && Live(t, q) && t[q].process.parentPid in t && t[q].process.parentPid !in u ==>
          t[q].process.parentPid == p && q in cs[i..])
  }

  /** The loop starts once `p` is removed and its children listed. */
  lemma KillLoopStart(t: Table, p: Pid, cs: seq<Pid>)
    requires Live(t, p)
    requires forall q :: q in cs <==> q in t && q != p && t[q].process.parentPid == p
    ensures KillLoop(t, p, Without(t, {p}), cs, 0)
  {
    LiveIsDoomed(t, p);
  }

  /** Killing the next child keeps the loop's invariant. */
  lemma KillLoopNext(t: Table, p: Pid, u: Table, cs: seq<Pid>, i: nat)
    requires KillLoop(t, p, u, cs, i) && i < |cs|
    ensures KillLoop(t, p, KillTable(u, cs[i]), cs, i + 1)
    ensures t.Keys - KillTable(u, cs[i]).Keys == (t.Keys - u.Keys) + Doomed(u, cs[i])
  {
    var c := cs[i];
    var u' := KillTable(u, c);
    DoomedShrinks(u, t, c);
    if Live(u, c) {
      LiveIsDoomed(t, p);
      DoomedClosed(t, p, c);
      DoomedTransitive(t, p, c);
      LiveIsDoomed(u, c);
    } else {
      NotLiveNothingDoomed(u, c);
    }
    forall q | q in u' && Live(t, q) && t[q].process.parentPid in t && t[q].process.parentPid !in u'
      ensures t[q].process.parentPid == p && q in cs[i + 1..]
    {
      var par := t[q].process.parentPid;
      if par in u {
        DoomedClosed(u, c, q);
      } else {
        assert q in cs[i..];
        assert q != c;
        assert cs[i..] == [c] + cs[i + 1..];
      }
    }
  }

  /** When every child has been killed the table is the kill spec. */
  lemma KillLoopEnd(t: Table, p: Pid, u: Table, cs: seq<Pid>)
    requires KillLoop(t, p, u, cs, |cs|)
    ensures u == KillTable(t, p)
    ensures t.Keys - u.Keys == Doomed(t, p)
  {
    var gone := t.Keys - u.Keys;
    forall q | Live(t, q) && t[q].process.parentPid in gone
      ensures q in gone
    {
    }
    DoomedLeast(t, p, gone);
    var k := KillTable(t, p);
    assert u.Keys <= t.Keys by {
      forall q | q in u.Keys
        ensures q in t.Keys
      {
        assert q in u;
      }
    }
    assert gone == Doomed(t, p);
    assert u.Keys == t.Keys - gone;
    assert u.Keys == k.Keys;
    assert forall q :: q in u ==> u[q] == k[q];
  }

  /** Deleting a set of keys forgets whatever was stored under any of them. */
  lemma RemoveKeysUpdate(m: map<Pid, ProcessMemory>, pid: Pid, x: ProcessMemory)
    ensures RemoveKeys(Some(m[pid := x]), {pid}) == RemoveKeys(Some(m), {pid})
  {
    var l := RemoveKeys(Some(m[pid := x]), {pid}).value;
    var r := RemoveKeys(Some(m), {pid}).value;
    assert l.Keys == r.Keys;
    assert l == r;
  }

  /** Two dictionaries that agree except at `pid` agree after deleting a set containing `pid`. */
  lemma RemoveKeysAgree(a: PMem, b: PMem, pid: Pid, d: set<Pid>)
    requires RemoveKeys(a, {pid}) == RemoveKeys(b, {pid}) && pid in d
    ensures RemoveKeys(a, d) == RemoveKeys(b, d)
  {
    RemoveKeysTwice(a, {pid}, d);
    RemoveKeysTwice(b, {pid}, d);
    assert {pid} + d == d;
  }

  /** Deleting no keys changes nothing. */
  lemma RemoveKeysNone(pm: PMem)
    ensures RemoveKeys(pm, {}) == pm
  {
    if pm.Some? {
      assert RemoveKeys(pm, {}).value == pm.value;
    }
  }

  /** Deleting memory entries in two rounds is deleting them all at once. */
  lemma RemoveKeysTwice(pm: PMem, a: set<Pid>, b: set<Pid>)
    ensures RemoveKeys(RemoveKeys(pm, a), b) == RemoveKeys(pm, a + b)
  {
    if pm.Some? {
      var l := RemoveKeys(RemoveKeys(pm, a), b).value;
      var r := RemoveKeys(pm, a + b).value;
      assert l.Keys == r.Keys;
      assert forall q :: q in l ==> l[q] == r[q];
      assert l == r;
    }
  }

  // ---------------------------------------------------------------------
  // saveProcessTable / loadProcessTable
  // ---------------------------------------------------------------------

  /** One saved table entry: pid, parent pid, class name and heat. */
  datatype SerializedProcess = SerializedProcess(id: Pid, pa: Pid, ex: string, he: int)

  function Serialize(r: KernelRecord): (e: SerializedProcess)
    ensures e.id == r.process.pid && e.pa == r.process.parentPid
    ensures e.ex == r.process.className && e.he == r.heat
  {
    SerializedProcess(r.process.pid, r.process.parentPid, r.process.className, r.heat)
  }

  /** The entries `saveProcessTable` writes: one per running record; dead ones are dropped. */
  ghost function SavedEntries(t: Table): set<SerializedProcess> {
    set q | q in t && t[q].process.status == RUN :: Serialize(t[q])
  }

  /** No two entries of a saved table share a pid. */
  predicate DistinctIds(es: seq<SerializedProcess>) {
    forall i, j :: 0 <= i < j < |es| ==> es[i].id != es[j].id
  }

  /** The registry stores each class under its own name. */
  predicate RegistryConsistent(reg: map<string, ProcessCtor>) {
    forall name :: name in reg ==> reg[name].className == name
  }

  /** `loadProcessEntry` followed by `processTable.set`: an unregistered class name is skipped. */
  function LoadEntry(t: Table, e: SerializedProcess, reg: map<string, ProcessCtor>): (r: Table)
    ensures e.ex !in reg ==> r == t
    ensures e.ex in reg ==> r == t[e.id := Loaded(e, reg)]
  {
    if e.ex in reg then t[e.id := Loaded(e, reg)] else t
  }

  /** The record `loadProcessEntry` builds for an entry of a registered class. */
  function Loaded(e: SerializedProcess, reg: map<string, ProcessCtor>): KernelRecord
    requires e.ex in reg
  {
    KernelRecord(e.he, NewProcess(reg[e.ex], e.id, e.pa))
  }

  /** The table `loadProcessTable` builds from the saved entries, in order, later entries winning. */
  function LoadTable(es: seq<SerializedProcess>, reg: map<string, ProcessCtor>): Table
    decreases |es|
  {
    if es == [] then map[] else LoadEntry(LoadTable(es[..|es| - 1], reg), es[|es| - 1], reg)
  }

  /** What loading distinct, registered entries yields: one running record per entry, with its heat. */
  lemma LoadTableContents(es: seq<SerializedProcess>, reg: map<string, ProcessCtor>)
    requires DistinctIds(es)
    requires forall e :: e in es ==> e.ex in reg
    ensures LoadTable(es, reg).Keys == set e | e in es :: e.id
    ensures forall e :: e in es ==> LoadTable(es, reg)[e.id] == Loaded(e, reg)
  {
    LoadTableKeys(es, reg);
    LoadTableValues(es, reg);
  }

  /** Loading registered entries stores a record under each of their ids and no other. */
  lemma {:induction false} LoadTableKeys(es: seq<SerializedProcess>, reg: map<string, ProcessCtor>)
    requires forall e :: e in es ==> e.ex in reg
    ensures LoadTable(es, reg).Keys == set e | e in es :: e.id
    decreases |es|
  {
    if es != [] {
      var init := es[..|es| - 1];
      var last := es[|es| - 1];
      assert es == init + [last];
      LoadTableKeys(init, reg);
      assert (set e | e in es :: e.id) == (set e | e in init :: e.id) + {last.id};
    }
  }

  /** In entries with distinct ids, no earlier entry shares the last one's id. */
  lemma LastIdFresh(es: seq<SerializedProcess>)
    requires DistinctIds(es) && es != []
    ensures forall e :: e in es[..|es| - 1] ==> e.id != es[|es| - 1].id
  {
    forall e | e in es[..|es| - 1]
      ensures e.id != es[|es| - 1].id
    {
      var i :| 0 <= i < |es| - 1 && es[..|es| - 1][i] == e;
      assert es[i] == e;
    }
  }

  /** Loading registered entries with distinct ids stores each entry's record under its id. */
  lemma {:induction false} LoadTableValues(es: seq<SerializedProcess>, reg: map<string, ProcessCtor>)
    requires DistinctIds(es)
    requires forall e :: e in es ==> e.ex in reg
    ensures forall e :: e in es ==> e.id in LoadTable(es, reg) && LoadTable(es, reg)[e.id] == Loaded(e, reg)
    decreases |es|
  {
    if es != [] {
      var init := es[..|es| - 1];
      var last := es[|es| - 1];
      assert es == init + [last];
      assert DistinctIds(init);
      LoadTableValues(init, reg);
      LastIdFresh(es);
      forall e | e in es
        ensures e.id in LoadTable(es, reg) && LoadTable(es, reg)[e.id] == Loaded(e, reg)
      {
        if e != last {
          assert e in init;
        }
      }
    }
  }

  /** Loads from a registry that knows every saved class are keyed consistently. */
  lemma LoadTableWellKeyed(es: seq<SerializedProcess>, reg: map<string, ProcessCtor>)
    ensures WellKeyed(LoadTable(es, reg))
    ensures forall q :: q in LoadTable(es, reg) ==> LoadTable(es, reg)[q].process.status == RUN
    decreases |es|
  {
    if es != [] {
      LoadTableWellKeyed(es[..|es| - 1], reg);
    }
  }

  /**
   * Round trip save-after-load: loading distinct entries, all of registered
   * classes, and saving the resulting table writes back exactly those entries.
   */
  lemma SaveAfterLoad(es: seq<SerializedProcess>, reg: map<string, ProcessCtor>)
    requires DistinctIds(es)
    requires RegistryConsistent(reg)
    requires forall e :: e in es ==> e.ex in reg
    ensures SavedEntries(LoadTable(es, reg)) == set e | e in es
  {
    var t := LoadTable(es, reg);
    LoadTableContents(es, reg);
    forall e | e in es
      ensures e in SavedEntries(t)
    {
      assert Serialize(t[e.id]) == e;
    }
    forall x | x in SavedEntries(t)
      ensures x in es
    {
      var q :| q in t && t[q].process.status == RUN && Serialize(t[q]) == x;
      var e :| e in es && e.id == q;
      assert Serialize(t[q]) == e;
    }
  }

  /** Every record's class is registered under its name with the base heat the record carries. */
  predicate FromRegistry(t: Table, reg: map<string, ProcessCtor>) {
    forall q :: q in t ==>
      (t[q].process.className in reg && reg[t[q].process.className] == ProcessCtor(t[q].process.className, t[q].process.baseHeat))
  }

  /** The running part of a table: what survives a save and a reload. */
  function RunningPart(t: Table): (r: Table)
    ensures SubTable(r, t)
    ensures forall q :: q in t ==> (q in r <==> t[q].process.status == RUN)
  {
    map q | q in t && t[q].process.status == RUN :: t[q]
  }

  /**
   * Round trip load-after-save: reloading any listing of the saved entries
   * of a well-keyed table of registered processes gives back its running part.
   */
  lemma LoadAfterSave(t: Table, es: seq<SerializedProcess>, reg: map<string, ProcessCtor>)
    requires WellKeyed(t) && FromRegistry(t, reg)
    requires DistinctIds(es) && (set e | e in es) == SavedEntries(t)
    ensures LoadTable(es, reg) == RunningPart(t)
  {
    forall e | e in es
      ensures e.ex in reg
    {
      assert e in SavedEntries(t);
    }
    LoadTableContents(es, reg);
    var l := LoadTable(es, reg);
    var r := RunningPart(t);
    forall q | q in r
      ensures q in l && l[q] == r[q]
    {
      var e := Serialize(t[q]);
      assert e in SavedEntries(t);
      assert e in es;
    }
    forall q | q in l
      ensures q in r
    {
      var e :| e in es && e.id == q;
      assert e in SavedEntries(t);
    }
  }

  /** A saved table never holds an entry for a record that is not running. */
  lemma DeadNotSaved(t: Table, q: Pid)
    requires WellKeyed(t) && q in t && t[q].process.status != RUN
    ensures forall e :: e in SavedEntries(t) ==> e.id != q
  {
  }

  // ---------------------------------------------------------------------
  // tryRunProc / runAllProcesses: one scheduling pass
  // ---------------------------------------------------------------------

  /** The kernel state a pass changes: the table and the memory dictionary. */
  datatype KState = KState(table: Table, pmem: PMem)

  /**
   * What a process's `run()` does, seen from the kernel: returns normally,
   * throws, or returns after setting its own status.
   */
  datatype RunOutcome = Completes | Throws | SetsStatus(status: Status)

  /** The table with the status of `pid`'s process replaced. */
  function WithStatus(t: Table, pid: Pid, s: Status): (r: Table)
    requires pid in t
    ensures r.Keys == t.Keys
    ensures forall q :: q in r && q != pid ==> r[q] == t[q]
    ensures r[pid] == t[pid].(process := t[pid].process.(status := s))
  {
    t[pid := t[pid].(process := t[pid].process.(status := s))]
  }

  /** The result of `tryRunProc`: new state, returned status, whether `run()` was called. */
  datatype TryResult = TryResult(state: KState, code: Status, invoked: bool)

  /**
   * `tryRunProc(process)`. An orphan (parent not found by `getProcessById`) is
   * marked EXIT, not run, and reported as TERM. A throwing process is
   * reported as TERM; its memory is fetched for the log, which creates the
   * memory dictionary if it is unset. Otherwise the process's own status is
   * reported, RUN if it left it unchanged.
   */
  function TryRun(st: KState, pid: Pid, outcome: RunOutcome): (r: TryResult)
    requires pid in st.table
    ensures !Live(st.table, st.table[pid].process.parentPid) ==>
      r == TryResult(KState(WithStatus(st.table, pid, EXIT), st.pmem), TERM, false)
    ensures Live(st.table, st.table[pid].process.parentPid) ==> r.invoked
    ensures r.code == TERM <==> (!Live(st.table, st.table[pid].process.parentPid) || outcome == Throws || outcome == SetsStatus(TERM))
    ensures r.state.table.Keys == st.table.Keys
  {
    var t := st.table;
    if !Live(t, t[pid].process.parentPid) then
      TryResult(KState(WithStatus(t, pid, EXIT), st.pmem), TERM, false)
    else
      match outcome
      case Completes => TryResult(st, RUN, true)
      case Throws => TryResult(KState(t, Some(st.pmem.GetOr(map[]))), TERM, true)
      case SetsStatus(s) => TryResult(KState(WithStatus(t, pid, s), st.pmem), s, true)
  }

  /** `killProcess(pid)` on the whole state: records and their memory. */
  ghost function Kill(st: KState, pid: Pid): KState {
    KState(KillTable(st.table, pid), RemoveKeys(st.pmem, Doomed(st.table, pid)))
  }

  /** The result of one iteration of the main loop: new state, whether `run()` was called. */
  datatype StepResult = StepResult(state: KState, invoked: bool)

  /**
   * One iteration of the main loop over the sorted records for `pid`: reset
   * its heat to its base heat, skip it if it is no longer running (a pid that
   * left the table was killed earlier this tick), else try it and kill it if
   * that reports TERM.
   */
  ghost function Step(st: KState, pid: Pid, behave: Pid -> RunOutcome): StepResult {
    if pid !in st.table then StepResult(st, false)
    else
      var t1 := st.table[pid := st.table[pid].(heat := st.table[pid].process.baseHeat)];
      if t1[pid].process.status != RUN then StepResult(KState(t1, st.pmem), false)
      else
        var r := TryRun(KState(t1, st.pmem), pid, behave(pid));
        if r.code == TERM then StepResult(Kill(r.state, pid), r.invoked)
        else StepResult(r.state, r.invoked)
  }

  /** A pass so far: the state and the pids whose `run()` was called, in order. */
  datatype Pass = Pass(state: KState, ran: seq<Pid>)

  /** The main loop over the first `k` sorted pids. */
  ghost function RunPrefix(st: KState, order: seq<Pid>, k: nat, behave: Pid -> RunOutcome): Pass
    requires k <= |order|
    decreases k
  {
    if k == 0 then Pass(st, [])
    else
      var p := RunPrefix(st, order, k - 1, behave);
      var s := Step(p.state, order[k - 1], behave);
      Pass(s.state, if s.invoked then p.ran + [order[k - 1]] else p.ran)
  }

  /**
   * The index at which the main loop stops: the first reading, from index
   * `i` on, of the CPU used that has reached `maxCpu`, or `n` if none has.
   */
  function FirstOver(used: nat -> real, maxCpu: real, n: nat, i: nat): (k: nat)
    requires i <= n
    ensures i <= k <= n
    ensures forall j :: i <= j < k ==> used(j) < maxCpu
    ensures k < n ==> used(k) >= maxCpu
    decreases n - i
  {
    if i == n then n
    else if used(i) >= maxCpu then i
    else FirstOver(used, maxCpu, n, i + 1)
  }

  /** The loop's stopping index is the only one before which every reading is under budget and at which one is not. */
  lemma {:induction false} FirstOverUnique(used: nat -> real, maxCpu: real, n: nat, i: nat, k: nat)
    requires i <= k <= n
    requires forall j :: i <= j < k ==> used(j) < maxCpu
    requires k < n ==> used(k) >= maxCpu
    ensures FirstOver(used, maxCpu, n, i) == k
    decreases k - i
  {
    if i < k {
      FirstOverUnique(used, maxCpu, n, i + 1, k);
    }
  }

  /** The overheat phase for one pid: a record still running gains its base heat. */
  function HeatOne(t: Table, pid: Pid): Table {
    if pid in t && t[pid].process.status == RUN
    then t[pid := t[pid].(heat := t[pid].heat + t[pid].process.baseHeat)]
    else t
  }

  /** The overheat phase over the pids the main loop did not reach. */
  function HeatRest(t: Table, rest: seq<Pid>): Table
    decreases |rest|
  {
    if rest == [] then t else HeatOne(HeatRest(t, rest[..|rest| - 1]), rest[|rest| - 1])
  }

  /** `runAllProcesses(order, maxCpu)`: the main loop up to the budget, then the overheat phase. */
  ghost function RunAll(st: KState, order: seq<Pid>, used: nat -> real, maxCpu: real, behave: Pid -> RunOutcome): Pass {
    var k := FirstOver(used, maxCpu, |order|, 0);
    var p := RunPrefix(st, order, k, behave);
    Pass(KState(HeatRest(p.state.table, order[k..]), p.state.pmem), p.ran)
  }

  /** The overheat phase adds base heat to every running record it lists, once, and changes nothing else. */
  lemma {:induction false} HeatRestEffect(t: Table, rest: seq<Pid>)
    requires Distinct(rest)
    ensures HeatRest(t, rest).Keys == t.Keys
    ensures forall q :: q in t && q in rest && t[q].process.status == RUN ==>
      HeatRest(t, rest)[q] == t[q].(heat := t[q].heat + t[q].process.baseHeat)
    ensures forall q :: q in t && !(q in rest && t[q].process.status == RUN) ==> HeatRest(t, rest)[q] == t[q]
    decreases |rest|
  {
    if rest != [] {
      var init := rest[..|rest| - 1];
      var last := rest[|rest| - 1];
      assert rest == init + [last];
      assert Distinct(init);
      HeatRestEffect(t, init);
      assert last !in init;
    }
  }

  /** `u` differs from `t` only in the heat and status of `pid`, and can only stop it running. */
  predicate Retouched(t: Table, u: Table, pid: Pid) {
    u.Keys == t.Keys
    && (forall q :: q in u && q != pid ==> u[q] == t[q])
    && (pid in t ==> u[pid].process == t[pid].process.(status := u[pid].process.status))
    && (pid in t && u[pid].process.status == RUN ==> t[pid].process.status == RUN)
  }

  lemma RetouchedLive(t: Table, u: Table, pid: Pid, q: Pid)
    requires Retouched(t, u, pid) && Live(u, q)
    ensures Live(t, q)
  {
  }

  /**
   * One iteration, from table `c` to table `r` for pid `x`: the table only
   * loses entries; only `x`'s record changes, by its heat being reset and
   * its status possibly dropping; every record removed was running and had
   * a running parent.
   */
  ghost predicate StepShape(c: Table, r: Table, x: Pid) {
    r.Keys <= c.Keys
    && (forall q :: q in r && q != x ==> r[q] == c[q])
    && (x in r ==>
          (r[x].heat == c[x].process.baseHeat
           && r[x].process == c[x].process.(status := r[x].process.status)
           && (r[x].process.status == RUN ==> c[x].process.status == RUN)))
    && (forall q :: q in c && q !in r ==> Live(c, q) && Live(c, c[q].process.parentPid))
  }

  /**
   * One iteration: the table only loses entries; only `pid`'s record
   * changes, by its heat being reset and its status possibly dropping;
   * every record removed was running and had a running parent; and `run()`
   * is called only for a running process with a running parent.
   */
  lemma StepEffect(st: KState, pid: Pid, behave: Pid -> RunOutcome)
    ensures StepShape(st.table, Step(st, pid, behave).state.table, pid)
    ensures Step(st, pid, behave).invoked ==> Live(st.table, pid) && Live(st.table, st.table[pid].process.parentPid)
  {
    if pid in st.table {
      var t := st.table;
      var t1 := t[pid := t[pid].(heat := t[pid].process.baseHeat)];
      assert Retouched(t, t1, pid);
      if t1[pid].process.status == RUN {
        var tr := TryRun(KState(t1, st.pmem), pid, behave(pid));
        var t2 := tr.state.table;
        assert Retouched(t, t2, pid);
        if tr.code == TERM {
          forall q | q in Doomed(t2, pid)
            ensures Live(t, q) && Live(t, t[q].process.parentPid)
          {
            DoomedAreLive(t2, pid, q);
            RetouchedLive(t, t2, pid, q);
            var n: nat :| DescendsWithin(t2, q, pid, n);
            if q == pid {
              assert t2[pid].process.status == RUN;
              assert behave(pid) == Throws;
              assert Live(t1, t1[pid].process.parentPid);
              RetouchedLive(t, t1, pid, t1[pid].process.parentPid);
            } else {
              DescendsReachLive(t2, t2[q].process.parentPid, pid, n - 1);
              RetouchedLive(t, t2, pid, t2[q].process.parentPid);
            }
          }
        }
        if tr.invoked {
          RetouchedLive(t, t1, pid, t1[pid].process.parentPid);
        }
      }
    }
  }

  /**
   * A running process with a running parent whose `run()` throws is killed
   * in the same iteration: it and its running descendants leave the table,
   * and their memory entries are deleted.
   */
  lemma ThrowingProcessKilled(st: KState, pid: Pid, behave: Pid -> RunOutcome)
    requires Live(st.table, pid) && Live(st.table, st.table[pid].process.parentPid)
    requires behave(pid) == Throws
    ensures var t1 := st.table[pid := st.table[pid].(heat := st.table[pid].process.baseHeat)];
      Step(st, pid, behave) == StepResult(KState(KillTable(t1, pid), RemoveKeys(Some(st.pmem.GetOr(map[])), Doomed(t1, pid))), true)
      && pid in Doomed(t1, pid)
    ensures pid !in Step(st, pid, behave).state.table
  {
    var t1 := st.table[pid := st.table[pid].(heat := st.table[pid].process.baseHeat)];
    LiveIsDoomed(t1, pid);
  }

  /**
   * A process that sets its own status to TERM is reported as TERM, but the
   * kill that follows finds no running process under its pid: it stays in
   * the table, marked TERM, with its memory.
   */
  lemma SelfTerminatedStays(st: KState, pid: Pid, behave: Pid -> RunOutcome)
    requires Live(st.table, pid) && Live(st.table, st.table[pid].process.parentPid)
    requires behave(pid) == SetsStatus(TERM)
    ensures var t1 := st.table[pid := st.table[pid].(heat := st.table[pid].process.baseHeat)];
      Step(st, pid, behave) == StepResult(KState(WithStatus(t1, pid, TERM), st.pmem), true)
    ensures pid in Step(st, pid, behave).state.table
    ensures Step(st, pid, behave).state.table[pid].process.status == TERM
  {
    var t1 := st.table[pid := st.table[pid].(heat := st.table[pid].process.baseHeat)];
    var r := TryRun(KState(t1, st.pmem), pid, behave(pid));
    NotLiveNothingDoomed(r.state.table, pid);
    RemoveKeysNone(st.pmem);
  }

  /**
   * The state of the main loop after `k` iterations, against the state it
   * started from: entries only leave; an entry not yet reached is unchanged;
   * a reached one has its base heat; only statuses change, and never back to
   * running; and every entry removed was running with a running parent.
   */
  ghost predicate PrefixShape(t: Table, c: Table, reached: seq<Pid>) {
    c.Keys <= t.Keys
    && (forall q :: q in c && q !in reached ==> c[q] == t[q])
    && (forall q :: q in c && q in reached ==> c[q].heat == t[q].process.baseHeat)
    && (forall q :: q in c ==> c[q].process == t[q].process.(status := c[q].process.status))
    && (forall q :: q in c && c[q].process.status == RUN ==> t[q].process.status == RUN)
    && (forall q :: q in t && q !in c ==> Live(t, q) && Live(t, t[q].process.parentPid))
  }

  /** A running record of a later table was running in the start table. */
  lemma ShapeLive(t: Table, c: Table, reached: seq<Pid>, q: Pid)
    requires PrefixShape(t, c, reached) && Live(c, q)
    ensures Live(t, q)
  {
  }

  /** One more iteration keeps the shape, with its pid reached. */
  lemma ShapeStep(t: Table, c: Table, r: Table, reached: seq<Pid>, x: Pid)
    requires PrefixShape(t, c, reached) && StepShape(c, r, x)
    ensures PrefixShape(t, r, reached + [x])
  {
    forall q | q in t && q !in r
      ensures Live(t, q) && Live(t, t[q].process.parentPid)
    {
      if q in c {
        var par := c[q].process.parentPid;
        assert par == t[q].process.parentPid;
        ShapeLive(t, c, reached, q);
        ShapeLive(t, c, reached, par);
      }
    }
  }

  lemma {:induction false} RunPrefixShape(st: KState, order: seq<Pid>, k: nat, behave: Pid -> RunOutcome)
    requires k <= |order|
    ensures PrefixShape(st.table, RunPrefix(st, order, k, behave).state.table, order[..k])
    decreases k
  {
    if k > 0 {
      RunPrefixShape(st, order, k - 1, behave);
      var c := RunPrefix(st, order, k - 1, behave).state;
      var x := order[k - 1];
      StepEffect(c, x, behave);
      var r := Step(c, x, behave).state.table;
      ShapeStep(st.table, c.table, r, order[..k - 1], x);
      assert order[..k] == order[..k - 1] + [x];
    }
  }

  /**
   * The pids whose `run()` the main loop called in its first `k` iterations:
   * in loop order, each listed at most once, each among those reached, and
   * each running with a running parent when the pass started.
   */
  lemma {:induction false} RunPrefixRan(st: KState, order: seq<Pid>, k: nat, behave: Pid -> RunOutcome)
    requires k <= |order| && Distinct(order)
    ensures var ran := RunPrefix(st, order, k, behave).ran;
      SubsequenceOf(ran, order[..k]) && Distinct(ran) && |ran| <= k
      && (forall q :: q in ran ==> q in order[..k] && Live(st.table, q))
    decreases k
  {
    if k > 0 {
      RunPrefixRan(st, order, k - 1, behave);
      RunPrefixShape(st, order, k - 1, behave);
      var p := RunPrefix(st, order, k - 1, behave);
      var x := order[k - 1];
      StepEffect(p.state, x, behave);
      assert order[..k] == order[..k - 1] + [x];
      assert x !in order[..k - 1];
      SubsequenceAppend(p.ran, order[..k - 1], x);
      if Step(p.state, x, behave).invoked {
        assert Live(p.state.table, x);
      }
    }
  }

  /** One iteration never removes a process whose parent is not running, and marks it EXIT if it is the one stepped. */
  lemma StepKeepsOrphan(c: KState, x: Pid, behave: Pid -> RunOutcome, o: Pid)
    requires o in c.table && c.table[o].process.parentPid != o
    requires !Live(c.table, c.table[o].process.parentPid)
    requires c.table[o].process.status == RUN || c.table[o].process.status == EXIT
    ensures var r := Step(c, x, behave);
      o in r.state.table && !(r.invoked && x == o)
      && (x == o ==> r.state.table[o].process.status == EXIT)
      && (x != o ==> r.state.table[o] == c.table[o])
  {
    StepEffect(c, x, behave);
    var par := c.table[o].process.parentPid;
    if x == o && c.table[o].process.status == RUN {
      var t1 := c.table[o := c.table[o].(heat := c.table[o].process.baseHeat)];
      assert !Live(t1, par);
      var tr := TryRun(KState(t1, c.pmem), o, behave(o));
      NotLiveNothingDoomed(tr.state.table, o);
    }
  }

  lemma {:induction false} RunPrefixOrphan(st: KState, order: seq<Pid>, k: nat, behave: Pid -> RunOutcome, o: Pid)
    requires k <= |order|
    requires Live(st.table, o) && !Live(st.table, st.table[o].process.parentPid)
    ensures var p := RunPrefix(st, order, k, behave);
      o in p.state.table && o !in p.ran && (o in order[..k] ==> p.state.table[o].process.status == EXIT)
    decreases k
  {
    if k > 0 {
      RunPrefixOrphan(st, order, k - 1, behave, o);
      RunPrefixShape(st, order, k - 1, behave);
      var p := RunPrefix(st, order, k - 1, behave);
      var c := p.state;
      var x := order[k - 1];
      assert order[..k] == order[..k - 1] + [x];
      var t := st.table;
      var par := t[o].process.parentPid;
      assert !Live(c.table, par);
      if o !in order[..k - 1] {
        assert c.table[o] == t[o];
      }
      StepKeepsOrphan(c, x, behave, o);
    }
  }

  /**
   * Orphans: a running process whose parent is not running when the pass
   * starts is never removed during the pass; once reached it is marked EXIT
   * and its `run()` is never called.
   */
  lemma RunPrefixOrphans(st: KState, order: seq<Pid>, k: nat, behave: Pid -> RunOutcome)
    requires k <= |order|
    ensures var p := RunPrefix(st, order, k, behave);
      forall o :: Live(st.table, o) && !Live(st.table, st.table[o].process.parentPid) ==>
        o in p.state.table && o !in p.ran && (o in order[..k] ==> p.state.table[o].process.status == EXIT)
  {
    forall o | Live(st.table, o) && !Live(st.table, st.table[o].process.parentPid) {
      RunPrefixOrphan(st, order, k, behave, o);
    }
  }

  /** The two halves of a sequence without repetitions share no element. */
  lemma DistinctSplit<T>(s: seq<T>, k: nat)
    requires Distinct(s) && k <= |s|
    ensures Distinct(s[k..])
    ensures forall x :: x in s[k..] ==> x !in s[..k]
  {
    forall x | x in s[k..]
      ensures x !in s[..k]
    {
      var i :| 0 <= i < |s| - k && s[k..][i] == x;
      assert s[k + i] == x;
    }
  }

  /** A pass only changes heat and status, so the table stays keyed by pid. */
  lemma PrefixShapeWellKeyed(t: Table, c: Table, reached: seq<Pid>)
    requires WellKeyed(t) && PrefixShape(t, c, reached)
    ensures WellKeyed(c)
  {
    forall q | q in c
      ensures c[q].process.pid == q
    {
      assert c[q].process.pid == t[q].process.pid;
    }
  }

  /**
   * Heat after a pass over `order` (the running pids, each once): every
   * process the loop reached and that is still in the table has exactly its
   * base heat; every one it did not reach is still in the same state and has
   * gained its base heat; records outside `order` are untouched, and a
   * record that was not running is never removed. No record starts running.
   */
  lemma RunAllHeat(st: KState, order: seq<Pid>, used: nat -> real, maxCpu: real, behave: Pid -> RunOutcome)
    requires Distinct(order)
    requires forall q :: q in order ==> Live(st.table, q)
    ensures var k := FirstOver(used, maxCpu, |order|, 0);
      var t := st.table;
      var fin := RunAll(st, order, used, maxCpu, behave).state.table;
      fin.Keys <= t.Keys
      && (forall q :: q in fin && q in order[..k] ==> fin[q].heat == t[q].process.baseHeat)
      && (forall q :: q in fin && q in order[k..] ==> fin[q] == t[q].(heat := t[q].heat + t[q].process.baseHeat))
      && (forall q :: q in fin && q !in order ==> fin[q] == t[q])
      && (forall q :: q in t && !Live(t, q) ==> q in fin)
      && (forall q :: q in fin && fin[q].process.status == RUN ==> t[q].process.status == RUN)
  {
    var k := FirstOver(used, maxCpu, |order|, 0);
    RunPrefixShape(st, order, k, behave);
    var c := RunPrefix(st, order, k, behave).state.table;
    HeatAfterShape(st.table, c, order, k);
  }

  /** `RunAllHeat` on tables: the overheat phase after a main loop that stopped at `k`. */
  lemma HeatAfterShape(t: Table, c: Table, order: seq<Pid>, k: nat)
    requires k <= |order| && Distinct(order) && PrefixShape(t, c, order[..k])
    requires forall q :: q in order ==> Live(t, q)
    ensures var fin := HeatRest(c, order[k..]);
      fin.Keys <= t.Keys
      && (forall q :: q in fin && q in order[..k] ==> fin[q].heat == t[q].process.baseHeat)
      && (forall q :: q in fin && q in order[k..] ==> fin[q] == t[q].(heat := t[q].heat + t[q].process.baseHeat))
      && (forall q :: q in fin && q !in order ==> fin[q] == t[q])
      && (forall q :: q in t && !Live(t, q) ==> q in fin)
      && (forall q :: q in fin && fin[q].process.status == RUN ==> t[q].process.status == RUN)
  {
    assert order == order[..k] + order[k..];
    DistinctSplit(order, k);
    HeatRestEffect(c, order[k..]);
    var fin := HeatRest(c, order[k..]);
    forall q | q in fin && q in order[k..]
      ensures fin[q] == t[q].(heat := t[q].heat + t[q].process.baseHeat)
    {
      assert q !in order[..k];
      assert c[q] == t[q];
      assert Live(t, q);
    }
  }

  /**
   * The CPU budget: the loop stops at the first reading of the CPU used that
   * reaches `maxCpu`, and the processes whose `run()` is called are, in
   * order and each once, among those before that point, each running with a
   * running parent when the pass started.
   */
  lemma RunAllBudget(st: KState, order: seq<Pid>, used: nat -> real, maxCpu: real, behave: Pid -> RunOutcome)
    requires Distinct(order)
    ensures var k := FirstOver(used, maxCpu, |order|, 0);
      var ran := RunAll(st, order, used, maxCpu, behave).ran;
      (forall j :: 0 <= j < k ==> used(j) < maxCpu)
      && (k < |order| ==> used(k) >= maxCpu)
      && SubsequenceOf(ran, order[..k]) && Distinct(ran) && |ran| <= k
      && (forall q :: q in ran ==> Live(st.table, q) && Live(st.table, st.table[q].process.parentPid))
  {
    var k := FirstOver(used, maxCpu, |order|, 0);
    RunPrefixRan(st, order, k, behave);
    RunPrefixOrphans(st, order, k, behave);
  }

  /**
   * An orphan at the start of a pass (running, parent not running) stays in
   * the table and is never run; if the loop reached it, it is marked EXIT and
   * so is dropped by the next save.
   */
  lemma RunAllOrphan(st: KState, order: seq<Pid>, used: nat -> real, maxCpu: real, behave: Pid -> RunOutcome, o: Pid)
    requires WellKeyed(st.table) && Distinct(order)
    requires Live(st.table, o) && !Live(st.table, st.table[o].process.parentPid)
    ensures var k := FirstOver(used, maxCpu, |order|, 0);
      var p := RunAll(st, order, used, maxCpu, behave);
      o in p.state.table && o !in p.ran
      && (o in order[..k] ==>
            (p.state.table[o].process.status == EXIT
             && forall e :: e in SavedEntries(p.state.table) ==> e.id != o))
  {
    var k := FirstOver(used, maxCpu, |order|, 0);
    RunPrefixOrphan(st, order, k, behave, o);
    RunPrefixShape(st, order, k, behave);
    var c := RunPrefix(st, order, k, behave).state.table;
    PrefixShapeWellKeyed(st.table, c, order[..k]);
    DistinctSplit(order, k);
    HeatRestEffect(c, order[k..]);
    var fin := HeatRest(c, order[k..]);
    if o in order[..k] {
      assert fin[o] == c[o];
      assert WellKeyed(fin) by {
        forall q | q in fin
          ensures fin[q].process.pid == q
        {
          assert fin[q].process == c[q].process;
        }
      }
      DeadNotSaved(fin, o);
    }
  }

  // ---------------------------------------------------------------------
  // sortKernelRecordsByHeat
  // ---------------------------------------------------------------------

  /** `sortKernelRecordsByHeat(a, b)`: negative when `a` is to run before `b`. */
  function CompareByHeat(a: KernelRecord, b: KernelRecord): (c: int)
    ensures c < 0 <==> a.heat > b.heat
    ensures c == 0 <==> a.heat == b.heat
  {
    b.heat - a.heat
  }

  /** Hottest first. */
  predicate HeatDescending(s: seq<KernelRecord>) {
    forall i, j :: 0 <= i < j < |s| ==> s[i].heat >= s[j].heat
  }

  /** Insert `x` before the first record the comparator does not put before it. */
  function InsertByHeat(x: KernelRecord, s: seq<KernelRecord>): (r: seq<KernelRecord>)
    requires HeatDescending(s)
    ensures HeatDescending(r)
    ensures multiset(r) == multiset(s) + multiset{x}
    ensures |r| == |s| + 1
    decreases |s|
  {
    if s == [] then [x]
    else if CompareByHeat(x, s[0]) <= 0 then [x] + s
    else
      var rest := InsertByHeat(x, s[1..]);
      assert s == [s[0]] + s[1..];
      forall k | 0 <= k < |rest|
        ensures rest[k].heat <= s[0].heat
      {
        assert rest[k] in multiset(rest);
        assert rest[k] == x || rest[k] in multiset(s[1..]);
      }
      [s[0]] + rest
  }

  /** `processes.sort(sortKernelRecordsByHeat)`: the same records, hottest first. */
  function SortByHeat(s: seq<KernelRecord>): (r: seq<KernelRecord>)
    ensures HeatDescending(r)
    ensures multiset(r) == multiset(s)
    ensures |r| == |s|
    decreases |s|
  {
    if s == [] then []
    else
      assert s == [s[0]] + s[1..];
      InsertByHeat(s[0], SortByHeat(s[1..]))
  }
}
