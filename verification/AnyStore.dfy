/**
 * What a Sync does from any grants, also when the user holds two grants on one project: it ends, it
 * writes only wanted role lists, its counters are right, and grants its index hides stay untouched.
 */
module AnyStore {
  import opened FreshIds
  import opened Paging
  import opened Roles
  import opened Store
  import opened Wrappers
  import opened SyncMachine
  import opened SyncProof

  /* The invariant */

  /** The user's listed grants by project, the last listed one winning. */
  function Listed(list: Lister, t0: Table, job: Job): map<string, Entry>
    requires IsLister(list)
  {
    IndexOf(Items(list, t0, job.org, job.user))
  }

  /** The index entry of a project is one of the user's grants on it. */
  ghost predicate Points(t0: Table, job: Job, index: map<string, Entry>) {
    forall p :: p in index ==>
      && index[p].id in t0 && Owned(t0[index[p].id], job.org, job.user)
      && index[p].record == t0[index[p].id] && t0[index[p].id].project == p
  }

  /** A grant on a project for which the index holds another one. */
  predicate Hidden(t0: Table, index: map<string, Entry>, id: string)
    requires id in t0
  {
    t0[id].project in index && index[t0[id].project].id != id
  }

  /** Hidden grants are untouched, and the listed grants of wanted projects keep all but their roles. */
  ghost predicate Kept(t0: Table, job: Job, index: map<string, Entry>, t: Table) {
    && (forall id :: id in t0 && Owned(t0[id], job.org, job.user) && Hidden(t0, index, id) ==>
          id in t && t[id] == t0[id])
    && (forall p :: p in index && p in WantOf(job.desired) ==>
          index[p].id in t && t[index[p].id] == index[p].record.(roles := t[index[p].id].roles))
  }

  /** Added and updated role lists are the wanted ones, and only grants on unwanted projects are removed. */
  ghost predicate WritesWanted(t0: Table, job: Job, want: map<string, Desired>, log: seq<Write>) {
    forall w :: w in log ==> WriteWanted(t0, job, want, w)
  }

  ghost predicate WriteWanted(t0: Table, job: Job, want: map<string, Desired>, w: Write) {
    match w
    case Add(_, r) =>
      r.project in want
      && r == Record(job.org, job.user, r.project, want[r.project].projectGrantId, want[r.project].roles)
    case Update(id, roles) =>
      id in t0 && Owned(t0[id], job.org, job.user) && t0[id].project in want && roles == want[t0[id].project].roles
    case Remove(id) =>
      id in t0 && Owned(t0[id], job.org, job.user) && t0[id].project !in want
  }

  /** The table grows and shrinks one logged write at a time. */
  predicate Sized(t0: Table, t: Table, log: seq<Write>) {
    |t| + Tally(log).removed == |t0| + Tally(log).added
  }

  ghost predicate InLoops(job: Job, index: map<string, Entry>, t: Table, l: Local) {
    l.Writing? && l.existing == index && Ids(t, job, index, l.gone) && Shape(WantOf(job.desired), index, l.todo, l.gone)
  }

  ghost predicate IndexInv(list: Lister, t0: Table, job: Job, c: Conf)
    requires IsLister(list)
  {
    var index := Listed(list, t0, job);
    && WritesWanted(t0, job, WantOf(job.desired), c.log) && Sized(t0, c.table, c.log)
    && match c.local
       case Listing(got) => c.table == t0 && c.log == [] && Prefix(list, t0, job, got)
       case Writing(_, todo, gone, counts) =>
         Kept(t0, job, index, c.table) && InLoops(job, index, c.table, c.local) && counts == Tally(c.log)
         && (todo != {} || gone != {})
       case Finished(total) => Kept(t0, job, index, c.table) && total == Tally(c.log)
       case Failed => Kept(t0, job, index, c.table)
  }

  lemma ListedPoints(list: Lister, t0: Table, job: Job)
    requires IsLister(list)
    ensures Points(t0, job, Listed(list, t0, job))
    ensures forall id :: id in t0 && Owned(t0[id], job.org, job.user) ==> t0[id].project in Listed(list, t0, job)
  {
    hide Items, IndexOf;
    var items := Items(list, t0, job.org, job.user);
    forall id | id in t0 && Owned(t0[id], job.org, job.user) ensures t0[id].project in IndexOf(items) {
      assert Entry(id, t0[id]) in items;
    }
  }

  lemma KeptAtFirst(t0: Table, job: Job, index: map<string, Entry>)
    requires Points(t0, job, index)
    ensures Kept(t0, job, index, t0) && Ids(t0, job, index, index.Keys)
    ensures WritesWanted(t0, job, WantOf(job.desired), []) && Sized(t0, t0, [])
  {
    hide WantOf;
  }

  lemma SettleKeeps(list: Lister, t0: Table, job: Job, c: Conf)
    requires IsLister(list) && c.local.Writing?
    requires WritesWanted(t0, job, WantOf(job.desired), c.log) && Sized(t0, c.table, c.log)
    requires var index := Listed(list, t0, job);
      Kept(t0, job, index, c.table) && InLoops(job, index, c.table, c.local) && c.local.counts == Tally(c.log)
    ensures IndexInv(list, t0, job, c.(local := Settle(c.local)))
  {
    hide IsLister, Listed, Kept, WritesWanted, Sized, Ids, Shape, WantOf, Tally;
  }

  lemma PageKeeps(list: Lister, t0: Table, job: Job, c: Conf, a: Action)
    requires IsLister(list) && IndexInv(list, t0, job, c) && Enabled(job, c, a) && a.Page?
    ensures IndexInv(list, t0, job, Next(list, job, c, a))
  {
    hide IsLister, Items, IndexOf, WantOf, PageOf, Kept, WritesWanted, Sized, Ids, Points;
    var items, index := Items(list, t0, job.org, job.user), Listed(list, t0, job);
    ListedPoints(list, t0, job);
    KeptAtFirst(t0, job, index);
    PagesAddUp(items, c.local.got);
    SettleKeeps(list, t0, job,
      Conf(t0, Writing(index, WantOf(job.desired).Keys, index.Keys, Counts(0, 0, 0)), []));
  }

  /* One call */

  lemma CallWanted(t0: Table, job: Job, index: map<string, Entry>, l: Local, a: Action)
    requires Points(t0, job, index) && l.Writing? && l.existing == index && InLoop(job, l, a)
    requires Call(job, l, a).Some?
    ensures WriteWanted(t0, job, WantOf(job.desired), Call(job, l, a).value)
  {
    hide WantOf, RolesEqual;
  }

  lemma CallKeeps(t0: Table, job: Job, index: map<string, Entry>, t: Table, l: Local, a: Action)
    requires Points(t0, job, index) && l.Writing? && l.existing == index && InLoop(job, l, a)
    requires Call(job, l, a).Some? && Accepts(t, job.org, job.user, Call(job, l, a).value)
    requires Kept(t0, job, index, t)
    ensures Kept(t0, job, index, Apply(t, Call(job, l, a).value))
  {
    hide WantOf, RolesEqual;
  }

  lemma CallKeepsIds(t0: Table, job: Job, index: map<string, Entry>, t: Table, l: Local, a: Action)
    requires Points(t0, job, index) && InLoops(job, index, t, l) && InLoop(job, l, a)
    requires Call(job, l, a).Some? && Accepts(t, job.org, job.user, Call(job, l, a).value)
    ensures a.Visit? ==> Ids(Apply(t, Call(job, l, a).value), job, index, l.gone)
    ensures a.Sweep? ==> Ids(Apply(t, Call(job, l, a).value), job, index, l.gone - {a.project})
  {
    hide WantOf, RolesEqual;
  }

  lemma WriteSized(t0: Table, job: Job, t: Table, log: seq<Write>, w: Write)
    requires Sized(t0, t, log) && Accepts(t, job.org, job.user, w)
    ensures Sized(t0, Apply(t, w), log + [w])
  {
    hide Tally, Apply;
    TallySnoc(log, w);
    ApplySize(t, job, w);
  }

  lemma ApplySize(t: Table, job: Job, w: Write)
    requires Accepts(t, job.org, job.user, w)
    ensures |Apply(t, w)| == |t| + (if w.Add? then 1 else 0) - if w.Remove? then 1 else 0
  {
    var n := Apply(t, w);
    assert |n| == |n.Keys| && |t| == |t.Keys|;
    match w
    case Add(id, r) => assert n.Keys == t.Keys + {id};
    case Update(id, roles) => assert n.Keys == t.Keys;
    case Remove(id) => assert n.Keys == t.Keys - {id} && id in t.Keys;
  }

  lemma WantedSnoc(t0: Table, job: Job, want: map<string, Desired>, log: seq<Write>, w: Write)
    requires WritesWanted(t0, job, want, log) && WriteWanted(t0, job, want, w)
    ensures WritesWanted(t0, job, want, log + [w])
  {
    hide WriteWanted;
  }

  /** The loops' variables with the action's key dealt with. */
  function Dealt(l: Local, a: Action, counts: Counts): Local
    requires l.Writing? && !a.Page?
  {
    if a.Visit? then l.(todo := l.todo - {a.project}, counts := counts)
    else l.(gone := l.gone - {a.project}, counts := counts)
  }

  lemma WriteKeepsIndex(list: Lister, t0: Table, job: Job, c: Conf, a: Action, w: Write)
    requires IsLister(list) && IndexInv(list, t0, job, c) && !a.Page? && InLoop(job, c.local, a)
    requires Call(job, c.local, a) == Some(w) && Accepts(c.table, job.org, job.user, w)
    ensures IndexInv(list, t0, job, Conf(Apply(c.table, w), Onward(c.local, a, Count(c.local.counts, w)), c.log + [w]))
    ensures IndexInv(list, t0, job, Conf(Apply(c.table, w), Failed, c.log + [w]))
  {
    hide IsLister, Listed, WantOf, Kept, WritesWanted, WriteWanted, Sized, Ids, Points, Call, Apply, Tally;
    var index := Listed(list, t0, job);
    ListedPoints(list, t0, job);
    CallWanted(t0, job, index, c.local, a);
    WantedSnoc(t0, job, WantOf(job.desired), c.log, w);
    CallKeeps(t0, job, index, c.table, c.local, a);
    CallKeepsIds(t0, job, index, c.table, c.local, a);
    WriteSized(t0, job, c.table, c.log, w);
    TallySnoc(c.log, w);
    SettleKeeps(list, t0, job,
      Conf(Apply(c.table, w), Dealt(c.local, a, Count(c.local.counts, w)), c.log + [w]));
  }

  lemma SkipKeepsIndex(list: Lister, t0: Table, job: Job, c: Conf, a: Action)
    requires IsLister(list) && IndexInv(list, t0, job, c) && !a.Page? && InLoop(job, c.local, a)
    ensures IndexInv(list, t0, job, c.(local := Onward(c.local, a, c.local.counts)))
    ensures IndexInv(list, t0, job, c.(local := Failed))
  {
    hide IsLister, Listed, WantOf, Kept, WritesWanted, Sized, Tally;
    SettleKeeps(list, t0, job, c.(local := Dealt(c.local, a, c.local.counts)));
  }

  lemma StepKeeps(list: Lister, t0: Table, job: Job, c: Conf, a: Action)
    requires IsLister(list) && IndexInv(list, t0, job, c) && Enabled(job, c, a)
    ensures IndexInv(list, t0, job, Next(list, job, c, a))
  {
    hide IsLister, IndexInv, WantOf, Items, PageOf, Begin, Onward, Call, Accepts, Apply;
    if a.Page? {
      PageKeeps(list, t0, job, c, a);
    } else {
      SkipKeepsIndex(list, t0, job, c, a);
      var call := Call(job, c.local, a);
      if call.Some? && a.outcome != Rejected {
        WriteKeepsIndex(list, t0, job, c, a, call.value);
      }
    }
  }

  lemma StartKeeps(list: Lister, t0: Table, job: Job)
    requires IsLister(list)
    ensures IndexInv(list, t0, job, Start(t0))
  {
    hide Items, IndexOf, WantOf;
  }

  /** Every run from every store keeps the invariant. */
  lemma {:induction false} ExecKeeps(list: Lister, t0: Table, job: Job, acts: seq<Action>)
    requires IsLister(list) && Exec(list, t0, job, acts).Some?
    ensures IndexInv(list, t0, job, Exec(list, t0, job, acts).value)
  {
    hide Next, Enabled, IsLister, IndexInv;
    if acts != [] {
      ExecKeeps(list, t0, job, acts[..|acts| - 1]);
      StepKeeps(list, t0, job, Exec(list, t0, job, acts[..|acts| - 1]).value, acts[|acts| - 1]);
    } else {
      StartKeeps(list, t0, job);
    }
  }

  /* What every run does */

  /**
   * From any grants, wherever the run stops: each write adds a wanted grant, sets the wanted roles on
   * a grant of a wanted project or removes a grant of an unwanted one, and the table has grown and
   * shrunk by exactly the adds and removals, which on return are the counters.
   */
  lemma WritesAreWanted(list: Lister, t0: Table, job: Job, acts: seq<Action>)
    requires IsLister(list) && Exec(list, t0, job, acts).Some?
    ensures var c := Exec(list, t0, job, acts).value;
      && (forall w :: w in c.log ==> WriteWanted(t0, job, WantOf(job.desired), w))
      && |c.table| + Tally(c.log).removed == |t0| + Tally(c.log).added
      && (c.local.Finished? ==> c.local.total == Tally(c.log))
  {
    hide IsLister, Exec, WantOf, WriteWanted, Kept, Listed, Tally;
    ExecKeeps(list, t0, job, acts);
  }

  lemma WriteFrame(t: Table, org: string, user: string, w: Write)
    requires Accepts(t, org, user, w)
    ensures Others(Apply(t, w), org, user) == Others(t, org, user)
  {
  }

  /** A Sync changes nothing outside its user's grants in its org. */
  lemma {:induction false} ExecFrame(list: Lister, t: Table, job: Job, acts: seq<Action>)
    requires IsLister(list) && Exec(list, t, job, acts).Some?
    ensures Others(Exec(list, t, job, acts).value.table, job.org, job.user) == Others(t, job.org, job.user)
  {
    hide IsLister, Onward, Call, Begin, Items, PageOf, WantOf;
    if acts != [] {
      ExecFrame(list, t, job, acts[..|acts| - 1]);
      var c, a := Exec(list, t, job, acts[..|acts| - 1]).value, acts[|acts| - 1];
      if !a.Page? && Call(job, c.local, a).Some? && a.outcome != Rejected {
        WriteFrame(c.table, job.org, job.user, Call(job, c.local, a).value);
      }
    }
  }

  lemma {:induction false} NothingWantedNothingAdded(t0: Table, job: Job, log: seq<Write>)
    requires WritesWanted(t0, job, WantOf(job.desired), log) && job.desired == []
    ensures Tally(log).added == 0
  {
    if log != [] {
      assert log == log[..|log| - 1] + [log[|log| - 1]];
      NothingWantedNothingAdded(t0, job, log[..|log| - 1]);
      assert WriteWanted(t0, job, WantOf(job.desired), log[|log| - 1]);
    }
  }

  /** Sync returns an error only because a call did. */
  lemma {:induction false} ErrorsComeFromCalls(list: Lister, t0: Table, job: Job, acts: seq<Action>)
    requires IsLister(list) && Exec(list, t0, job, acts).Some? && forall a :: a in acts ==> Served(a)
    ensures !Exec(list, t0, job, acts).value.local.Failed?
  {
    hide IsLister, WantOf, Apply, Call, Items, PageOf;
    if acts != [] {
      var rest := acts[..|acts| - 1];
      assert forall a :: a in rest ==> a in acts;
      ErrorsComeFromCalls(list, t0, job, rest);
      assert acts[|acts| - 1] in acts;
    }
  }

  /* Termination */

  /** Pages and keys still to come. */
  ghost function Remaining(list: Lister, t: Table, job: Job, l: Local): nat
    requires IsLister(list)
  {
    match l
    case Listing(got) =>
      var n := |Items(list, t, job.org, job.user)|;
      n + |WantOf(job.desired)| + (if |got| <= n then n - |got| else 0) + 2
    case Writing(_, todo, gone, _) => |todo| + |gone| + 1
    case Finished(_) => 0
    case Failed => 0
  }

  lemma {:induction false} IndexIsSmall(entries: seq<Entry>)
    ensures |IndexOf(entries)| <= |entries|
  {
    if entries != [] {
      var rest := entries[..|entries| - 1];
      IndexIsSmall(rest);
      var e := entries[|entries| - 1];
      assert IndexOf(entries).Keys == IndexOf(rest).Keys + {e.record.project};
    }
  }

  /** Every action brings the return closer, so page loop and map loops terminate. */
  lemma ActionsAdvance(list: Lister, t0: Table, job: Job, acts: seq<Action>, a: Action)
    requires IsLister(list) && Exec(list, t0, job, acts + [a]).Some?
    ensures var c := Exec(list, t0, job, acts); var d := Exec(list, t0, job, acts + [a]).value;
      c.Some? && Remaining(list, d.table, job, d.local) < Remaining(list, c.value.table, job, c.value.local)
  {
    hide IndexInv, Remaining, Next, Enabled, IsLister;
    assert (acts + [a])[..|acts|] == acts;
    ExecKeeps(list, t0, job, acts);
    var c := Exec(list, t0, job, acts).value;
    if a.Page? {
      PageAdvances(list, t0, job, c, a);
    } else {
      KeyAdvances(list, job, c, a);
    }
  }

  lemma PageAdvances(list: Lister, t0: Table, job: Job, c: Conf, a: Action)
    requires IsLister(list) && IndexInv(list, t0, job, c) && Enabled(job, c, a) && a.Page?
    ensures var d := Next(list, job, c, a);
      Remaining(list, d.table, job, d.local) < Remaining(list, c.table, job, c.local)
  {
    hide WantOf, Items, WritesWanted, IsLister, PageOf, IndexOf, Kept;
    var items := Items(list, t0, job.org, job.user);
    PagesAddUp(items, c.local.got);
    IndexIsSmall(items);
    assert |IndexOf(items).Keys| == |IndexOf(items)|;
    assert |WantOf(job.desired).Keys| == |WantOf(job.desired)|;
  }

  lemma KeyAdvances(list: Lister, job: Job, c: Conf, a: Action)
    requires IsLister(list) && Enabled(job, c, a) && !a.Page?
    ensures var d := Next(list, job, c, a);
      Remaining(list, d.table, job, d.local) < Remaining(list, c.table, job, c.local)
  {
    hide WantOf, Items, Apply, Call, Accepts, IsLister, PageOf, IndexOf;
    if a.Visit? {
      assert |c.local.todo - {a.project}| == |c.local.todo| - 1;
    } else {
      assert |c.local.gone - {a.project}| == |c.local.gone| - 1;
    }
  }

  /** A Sync that has not returned can always go on with a call the API serves. */
  lemma NeverStuck(list: Lister, t0: Table, job: Job, acts: seq<Action>) returns (a: Action)
    requires IsLister(list) && Exec(list, t0, job, acts).Some?
    requires !Ended(Exec(list, t0, job, acts).value.local)
    ensures Served(a) && Exec(list, t0, job, acts + [a]).Some?
  {
    hide IndexInv, Next, IsLister;
    ExecKeeps(list, t0, job, acts);
    a := ServableAction(list, t0, job, Exec(list, t0, job, acts).value, Exec(list, t0, job, acts).value.table.Keys);
    assert (acts + [a])[..|acts|] == acts;
  }

  /** The id of a new grant can be chosen outside any set of ids. */
  lemma ServableAction(list: Lister, t0: Table, job: Job, c: Conf, taken: set<string>) returns (a: Action)
    requires IsLister(list) && IndexInv(list, t0, job, c) && !Ended(c.local) && c.table.Keys <= taken
    ensures Served(a) && Enabled(job, c, a) && (a.Visit? ==> a.newId !in taken)
  {
    hide Listed, Items, WritesWanted, Sized, Tally, IsLister, WantOf, Points, Enabled, Kept, Ids;
    ListedPoints(list, t0, job);
    var index := Listed(list, t0, job);
    if c.local.Listing? {
      a := Page(true);
      PageEnabled(job, c);
    } else if c.local.todo != {} {
      var p :| p in c.local.todo;
      var id := LongerThanAll(taken);
      a := Visit(p, Done, id);
      VisitEnabled(t0, job, index, c, p, id);
    } else {
      var p :| p in c.local.gone;
      a := Sweep(p, Done);
      SweepEnabled(t0, job, index, c, p);
    }
  }

  lemma PageEnabled(job: Job, c: Conf)
    requires c.local.Listing?
    ensures Enabled(job, c, Page(true))
  {
  }

  lemma VisitEnabled(t0: Table, job: Job, index: map<string, Entry>, c: Conf, p: string, id: string)
    requires Points(t0, job, index) && InLoops(job, index, c.table, c.local) && Kept(t0, job, index, c.table)
    requires p in c.local.todo && id !in c.table
    ensures Enabled(job, c, Visit(p, Done, id))
  {
    hide RolesEqual, WantOf, Ids;
  }

  lemma SweepEnabled(t0: Table, job: Job, index: map<string, Entry>, c: Conf, p: string)
    requires Points(t0, job, index) && InLoops(job, index, c.table, c.local)
    requires c.local.todo == {} && p in c.local.gone
    ensures Enabled(job, c, Sweep(p, Done))
  {
    hide RolesEqual, WantOf;
  }

  lemma ServedGoesOn(list: Lister, job: Job, c: Conf, a: Action)
    requires IsLister(list) && Enabled(job, c, a) && Served(a)
    ensures !Next(list, job, c, a).local.Failed?
  {
    hide IsLister, WantOf, Apply, Call, Items, PageOf, Accepts;
  }

  /** From any point it has reached without an error, a Sync whose calls are served from then on returns. */
  lemma {:induction false} ServedSyncReturns(list: Lister, t0: Table, job: Job, acts: seq<Action>) returns (all: seq<Action>)
    requires IsLister(list) && Exec(list, t0, job, acts).Some? && !Exec(list, t0, job, acts).value.local.Failed?
    ensures Returns(list, t0, job, all) && acts <= all
    ensures forall n :: |acts| <= n < |all| ==> Served(all[n])
    decreases var c := Exec(list, t0, job, acts); if c.None? then 0 else Remaining(list, c.value.table, job, c.value.local)
  {
    hide IsLister, Remaining, Next, Enabled, Served;
    var c := Exec(list, t0, job, acts).value;
    if c.local.Finished? {
      all := acts;
    } else {
      var a := NeverStuck(list, t0, job, acts);
      ActionsAdvance(list, t0, job, acts, a);
      assert (acts + [a])[..|acts|] == acts;
      ServedGoesOn(list, job, c, a);
      all := ServedSyncReturns(list, t0, job, acts + [a]);
      assert all[|acts|] == (acts + [a])[|acts|];
    }
  }
}
