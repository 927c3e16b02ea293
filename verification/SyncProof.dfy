/** What every step of a Sync keeps, and what a whole Sync achieves. */
module SyncProof {
  import opened Paging
  import opened Roles
  import opened Store
  import opened Wrappers
  import opened SyncMachine

  /* The invariant, over the grants `t0` the Sync started from */

  ghost predicate Inv(list: Lister, t0: Table, job: Job, c: Conf)
    requires IsLister(list) && Unique(t0, job.org, job.user)
  {
    var before := View(t0, job.org, job.user);
    var want := WantOf(job.desired);
    && Outside(t0, job, c.table, c.log)
    && Survivors(t0, job, want, c.table)
    && Unique(c.table, job.org, job.user)
    && var now := View(c.table, job.org, job.user);
       && Progress(now, before, want, |c.log|)
       && match c.local
          case Listing(got) => c.table == t0 && c.log == [] && Prefix(list, t0, job, got)
          case Writing(existing, todo, gone, counts) =>
            && Index(t0, job, before, existing) && Ids(c.table, job, existing, gone)
            && Shape(want, existing, todo, gone) && (todo != {} || gone != {})
            && Settled(now, before, want, todo, gone)
            && counts == Tally(c.log) && Counted(before, want, todo, gone, counts)
          case Finished(total) =>
            now == Final(before, want) && total == Tally(c.log) && CountedAll(before, want, total)
          case Failed => true
  }

  /** Other users and other orgs are untouched, and every write is an add, an update or a removal. */
  ghost predicate Outside(t0: Table, job: Job, t: Table, log: seq<Write>) {
    && Others(t, job.org, job.user) == Others(t0, job.org, job.user)
    && |log| == Tally(log).added + Tally(log).updated + Tally(log).removed
  }

  /** A grant on a wanted project keeps its id, its project and its project grant. */
  ghost predicate Survivors(t0: Table, job: Job, want: map<string, Desired>, t: Table) {
    forall id :: id in t0 && Owned(t0[id], job.org, job.user) && t0[id].project in want ==>
      id in t && t[id] == t0[id].(roles := t[id].roles)
  }

  /** Every project is at its old or wanted value, and each write settled exactly one project. */
  ghost predicate Progress(now: ByProject, before: ByProject, want: map<string, Desired>, writes: nat) {
    && Between(now, before, Final(before, want))
    && |Disagreement(now, Final(before, want))| + writes == |Disagreement(before, Final(before, want))|
  }

  /** What has been listed so far is the beginning of the whole list, in full pages. */
  ghost predicate Prefix(list: Lister, t: Table, job: Job, got: seq<Entry>)
    requires IsLister(list)
  {
    var items := Items(list, t, job.org, job.user);
    |got| <= |items| && |got| % PageSize == 0 && got == items[..|got|]
  }

  ghost predicate Index(t0: Table, job: Job, before: ByProject, existing: map<string, Entry>) {
    && existing.Keys == before.Keys
    && forall p :: p in existing ==>
         && existing[p].id in t0 && Owned(t0[existing[p].id], job.org, job.user)
         && existing[p].record == t0[existing[p].id] && existing[p].record.project == p
         && before[p] == Val(existing[p].record.projectGrantId, existing[p].record.roles)
  }

  /** The grants still to be swept are in the table under the ids that were listed. */
  ghost predicate Ids(t: Table, job: Job, existing: map<string, Entry>, gone: set<string>) {
    forall p :: p in gone && p in existing ==>
      existing[p].id in t && t[existing[p].id] == existing[p].record.(roles := t[existing[p].id].roles)
  }

  ghost predicate Shape(want: map<string, Desired>, existing: map<string, Entry>, todo: set<string>, gone: set<string>) {
    todo <= want.Keys && gone <= existing.Keys && (todo != {} ==> gone == existing.Keys)
  }

  predicate IsPending(want: map<string, Desired>, todo: set<string>, gone: set<string>, p: string) {
    p in todo || (p in gone && p !in want)
  }

  /** Projects still to be dealt with are as they were, the others are at their target. */
  ghost predicate Settled(now: ByProject, before: ByProject, want: map<string, Desired>, todo: set<string>, gone: set<string>) {
    forall p :: At(now, p) == if IsPending(want, todo, gone, p) then At(before, p) else At(Final(before, want), p)
  }

  function Missing(before: ByProject, want: map<string, Desired>): set<string> {
    want.Keys - before.Keys
  }

  function Differing(before: ByProject, want: map<string, Desired>): set<string> {
    set p | p in want && p in before && !RolesEqual(before[p].roles, want[p].roles)
  }

  function Unwanted(before: ByProject, want: map<string, Desired>): set<string> {
    before.Keys - want.Keys
  }

  ghost predicate Counted(before: ByProject, want: map<string, Desired>, todo: set<string>, gone: set<string>, n: Counts) {
    && n.added == |Missing(before, want) - todo|
    && n.updated == |Differing(before, want) - todo|
    && n.removed == |Unwanted(before, want) - gone|
  }

  ghost predicate CountedAll(before: ByProject, want: map<string, Desired>, n: Counts) {
    n == Counts(|Missing(before, want)|, |Differing(before, want)|, |Unwanted(before, want)|)
  }

  /* Listing */

  lemma IndexOfItems(list: Lister, t: Table, job: Job)
    requires IsLister(list) && Unique(t, job.org, job.user)
    ensures Index(t, job, View(t, job.org, job.user), IndexOf(Items(list, t, job.org, job.user)))
  {
    hide Items, IndexOf, View;
    var items := Items(list, t, job.org, job.user);
    var existing := IndexOf(items);
    ViewRepresents(t, job.org, job.user);
    forall p | p in View(t, job.org, job.user) ensures p in existing {
      var id :| id in t && Owned(t[id], job.org, job.user) && t[id].project == p;
      assert Entry(id, t[id]) in items;
    }
  }

  lemma FinalAt(before: ByProject, want: map<string, Desired>, p: string)
    ensures At(Final(before, want), p) ==
      if p !in want then None
      else if p !in before then Some(Val(want[p].projectGrantId, want[p].roles))
      else if RolesEqual(before[p].roles, want[p].roles) then Some(before[p])
      else Some(Val(before[p].projectGrantId, want[p].roles))
  {
  }

  lemma BeginSettled(before: ByProject, want: map<string, Desired>)
    ensures Settled(before, before, want, want.Keys, before.Keys)
    ensures Counted(before, want, want.Keys, before.Keys, Counts(0, 0, 0))
  {
    hide Final;
    forall p ensures !IsPending(want, want.Keys, before.Keys, p) ==> At(before, p) == At(Final(before, want), p) {
      FinalAt(before, want, p);
    }
    assert Missing(before, want) - want.Keys == {};
    assert Differing(before, want) - want.Keys == {};
    assert Unwanted(before, want) - before.Keys == {};
  }

  /** Nothing left in either loop: the grants are at their target and the counters are complete. */
  lemma LoopsDone(now: ByProject, before: ByProject, want: map<string, Desired>, n: Counts)
    requires Settled(now, before, want, {}, {}) && Counted(before, want, {}, {}, n)
    ensures now == Final(before, want) && CountedAll(before, want, n)
  {
    hide Final, Missing, Differing, Unwanted;
    SameAtSameMap(now, Final(before, want));
    assert Missing(before, want) - {} == Missing(before, want);
    assert Differing(before, want) - {} == Differing(before, want);
    assert Unwanted(before, want) - {} == Unwanted(before, want);
  }

  lemma SettleInv(list: Lister, t0: Table, job: Job, c: Conf)
    requires IsLister(list) && Unique(t0, job.org, job.user) && Unique(c.table, job.org, job.user)
    requires c.local.Writing?
    requires var before, want := View(t0, job.org, job.user), WantOf(job.desired);
      && Outside(t0, job, c.table, c.log) && Survivors(t0, job, want, c.table)
      && Progress(View(c.table, job.org, job.user), before, want, |c.log|)
      && Index(t0, job, before, c.local.existing) && Ids(c.table, job, c.local.existing, c.local.gone)
      && Shape(want, c.local.existing, c.local.todo, c.local.gone)
      && Settled(View(c.table, job.org, job.user), before, want, c.local.todo, c.local.gone)
      && c.local.counts == Tally(c.log) && Counted(before, want, c.local.todo, c.local.gone, c.local.counts)
    ensures Inv(list, t0, job, c.(local := Settle(c.local)))
  {
    hide View, WantOf, Outside, Survivors, Progress, Index, Ids, Shape, Settled, Counted, CountedAll, Final, Tally, Unique;
    if c.local.todo == {} && c.local.gone == {} {
      LoopsDone(View(c.table, job.org, job.user), View(t0, job.org, job.user), WantOf(job.desired), c.local.counts);
    }
  }

  lemma UntouchedInv(t0: Table, job: Job)
    requires Unique(t0, job.org, job.user)
    ensures var before, want := View(t0, job.org, job.user), WantOf(job.desired);
      && Outside(t0, job, t0, []) && Survivors(t0, job, want, t0)
      && Progress(before, before, want, 0)
  {
    hide View, WantOf, Final;
  }

  lemma StartInv(list: Lister, t0: Table, job: Job)
    requires IsLister(list) && Unique(t0, job.org, job.user)
    ensures Inv(list, t0, job, Start(t0))
  {
    hide View, WantOf, Outside, Survivors, Progress;
    UntouchedInv(t0, job);
  }

  lemma BeginInv(list: Lister, t0: Table, job: Job)
    requires IsLister(list) && Unique(t0, job.org, job.user)
    ensures Inv(list, t0, job, Conf(t0, Begin(job, Items(list, t0, job.org, job.user)), []))
  {
    hide View, WantOf, Outside, Survivors, Progress, Settled, Counted, Items, IndexOf, Inv;
    var before, want := View(t0, job.org, job.user), WantOf(job.desired);
    var existing := IndexOf(Items(list, t0, job.org, job.user));
    UntouchedInv(t0, job);
    IndexOfItems(list, t0, job);
    BeginSettled(before, want);
    SettleInv(list, t0, job, Conf(t0, Writing(existing, want.Keys, existing.Keys, Counts(0, 0, 0)), []));
  }

  lemma PageInv(list: Lister, t0: Table, job: Job, c: Conf, a: Action)
    requires IsLister(list) && Unique(t0, job.org, job.user) && Inv(list, t0, job, c)
    requires a.Page? && Enabled(job, c, a)
    ensures Inv(list, t0, job, Next(list, job, c, a))
  {
    hide View, WantOf, Outside, Survivors, Progress, Items, Begin, PageOf, Unique;
    var items := Items(list, t0, job.org, job.user);
    PagesAddUp(items, c.local.got);
    var page := PageOf(items, |c.local.got|);
    if a.served && |page| < PageSize {
      BeginInv(list, t0, job);
    }
  }

  /* One key of the two loops */

  /** The project's grant went from its old to its different target value, the others stayed. */
  ghost predicate Turned(now: ByProject, next: ByProject, before: ByProject, want: map<string, Desired>, p: string) {
    && (forall q :: q != p ==> At(now, q) == At(next, q))
    && At(now, p) == At(before, p) != At(Final(before, want), p) == At(next, p)
  }

  lemma TurnedProgress(now: ByProject, next: ByProject, before: ByProject, want: map<string, Desired>, p: string, writes: nat)
    requires Turned(now, next, before, want, p) && Progress(now, before, want, writes)
    ensures Progress(next, before, want, writes + 1)
  {
    hide Final, Disagreement;
    OneStepCloser(now, next, Final(before, want), p);
    forall q ensures At(next, q) == At(before, q) || At(next, q) == At(Final(before, want), q) {
      assert At(now, q) == At(before, q) || At(now, q) == At(Final(before, want), q);
    }
  }

  /** Once its key is dealt with, a project no longer counts as pending. */
  lemma SettledOn(now: ByProject, next: ByProject, before: ByProject, want: map<string, Desired>,
                  todo: set<string>, gone: set<string>, p: string, visit: bool)
    requires Settled(now, before, want, todo, gone)
    requires if visit then p in todo && p in want else todo == {}
    requires (forall q :: q != p ==> At(now, q) == At(next, q)) && At(next, p) == At(Final(before, want), p)
    ensures visit ==> Settled(next, before, want, todo - {p}, gone)
    ensures !visit ==> Settled(next, before, want, todo, gone - {p})
  {
    hide Final;
  }

  lemma LeaveTodo(all: set<string>, todo: set<string>, p: string)
    requires p in todo
    ensures |all - (todo - {p})| == |all - todo| + if p in all then 1 else 0
  {
    if p in all {
      assert all - (todo - {p}) == (all - todo) + {p};
    } else {
      assert all - (todo - {p}) == all - todo;
    }
  }

  /** The counters count exactly the projects that needed a call. */
  lemma CountedOn(before: ByProject, want: map<string, Desired>, todo: set<string>, gone: set<string>, n: Counts, p: string)
    requires Counted(before, want, todo, gone, n)
    ensures p in todo ==> Counted(before, want, todo - {p}, gone,
      Counts(n.added + (if p in Missing(before, want) then 1 else 0),
             n.updated + (if p in Differing(before, want) then 1 else 0), n.removed))
    ensures p in gone ==> Counted(before, want, todo, gone - {p},
      n.(removed := n.removed + if p in Unwanted(before, want) then 1 else 0))
  {
    hide Missing, Differing, Unwanted;
    if p in todo {
      LeaveTodo(Missing(before, want), todo, p);
      LeaveTodo(Differing(before, want), todo, p);
    }
    if p in gone {
      LeaveTodo(Unwanted(before, want), gone, p);
    }
  }

  /** What the step lemmas need to know about a key and the call made for it. */
  ghost predicate KeyReady(t0: Table, job: Job, c: Conf, a: Action)
    requires Unique(t0, job.org, job.user)
  {
    && c.local.Writing? && !a.Page? && InLoop(job, c.local, a) && Unique(c.table, job.org, job.user)
    && var before, want := View(t0, job.org, job.user), WantOf(job.desired);
    && Index(t0, job, before, c.local.existing)
    && Ids(c.table, job, c.local.existing, c.local.gone)
    && Shape(want, c.local.existing, c.local.todo, c.local.gone)
    && Settled(View(c.table, job.org, job.user), before, want, c.local.todo, c.local.gone)
  }

  lemma SkipMeansSettled(t0: Table, job: Job, c: Conf, a: Action)
    requires Unique(t0, job.org, job.user) && KeyReady(t0, job, c, a) && Call(job, c.local, a).None?
    ensures var before, want := View(t0, job.org, job.user), WantOf(job.desired);
      && At(View(c.table, job.org, job.user), a.project) == At(Final(before, want), a.project)
      && (a.Visit? ==> a.project !in Missing(before, want) && a.project !in Differing(before, want))
      && (a.Sweep? ==> a.project !in Unwanted(before, want))
  {
    hide View, WantOf, Unique, Ids, RolesEqual, Final;
    FinalAt(View(t0, job.org, job.user), WantOf(job.desired), a.project);
  }

  /** Which projects get which call. */
  lemma CallKind(t0: Table, job: Job, c: Conf, a: Action)
    requires Unique(t0, job.org, job.user) && KeyReady(t0, job, c, a) && Call(job, c.local, a).Some?
    ensures var before, want, w := View(t0, job.org, job.user), WantOf(job.desired), Call(job, c.local, a).value;
      && At(View(c.table, job.org, job.user), a.project) == At(before, a.project)
      && (w.Add? <==> a.project in Missing(before, want)) && (w.Update? <==> a.project in Differing(before, want) && a.Visit?)
      && (w.Remove? <==> a.project in Unwanted(before, want) && a.Sweep?)
      && (a.Visit? ==> a.project in want) && (w.Add? || w.Update? <==> a.Visit?)
  {
    hide View, WantOf, Unique, RolesEqual, Final;
  }

  lemma WriteTurns(t0: Table, job: Job, c: Conf, a: Action, w: Write)
    requires Unique(t0, job.org, job.user) && KeyReady(t0, job, c, a)
    requires Call(job, c.local, a) == Some(w) && Accepts(c.table, job.org, job.user, w)
    ensures var n := Apply(c.table, w);
      && Unique(n, job.org, job.user) && Others(n, job.org, job.user) == Others(c.table, job.org, job.user)
      && Turned(View(c.table, job.org, job.user), View(n, job.org, job.user),
                View(t0, job.org, job.user), WantOf(job.desired), a.project)
  {
    hide View, WantOf, Unique, Others, RolesEqual, Final, Missing, Differing, Unwanted, Settled;
    var before, want, p := View(t0, job.org, job.user), WantOf(job.desired), a.project;
    CallKind(t0, job, c, a);
    FinalAt(before, want, p);
    RolesEqualReflexive(c.local.existing, want, p);
    match w
    case Add(id, r) => ViewAdd(c.table, id, r);
    case Update(id, roles) => ViewUpdate(c.table, id, roles);
    case Remove(id) => ViewRemove(c.table, id);
  }

  lemma RolesEqualReflexive(existing: map<string, Entry>, want: map<string, Desired>, p: string)
    ensures p in existing && p in want && !RolesEqual(existing[p].record.roles, want[p].roles)
      ==> existing[p].record.roles != want[p].roles
  {
  }

  lemma IdsOn(t0: Table, job: Job, c: Conf, a: Action, w: Write)
    requires Unique(t0, job.org, job.user) && KeyReady(t0, job, c, a)
    requires Call(job, c.local, a) == Some(w) && Accepts(c.table, job.org, job.user, w)
    requires Survivors(t0, job, WantOf(job.desired), c.table)
    ensures Survivors(t0, job, WantOf(job.desired), Apply(c.table, w))
    ensures a.Visit? ==> Ids(Apply(c.table, w), job, c.local.existing, c.local.gone)
    ensures a.Sweep? ==> Ids(Apply(c.table, w), job, c.local.existing, c.local.gone - {a.project})
  {
    hide View, WantOf, Unique, Settled, RolesEqual;
  }

  lemma OutsideOn(t0: Table, job: Job, t: Table, log: seq<Write>, w: Write)
    requires Outside(t0, job, t, log) && Accepts(t, job.org, job.user, w)
    requires Others(Apply(t, w), job.org, job.user) == Others(t, job.org, job.user)
    ensures Outside(t0, job, Apply(t, w), log + [w])
  {
    hide Others;
    TallySnoc(log, w);
  }

  lemma TallySnoc(log: seq<Write>, w: Write)
    ensures Tally(log + [w]) == Count(Tally(log), w)
  {
    assert (log + [w])[..|log|] == log;
  }

  lemma SkipInv(list: Lister, t0: Table, job: Job, c: Conf, a: Action)
    requires IsLister(list) && Unique(t0, job.org, job.user) && Inv(list, t0, job, c)
    requires !a.Page? && InLoop(job, c.local, a) && Call(job, c.local, a).None?
    ensures Inv(list, t0, job, c.(local := Onward(c.local, a, c.local.counts)))
  {
    hide View, WantOf, Unique, Outside, Survivors, Progress, Index, Settled, Counted, Final, Call,
         Missing, Differing, Unwanted, IsLister;
    var before, want, now := View(t0, job.org, job.user), WantOf(job.desired), View(c.table, job.org, job.user);
    SkipMeansSettled(t0, job, c, a);
    SettledOn(now, now, before, want, c.local.todo, c.local.gone, a.project, a.Visit?);
    CountedOn(before, want, c.local.todo, c.local.gone, c.local.counts, a.project);
    var l := if a.Visit? then c.local.(todo := c.local.todo - {a.project})
             else c.local.(gone := c.local.gone - {a.project});
    SettleInv(list, t0, job, c.(local := l));
  }

  /** An applied write keeps everything that does not depend on the loops' own variables. */
  lemma WriteKeeps(list: Lister, t0: Table, job: Job, c: Conf, a: Action, w: Write)
    requires IsLister(list) && Unique(t0, job.org, job.user) && Inv(list, t0, job, c)
    requires !a.Page? && InLoop(job, c.local, a) && Call(job, c.local, a) == Some(w)
    requires Accepts(c.table, job.org, job.user, w)
    ensures KeyReady(t0, job, c, a)
    ensures var n, log := Apply(c.table, w), c.log + [w];
      && Unique(n, job.org, job.user) && Outside(t0, job, n, log)
      && Survivors(t0, job, WantOf(job.desired), n)
      && Progress(View(n, job.org, job.user), View(t0, job.org, job.user), WantOf(job.desired), |log|)
  {
    hide View, WantOf, Unique, Outside, Survivors, Progress, Index, Ids, Settled, Counted, Final, Call, Others,
         Missing, Differing, Unwanted, Turned, IsLister;
    WriteTurns(t0, job, c, a, w);
    CallKind(t0, job, c, a);
    IdsOn(t0, job, c, a, w);
    OutsideOn(t0, job, c.table, c.log, w);
    TurnedProgress(View(c.table, job.org, job.user), View(Apply(c.table, w), job.org, job.user),
                   View(t0, job.org, job.user), WantOf(job.desired), a.project, |c.log|);
  }

  lemma WriteInv(list: Lister, t0: Table, job: Job, c: Conf, a: Action, w: Write)
    requires IsLister(list) && Unique(t0, job.org, job.user) && Inv(list, t0, job, c)
    requires !a.Page? && InLoop(job, c.local, a) && Call(job, c.local, a) == Some(w)
    requires Accepts(c.table, job.org, job.user, w)
    ensures Inv(list, t0, job, Conf(Apply(c.table, w), Onward(c.local, a, Count(c.local.counts, w)), c.log + [w]))
    ensures Inv(list, t0, job, Conf(Apply(c.table, w), Failed, c.log + [w]))
  {
    hide View, WantOf, Unique, Outside, Survivors, Progress, Settled, Counted, Final, Call, Others,
         Missing, Differing, Unwanted, IsLister, Index, Ids, Tally;
    var before, want := View(t0, job.org, job.user), WantOf(job.desired);
    var now, n := View(c.table, job.org, job.user), Apply(c.table, w);
    WriteKeeps(list, t0, job, c, a, w);
    WriteTurns(t0, job, c, a, w);
    CallKind(t0, job, c, a);
    IdsOn(t0, job, c, a, w);
    SettledOn(now, View(n, job.org, job.user), before, want, c.local.todo, c.local.gone, a.project, a.Visit?);
    CountedOn(before, want, c.local.todo, c.local.gone, c.local.counts, a.project);
    MissingOrDiffering(before, want);
    TallySnoc(c.log, w);
    var l := if a.Visit? then c.local.(todo := c.local.todo - {a.project}, counts := Count(c.local.counts, w))
             else c.local.(gone := c.local.gone - {a.project}, counts := Count(c.local.counts, w));
    SettleInv(list, t0, job, Conf(n, l, c.log + [w]));
  }

  lemma MissingOrDiffering(before: ByProject, want: map<string, Desired>)
    ensures Missing(before, want) !! Differing(before, want)
  {
  }

  lemma FailedInv(list: Lister, t0: Table, job: Job, c: Conf)
    requires IsLister(list) && Unique(t0, job.org, job.user) && Inv(list, t0, job, c)
    ensures Inv(list, t0, job, c.(local := Failed))
  {
    hide View, WantOf, Unique, Outside, Survivors, Progress, Settled, Counted, Final, Index, Ids, Tally;
  }

  lemma KeyInv(list: Lister, t0: Table, job: Job, c: Conf, a: Action)
    requires IsLister(list) && Unique(t0, job.org, job.user) && Inv(list, t0, job, c) && Enabled(job, c, a) && !a.Page?
    ensures Inv(list, t0, job, Next(list, job, c, a))
  {
    hide View, WantOf, Unique, IsLister, Accepts, Apply, Onward, Call, Inv, Items, PageOf, Begin, Tally;
    FailedInv(list, t0, job, c);
    var call := Call(job, c.local, a);
    if call.None? {
      SkipInv(list, t0, job, c, a);
    } else if a.outcome != Rejected {
      WriteInv(list, t0, job, c, a, call.value);
    }
  }

  /** Every action keeps the invariant, however the API answers. */
  lemma StepInv(list: Lister, t0: Table, job: Job, c: Conf, a: Action)
    requires IsLister(list) && Unique(t0, job.org, job.user) && Inv(list, t0, job, c) && Enabled(job, c, a)
    ensures Inv(list, t0, job, Next(list, job, c, a))
  {
    hide Inv, Next, Unique, IsLister;
    if a.Page? {
      PageInv(list, t0, job, c, a);
    } else {
      KeyInv(list, t0, job, c, a);
    }
  }

  lemma {:induction false} ExecInv(list: Lister, t0: Table, job: Job, acts: seq<Action>)
    requires IsLister(list) && Unique(t0, job.org, job.user) && Exec(list, t0, job, acts).Some?
    ensures Inv(list, t0, job, Exec(list, t0, job, acts).value)
  {
    hide View, WantOf, Unique, IsLister, Inv, Next, Enabled;
    if acts == [] {
      StartInv(list, t0, job);
    } else {
      ExecInv(list, t0, job, acts[..|acts| - 1]);
      StepInv(list, t0, job, Exec(list, t0, job, acts[..|acts| - 1]).value, acts[|acts| - 1]);
    }
  }
}
