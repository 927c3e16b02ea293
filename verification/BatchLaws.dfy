/** Accounting, safety and order-independence of whole batch runs. */
module BatchLaws {
  import opened AnyStore
  import opened Batch
  import opened Mapper
  import opened Paging
  import opened Planner
  import opened Serialisability
  import opened Store
  import opened Strings
  import opened SyncMachine
  import opened SyncProof
  import opened SyncTheorems
  import opened UserLocks
  import opened Webhook
  import opened Wrappers

  /* Accounting */

  /** The counters cover every pending user exactly once, and skipped users were resolved to nothing. */
  lemma {:induction false} EveryUserCounted(list: Lister, s: Setup, ps: seq<Pending>, acts: seq<seq<Action>>, t: Table)
    requires IsLister(list) && |acts| == |ps| && Phase2(list, s, ps, acts, t).Some?
    ensures var n := Phase2(list, s, ps, acts, t).value.totals;
      && n.processed + n.skippedEmpty + n.suspendedPruned + n.failed == |ps|
      && n.skippedEmpty <= EmptyCount(ps)
      && (s.force ==> n.skippedEmpty == 0)
    decreases |ps|
  {
    hide IsLister, DesiredFor, Completes, Result;
    if ps != [] {
      EveryUserCounted(list, s, ps[..|ps| - 1], acts[..|ps| - 1], t);
    }
  }

  lemma RatioBound(empty: nat, pending: nat, max: real)
    requires pending > 0 && !(empty as real / pending as real > max)
    ensures empty as real <= max * pending as real
  {
    var ratio := empty as real / pending as real;
    assert ratio * pending as real == empty as real;
    assert (max - ratio) * pending as real >= 0.0;
  }

  /**
   * A run that is not aborted accounts for every resolved user, and unforced it skips no more than
   * the configured share of them; an aborted run leaves every grant as it was and counts nothing.
   */
  lemma RunAccounting(list: Lister, s: Setup, orgs: seq<OrgInput>, acts: seq<seq<Action>>, t: Table)
    requires IsLister(list) && RunAll(list, s, orgs, acts, t).Some?
    ensures var run, ps := RunAll(list, s, orgs, acts, t).value, Phase1(orgs);
      var n := run.totals;
      && (Aborts(s, ps) ==> run.table == t && n == NoTotals && run.turns == [])
      && (!Aborts(s, ps) ==> n.processed + n.skippedEmpty + n.suspendedPruned + n.failed == |ps|)
      && (!Aborts(s, ps) && !s.force ==> n.skippedEmpty as real <= s.maxEmptyRatio * |ps| as real || |ps| == 0)
  {
    hide IsLister, Phase2, EmptyCount, Aborts, Phase1;
    var ps := Phase1(orgs);
    if !Aborts(s, ps) {
      EveryUserCounted(list, s, ps, acts, t);
      BelowThreshold(s, ps, Phase2(list, s, ps, acts, t).value.totals.skippedEmpty);
    }
  }

  lemma BelowThreshold(s: Setup, ps: seq<Pending>, skipped: nat)
    requires !Aborts(s, ps) && skipped <= EmptyCount(ps)
    ensures !s.force && |ps| > 0 ==> skipped as real <= s.maxEmptyRatio * |ps| as real
  {
    hide EmptyCount;
    if !s.force && |ps| > 0 {
      RatioBound(EmptyCount(ps), |ps|, s.maxEmptyRatio);
    }
  }

  /* Size */

  lemma TurnSize(list: Lister, s: Setup, n: nat, p: Pending, acts: seq<Action>, g: Progress)
    requires IsLister(list) && Reconcile(list, s, n, p, acts, g).Some?
    ensures var h := Reconcile(list, s, n, p, acts, g).value;
      && h.totals.failed >= g.totals.failed
      && (h.totals.failed == g.totals.failed ==>
            |h.table| + (h.totals.removed - g.totals.removed) == |g.table| + (h.totals.added - g.totals.added))
  {
    hide IsLister, DesiredFor, RulesNameUser, Exec;
    if JobOf(s, n, p).Some? {
      SizeOfSync(list, g.table, JobOf(s, n, p).value, acts);
    }
  }

  lemma SizeOfSync(list: Lister, t: Table, job: Job, acts: seq<Action>)
    requires IsLister(list) && Completes(list, t, job, acts)
    ensures var c := Result(list, t, job, acts);
      && (c.local.Finished? ==> |c.table| + c.local.total.removed == |t| + c.local.total.added)
      && (c.local.Finished? && job.desired == [] ==> c.local.total.added == 0)
  {
    hide IsLister, Exec, Tally, WriteWanted, WantOf;
    WritesAreWanted(list, t, job, acts);
    if job.desired == [] {
      NothingWantedNothingAdded(t, job, Exec(list, t, job, acts).value.log);
    }
  }

  /**
   * From any store, when no Sync fails, the table's size changes by exactly the grants counted as
   * added and removed.
   */
  lemma {:induction false} SizeAccounting(list: Lister, s: Setup, ps: seq<Pending>, acts: seq<seq<Action>>, t: Table)
    requires IsLister(list) && |acts| == |ps| && Phase2(list, s, ps, acts, t).Some?
    ensures var run := Phase2(list, s, ps, acts, t).value;
      run.totals.failed == 0 ==> |run.table| + run.totals.removed == |t| + run.totals.added
    decreases |ps|
  {
    hide IsLister, Reconcile;
    if ps != [] {
      var n := |ps| - 1;
      SizeAccounting(list, s, ps[..n], acts[..n], t);
      TurnSize(list, s, n, ps[n], acts[n], Phase2(list, s, ps[..n], acts[..n], t).value);
    }
  }

  lemma UniqueFor(t: Table, org: string, user: string)
    requires AtMostOne(t)
    ensures Unique(t, org, user)
  {
  }

  lemma TurnAtMostOne(list: Lister, s: Setup, n: nat, p: Pending, acts: seq<Action>, g: Progress)
    requires IsLister(list) && AtMostOne(g.table) && Reconcile(list, s, n, p, acts, g).Some?
    ensures AtMostOne(Reconcile(list, s, n, p, acts, g).value.table)
    ensures Reconcile(list, s, n, p, acts, g).value.totals.failed >= g.totals.failed
  {
    hide IsLister, DesiredFor, RulesNameUser, Exec, AtMostOne;
    if JobOf(s, n, p).Some? {
      ExecAtMostOne(list, g.table, JobOf(s, n, p).value, acts);
    }
  }

  /** A batch run keeps at most one grant per org, user and project, whatever fails. */
  lemma {:induction false} RunKeepsAtMostOne(list: Lister, s: Setup, ps: seq<Pending>, acts: seq<seq<Action>>, t: Table)
    requires IsLister(list) && AtMostOne(t) && |acts| == |ps| && Phase2(list, s, ps, acts, t).Some?
    ensures AtMostOne(Phase2(list, s, ps, acts, t).value.table)
    decreases |ps|
  {
    hide IsLister, Reconcile, AtMostOne;
    if ps != [] {
      var n := |ps| - 1;
      RunKeepsAtMostOne(list, s, ps[..n], acts[..n], t);
      TurnAtMostOne(list, s, n, ps[n], acts[n], Phase2(list, s, ps[..n], acts[..n], t).value);
    }
  }

  /* Turns */

  /** Phase 2 is nothing but its Syncs, one after another, each for a pending user. */
  lemma {:induction false} Phase2IsSerial(list: Lister, s: Setup, ps: seq<Pending>, acts: seq<seq<Action>>, t: Table)
    requires IsLister(list) && |acts| == |ps| && Phase2(list, s, ps, acts, t).Some?
    ensures var run := Phase2(list, s, ps, acts, t).value;
      && Serial(list, t, run.turns) == Some(run.table)
      && forall u :: u in run.turns ==> exists n :: 0 <= n < |ps| && JobOf(s, n, ps[n]) == Some(u.job)
    decreases |ps|
  {
    hide IsLister, JobOf, Completes, Result;
    if ps != [] {
      var n := |ps| - 1;
      Phase2IsSerial(list, s, ps[..n], acts[..n], t);
      var g := Phase2(list, s, ps[..n], acts[..n], t).value;
      var run := Phase2(list, s, ps, acts, t).value;
      if JobOf(s, n, ps[n]).Some? {
        assert run.turns[..|run.turns| - 1] == g.turns;
      }
      forall u | u in run.turns ensures exists n :: 0 <= n < |ps| && JobOf(s, n, ps[n]) == Some(u.job) {
        if u in g.turns {
          var m :| 0 <= m < n && JobOf(s, m, ps[..n][m]) == Some(u.job);
          assert ps[..n][m] == ps[m];
        } else {
          assert JobOf(s, n, ps[n]) == Some(u.job);
        }
      }
    }
  }

  /* Final grants */

  /** No user is pending twice in one org. */
  ghost predicate DistinctUsers(ps: seq<Pending>) {
    forall i, j :: 0 <= i < j < |ps| ==> ps[i].org != ps[j].org || ps[i].user.id != ps[j].user.id
  }

  predicate Is(p: Pending, org: string, user: string) {
    p.org == org && p.user.id == user
  }

  /** What a pending user's grants become. */
  ghost function Target(before: ByProject, job: Option<Job>): ByProject {
    if job.None? then before else Final(before, WantOf(job.value.desired))
  }

  /**
   * A Sync leaves its user's grants between what they were and the target, at the target if it
   * returns, and leaves all other views alone.
   */
  lemma SyncView(list: Lister, t: Table, job: Job, acts: seq<Action>, org: string, user: string)
    requires IsLister(list) && AtMostOne(t) && Exec(list, t, job, acts).Some?
    ensures var n := Exec(list, t, job, acts).value.table;
      && Unique(t, org, user) && Unique(n, org, user)
      && var before, after := View(t, org, user), View(n, org, user);
         if job.org == org && job.user == user then
           Between(after, before, Final(before, WantOf(job.desired)))
           && (Returns(list, t, job, acts) ==> after == Final(before, WantOf(job.desired)))
         else after == before
  {
    hide IsLister, Exec, Final, WantOf, View, AtMostOne, Unique, Inv, Others, Survivors, Between;
    var c := Exec(list, t, job, acts).value;
    UniqueFor(t, org, user);
    UniqueFor(t, job.org, job.user);
    OldOrWanted(list, t, job, acts);
    if Returns(list, t, job, acts) {
      ExecInv(list, t, job, acts);
      WhenFinished(list, t, job, c);
    }
    if job.org != org || job.user != user {
      ViewOfOthers(t, c.table, job.org, job.user, org, user);
    }
  }

  lemma JobIsFor(s: Setup, n: nat, p: Pending)
    ensures JobOf(s, n, p).Some? ==> JobOf(s, n, p).value.org == p.org && JobOf(s, n, p).value.user == p.user.id
  {
    hide DesiredFor;
  }

  /** The pending user is skipped, or its Sync returns. */
  ghost predicate TurnReturns(list: Lister, s: Setup, n: nat, p: Pending, acts: seq<Action>, g: Progress)
    requires IsLister(list)
  {
    JobOf(s, n, p).Some? ==> Returns(list, g.table, JobOf(s, n, p).value, acts)
  }

  lemma UnchangedIsBetween(v: ByProject, w: ByProject)
    ensures Between(v, v, w)
  {
  }

  lemma ReconcileView(list: Lister, s: Setup, n: nat, p: Pending, acts: seq<Action>, g: Progress, org: string, user: string)
    requires IsLister(list) && AtMostOne(g.table) && Reconcile(list, s, n, p, acts, g).Some?
    ensures var h := Reconcile(list, s, n, p, acts, g).value;
      && AtMostOne(h.table) && Unique(h.table, org, user) && Unique(g.table, org, user)
      && var before, after := View(g.table, org, user), View(h.table, org, user);
         if Is(p, org, user) then
           Between(after, before, Target(before, JobOf(s, n, p)))
           && (TurnReturns(list, s, n, p, acts, g) ==> after == Target(before, JobOf(s, n, p)))
         else after == before
  {
    hide IsLister, JobOf, Exec, Final, WantOf, View, AtMostOne, Unique, Between;
    TurnAtMostOne(list, s, n, p, acts, g);
    JobIsFor(s, n, p);
    UniqueFor(g.table, org, user);
    UnchangedIsBetween(View(g.table, org, user), View(g.table, org, user));
    if JobOf(s, n, p).Some? {
      SyncView(list, g.table, JobOf(s, n, p).value, acts, org, user);
    }
  }

  /** The i-th pending user of the run is skipped, or its Sync returns. */
  ghost predicate OwnReturns(list: Lister, s: Setup, ps: seq<Pending>, acts: seq<seq<Action>>, t: Table, i: nat)
    requires IsLister(list) && |acts| == |ps| && i < |ps|
  {
    var g := Phase2(list, s, ps[..i], acts[..i], t);
    g.Some? && TurnReturns(list, s, i, ps[i], acts[i], g.value)
  }

  /** What the run makes of one user, pending or not. */
  ghost predicate Reached(list: Lister, s: Setup, ps: seq<Pending>, acts: seq<seq<Action>>, t: Table, after: Table,
                          org: string, user: string)
    requires IsLister(list) && |acts| == |ps| && Unique(t, org, user) && Unique(after, org, user)
  {
    var v, w := View(t, org, user), View(after, org, user);
    && (forall i :: 0 <= i < |ps| && Is(ps[i], org, user) ==>
          && Between(w, v, Target(v, JobOf(s, i, ps[i])))
          && (OwnReturns(list, s, ps, acts, t, i) ==> w == Target(v, JobOf(s, i, ps[i]))))
    && ((forall i :: 0 <= i < |ps| ==> !Is(ps[i], org, user)) ==> w == v)
  }

  /**
   * Failure isolation. Whatever fails, each pending user's grants end between what they were before
   * the run and that user's target, at the target if the user's own Sync returned; and the grants of
   * users who are not pending stay as they were.
   */
  lemma {:induction false} FailuresAreIsolated(list: Lister, s: Setup, ps: seq<Pending>, acts: seq<seq<Action>>, t: Table,
                                              org: string, user: string)
    requires IsLister(list) && AtMostOne(t) && DistinctUsers(ps) && |acts| == |ps|
    requires Phase2(list, s, ps, acts, t).Some?
    ensures var n := Phase2(list, s, ps, acts, t).value.table;
      && AtMostOne(n) && Unique(n, org, user) && Unique(t, org, user)
      && Reached(list, s, ps, acts, t, n, org, user)
    decreases |ps|
  {
    hide IsLister, View, Unique, AtMostOne, Reached;
    UniqueFor(t, org, user);
    if ps == [] {
      NobodyReached(list, s, acts, t, org, user);
    } else {
      hide Reconcile, DistinctUsers;
      var n := |ps| - 1;
      assert DistinctUsers(ps[..n]) by { DistinctPrefix(ps); }
      FailuresAreIsolated(list, s, ps[..n], acts[..n], t, org, user);
      var g := Phase2(list, s, ps[..n], acts[..n], t).value;
      ReconcileView(list, s, n, ps[n], acts[n], g, org, user);
      OneMoreReached(list, s, ps, acts, t, g, org, user);
    }
  }

  lemma DistinctPrefix(ps: seq<Pending>)
    requires DistinctUsers(ps) && ps != []
    ensures DistinctUsers(ps[..|ps| - 1])
  {
  }

  lemma NobodyReached(list: Lister, s: Setup, acts: seq<seq<Action>>, t: Table, org: string, user: string)
    requires IsLister(list) && acts == [] && Unique(t, org, user)
    ensures Reached(list, s, [], acts, t, t, org, user)
  {
  }

  lemma OneMoreReached(list: Lister, s: Setup, ps: seq<Pending>, acts: seq<seq<Action>>, t: Table, g: Progress,
                       org: string, user: string)
    requires IsLister(list) && DistinctUsers(ps) && |acts| == |ps| && ps != []
    requires var n := |ps| - 1;
      && Phase2(list, s, ps[..n], acts[..n], t) == Some(g) && Reconcile(list, s, n, ps[n], acts[n], g).Some?
      && Unique(t, org, user) && Unique(g.table, org, user)
      && Reached(list, s, ps[..n], acts[..n], t, g.table, org, user)
      && Unique(Reconcile(list, s, n, ps[n], acts[n], g).value.table, org, user)
    requires var n := |ps| - 1;
      var h := Reconcile(list, s, n, ps[n], acts[n], g).value;
      var before, after := View(g.table, org, user), View(h.table, org, user);
      if Is(ps[n], org, user) then
        Between(after, before, Target(before, JobOf(s, n, ps[n])))
        && (TurnReturns(list, s, n, ps[n], acts[n], g) ==> after == Target(before, JobOf(s, n, ps[n])))
      else after == before
    ensures var n := |ps| - 1;
      Reached(list, s, ps, acts, t, Reconcile(list, s, n, ps[n], acts[n], g).value.table, org, user)
  {
    hide IsLister, View, Unique, Between, Target, JobOf, Reconcile, TurnReturns, Phase2;
    var n := |ps| - 1;
    forall i | 0 <= i < n
      ensures ps[..n][i] == ps[i] && OwnReturns(list, s, ps[..n], acts[..n], t, i) == OwnReturns(list, s, ps, acts, t, i)
    {
      assert ps[..n][..i] == ps[..i] && acts[..n][..i] == acts[..i];
    }
    assert forall i :: 0 <= i < n && Is(ps[n], org, user) ==> !Is(ps[..n][i], org, user);
    assert OwnReturns(list, s, ps, acts, t, n) == TurnReturns(list, s, n, ps[n], acts[n], g);
  }

  /** A turn that adds no failure returned. */
  lemma CountedReturns(list: Lister, s: Setup, n: nat, p: Pending, acts: seq<Action>, g: Progress)
    requires IsLister(list) && Reconcile(list, s, n, p, acts, g).Some?
    requires Reconcile(list, s, n, p, acts, g).value.totals.failed == g.totals.failed
    ensures TurnReturns(list, s, n, p, acts, g)
  {
    hide IsLister, JobOf, Exec;
  }

  lemma {:induction false} NoFailureAllReturn(list: Lister, s: Setup, ps: seq<Pending>, acts: seq<seq<Action>>, t: Table, i: nat)
    requires IsLister(list) && |acts| == |ps| && i < |ps|
    requires Phase2(list, s, ps, acts, t).Some? && Phase2(list, s, ps, acts, t).value.totals.failed == 0
    ensures OwnReturns(list, s, ps, acts, t, i)
    decreases |ps|
  {
    hide IsLister, Reconcile, TurnReturns;
    var n := |ps| - 1;
    var g := Phase2(list, s, ps[..n], acts[..n], t).value;
    TurnSize(list, s, n, ps[n], acts[n], g);
    if i < n {
      NoFailureAllReturn(list, s, ps[..n], acts[..n], t, i);
      assert ps[..n][..i] == ps[..i] && acts[..n][..i] == acts[..i];
    } else {
      CountedReturns(list, s, n, ps[n], acts[n], g);
    }
  }

  /**
   * When no Sync fails, every pending user's grants end at the target computed from what the user
   * had before the run, and nobody else's change.
   */
  lemma RunReachesTargets(list: Lister, s: Setup, ps: seq<Pending>, acts: seq<seq<Action>>, t: Table,
                          org: string, user: string)
    requires IsLister(list) && AtMostOne(t) && DistinctUsers(ps) && |acts| == |ps|
    requires Phase2(list, s, ps, acts, t).Some? && Phase2(list, s, ps, acts, t).value.totals.failed == 0
    ensures var n := Phase2(list, s, ps, acts, t).value.table;
      && AtMostOne(n) && Unique(n, org, user) && Unique(t, org, user)
      && (forall i :: 0 <= i < |ps| && Is(ps[i], org, user) ==>
            View(n, org, user) == Target(View(t, org, user), JobOf(s, i, ps[i])))
      && ((forall i :: 0 <= i < |ps| ==> !Is(ps[i], org, user)) ==> View(n, org, user) == View(t, org, user))
  {
    hide IsLister, JobOf, Target, View, Unique, AtMostOne, Phase2, OwnReturns, Between;
    FailuresAreIsolated(list, s, ps, acts, t, org, user);
    forall i | 0 <= i < |ps| ensures OwnReturns(list, s, ps, acts, t, i) {
      NoFailureAllReturn(list, s, ps, acts, t, i);
    }
  }

  /* Counters of a run without failures */

  function Plus(a: Totals, b: Totals): Totals {
    Totals(a.processed + b.processed, a.skippedEmpty + b.skippedEmpty, a.suspendedPruned + b.suspendedPruned,
           a.failed + b.failed, a.added + b.added, a.updated + b.updated, a.removed + b.removed)
  }

  /** What one pending user adds to the counters, given the grants before the run. */
  ghost function Contribution(p: Pending, job: Option<Job>, before: ByProject): Totals {
    if job.None? then NoTotals.(skippedEmpty := 1)
    else
      var want := WantOf(job.value.desired);
      if p.suspended then NoTotals.(suspendedPruned := 1, removed := |Unwanted(before, want)|)
      else NoTotals.(processed := 1, added := |Missing(before, want)|, updated := |Differing(before, want)|,
                     removed := |Unwanted(before, want)|)
  }

  lemma ReconcileTotals(list: Lister, s: Setup, n: nat, p: Pending, acts: seq<Action>, g: Progress)
    requires IsLister(list) && AtMostOne(g.table) && Reconcile(list, s, n, p, acts, g).Some?
    ensures Unique(g.table, p.org, p.user.id)
    ensures Reconcile(list, s, n, p, acts, g).value.totals
         == Plus(g.totals, if TurnReturns(list, s, n, p, acts, g) then
                             Contribution(p, JobOf(s, n, p), View(g.table, p.org, p.user.id))
                           else NoTotals.(failed := 1))
    ensures Reconcile(list, s, n, p, acts, g).value.totals.failed == g.totals.failed ==> TurnReturns(list, s, n, p, acts, g)
  {
    hide IsLister, JobOf, Exec, View, AtMostOne, Unique, WantOf, Missing, Differing, Unwanted, Inv;
    UniqueFor(g.table, p.org, p.user.id);
    JobIsFor(s, n, p);
    if JobOf(s, n, p).Some? {
      var job := JobOf(s, n, p).value;
      ExecInv(list, g.table, job, acts);
      if Exec(list, g.table, job, acts).value.local.Finished? {
        WhenFinished(list, g.table, job, Exec(list, g.table, job, acts).value);
      }
    }
  }

  /** What the i-th pending user adds to the counters: one failure, or what its skip or Sync amounts to. */
  ghost function OwnShare(list: Lister, s: Setup, ps: seq<Pending>, acts: seq<seq<Action>>, t: Table, i: nat): Totals
    requires IsLister(list) && AtMostOne(t) && |acts| == |ps| && i < |ps|
  {
    UniqueFor(t, ps[i].org, ps[i].user.id);
    if OwnReturns(list, s, ps, acts, t, i) then
      Contribution(ps[i], JobOf(s, i, ps[i]), View(t, ps[i].org, ps[i].user.id))
    else NoTotals.(failed := 1)
  }

  ghost function OwnShares(list: Lister, s: Setup, ps: seq<Pending>, acts: seq<seq<Action>>, t: Table, n: nat): Totals
    requires IsLister(list) && AtMostOne(t) && |acts| == |ps| && n <= |ps|
  {
    if n == 0 then NoTotals
    else Plus(OwnShares(list, s, ps, acts, t, n - 1), OwnShare(list, s, ps, acts, t, n - 1))
  }

  lemma PrefixSome(list: Lister, s: Setup, ps: seq<Pending>, acts: seq<seq<Action>>, t: Table, n: nat)
    requires IsLister(list) && |acts| == |ps| && n < |ps| && Phase2(list, s, ps[..n + 1], acts[..n + 1], t).Some?
    ensures Phase2(list, s, ps[..n], acts[..n], t).Some?
    ensures Reconcile(list, s, n, ps[n], acts[n], Phase2(list, s, ps[..n], acts[..n], t).value)
         == Phase2(list, s, ps[..n + 1], acts[..n + 1], t)
  {
    hide IsLister, Reconcile;
    assert ps[..n + 1][..n] == ps[..n] && acts[..n + 1][..n] == acts[..n];
  }

  /**
   * Whatever fails, the counters of a run are the sum over the pending users of what each one's own turn
   * amounts to, computed from the grants before the run.
   */
  lemma {:induction false} CountersExactly(list: Lister, s: Setup, ps: seq<Pending>, acts: seq<seq<Action>>, t: Table, n: nat)
    requires IsLister(list) && AtMostOne(t) && DistinctUsers(ps) && |acts| == |ps| && n <= |ps|
    requires Phase2(list, s, ps[..n], acts[..n], t).Some?
    ensures Phase2(list, s, ps[..n], acts[..n], t).value.totals == OwnShares(list, s, ps, acts, t, n)
  {
    hide IsLister, AtMostOne, Reconcile, Contribution, JobOf, View, Unique, Target, TurnReturns, Between;
    if n > 0 {
      var m := n - 1;
      PrefixSome(list, s, ps, acts, t, m);
      hide Phase2;
      CountersExactly(list, s, ps, acts, t, m);
      var g := Phase2(list, s, ps[..m], acts[..m], t).value;
      RunKeepsAtMostOne(list, s, ps[..m], acts[..m], t);
      ReconcileTotals(list, s, m, ps[m], acts[m], g);
      FailuresAreIsolated(list, s, ps[..m], acts[..m], t, ps[m].org, ps[m].user.id);
      assert forall i :: 0 <= i < m ==> !Is(ps[..m][i], ps[m].org, ps[m].user.id);
    }
  }

  /** The catalog gives each org the same answers whenever it is asked. */
  ghost predicate FixedCatalog(s: Setup, ps: seq<Pending>, fixed: string -> Option<Answers>) {
    forall n :: 0 <= n < |ps| ==> s.catalog(n) == fixed(ps[n].org)
  }

  /** A pending user's Sync when the catalog is fixed. */
  ghost function FixedJob(s: Setup, fixed: string -> Option<Answers>, p: Pending): Option<Job> {
    JobOf(s.(catalog := _ => fixed(p.org)), 0, p)
  }

  lemma FixedJobIsJob(s: Setup, fixed: string -> Option<Answers>, n: nat, p: Pending)
    requires s.catalog(n) == fixed(p.org)
    ensures JobOf(s, n, p) == FixedJob(s, fixed, p)
  {
    hide DesiredFor;
  }

  ghost function Share(s: Setup, fixed: string -> Option<Answers>, t: Table, p: Pending): Totals
    requires AtMostOne(t)
  {
    UniqueFor(t, p.org, p.user.id);
    Contribution(p, FixedJob(s, fixed, p), View(t, p.org, p.user.id))
  }

  ghost function Shares(s: Setup, fixed: string -> Option<Answers>, t: Table, ps: seq<Pending>): Totals
    requires AtMostOne(t)
  {
    if ps == [] then NoTotals
    else Plus(Shares(s, fixed, t, ps[..|ps| - 1]), Share(s, fixed, t, ps[|ps| - 1]))
  }

  /** The counters of a run without failures are the sum of what each pending user adds on its own. */
  lemma {:induction false} TotalsAreShares(list: Lister, s: Setup, ps: seq<Pending>, acts: seq<seq<Action>>, t: Table,
                                          fixed: string -> Option<Answers>)
    requires IsLister(list) && AtMostOne(t) && DistinctUsers(ps) && |acts| == |ps| && FixedCatalog(s, ps, fixed)
    requires Phase2(list, s, ps, acts, t).Some? && Phase2(list, s, ps, acts, t).value.totals.failed == 0
    ensures Phase2(list, s, ps, acts, t).value.totals == Shares(s, fixed, t, ps)
    decreases |ps|
  {
    hide IsLister, JobOf, FixedJob, View, Unique, AtMostOne, Reconcile, Contribution, Target;
    if ps != [] {
      var n := |ps| - 1;
      var rest := ps[..n];
      var g := Phase2(list, s, rest, acts[..n], t).value;
      RunKeepsAtMostOne(list, s, rest, acts[..n], t);
      TurnAtMostOne(list, s, n, ps[n], acts[n], g);
      TotalsAreShares(list, s, rest, acts[..n], t, fixed);
      ReconcileTotals(list, s, n, ps[n], acts[n], g);
      FixedJobIsJob(s, fixed, n, ps[n]);
      RunReachesTargets(list, s, rest, acts[..n], t, ps[n].org, ps[n].user.id);
    }
  }

  lemma PlusSwap(a: Totals, b: Totals, c: Totals)
    ensures Plus(Plus(a, b), c) == Plus(Plus(a, c), b)
  {
  }

  lemma {:induction false} SharesRemove(s: Setup, fixed: string -> Option<Answers>, t: Table, ps: seq<Pending>, i: nat)
    requires AtMostOne(t) && i < |ps|
    ensures Shares(s, fixed, t, ps) == Plus(Shares(s, fixed, t, ps[..i] + ps[i + 1..]), Share(s, fixed, t, ps[i]))
  {
    hide AtMostOne, Share, Plus;
    var n := |ps| - 1;
    if i < n {
      SharesRemove(s, fixed, t, ps[..n], i);
      var without := ps[..i] + ps[i + 1..];
      assert ps[..n][..i] + ps[..n][i + 1..] == without[..|without| - 1];
      assert without[|without| - 1] == ps[n];
      PlusSwap(Shares(s, fixed, t, without[..|without| - 1]), Share(s, fixed, t, ps[i]), Share(s, fixed, t, ps[n]));
    } else {
      assert ps[..i] + ps[i + 1..] == ps[..n];
    }
  }

  /** The last element of a list occurs in any permutation of it, and what remains is again a permutation. */
  lemma MatchLast<T>(a: seq<T>, b: seq<T>) returns (i: nat)
    requires a != [] && multiset(a) == multiset(b)
    ensures i < |b| && b[i] == a[|a| - 1]
    ensures multiset(a[..|a| - 1]) == multiset(b[..i] + b[i + 1..]) && b == b[..i] + [b[i]] + b[i + 1..]
  {
    var n := |a| - 1;
    assert a == a[..n] + [a[n]];
    assert a[n] in multiset(b);
    i :| 0 <= i < |b| && b[i] == a[n];
    assert b == b[..i] + [b[i]] + b[i + 1..];
    assert multiset(a[..n]) == multiset(a) - multiset{a[n]};
    assert multiset(b[..i] + b[i + 1..]) == multiset(b) - multiset{b[i]};
  }

  lemma {:induction false} SharesPermute(s: Setup, fixed: string -> Option<Answers>, t: Table, ps: seq<Pending>, qs: seq<Pending>)
    requires AtMostOne(t) && multiset(ps) == multiset(qs)
    ensures Shares(s, fixed, t, ps) == Shares(s, fixed, t, qs)
    decreases |ps|
  {
    hide AtMostOne, Share;
    if ps == [] {
      assert |multiset(qs)| == 0;
    } else {
      var i := MatchLast(ps, qs);
      SharesPermute(s, fixed, t, ps[..|ps| - 1], qs[..i] + qs[i + 1..]);
      SharesRemove(s, fixed, t, qs, i);
    }
  }

  lemma {:induction false} EmptyCountRemove(ps: seq<Pending>, i: nat)
    requires i < |ps|
    ensures EmptyCount(ps) == EmptyCount(ps[..i] + ps[i + 1..]) + if IsEmpty(ps[i]) then 1 else 0
  {
    EmptyCountAppend(ps[..i], ps[i + 1..]);
    EmptyCountAppend(ps[..i] + [ps[i]], ps[i + 1..]);
    EmptyCountAppend(ps[..i], [ps[i]]);
    assert ps == ps[..i] + [ps[i]] + ps[i + 1..];
    assert [ps[i]][..0] == [];
  }

  lemma {:induction false} EmptyCountPermute(ps: seq<Pending>, qs: seq<Pending>)
    requires multiset(ps) == multiset(qs)
    ensures EmptyCount(ps) == EmptyCount(qs) && |ps| == |qs|
    decreases |ps|
  {
    assert |ps| == |multiset(ps)| == |multiset(qs)| == |qs|;
    if ps != [] {
      var i := MatchLast(ps, qs);
      EmptyCountPermute(ps[..|ps| - 1], qs[..i] + qs[i + 1..]);
      EmptyCountRemove(qs, i);
    }
  }

  /* Independence */

  lemma {:induction false} Phase1Append(a: seq<OrgInput>, b: seq<OrgInput>)
    ensures Phase1(a + b) == Phase1(a) + Phase1(b)
  {
    hide PendingOf;
    if b == [] {
      assert a + b == a;
    } else {
      assert (a + b)[..|a + b| - 1] == a + b[..|b| - 1];
      Phase1Append(a, b[..|b| - 1]);
    }
  }

  lemma {:induction false} AllFailedNonePending(org: string, rules: seq<Rule>, users: seq<(UserInfo, Option<UserGroups>)>)
    requires forall u :: u in users ==> u.1.None?
    ensures PendingUsers(org, rules, users) == []
  {
    if users != [] {
      AllFailedNonePending(org, rules, users[..|users| - 1]);
    }
  }

  /** An org that contributes nothing: unconfigured, without rules, not listable, or with every resolution failing. */
  ghost predicate Dead(o: OrgInput) {
    || o.config.None? || o.config.value.rules == [] || o.listing.None?
    || forall u :: u in o.listing.value ==> u.1.None?
  }

  /** One org's outage changes nothing for the others: the run is the same as if that org were absent. */
  lemma DeadOrgIsAbsent(list: Lister, s: Setup, before: seq<OrgInput>, dead: OrgInput, after: seq<OrgInput>,
                        acts: seq<seq<Action>>, t: Table)
    requires IsLister(list) && Dead(dead)
    ensures Phase1(before + [dead] + after) == Phase1(before + after)
    ensures RunAll(list, s, before + [dead] + after, acts, t) == RunAll(list, s, before + after, acts, t)
  {
    hide IsLister, Phase2, Aborts, PendingUsers, Phase1;
    if dead.config.Some? && dead.listing.Some? && dead.config.value.rules != [] {
      AllFailedNonePending(dead.id, dead.config.value.rules, dead.listing.value);
    }
    Phase1Append(before + [dead], after);
    Phase1Append(before, [dead]);
    Phase1Append(before, after);
    OneOrg(dead);
  }

  lemma OneOrg(o: OrgInput)
    ensures Phase1([o]) == PendingOf(o)
  {
    assert [o][..0] == [];
  }

  lemma {:induction false} PermutedOrgs(a: seq<OrgInput>, b: seq<OrgInput>)
    requires multiset(a) == multiset(b)
    ensures multiset(Phase1(a)) == multiset(Phase1(b))
    decreases |a|
  {
    hide PendingOf;
    if a == [] {
      assert |multiset(b)| == 0;
    } else {
      var i := MatchLast(a, b);
      var o := b[i];
      PermutedOrgs(a[..|a| - 1], b[..i] + b[i + 1..]);
      Phase1Append(b[..i] + [o], b[i + 1..]);
      Phase1Append(b[..i], [o]);
      Phase1Append(b[..i], b[i + 1..]);
      assert [o][..0] == [];
    }
  }

  lemma {:induction false} PendingAppend(org: string, rules: seq<Rule>, a: seq<(UserInfo, Option<UserGroups>)>,
                                         b: seq<(UserInfo, Option<UserGroups>)>)
    ensures PendingUsers(org, rules, a + b) == PendingUsers(org, rules, a) + PendingUsers(org, rules, b)
  {
    if b == [] {
      assert a + b == a;
    } else {
      assert (a + b)[..|a + b| - 1] == a + b[..|b| - 1];
      PendingAppend(org, rules, a, b[..|b| - 1]);
    }
  }

  lemma {:induction false} PermutedUsers(org: string, rules: seq<Rule>, a: seq<(UserInfo, Option<UserGroups>)>,
                                         b: seq<(UserInfo, Option<UserGroups>)>)
    requires multiset(a) == multiset(b)
    ensures multiset(PendingUsers(org, rules, a)) == multiset(PendingUsers(org, rules, b))
    decreases |a|
  {
    if a == [] {
      assert |multiset(b)| == 0;
    } else {
      var i := MatchLast(a, b);
      var u := b[i];
      PermutedUsers(org, rules, a[..|a| - 1], b[..i] + b[i + 1..]);
      assert a == a[..|a| - 1] + [u];
      PendingAppend(org, rules, a[..|a| - 1], [u]);
      PendingAppend(org, rules, b[..i] + [u], b[i + 1..]);
      PendingAppend(org, rules, b[..i], [u]);
      PendingAppend(org, rules, b[..i], b[i + 1..]);
    }
  }

  ghost predicate SameView(a: Table, b: Table, org: string, user: string) {
    Unique(a, org, user) && Unique(b, org, user) && View(a, org, user) == View(b, org, user)
  }

  lemma SameViewSelf(t: Table, org: string, user: string)
    requires AtMostOne(t)
    ensures SameView(t, t, org, user)
  {
    UniqueFor(t, org, user);
  }

  lemma FixedJobOfCatalog(s: Setup, s': Setup, fixed: string -> Option<Answers>, p: Pending)
    requires s' == s.(catalog := s'.catalog)
    ensures FixedJob(s, fixed, p) == FixedJob(s', fixed, p)
  {
    hide DesiredFor;
  }

  lemma {:induction false} SharesOfCatalog(s: Setup, s': Setup, fixed: string -> Option<Answers>, t: Table, ps: seq<Pending>)
    requires AtMostOne(t) && s' == s.(catalog := s'.catalog)
    ensures Shares(s, fixed, t, ps) == Shares(s', fixed, t, ps)
  {
    hide AtMostOne, FixedJob, Contribution;
    if ps != [] {
      SharesOfCatalog(s, s', fixed, t, ps[..|ps| - 1]);
      FixedJobOfCatalog(s, s', fixed, ps[|ps| - 1]);
    }
  }

  lemma SameTargets(list: Lister, list': Lister, s: Setup, s': Setup, ps: seq<Pending>, qs: seq<Pending>,
                    acts: seq<seq<Action>>, acts': seq<seq<Action>>, t: Table, fixed: string -> Option<Answers>,
                    org: string, user: string)
    requires IsLister(list) && IsLister(list') && AtMostOne(t) && s' == s.(catalog := s'.catalog)
    requires multiset(ps) == multiset(qs) && DistinctUsers(ps) && DistinctUsers(qs) && |acts| == |ps| && |acts'| == |qs|
    requires FixedCatalog(s, ps, fixed) && FixedCatalog(s', qs, fixed)
    requires Phase2(list, s, ps, acts, t).Some? && Phase2(list, s, ps, acts, t).value.totals.failed == 0
    requires Phase2(list', s', qs, acts', t).Some? && Phase2(list', s', qs, acts', t).value.totals.failed == 0
    ensures SameView(Phase2(list, s, ps, acts, t).value.table, Phase2(list', s', qs, acts', t).value.table, org, user)
  {
    hide IsLister, Phase2, AtMostOne, View, Unique, Target, JobOf, FixedJob, DistinctUsers;
    RunReachesTargets(list, s, ps, acts, t, org, user);
    RunReachesTargets(list', s', qs, acts', t, org, user);
    if i :| 0 <= i < |ps| && Is(ps[i], org, user) {
      assert ps[i] in multiset(qs);
      var j :| 0 <= j < |qs| && qs[j] == ps[i];
      FixedJobIsJob(s, fixed, i, ps[i]);
      FixedJobIsJob(s', fixed, j, qs[j]);
      FixedJobOfCatalog(s, s', fixed, ps[i]);
    } else {
      forall j | 0 <= j < |qs| ensures !Is(qs[j], org, user) {
        assert qs[j] in multiset(ps);
        var i :| 0 <= i < |ps| && ps[i] == qs[j];
      }
    }
  }

  /** Runs over the same pending users in any two orders agree. */
  lemma SamePendingUsers(list: Lister, list': Lister, s: Setup, s': Setup, orgs: seq<OrgInput>, orgs': seq<OrgInput>,
                         acts: seq<seq<Action>>, acts': seq<seq<Action>>, t: Table, fixed: string -> Option<Answers>)
    requires IsLister(list) && IsLister(list') && AtMostOne(t) && s' == s.(catalog := s'.catalog)
    requires multiset(Phase1(orgs)) == multiset(Phase1(orgs'))
    requires DistinctUsers(Phase1(orgs))
    requires FixedCatalog(s, Phase1(orgs), fixed) && FixedCatalog(s', Phase1(orgs'), fixed)
    requires RunAll(list, s, orgs, acts, t).Some? && RunAll(list', s', orgs', acts', t).Some?
    requires RunAll(list, s, orgs, acts, t).value.totals.failed == 0
    requires RunAll(list', s', orgs', acts', t).value.totals.failed == 0
    ensures Aborts(s, Phase1(orgs)) == Aborts(s', Phase1(orgs'))
    ensures var a, b := RunAll(list, s, orgs, acts, t).value, RunAll(list', s', orgs', acts', t).value;
      && a.totals == b.totals
      && AtMostOne(a.table) && AtMostOne(b.table)
      && forall org, user :: SameView(a.table, b.table, org, user)
  {
    hide IsLister, Phase1, Phase2, EmptyCount, AtMostOne, Shares, SameView, DistinctUsers;
    var ps, qs := Phase1(orgs), Phase1(orgs');
    EmptyCountPermute(ps, qs);
    DistinctPermute(ps, qs);
    if Aborts(s, ps) {
      forall org, user ensures SameView(t, t, org, user) {
        SameViewSelf(t, org, user);
      }
    } else {
      TotalsAreShares(list, s, ps, acts, t, fixed);
      TotalsAreShares(list', s', qs, acts', t, fixed);
      SharesPermute(s, fixed, t, ps, qs);
      SharesOfCatalog(s, s', fixed, t, qs);
      RunKeepsAtMostOne(list, s, ps, acts, t);
      RunKeepsAtMostOne(list', s', qs, acts', t);
      var a, b := Phase2(list, s, ps, acts, t).value.table, Phase2(list', s', qs, acts', t).value.table;
      forall org, user ensures SameView(a, b, org, user) {
        SameTargets(list, list', s, s', ps, qs, acts, acts', t, fixed, org, user);
      }
    }
  }

  lemma {:induction false} OncePending(ps: seq<Pending>, p: Pending)
    requires DistinctUsers(ps)
    ensures multiset(ps)[p] <= 1
  {
    if ps != [] {
      var n := |ps| - 1;
      assert ps == ps[..n] + [ps[n]];
      OncePending(ps[..n], p);
      if p == ps[n] {
        assert p !in ps[..n];
      }
    }
  }

  lemma DistinctPermute(ps: seq<Pending>, qs: seq<Pending>)
    requires DistinctUsers(ps) && multiset(ps) == multiset(qs)
    ensures DistinctUsers(qs)
  {
    forall i, j | 0 <= i < j < |qs| ensures qs[i].org != qs[j].org || qs[i].user.id != qs[j].user.id {
      if qs[i] == qs[j] {
        TwiceInSeq(qs, i, j);
        OncePending(ps, qs[i]);
      } else {
        assert qs[i] in multiset(ps) && qs[j] in multiset(ps);
        var a :| 0 <= a < |ps| && ps[a] == qs[i];
        var b :| 0 <= b < |ps| && ps[b] == qs[j];
      }
    }
  }

  /** The same org whose users, with their answers, are listed in another order. */
  ghost predicate Relisted(o: OrgInput, o': OrgInput) {
    && o.id == o'.id && o.config == o'.config && (o.listing.Some? <==> o'.listing.Some?)
    && (o.listing.Some? ==> multiset(o.listing.value) == multiset(o'.listing.value))
  }

  /** The same orgs in another order, each with its users in another order. */
  ghost predicate Reordered(orgs: seq<OrgInput>, orgs': seq<OrgInput>) {
    exists mid: seq<OrgInput> :: RelistedAll(orgs, mid) && multiset(mid) == multiset(orgs')
  }

  ghost predicate RelistedAll(orgs: seq<OrgInput>, mid: seq<OrgInput>) {
    |orgs| == |mid| && forall i :: 0 <= i < |orgs| ==> Relisted(orgs[i], mid[i])
  }

  lemma {:induction false} RelistedPending(orgs: seq<OrgInput>, mid: seq<OrgInput>)
    requires RelistedAll(orgs, mid)
    ensures multiset(Phase1(orgs)) == multiset(Phase1(mid))
  {
    hide PendingUsers;
    if orgs != [] {
      var n := |orgs| - 1;
      RelistedPending(orgs[..n], mid[..n]);
      var o, o' := orgs[n], mid[n];
      assert Relisted(o, o');
      if o.config.Some? && o.listing.Some? {
        PermutedUsers(o.id, o.config.value.rules, o.listing.value, o'.listing.value);
      }
    }
  }

  /**
   * Order independence. Visit the orgs in any other order and list each org's users in any other
   * order: with fixed catalog answers and no failing Sync the run takes the same abort decision,
   * counts the same, and leaves every user of every org with the same grants.
   */
  lemma OrderIndependent(list: Lister, list': Lister, s: Setup, s': Setup, orgs: seq<OrgInput>, orgs': seq<OrgInput>,
                         acts: seq<seq<Action>>, acts': seq<seq<Action>>, t: Table, fixed: string -> Option<Answers>)
    requires IsLister(list) && IsLister(list') && AtMostOne(t) && s' == s.(catalog := s'.catalog)
    requires Reordered(orgs, orgs') && DistinctUsers(Phase1(orgs))
    requires FixedCatalog(s, Phase1(orgs), fixed) && FixedCatalog(s', Phase1(orgs'), fixed)
    requires RunAll(list, s, orgs, acts, t).Some? && RunAll(list', s', orgs', acts', t).Some?
    requires RunAll(list, s, orgs, acts, t).value.totals.failed == 0
    requires RunAll(list', s', orgs', acts', t).value.totals.failed == 0
    ensures Aborts(s, Phase1(orgs)) == Aborts(s', Phase1(orgs'))
    ensures var a, b := RunAll(list, s, orgs, acts, t).value, RunAll(list', s', orgs', acts', t).value;
      && a.totals == b.totals
      && AtMostOne(a.table) && AtMostOne(b.table)
      && forall org, user :: SameView(a.table, b.table, org, user)
  {
    hide IsLister, Phase1, Phase2, EmptyCount, AtMostOne, SameView, DistinctUsers, RelistedAll, FixedCatalog;
    var mid: seq<OrgInput> :| RelistedAll(orgs, mid) && multiset(mid) == multiset(orgs');
    RelistedPending(orgs, mid);
    PermutedOrgs(mid, orgs');
    SamePendingUsers(list, list', s, s', orgs, orgs', acts, acts', t, fixed);
  }

  /** A batch run skips only users for whom nothing would be planned, whatever the catalog answers. */
  lemma SkippedPlansNothing(s: Setup, n: nat, p: Pending, cat: Option<Answers>)
    requires JobOf(s, n, p).None?
    ensures DesiredFor(s.lib, cat, Subject(p.rules, p.user.email, p.groups, s.protected)) == []
    ensures EntriesFor(s.lib, cat, Subject(p.rules, p.user.email, p.groups, s.protected)) == []
  {
    hide DesiredFor, EntriesFor, RulesNameUser;
    ClosedGatePlansNothing(s.lib, cat, Subject(p.rules, p.user.email, p.groups, s.protected));
  }

  /* Users resolved to nothing */

  /** However its calls end, the pending user's turn leaves every grant alone. */
  ghost predicate TurnInert(list: Lister, s: Setup, n: nat, p: Pending, acts: seq<Action>, g: Progress)
    requires IsLister(list)
  {
    var h := Reconcile(list, s, n, p, acts, g);
    h.Some? ==> h.value.table == g.table
  }

  /**
   * Exactly when an unforced run leaves a user with zero groups alone, for every state of the grants
   * and every way its calls may end: when no rule names the user.
   */
  lemma EmptyUserInertExactly(list: Lister, s: Setup, n: nat, p: Pending)
    requires IsLister(list) && !s.force && IsEmpty(p)
    ensures (forall acts, g :: TurnInert(list, s, n, p, acts, g)) <==> !RulesNameUser(s.lib, p.rules, p.user.email)
  {
    hide IsLister, DesiredFor, Exec, View, WantOf, Unique, RulesNameUser;
    if RulesNameUser(s.lib, p.rules, p.user.email) {
      var job := JobOf(s, n, p).value;
      var t, project := UnwantedGrant(job);
      BeforeFirstCall(list, t, job);
      var acts := ServedSyncReturns(list, t, job, []);
      Convergence(list, t, job, acts);
      assert !TurnInert(list, s, n, p, acts, Progress(t, NoTotals, []));
    }
  }
}
