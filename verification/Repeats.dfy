/**
 * Many Syncs of one user with the same desired grants, one after another or interleaved, possibly with
 * Syncs of the same user in other orgs in between: they wait for the same lock.
 */
module Repeats {
  import opened AnyStore
  import opened Serialisability
  import opened Store
  import opened SyncMachine
  import opened SyncProof
  import opened SyncTheorems
  import opened UserLocks
  import opened Wrappers

  /** A turn for the same user in the same org. */
  predicate Mine(u: Turn, job: Job) {
    u.job.org == job.org && u.job.user == job.user
  }

  ghost predicate AnyMine(turns: seq<Turn>, job: Job) {
    exists u :: u in turns && Mine(u, job)
  }

  /** All turns for this user in this org want the same; turns in other orgs want anything. */
  ghost predicate OneJob(turns: seq<Turn>, job: Job) {
    forall u :: u in turns && Mine(u, job) ==> u.job == job
  }

  /** What a user holds in one org is not touched by a turn for another. */
  lemma NotMine(list: Lister, base: Table, u: Turn, job: Job)
    requires IsLister(list) && !Mine(u, job) && Exec(list, base, u.job, u.acts).Some?
    ensures var n := Exec(list, base, u.job, u.acts).value.table;
      Unique(base, job.org, job.user) ==>
        Unique(n, job.org, job.user) && View(n, job.org, job.user) == View(base, job.org, job.user)
  {
    hide IsLister, Exec, Unique, View, Others, Slice;
    ExecFrame(list, base, u.job, u.acts);
    ViewOfOthers(base, Exec(list, base, u.job, u.acts).value.table, u.job.org, u.job.user, job.org, job.user);
  }

  lemma MineSnoc(turns: seq<Turn>, job: Job)
    requires turns != [] && OneJob(turns, job)
    ensures var last, rest := turns[|turns| - 1], turns[..|turns| - 1];
      && OneJob(rest, job) && (Mine(last, job) ==> last.job == job)
      && (AnyMine(turns, job) <==> AnyMine(rest, job) || Mine(last, job))
  {
    var n := |turns| - 1;
    assert turns == turns[..n] + [turns[n]];
    assert forall u :: u in turns <==> u in turns[..n] || u == turns[n];
  }

  /* With failures */

  /** How many writes the turns for this user in this org made, each on the grants its predecessors left. */
  ghost function Writes(list: Lister, t: Table, job: Job, turns: seq<Turn>): nat
    requires IsLister(list)
  {
    if turns == [] then 0
    else
      var last, rest := turns[|turns| - 1], turns[..|turns| - 1];
      Writes(list, t, job, rest)
      + if !Mine(last, job) || Serial(list, t, rest).None? then 0
        else WritesOf(Exec(list, Serial(list, t, rest).value, last.job, last.acts))
  }

  ghost function WritesOf(c: Option<Conf>): nat {
    if c.None? then 0 else |c.value.log|
  }

  /** What is settled stays settled: the writes so far and the projects still wrong add up to those wrong at first. */
  ghost predicate Converging(t: Table, now: Table, job: Job, writes: nat)
    requires Unique(t, job.org, job.user)
  {
    var target := Final(View(t, job.org, job.user), WantOf(job.desired));
    && Unique(now, job.org, job.user)
    && Final(View(now, job.org, job.user), WantOf(job.desired)) == target
    && writes + |Disagreement(View(now, job.org, job.user), target)| == |Disagreement(View(t, job.org, job.user), target)|
  }

  lemma OneMoreRun(list: Lister, t: Table, base: Table, job: Job, acts: seq<Action>, writes: nat)
    requires IsLister(list) && Unique(t, job.org, job.user) && Converging(t, base, job, writes)
    requires Exec(list, base, job, acts).Some?
    ensures var c := Exec(list, base, job, acts).value; Converging(t, c.table, job, writes + |c.log|)
  {
    hide IsLister, Exec, View, Final, WantOf, Unique, Others, Disagreement, Between, Tally;
    EveryWriteSettlesOne(list, base, job, acts);
    OldOrWanted(list, base, job, acts);
    FinalFromBetween(View(Exec(list, base, job, acts).value.table, job.org, job.user), View(base, job.org, job.user),
                     WantOf(job.desired));
  }

  lemma NoRunYet(t: Table, job: Job)
    requires Unique(t, job.org, job.user)
    ensures Converging(t, t, job, 0)
  {
    hide View, Final, WantOf, Unique, Disagreement;
  }

  /** One more turn, finished or not, for this job or for another org. */
  lemma OneMoreTurn(list: Lister, t: Table, base: Table, job: Job, turns: seq<Turn>)
    requires IsLister(list) && Unique(t, job.org, job.user) && turns != [] && OneJob(turns, job)
    requires var last, rest := turns[|turns| - 1], turns[..|turns| - 1];
      && Serial(list, t, rest) == Some(base) && Converging(t, base, job, Writes(list, t, job, rest))
      && Exec(list, base, last.job, last.acts).Some?
    ensures var last := turns[|turns| - 1];
      Converging(t, Exec(list, base, last.job, last.acts).value.table, job, Writes(list, t, job, turns))
  {
    hide IsLister, Exec, Serial, Writes, OneJob, AnyMine, Mine, Converging, Unique, View;
    var last, rest := turns[|turns| - 1], turns[..|turns| - 1];
    MineSnoc(turns, job);
    WritesSnoc(list, t, job, turns);
    var writes := Writes(list, t, job, rest);
    var c := Exec(list, base, last.job, last.acts);
    if Mine(last, job) {
      OneMoreRun(list, t, base, job, last.acts, writes);
      assert WritesOf(c) == |c.value.log|;
    } else {
      ConvergingIsUnique(t, base, job, writes);
      NotMine(list, base, last, job);
      SameViewConverges(t, base, c.value.table, job, writes);
    }
  }

  lemma ConvergingIsUnique(t: Table, now: Table, job: Job, writes: nat)
    requires Unique(t, job.org, job.user) && Converging(t, now, job, writes)
    ensures Unique(now, job.org, job.user)
  {
    hide Unique, View, Final, WantOf, Disagreement;
  }

  lemma SameViewConverges(t: Table, base: Table, now: Table, job: Job, writes: nat)
    requires Unique(t, job.org, job.user) && Converging(t, base, job, writes) && Unique(base, job.org, job.user)
    requires Unique(now, job.org, job.user) && View(now, job.org, job.user) == View(base, job.org, job.user)
    ensures Converging(t, now, job, writes)
  {
    hide Unique, View, Final, WantOf, Disagreement;
  }

  lemma WritesSnoc(list: Lister, t: Table, job: Job, turns: seq<Turn>)
    requires IsLister(list) && turns != [] && Serial(list, t, turns[..|turns| - 1]).Some?
    ensures var last, rest := turns[|turns| - 1], turns[..|turns| - 1];
      Writes(list, t, job, turns)
      == Writes(list, t, job, rest)
         + if Mine(last, job) then WritesOf(Exec(list, Serial(list, t, rest).value, last.job, last.acts)) else 0
  {
    hide IsLister, Exec, Serial;
  }

  lemma {:induction false} RepeatsConverge(list: Lister, t: Table, job: Job, turns: seq<Turn>)
    requires IsLister(list) && Unique(t, job.org, job.user) && Serial(list, t, turns).Some? && OneJob(turns, job)
    ensures Converging(t, Serial(list, t, turns).value, job, Writes(list, t, job, turns))
  {
    hide IsLister, Exec, Unique, Converging, OneJob;
    if turns == [] {
      NoRunYet(t, job);
    } else {
      var n := |turns| - 1;
      MineSnoc(turns, job);
      RepeatsConverge(list, t, job, turns[..n]);
      OneMoreTurn(list, t, Serial(list, t, turns[..n]).value, job, turns);
    }
  }

  /**
   * Any number of concurrent Syncs of one user with the same desired grants in an org, with whatever
   * failures and whatever Syncs of the user in other orgs, at every moment of every interleaving: their
   * writes together and the projects still wrong add up to the projects that were wrong at first, and
   * the target has not moved.
   */
  lemma ConcurrentRepeatsConverge(list: Lister, t0: Table, steps: seq<Step>, job: Job)
    requires IsLister(list) && Unique(t0, job.org, job.user) && Run(list, t0, steps).Some?
    requires OneJob(TurnsOf(Run(list, t0, steps).value, job.user), job)
    ensures var w := Run(list, t0, steps).value;
      Converging(t0, w.table, job, Writes(list, Of(t0, job.user), job, TurnsOf(w, job.user)))
  {
    hide IsLister, Run, Serial, Of, LocksInv, Exec, TurnsOf, Converging, Unique, Writes, OneJob;
    RunInv(list, t0, steps);
    var w := Run(list, t0, steps).value;
    assert UserInv(list, t0, w, job.user);
    var own, turns := Of(t0, job.user), TurnsOf(w, job.user);
    OwnGrants(t0, job.org, job.user);
    if !Busy(w, job.user) {
      RepeatsConverge(list, own, job, turns);
    } else {
      MineSnoc(turns, job);
      RepeatsConverge(list, own, job, turns[..|turns| - 1]);
      OneMoreTurn(list, own, Serial(list, own, turns[..|turns| - 1]).value, job, turns);
    }
    OwnConverging(t0, w.table, job, Writes(list, own, job, turns));
  }

  lemma OwnConverging(t: Table, now: Table, job: Job, writes: nat)
    requires Unique(t, job.org, job.user) && Unique(Of(t, job.user), job.org, job.user)
    requires Converging(Of(t, job.user), Of(now, job.user), job, writes)
    ensures Converging(t, now, job, writes)
  {
    OwnGrants(t, job.org, job.user);
    OwnGrants(now, job.org, job.user);
    hide Of, View, Final, WantOf, Unique, Disagreement;
  }

  /* Without failures */

  function Sum(a: Counts, b: Counts): Counts {
    Counts(a.added + b.added, a.updated + b.updated, a.removed + b.removed)
  }

  /** The writes made by all the turns for this user in this org together. */
  ghost function Effort(list: Lister, t: Table, job: Job, turns: seq<Turn>): Counts
    requires IsLister(list) && Serial(list, t, turns).Some?
  {
    if turns == [] then Counts(0, 0, 0)
    else
      var last, rest := turns[|turns| - 1], turns[..|turns| - 1];
      var base := Serial(list, t, rest).value;
      if Mine(last, job) then Sum(Effort(list, t, job, rest), Tally(Result(list, base, last.job, last.acts).log))
      else Effort(list, t, job, rest)
  }

  /** The turns for this user in this org all want the same and all return; turns in other orgs may fail. */
  ghost predicate AllReturn(list: Lister, t: Table, job: Job, turns: seq<Turn>)
    requires IsLister(list) && Serial(list, t, turns).Some?
  {
    turns != [] ==>
      var last, rest := turns[|turns| - 1], turns[..|turns| - 1];
      && AllReturn(list, t, job, rest)
      && (Mine(last, job) ==> last.job == job && Returns(list, Serial(list, t, rest).value, job, last.acts))
  }

  lemma LastTurn(list: Lister, t: Table, job: Job, turns: seq<Turn>)
    requires IsLister(list) && Serial(list, t, turns).Some? && turns != [] && AllReturn(list, t, job, turns)
    ensures var last, rest := turns[|turns| - 1], turns[..|turns| - 1];
      && Serial(list, t, rest).Some? && AllReturn(list, t, job, rest)
      && var base := Serial(list, t, rest).value;
      && Exec(list, base, last.job, last.acts).Some?
      && (Mine(last, job) ==> last.job == job && Returns(list, base, job, last.acts))
      && var c := Exec(list, base, last.job, last.acts).value;
      && Serial(list, t, turns) == Some(c.table)
      && Effort(list, t, job, turns)
         == (if Mine(last, job) then Sum(Effort(list, t, job, rest), Tally(c.log)) else Effort(list, t, job, rest))
  {
    hide IsLister, Exec, Tally;
  }

  lemma AnyMineSnoc(turns: seq<Turn>, job: Job)
    requires turns != []
    ensures AnyMine(turns, job) <==> AnyMine(turns[..|turns| - 1], job) || Mine(turns[|turns| - 1], job)
  {
    var n := |turns| - 1;
    assert forall u :: u in turns <==> u in turns[..n] || u == turns[n] by {
      assert turns == turns[..n] + [turns[n]];
    }
  }

  lemma NoTurns(list: Lister, t: Table, job: Job)
    requires IsLister(list)
    ensures Serial(list, t, []) == Some(t) && Effort(list, t, job, []) == Counts(0, 0, 0) && !AnyMine([], job)
  {
  }

  /** Serial repetitions of one Sync, with turns in other orgs in between, make the writes of the first. */
  lemma {:induction false} RepeatsAddNothing(list: Lister, t: Table, job: Job, turns: seq<Turn>)
    requires IsLister(list) && Unique(t, job.org, job.user) && Serial(list, t, turns).Some?
    requires AllReturn(list, t, job, turns)
    ensures Effort(list, t, job, turns) == if AnyMine(turns, job) then FirstEffort(t, job) else Counts(0, 0, 0)
    ensures var n := Serial(list, t, turns).value;
      && Unique(n, job.org, job.user)
      && View(n, job.org, job.user)
         == if AnyMine(turns, job) then Final(View(t, job.org, job.user), WantOf(job.desired))
            else View(t, job.org, job.user)
    ensures turns != [] && Mine(turns[|turns| - 1], job) && AnyMine(turns[..|turns| - 1], job) ==>
      Serial(list, t, turns) == Serial(list, t, turns[..|turns| - 1])
  {
    hide IsLister, Exec, View, Final, WantOf, Unique, Tally, FirstEffort, Serial, Effort, AllReturn, Returns, AnyMine;
    if turns == [] {
      NoTurns(list, t, job);
    } else {
      var last, rest := turns[|turns| - 1], turns[..|turns| - 1];
      LastTurn(list, t, job, turns);
      AnyMineSnoc(turns, job);
      RepeatsAddNothing(list, t, job, rest);
      var base := Serial(list, t, rest).value;
      if !Mine(last, job) {
        NotMine(list, base, last, job);
      } else if AnyMine(rest, job) {
        AgainNothing(list, t, base, job, last.acts);
      } else {
        FirstCounts(list, base, job, last.acts);
        SameFirstEffort(t, base, job);
      }
    }
  }

  lemma SameFirstEffort(t: Table, base: Table, job: Job)
    requires Unique(t, job.org, job.user) && Unique(base, job.org, job.user)
    requires View(t, job.org, job.user) == View(base, job.org, job.user)
    ensures FirstEffort(t, job) == FirstEffort(base, job)
  {
    hide View, Unique, WantOf, Missing, Differing, Unwanted;
  }

  ghost function FirstEffort(t: Table, job: Job): Counts
    requires Unique(t, job.org, job.user)
  {
    var before, want := View(t, job.org, job.user), WantOf(job.desired);
    Counts(|Missing(before, want)|, |Differing(before, want)|, |Unwanted(before, want)|)
  }

  lemma FirstCounts(list: Lister, t: Table, job: Job, acts: seq<Action>)
    requires IsLister(list) && Unique(t, job.org, job.user) && Returns(list, t, job, acts)
    ensures var c := Exec(list, t, job, acts).value;
      && Tally(c.log) == FirstEffort(t, job) && Unique(c.table, job.org, job.user)
      && View(c.table, job.org, job.user) == Final(View(t, job.org, job.user), WantOf(job.desired))
  {
    hide IsLister, Exec, View, Final, WantOf, Unique, Missing, Differing, Unwanted, Others, Tally;
    ExecInv(list, t, job, acts);
  }

  lemma AgainNothing(list: Lister, t: Table, base: Table, job: Job, acts: seq<Action>)
    requires IsLister(list) && Unique(t, job.org, job.user) && Unique(base, job.org, job.user)
    requires View(base, job.org, job.user) == Final(View(t, job.org, job.user), WantOf(job.desired))
    requires Returns(list, base, job, acts)
    ensures var c := Exec(list, base, job, acts).value; Tally(c.log) == Counts(0, 0, 0) && c.table == base
  {
    hide IsLister, Exec, View, Final, WantOf, Unique, Others, Disagreement;
    FinalIdempotent(View(t, job.org, job.user), WantOf(job.desired));
    EveryWriteSettlesOne(list, base, job, acts);
    SelfAgreement(View(base, job.org, job.user));
    NoWritesNoChange(list, base, job, acts);
  }

  /**
   * Any number of concurrent Syncs of one user with the same desired grants in an org, all of which
   * return, with whatever Syncs of the user in other orgs in between, together make the adds, updates
   * and removals of exactly one: the first missing, differing and unwanted projects are settled once
   * and never again.
   */
  lemma ConcurrentIdenticalSyncs(list: Lister, t0: Table, steps: seq<Step>, job: Job)
    requires IsLister(list) && Unique(t0, job.org, job.user) && Run(list, t0, steps).Some?
    requires var w := Run(list, t0, steps).value;
      && !Busy(w, job.user) && AnyMine(TurnsOf(w, job.user), job)
      && Serial(list, Of(t0, job.user), TurnsOf(w, job.user)).Some?
      && AllReturn(list, Of(t0, job.user), job, TurnsOf(w, job.user))
    ensures var w := Run(list, t0, steps).value;
      && Effort(list, Of(t0, job.user), job, TurnsOf(w, job.user)) == FirstEffort(t0, job)
      && Unique(w.table, job.org, job.user)
      && View(w.table, job.org, job.user) == Final(View(t0, job.org, job.user), WantOf(job.desired))
  {
    hide IsLister, Run, View, Final, WantOf, Exec, Serial, Effort, AllReturn, AnyMine, FirstEffort;
    var w := Run(list, t0, steps).value;
    Serialisable(list, t0, steps, job.user);
    OwnGrants(t0, job.org, job.user);
    OwnGrants(w.table, job.org, job.user);
    RepeatsAddNothing(list, Of(t0, job.user), job, TurnsOf(w, job.user));
    SameFirstEffort(t0, Of(t0, job.user), job);
  }

  lemma OwnGrants(t: Table, org: string, user: string)
    ensures Unique(Of(t, user), org, user) <==> Unique(t, org, user)
    ensures Unique(t, org, user) ==> View(Of(t, user), org, user) == View(t, org, user)
  {
    hide View;
    SliceOf(t, org, user);
    if Unique(t, org, user) {
      SameSliceSameView(t, Of(t, user), org, user);
    }
    if Unique(Of(t, user), org, user) {
      SameSliceSameView(Of(t, user), t, org, user);
    }
  }
}
