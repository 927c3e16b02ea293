/** The lock protocol never gets stuck: whatever has happened, every activation can still return. */
module Liveness {
  import opened AnyStore
  import opened FreshIds
  import opened Serialisability
  import opened Store
  import opened SyncMachine
  import opened UserLocks
  import opened Wrappers

  /** What each activation wants once it holds the lock. */
  type Wants = nat -> seq<Desired>

  /** A step that needs no new arrival and no failing call. */
  predicate Onwards(s: Step, wants: Wants) {
    && !s.Arrive?
    && (s.Acquire? ==> s.desired == wants(s.thread))
    && (s.Act? ==> Served(s.action))
  }

  predicate AllOnwards(steps: seq<Step>, wants: Wants) {
    forall s :: s in steps ==> Onwards(s, wants)
  }

  /** A call possible among the user's own grants is possible in the shared table, if its new id is new there too. */
  lemma SharedEnabled(job: Job, t: Table, l: Local, log: seq<Write>, a: Action)
    requires Enabled(job, Conf(Of(t, job.user), l, log), a) && (a.Visit? ==> a.newId !in t)
    ensures Enabled(job, Conf(t, l, []), a)
  {
    hide WantOf;
  }

  lemma HolderGoesOn(list: Lister, own0: Table, turns: seq<Turn>, th: Thread, t: Table) returns (a: Action)
    requires IsLister(list) && th.Holding? && !Ended(th.local)
    requires HeldBy(list, own0, turns, th, Of(t, th.job.user), th.job.user)
    ensures Served(a) && Enabled(th.job, Conf(t, th.local, []), a)
  {
    hide IsLister, Serial, Exec, IndexInv, Enabled, Served;
    var last := turns[|turns| - 1];
    var base := Serial(list, own0, turns[..|turns| - 1]).value;
    var c := Exec(list, base, last.job, last.acts).value;
    ExecKeeps(list, base, last.job, last.acts);
    a := ServableAction(list, base, last.job, c, t.Keys);
    SharedEnabled(last.job, t, th.local, c.log, a);
  }

  /** Each call of the holder brings its return closer, in the shared table as on the user's own grants. */
  lemma HolderAdvances(list: Lister, own0: Table, turns: seq<Turn>, th: Thread, t: Table, a: Action)
    requires IsLister(list) && th.Holding? && Enabled(th.job, Conf(t, th.local, []), a)
    requires HeldBy(list, own0, turns, th, Of(t, th.job.user), th.job.user)
    ensures var d := Next(list, th.job, Conf(t, th.local, []), a);
      Remaining(list, Of(d.table, th.job.user), th.job, d.local) < Remaining(list, Of(t, th.job.user), th.job, th.local)
  {
    hide IsLister, Serial, Exec, IndexInv, Enabled, Next, Remaining, Of;
    var last := turns[|turns| - 1];
    var base := Serial(list, own0, turns[..|turns| - 1]).value;
    var c := Exec(list, base, last.job, last.acts).value;
    ExecKeeps(list, base, last.job, last.acts);
    StepLocal(list, th.job, t, th.local, c.log, a, th.job.user);
    if a.Page? {
      PageAdvances(list, base, th.job, c, a);
    } else {
      KeyAdvances(list, th.job, c, a);
    }
  }

  lemma HolderCanStep(list: Lister, t0: Table, w: World, t: nat) returns (s: Step)
    requires IsLister(list) && WorldInv(list, t0, w) && t in w.threads && w.threads[t].Holding?
    ensures Possible(w, s)
    ensures if Ended(w.threads[t].local) then s == Release(t) else s.Act? && s.thread == t && Served(s.action)
  {
    HolderOf(w, t);
    var th := w.threads[t];
    assert UserInv(list, t0, w, th.job.user);
    hide IsLister, HeldBy, Enabled, LocksInv, Served;
    if Ended(th.local) {
      s := Release(t);
    } else {
      var a := HolderGoesOn(list, Of(t0, th.job.user), TurnsOf(w, th.job.user), th, w.table);
      s := Act(t, a);
    }
  }

  /**
   * No deadlock. In every reachable world with an activation that has not returned, some activation
   * can go on, with a call the API serves if it makes one.
   */
  lemma NoDeadlock(list: Lister, t0: Table, steps: seq<Step>, t: nat, wants: Wants) returns (s: Step)
    requires IsLister(list) && Run(list, t0, steps).Some?
    requires var w := Run(list, t0, steps).value; t in w.threads && !w.threads[t].Returned?
    ensures Possible(Run(list, t0, steps).value, s) && Onwards(s, wants)
  {
    RunInv(list, t0, steps);
    var w := Run(list, t0, steps).value;
    hide IsLister, Run, UserInv, Enabled;
    match w.threads[t]
    case Arrived(_, _) =>
      s := LoadOrStore(t, AboveAll(w.mutexes.Values));
    case Contending(_, _, m) =>
      if m in w.holder {
        s := HolderCanStep(list, t0, w, w.holder[m]);
      } else {
        s := Acquire(t, wants(t));
      }
    case Holding(_, _, _) =>
      s := HolderCanStep(list, t0, w, t);
  }

  /* Everyone returns */

  lemma RunSnoc(list: Lister, t0: Table, steps: seq<Step>, s: Step)
    requires IsLister(list) && Run(list, t0, steps).Some? && Possible(Run(list, t0, steps).value, s)
    ensures Run(list, t0, steps + [s]) == Some(After(list, Run(list, t0, steps).value, s))
  {
    hide IsLister, Possible, After;
    assert (steps + [s])[..|steps|] == steps;
  }

  /** How far the holder is from its return. */
  ghost function Left(list: Lister, w: World, t: nat): nat
    requires IsLister(list)
  {
    if t in w.threads && w.threads[t].Holding? then
      Remaining(list, Of(w.table, w.threads[t].job.user), w.threads[t].job, w.threads[t].local)
    else 0
  }

  lemma ActBringsCloser(list: Lister, t0: Table, w: World, s: Step)
    requires IsLister(list) && WorldInv(list, t0, w) && Possible(w, s) && s.Act?
    ensures Left(list, After(list, w, s), s.thread) < Left(list, w, s.thread)
    ensures var v := After(list, w, s);
      s.thread in v.threads && v.threads[s.thread].Holding?
      && v.threads == w.threads[s.thread := v.threads[s.thread]]
  {
    var th := w.threads[s.thread];
    HolderOf(w, s.thread);
    assert UserInv(list, t0, w, th.job.user);
    hide IsLister, HeldBy, Enabled, LocksInv, Next, Remaining, Of;
    HolderAdvances(list, Of(t0, th.job.user), TurnsOf(w, th.job.user), th, w.table, s.action);
  }

  lemma ReleaseReturns(list: Lister, w: World, t: nat)
    requires IsLister(list) && Possible(w, Release(t))
    ensures After(list, w, Release(t)).threads == w.threads[t := Returned]
  {
  }

  /** The holder's remaining calls and its release, with no step of anyone else. */
  lemma {:induction false} FinishHolder(list: Lister, t0: Table, steps: seq<Step>, t: nat, wants: Wants)
    returns (more: seq<Step>)
    requires IsLister(list) && Run(list, t0, steps).Some?
    requires var w := Run(list, t0, steps).value; t in w.threads && w.threads[t].Holding?
    ensures AllOnwards(more, wants) && Run(list, t0, steps + more).Some?
    ensures Run(list, t0, steps + more).value.threads == Run(list, t0, steps).value.threads[t := Returned]
    decreases var w := Run(list, t0, steps); if w.None? then 0 else Left(list, w.value, t)
  {
    hide IsLister, Run, WorldInv, Possible, After, Left, Served, Ended;
    var w := Run(list, t0, steps).value;
    RunInv(list, t0, steps);
    var s := HolderCanStep(list, t0, w, t);
    RunSnoc(list, t0, steps, s);
    if s.Release? {
      ReleaseReturns(list, w, t);
      more := [s];
    } else {
      ActBringsCloser(list, t0, w, s);
      var rest := FinishHolder(list, t0, steps + [s], t, wants);
      more := [s] + rest;
      assert steps + more == (steps + [s]) + rest;
    }
  }

  /** The activations that have not returned. */
  function Waiting(w: World): set<nat> {
    set t | t in w.threads && !w.threads[t].Returned?
  }

  lemma OneFewer(before: World, after: World, t: nat)
    requires t in Waiting(before) && after.threads == before.threads[t := Returned]
    ensures Waiting(after) < Waiting(before) && after.threads.Keys == before.threads.Keys
  {
    assert t in Waiting(before) && t !in Waiting(after);
  }

  function Phase(th: Thread): nat {
    match th
    case Arrived(_, _) => 2
    case Contending(_, _, _) => 1
    case _ => 0
  }

  lemma EntryStep(list: Lister, w: World, s: Step)
    requires IsLister(list) && Possible(w, s) && (s.LoadOrStore? || s.Acquire?)
    ensures var v := After(list, w, s);
      && s.thread in v.threads && Phase(v.threads[s.thread]) == Phase(w.threads[s.thread]) - 1
      && (s.Acquire? ==> v.threads[s.thread].Holding?)
      && Waiting(v) == Waiting(w) && v.threads.Keys == w.threads.Keys && s.thread in Waiting(v)
  {
    hide Enabled;
  }

  lemma HolderWaits(w: World, m: nat)
    requires LocksInv(w) && m in w.holder
    ensures w.holder[m] in w.threads && w.threads[w.holder[m]].Holding? && w.holder[m] in Waiting(w)
  {
  }

  /** As long as anyone waits, someone can be made to return. */
  lemma {:induction false} SomeoneReturns(list: Lister, t0: Table, steps: seq<Step>, t: nat, wants: Wants)
    returns (more: seq<Step>)
    requires IsLister(list) && Run(list, t0, steps).Some? && t in Waiting(Run(list, t0, steps).value)
    ensures AllOnwards(more, wants) && Run(list, t0, steps + more).Some?
    ensures var w, v := Run(list, t0, steps).value, Run(list, t0, steps + more).value;
      Waiting(v) < Waiting(w) && v.threads.Keys == w.threads.Keys
    decreases var w := Run(list, t0, steps);
      if w.None? || t !in w.value.threads then 0 else Phase(w.value.threads[t])
  {
    var w := Run(list, t0, steps).value;
    RunInv(list, t0, steps);
    hide IsLister, Run, UserInv, LocksInv, After, Enabled;
    match w.threads[t]
    case Holding(_, _, _) =>
      more := FinishHolder(list, t0, steps, t, wants);
      OneFewer(w, Run(list, t0, steps + more).value, t);
    case Contending(_, _, m) =>
      if m in w.holder {
        HolderWaits(w, m);
        more := FinishHolder(list, t0, steps, w.holder[m], wants);
        OneFewer(w, Run(list, t0, steps + more).value, w.holder[m]);
      } else {
        var s := Acquire(t, wants(t));
        more := StepThenFinish(list, t0, steps, s, wants);
      }
    case Arrived(_, _) =>
      var s := LoadOrStore(t, AboveAll(w.mutexes.Values));
      RunSnoc(list, t0, steps, s);
      EntryStep(list, w, s);
      var rest := SomeoneReturns(list, t0, steps + [s], t, wants);
      more := [s] + rest;
      assert steps + more == (steps + [s]) + rest;
  }

  lemma StepThenFinish(list: Lister, t0: Table, steps: seq<Step>, s: Step, wants: Wants) returns (more: seq<Step>)
    requires IsLister(list) && Run(list, t0, steps).Some? && s.Acquire? && Onwards(s, wants)
    requires Possible(Run(list, t0, steps).value, s)
    ensures AllOnwards(more, wants) && Run(list, t0, steps + more).Some?
    ensures var w, v := Run(list, t0, steps).value, Run(list, t0, steps + more).value;
      Waiting(v) < Waiting(w) && v.threads.Keys == w.threads.Keys
  {
    hide IsLister, Run, After, Possible, Waiting, Onwards;
    RunSnoc(list, t0, steps, s);
    EntryStep(list, Run(list, t0, steps).value, s);
    var rest := FinishHolder(list, t0, steps + [s], s.thread, wants);
    more := [s] + rest;
    assert steps + more == (steps + [s]) + rest;
    OneFewer(Run(list, t0, steps + [s]).value, Run(list, t0, steps + more).value, s.thread);
  }

  /**
   * Everyone can return. From every reachable world, whatever has failed and whatever each waiting
   * activation will want, there is a continuation without arrivals and without failing calls after
   * which every activation has returned.
   */
  lemma {:induction false} EveryoneReturns(list: Lister, t0: Table, steps: seq<Step>, wants: Wants)
    returns (more: seq<Step>)
    requires IsLister(list) && Run(list, t0, steps).Some?
    ensures AllOnwards(more, wants) && Run(list, t0, steps + more).Some?
    ensures var w, v := Run(list, t0, steps).value, Run(list, t0, steps + more).value;
      v.threads.Keys == w.threads.Keys && forall t :: t in v.threads ==> v.threads[t].Returned?
    decreases var w := Run(list, t0, steps); if w.None? then {} else Waiting(w.value)
  {
    hide IsLister, Run, Onwards;
    var w := Run(list, t0, steps).value;
    if Waiting(w) == {} {
      more := [];
      assert steps + more == steps;
      forall t | t in w.threads ensures w.threads[t].Returned? {
        assert t !in Waiting(w);
      }
    } else {
      var t :| t in Waiting(w);
      var first := SomeoneReturns(list, t0, steps, t, wants);
      var rest := EveryoneReturns(list, t0, steps + first, wants);
      more := first + rest;
      assert steps + more == (steps + first) + rest;
    }
  }
}
