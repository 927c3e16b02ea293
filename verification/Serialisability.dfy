/** Serialisability of the interleaved Syncs of one process. */
module Serialisability {
  import opened Paging
  import opened Store
  import opened Wrappers
  import opened SyncMachine
  import opened SyncTheorems
  import opened UserLocks

  /* A call depends on, and changes, only its user's grants */

  lemma SliceOf(t: Table, org: string, user: string)
    ensures Slice(Of(t, user), org, user) == Slice(t, org, user)
  {
  }

  lemma ItemsOf(list: Lister, t: Table, org: string, user: string)
    requires IsLister(list)
    ensures Items(list, Of(t, user), org, user) == Items(list, t, org, user)
  {
    hide IsLister, Of;
    SliceOf(t, org, user);
    assert forall id :: id in Slice(t, org, user) <==> id in Slice(Of(t, user), org, user);
    assert forall id :: id in Slice(t, org, user) ==> Slice(Of(t, user), org, user)[id] == Slice(t, org, user)[id];
  }

  lemma ApplyLocal(t: Table, org: string, user: string, w: Write, other: string)
    requires Accepts(t, org, user, w)
    ensures Accepts(Of(t, user), org, user, w)
    ensures Of(Apply(t, w), user) == Apply(Of(t, user), w)
    ensures other != user ==> Of(Apply(t, w), other) == Of(t, other)
  {
  }

  /** A call made by a Sync of `job.user` in the shared table is the same call made among that user's grants alone. */
  lemma StepLocal(list: Lister, job: Job, t: Table, l: Local, log: seq<Write>, a: Action, other: string)
    requires IsLister(list) && Enabled(job, Conf(t, l, []), a)
    ensures Enabled(job, Conf(Of(t, job.user), l, log), a)
    ensures var shared, alone := Next(list, job, Conf(t, l, []), a), Next(list, job, Conf(Of(t, job.user), l, log), a);
      && alone.table == Of(shared.table, job.user) && alone.local == shared.local
      && (other != job.user ==> Of(shared.table, other) == Of(t, other))
  {
    hide IsLister, Of, Items, PageOf, Call, Accepts, Apply, Onward, Begin, WantOf;
    if a.Page? {
      ItemsOf(list, t, job.org, job.user);
    } else {
      var call := Call(job, l, a);
      if call.Some? && a.outcome != Rejected {
        ApplyLocal(t, job.org, job.user, call.value, other);
      }
    }
  }

  /* The invariant */

  ghost predicate LocksInv(w: World) {
    && (forall u, v :: u in w.mutexes && v in w.mutexes && w.mutexes[u] == w.mutexes[v] ==> u == v)
    && (forall t :: t in w.threads && w.threads[t].Contending? ==>
          w.threads[t].user in w.mutexes && w.mutexes[w.threads[t].user] == w.threads[t].mutex)
    && (forall t :: t in w.threads && w.threads[t].Holding? ==>
          && w.threads[t].job.user in w.mutexes && w.mutexes[w.threads[t].job.user] == w.threads[t].mutex
          && w.threads[t].mutex in w.holder && w.holder[w.threads[t].mutex] == t)
    && (forall m :: m in w.holder ==>
          && w.holder[m] in w.threads && w.threads[w.holder[m]].Holding? && w.threads[w.holder[m]].mutex == m)
  }

  /** The last turn is this holder's, on the grants its predecessors left, and has come exactly as far as the holder. */
  ghost predicate HeldBy(list: Lister, own0: Table, turns: seq<Turn>, th: Thread, own: Table, user: string)
    requires IsLister(list)
  {
    && th.Holding? && turns != []
    && var last := turns[|turns| - 1];
    && last.job == th.job && last.job.user == user
    && var base := Serial(list, own0, turns[..|turns| - 1]);
    && base.Some?
    && var c := Exec(list, base.value, last.job, last.acts);
    && c.Some? && c.value.table == own && c.value.local == th.local
  }

  /**
   * A free user's grants are what its turns, one after another, make of its initial grants; while
   * the lock is held, the last turn is the holder's and has come exactly as far as the holder.
   */
  ghost predicate UserInv(list: Lister, t0: Table, w: World, user: string)
    requires IsLister(list)
  {
    var turns := TurnsOf(w, user);
    if !Busy(w, user) then Serial(list, Of(t0, user), turns) == Some(Of(w.table, user))
    else
      && w.holder[w.mutexes[user]] in w.threads
      && HeldBy(list, Of(t0, user), turns, w.threads[w.holder[w.mutexes[user]]], Of(w.table, user), user)
  }

  ghost predicate WorldInv(list: Lister, t0: Table, w: World)
    requires IsLister(list)
  {
    LocksInv(w) && forall user :: UserInv(list, t0, w, user)
  }

  lemma LocksStep(list: Lister, w: World, s: Step)
    requires IsLister(list) && LocksInv(w) && Possible(w, s)
    ensures LocksInv(After(list, w, s))
  {
    hide IsLister, Next, Extended, TurnsOf, Enabled;
    match s
    case LoadOrStore(t, _) => MutexStep(list, w, s);
    case Acquire(_, _) => LockStep(list, w, s);
    case Release(_) => UnlockStep(list, w, s);
    case _ =>
  }

  lemma LockStep(list: Lister, w: World, s: Step)
    requires IsLister(list) && LocksInv(w) && Possible(w, s) && s.Acquire?
    ensures LocksInv(After(list, w, s))
  {
    hide IsLister, Next, Enabled, Extended, TurnsOf;
  }

  lemma UnlockStep(list: Lister, w: World, s: Step)
    requires IsLister(list) && LocksInv(w) && Possible(w, s) && s.Release?
    ensures LocksInv(After(list, w, s))
  {
    hide IsLister, Next, Enabled, Extended, TurnsOf;
  }

  lemma MutexStep(list: Lister, w: World, s: Step)
    requires IsLister(list) && LocksInv(w) && Possible(w, s) && s.LoadOrStore?
    ensures LocksInv(After(list, w, s))
  {
    hide IsLister, Next, Enabled, Extended, TurnsOf;
    NewMutex(w, s.mutex);
  }

  lemma NewMutex(w: World, m: nat)
    requires LocksInv(w) && m !in w.mutexes.Values
    ensures m !in w.holder && forall u :: u in w.mutexes ==> w.mutexes[u] != m
  {
    assert forall u :: u in w.mutexes ==> w.mutexes[u] in w.mutexes.Values;
  }

  /** A step that leaves a user's grants, turns and lock alone leaves that user's invariant alone. */
  lemma UserUntouched(list: Lister, t0: Table, w: World, v: World, user: string)
    requires IsLister(list) && UserInv(list, t0, w, user)
    requires Of(v.table, user) == Of(w.table, user) && TurnsOf(v, user) == TurnsOf(w, user)
    requires Busy(v, user) == Busy(w, user)
    requires Busy(w, user) ==> v.mutexes[user] == w.mutexes[user] && v.holder[v.mutexes[user]] == w.holder[w.mutexes[user]]
    requires Busy(w, user) ==> w.holder[w.mutexes[user]] in w.threads ==>
      w.holder[w.mutexes[user]] in v.threads && v.threads[w.holder[w.mutexes[user]]] == w.threads[w.holder[w.mutexes[user]]]
    ensures UserInv(list, t0, v, user)
  {
    hide IsLister, Of, TurnsOf, HeldBy, Serial;
  }

  lemma ArriveStep(list: Lister, t0: Table, w: World, s: Step, user: string)
    requires IsLister(list) && LocksInv(w) && UserInv(list, t0, w, user) && Possible(w, s) && s.Arrive?
    ensures UserInv(list, t0, After(list, w, s), user)
  {
    var v := After(list, w, s);
    hide IsLister, Of, UserInv, LocksInv;
    UserUntouched(list, t0, w, v, user);
  }

  lemma LoadStep(list: Lister, t0: Table, w: World, s: Step, user: string)
    requires IsLister(list) && LocksInv(w) && UserInv(list, t0, w, user) && Possible(w, s) && s.LoadOrStore?
    ensures UserInv(list, t0, After(list, w, s), user)
  {
    var v := After(list, w, s);
    NewMutex(w, s.mutex);
    HolderIsHolding(w, user);
    hide IsLister, Of, UserInv, LocksInv;
    UserUntouched(list, t0, w, v, user);
  }

  lemma HolderIsHolding(w: World, user: string)
    requires LocksInv(w)
    ensures Busy(w, user) ==>
      w.holder[w.mutexes[user]] in w.threads && w.threads[w.holder[w.mutexes[user]]].Holding?
  {
  }

  /** The mutex a thread waits for is its user's, and no one else's. */
  lemma ContendedMutex(w: World, t: nat, user: string)
    requires LocksInv(w) && t in w.threads && w.threads[t].Contending?
    ensures w.threads[t].user in w.mutexes && w.mutexes[w.threads[t].user] == w.threads[t].mutex
    ensures user != w.threads[t].user && user in w.mutexes ==> w.mutexes[user] != w.threads[t].mutex
  {
  }

  lemma AcquireStep(list: Lister, t0: Table, w: World, s: Step, user: string)
    requires IsLister(list) && LocksInv(w) && UserInv(list, t0, w, user) && Possible(w, s) && s.Acquire?
    ensures UserInv(list, t0, After(list, w, s), user)
  {
    ContendedMutex(w, s.thread, user);
    HolderIsHolding(w, user);
    if user == w.threads[s.thread].user {
      AcquireOwn(list, t0, w, s, user);
    } else {
      hide IsLister, Of, UserInv, LocksInv;
      UserUntouched(list, t0, w, After(list, w, s), user);
    }
  }

  /** A new turn that has made no call yet, on the grants its predecessors left. */
  lemma AcquireOwn(list: Lister, t0: Table, w: World, s: Step, user: string)
    requires IsLister(list) && UserInv(list, t0, w, user) && Possible(w, s) && s.Acquire?
    requires user == w.threads[s.thread].user && user in w.mutexes && w.mutexes[user] == w.threads[s.thread].mutex
    ensures UserInv(list, t0, After(list, w, s), user)
  {
    hide IsLister, Of, Serial, HeldBy;
    var th := w.threads[s.thread];
    NewTurn(list, Of(t0, user), TurnsOf(w, user), Job(th.org, user, s.desired), th.mutex, Of(w.table, user));
  }

  lemma NewTurn(list: Lister, own0: Table, turns: seq<Turn>, job: Job, mutex: nat, own: Table)
    requires IsLister(list) && Serial(list, own0, turns) == Some(own)
    ensures HeldBy(list, own0, turns + [Turn(job, [])], Holding(job, mutex, Listing([])), own, job.user)
  {
    hide IsLister, Serial;
    assert (turns + [Turn(job, [])])[..|turns|] == turns;
    BeforeFirstCall(list, own, job);
  }

  lemma HolderOf(w: World, t: nat)
    requires LocksInv(w) && t in w.threads && w.threads[t].Holding?
    ensures Busy(w, w.threads[t].job.user) && w.holder[w.mutexes[w.threads[t].job.user]] == t
  {
  }

  lemma OtherHolder(w: World, t: nat, user: string)
    requires LocksInv(w) && t in w.threads && w.threads[t].Holding? && user != w.threads[t].job.user
    ensures Busy(w, user) ==> w.holder[w.mutexes[user]] != t
  {
  }

  lemma ActStep(list: Lister, t0: Table, w: World, s: Step, user: string)
    requires IsLister(list) && LocksInv(w) && UserInv(list, t0, w, user) && Possible(w, s) && s.Act?
    ensures UserInv(list, t0, After(list, w, s), user)
  {
    hide IsLister, LocksInv, UserInv, After, Busy, Enabled;
    if user == w.threads[s.thread].job.user {
      HolderOf(w, s.thread);
      ActOwn(list, t0, w, s, user);
    } else {
      OtherHolder(w, s.thread, user);
      ActOther(list, t0, w, s, user);
    }
  }

  /** The holder's call: its turn grows by the same action. */
  lemma ActOwn(list: Lister, t0: Table, w: World, s: Step, user: string)
    requires IsLister(list) && UserInv(list, t0, w, user) && Possible(w, s) && s.Act?
    requires user == w.threads[s.thread].job.user && Busy(w, user) && w.holder[w.mutexes[user]] == s.thread
    ensures UserInv(list, t0, After(list, w, s), user)
  {
    hide IsLister, Of, Serial, HeldBy, Next, Enabled;
    TurnGrows(list, Of(t0, user), TurnsOf(w, user), w.threads[s.thread], w.table, s.action);
  }

  lemma TurnGrows(list: Lister, own0: Table, turns: seq<Turn>, th: Thread, t: Table, a: Action)
    requires IsLister(list) && th.Holding? && Enabled(th.job, Conf(t, th.local, []), a)
    requires HeldBy(list, own0, turns, th, Of(t, th.job.user), th.job.user)
    ensures var c := Next(list, th.job, Conf(t, th.local, []), a);
      HeldBy(list, own0, Extended(turns, a), th.(local := c.local), Of(c.table, th.job.user), th.job.user)
  {
    hide IsLister, Of, Serial, Next, Enabled, Exec;
    var last := turns[|turns| - 1];
    var base := Serial(list, own0, turns[..|turns| - 1]).value;
    var c := Exec(list, base, th.job, last.acts).value;
    StepLocal(list, th.job, t, th.local, c.log, a, th.job.user);
    ExecSnoc(list, base, th.job, last.acts, a);
    assert Extended(turns, a)[..|turns| - 1] == turns[..|turns| - 1];
  }

  lemma ActOther(list: Lister, t0: Table, w: World, s: Step, user: string)
    requires IsLister(list) && UserInv(list, t0, w, user) && Possible(w, s) && s.Act?
    requires user != w.threads[s.thread].job.user && (Busy(w, user) ==> w.holder[w.mutexes[user]] != s.thread)
    ensures UserInv(list, t0, After(list, w, s), user)
  {
    var th := w.threads[s.thread];
    hide IsLister, Of, UserInv, Next, Enabled;
    StepLocal(list, th.job, w.table, th.local, [], s.action, user);
    UserUntouched(list, t0, w, After(list, w, s), user);
  }

  lemma ReleaseStep(list: Lister, t0: Table, w: World, s: Step, user: string)
    requires IsLister(list) && LocksInv(w) && UserInv(list, t0, w, user) && Possible(w, s) && s.Release?
    ensures UserInv(list, t0, After(list, w, s), user)
  {
    var v := After(list, w, s);
    hide IsLister, Of, Exec;
    if user != w.threads[s.thread].job.user {
      UserUntouched(list, t0, w, v, user);
    }
  }

  lemma WorldStep(list: Lister, t0: Table, w: World, s: Step)
    requires IsLister(list) && WorldInv(list, t0, w) && Possible(w, s)
    ensures WorldInv(list, t0, After(list, w, s))
  {
    LocksStep(list, w, s);
    forall user ensures UserInv(list, t0, After(list, w, s), user) {
      hide *;
      match s
      case Arrive(_, _, _) => ArriveStep(list, t0, w, s, user);
      case LoadOrStore(_, _) => LoadStep(list, t0, w, s, user);
      case Acquire(_, _) => AcquireStep(list, t0, w, s, user);
      case Act(_, _) => ActStep(list, t0, w, s, user);
      case Release(_) => ReleaseStep(list, t0, w, s, user);
    }
  }

  lemma {:induction false} RunInv(list: Lister, t0: Table, steps: seq<Step>)
    requires IsLister(list) && Run(list, t0, steps).Some?
    ensures WorldInv(list, t0, Run(list, t0, steps).value)
  {
    hide IsLister, After, Possible;
    if steps == [] {
      assert forall user :: TurnsOf(Fresh(t0), user) == [];
    } else {
      hide WorldInv;
      RunInv(list, t0, steps[..|steps| - 1]);
      WorldStep(list, t0, Run(list, t0, steps[..|steps| - 1]).value, steps[|steps| - 1]);
    }
  }

  /** Whose grants an activation is about, until it returns. */
  function WhoseOf(th: Thread): Option<(string, string)> {
    match th
    case Arrived(org, user) => Some((org, user))
    case Contending(org, user, _) => Some((org, user))
    case Holding(job, _, _) => Some((job.org, job.user))
    case Returned => None
  }

  /** An activation stays about the user and org it arrived for, and its Sync wants what it set out to want. */
  lemma IdentityKept(list: Lister, w: World, s: Step, t: nat)
    requires IsLister(list) && Possible(w, s) && t in w.threads
    ensures var v := After(list, w, s);
      && t in v.threads
      && (WhoseOf(v.threads[t]) == WhoseOf(w.threads[t]) || (s == Release(t) && v.threads[t] == Returned))
      && (s.Acquire? && s.thread == t ==> v.threads[t].Holding? && v.threads[t].job.desired == s.desired)
      && (w.threads[t].Holding? && v.threads[t].Holding? ==> v.threads[t].job == w.threads[t].job)
  {
    hide IsLister, Enabled, Next;
  }

  /* Theorems about every reachable world */

  /**
   * Serialisability. Whatever the interleaving, while a user's lock is free that user's grants are
   * those of running the same Syncs one after another in the order in which they took the lock.
   */
  lemma Serialisable(list: Lister, t0: Table, steps: seq<Step>, user: string)
    requires IsLister(list) && Run(list, t0, steps).Some? && !Busy(Run(list, t0, steps).value, user)
    ensures var w := Run(list, t0, steps).value;
      Serial(list, Of(t0, user), TurnsOf(w, user)) == Some(Of(w.table, user))
  {
    hide IsLister, Run, Serial, Of, LocksInv;
    RunInv(list, t0, steps);
    assert UserInv(list, t0, Run(list, t0, steps).value, user);
  }

  /** No two activations are ever inside the lock for the same user. */
  lemma MutualExclusion(list: Lister, t0: Table, steps: seq<Step>, a: nat, b: nat)
    requires IsLister(list) && Run(list, t0, steps).Some?
    requires var w := Run(list, t0, steps).value;
      a in w.threads && b in w.threads && w.threads[a].Holding? && w.threads[b].Holding?
      && w.threads[a].job.user == w.threads[b].job.user
    ensures a == b
  {
    hide IsLister, Run, UserInv;
    RunInv(list, t0, steps);
  }

  lemma AtMostOneByUser(t: Table)
    ensures AtMostOne(t) <==> forall user :: AtMostOne(Of(t, user))
  {
    if AtMostOne(t) {
      forall user, o, u ensures Unique(Of(t, user), o, u) {
        assert Unique(t, o, u);
      }
    } else {
      var o, u :| !Unique(t, o, u);
      var i, j :| i in t && j in t && Owned(t[i], o, u) && Owned(t[j], o, u) && t[i].project == t[j].project && i != j;
      assert i in Of(t, u) && j in Of(t, u);
      assert !Unique(Of(t, u), o, u);
    }
  }

  lemma ExecAtMostOne(list: Lister, t: Table, job: Job, acts: seq<Action>)
    requires IsLister(list) && AtMostOne(t) && Exec(list, t, job, acts).Some?
    ensures AtMostOne(Exec(list, t, job, acts).value.table)
  {
    var n := Exec(list, t, job, acts).value.table;
    hide IsLister, View, WantOf, Final, Others, Exec;
    assert Unique(t, job.org, job.user);
    OldOrWanted(list, t, job, acts);
    hide Unique;
    forall o, u ensures Unique(n, o, u) {
      assert Unique(t, o, u);
      if o != job.org || u != job.user {
        ViewOfOthers(t, n, job.org, job.user, o, u);
      }
    }
  }

  lemma {:induction false} SerialAtMostOne(list: Lister, t: Table, turns: seq<Turn>)
    requires IsLister(list) && AtMostOne(t) && Serial(list, t, turns).Some?
    ensures AtMostOne(Serial(list, t, turns).value)
  {
    hide IsLister, AtMostOne, Exec;
    if turns != [] {
      var last := turns[|turns| - 1];
      SerialAtMostOne(list, t, turns[..|turns| - 1]);
      ExecAtMostOne(list, Serial(list, t, turns[..|turns| - 1]).value, last.job, last.acts);
    }
  }

  /** Every turn of a serial run is itself a run from the grants it found. */
  lemma {:induction false} EveryTurnRan(list: Lister, t: Table, turns: seq<Turn>, i: nat)
    requires IsLister(list) && i < |turns| && Serial(list, t, turns).Some?
    ensures Serial(list, t, turns[..i]).Some?
    ensures Exec(list, Serial(list, t, turns[..i]).value, turns[i].job, turns[i].acts).Some?
  {
    hide IsLister, Exec;
    var n := |turns| - 1;
    if i < n {
      EveryTurnRan(list, t, turns[..n], i);
      assert turns[..n][..i] == turns[..i];
    }
  }

  /** So is every turn of an interleaving, finished or not. */
  lemma EveryTurnRunning(list: Lister, t0: Table, steps: seq<Step>, user: string, i: nat)
    requires IsLister(list) && Run(list, t0, steps).Some? && i < |TurnsOf(Run(list, t0, steps).value, user)|
    ensures var turns := TurnsOf(Run(list, t0, steps).value, user);
      && Serial(list, Of(t0, user), turns[..i]).Some?
      && Exec(list, Serial(list, Of(t0, user), turns[..i]).value, turns[i].job, turns[i].acts).Some?
  {
    hide IsLister, Run, Serial, Of, LocksInv, Exec, TurnsOf;
    RunInv(list, t0, steps);
    var w := Run(list, t0, steps).value;
    assert UserInv(list, t0, w, user);
    var turns := TurnsOf(w, user);
    var n := |turns| - 1;
    if !Busy(w, user) {
      EveryTurnRan(list, Of(t0, user), turns, i);
    } else if i < n {
      EveryTurnRan(list, Of(t0, user), turns[..n], i);
      assert turns[..n][..i] == turns[..i];
    }
  }

  /** Every step of every interleaving keeps at most one grant per org, user and project. */
  lemma AtMostOneAlways(list: Lister, t0: Table, steps: seq<Step>)
    requires IsLister(list) && AtMostOne(t0) && Run(list, t0, steps).Some?
    ensures AtMostOne(Run(list, t0, steps).value.table)
  {
    var w := Run(list, t0, steps).value;
    RunInv(list, t0, steps);
    hide IsLister, AtMostOne, Exec, Run, Serial, Of, LocksInv;
    AtMostOneByUser(t0);
    forall user ensures AtMostOne(Of(w.table, user)) {
      assert UserInv(list, t0, w, user);
      var turns := TurnsOf(w, user);
      if Busy(w, user) {
        var last := turns[|turns| - 1];
        SerialAtMostOne(list, Of(t0, user), turns[..|turns| - 1]);
        ExecAtMostOne(list, Serial(list, Of(t0, user), turns[..|turns| - 1]).value, last.job, last.acts);
      } else {
        SerialAtMostOne(list, Of(t0, user), turns);
      }
    }
    AtMostOneByUser(w.table);
  }
}
