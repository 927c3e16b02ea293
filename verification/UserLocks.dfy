/**
 * Webhook syncs, suspension prunes and batch syncs of one process, interleaved at single API calls
 * under the per-user locks (pkg/server/server.go, pkg/server/zitadel_handler.go, pkg/reconcile/reconcile.go).
 */
module UserLocks {
  import opened Store
  import opened Wrappers
  import opened SyncMachine

  /**
   * One activation of Sync. It first looks up (or stores) the user's mutex, then waits for that
   * mutex, then computes the desired grants and runs the Sync, and at last releases the mutex.
   */
  datatype Thread =
    | Arrived(org: string, user: string)
    | Contending(org: string, user: string, mutex: nat)
    | Holding(job: Job, mutex: nat, local: Local)
    | Returned

  /** What one lock holder did: which Sync it ran and with which calls. */
  datatype Turn = Turn(job: Job, acts: seq<Action>)

  /** `mutexes` is the sync.Map, `holder` the locked mutexes; `turns` lists each user's turns in lock order. */
  datatype World = World(table: Table, mutexes: map<string, nat>, holder: map<nat, nat>, threads: map<nat, Thread>,
                         turns: map<string, seq<Turn>>)

  datatype Step =
    | Arrive(thread: nat, org: string, user: string)
    | LoadOrStore(thread: nat, mutex: nat)
    | Acquire(thread: nat, desired: seq<Desired>)
    | Act(thread: nat, action: Action)
    | Release(thread: nat)

  function TurnsOf(w: World, user: string): seq<Turn> {
    if user in w.turns then w.turns[user] else []
  }

  /** Someone holds the user's lock. */
  predicate Busy(w: World, user: string) {
    user in w.mutexes && w.mutexes[user] in w.holder
  }

  predicate Possible(w: World, s: Step) {
    match s
    case Arrive(t, _, _) => t !in w.threads
    case LoadOrStore(t, m) => t in w.threads && w.threads[t].Arrived? && m !in w.mutexes.Values
    case Acquire(t, _) => t in w.threads && w.threads[t].Contending? && w.threads[t].mutex !in w.holder
    case Act(t, a) =>
      t in w.threads && w.threads[t].Holding? && Enabled(w.threads[t].job, Conf(w.table, w.threads[t].local, []), a)
    case Release(t) => t in w.threads && w.threads[t].Holding? && Ended(w.threads[t].local)
  }

  ghost function After(list: Lister, w: World, s: Step): World
    requires IsLister(list) && Possible(w, s)
  {
    match s
    case Arrive(t, org, user) => w.(threads := w.threads[t := Arrived(org, user)])
    case LoadOrStore(t, m) =>
      var th := w.threads[t];
      if th.user in w.mutexes then
        w.(threads := w.threads[t := Contending(th.org, th.user, w.mutexes[th.user])])
      else
        w.(mutexes := w.mutexes[th.user := m], threads := w.threads[t := Contending(th.org, th.user, m)])
    case Acquire(t, desired) =>
      var th := w.threads[t];
      var job := Job(th.org, th.user, desired);
      w.(holder := w.holder[th.mutex := t],
         threads := w.threads[t := Holding(job, th.mutex, Listing([]))],
         turns := w.turns[th.user := TurnsOf(w, th.user) + [Turn(job, [])]])
    case Act(t, a) =>
      var th := w.threads[t];
      var c := Next(list, th.job, Conf(w.table, th.local, []), a);
      w.(table := c.table, threads := w.threads[t := th.(local := c.local)],
         turns := w.turns[th.job.user := Extended(TurnsOf(w, th.job.user), a)])
    case Release(t) =>
      // Unlock looks the mutex up again by user id.
      var user := w.threads[t].job.user;
      w.(holder := if user in w.mutexes then w.holder - {w.mutexes[user]} else w.holder,
         threads := w.threads[t := Returned])
  }

  function Extended(turns: seq<Turn>, a: Action): seq<Turn> {
    if turns == [] then []
    else
      var last := turns[|turns| - 1];
      turns[..|turns| - 1] + [last.(acts := last.acts + [a])]
  }

  function Fresh(t: Table): World {
    World(t, map[], map[], map[], map[])
  }

  /** The world after a sequence of steps, if each is possible where it occurs. */
  ghost function Run(list: Lister, t: Table, steps: seq<Step>): Option<World>
    requires IsLister(list)
  {
    if steps == [] then Some(Fresh(t))
    else
      var s := steps[|steps| - 1];
      match Run(list, t, steps[..|steps| - 1])
      case None => None
      case Some(w) => if Possible(w, s) then Some(After(list, w, s)) else None
  }

  /** All grants of one user, in any org. */
  function Of(t: Table, user: string): Table {
    map id | id in t && t[id].user == user :: t[id]
  }

  /** Whole Syncs run one after another, nothing in between. */
  ghost function Serial(list: Lister, t: Table, turns: seq<Turn>): Option<Table>
    requires IsLister(list)
  {
    if turns == [] then Some(t)
    else
      var last := turns[|turns| - 1];
      match Serial(list, t, turns[..|turns| - 1])
      case None => None
      case Some(b) => if Completes(list, b, last.job, last.acts) then Some(Result(list, b, last.job, last.acts).table) else None
  }
}
