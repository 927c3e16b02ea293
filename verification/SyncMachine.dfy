/**
 * `Syncer.Sync` one API call at a time (pkg/grantsync/syncer.go).
 *
 * A machine holds the instance's grants, the local variables of one running Sync and the writes it
 * has made. An action is the next call together with everything the code does not control: which
 * key the map iteration yields, how the API answers, and the id of a new grant. The machine is a
 * function of its actions, so a theorem over all action sequences is a theorem over every
 * iteration order, every pattern of failures and every number of pages.
 */
module SyncMachine {
  import opened Paging
  import opened Strings
  import opened Roles
  import opened Store
  import opened Wrappers

  datatype Job = Job(org: string, user: string, desired: seq<Desired>)

  datatype Entry = Entry(id: string, record: Record)

  /** How a write call ends; `Lost` is an error returned although the server applied the write. */
  datatype Outcome = Done | Rejected | Lost

  datatype Action =
    | Page(served: bool)
    | Visit(project: string, outcome: Outcome, newId: string)
    | Sweep(project: string, outcome: Outcome)

  datatype Write =
    | Add(id: string, record: Record)
    | Update(id: string, roles: seq<string>)
    | Remove(id: string)

  datatype Counts = Counts(added: nat, updated: nat, removed: nat)

  datatype Local =
    | Listing(got: seq<Entry>)
    | Writing(existing: map<string, Entry>, todo: set<string>, gone: set<string>, counts: Counts)
    | Finished(total: Counts)
    | Failed

  datatype Conf = Conf(table: Table, local: Local, log: seq<Write>)

  /** The order in which the server lists a user's grants: any enumeration of them. */
  type Lister = Table -> seq<string>

  ghost predicate IsLister(list: Lister) {
    forall t: Table :: Distinct(list(t)) && Elems(list(t)) == t.Keys
  }

  /** There are such orders: by grant id, for one. */
  lemma ListersExist()
    ensures IsLister((t: Table) => SortedSeq(t.Keys))
  {
    hide SortedSeq;
    forall t: Table ensures Distinct(SortedSeq(t.Keys)) {
      StrictIsSortedAndDistinct(SortedSeq(t.Keys));
    }
  }

  /** The user's grants in the org as the server would list them in one go. */
  function Items(list: Lister, t: Table, org: string, user: string): (items: seq<Entry>)
    requires IsLister(list)
    ensures forall e :: e in items <==> e.id in t && Owned(t[e.id], org, user) && e.record == t[e.id]
  {
    var s := Slice(t, org, user);
    var ids := list(s);
    assert forall i :: 0 <= i < |ids| ==> ids[i] in Elems(ids);
    var items := seq(|ids|, i requires 0 <= i < |ids| => Entry(ids[i], s[ids[i]]));
    assert forall e: Entry :: e.id in t && Owned(t[e.id], org, user) && e.record == t[e.id] ==> e in items by {
      forall e: Entry | e.id in t && Owned(t[e.id], org, user) && e.record == t[e.id] ensures e in items {
        assert e.id in Elems(ids);
        var i :| 0 <= i < |ids| && ids[i] == e.id;
        assert items[i] == e;
      }
    }
    items
  }

  /** `existingByProject`: the last listed grant of a project wins. */
  function IndexOf(entries: seq<Entry>): (index: map<string, Entry>)
    ensures forall p :: p in index ==> index[p] in entries && index[p].record.project == p
    ensures forall e :: e in entries ==> e.record.project in index
  {
    if entries == [] then map[]
    else
      var e := entries[|entries| - 1];
      IndexOf(entries[..|entries| - 1])[e.record.project := e]
  }

  /** The index holds a grant for each listed project, the one listed last. */
  lemma {:induction false} IndexIsLast(entries: seq<Entry>, i: nat)
    requires i < |entries|
    ensures (forall j :: i < j < |entries| ==> entries[j].record.project != entries[i].record.project) ==>
      IndexOf(entries)[entries[i].record.project] == entries[i]
  {
    assert entries[i] in entries;
    if i < |entries| - 1 {
      var rest := entries[..|entries| - 1];
      assert rest[i] in rest;
      IndexIsLast(rest, i);
    }
  }

  /** The write call an action makes, if it makes one. */
  function Call(job: Job, l: Local, a: Action): Option<Write>
    requires l.Writing?
    requires a.Visit? ==> a.project in l.todo && l.todo <= WantOf(job.desired).Keys
    requires a.Sweep? ==> a.project in l.gone && l.gone <= l.existing.Keys
  {
    var want := WantOf(job.desired);
    match a
    case Page(_) => None
    case Visit(p, _, newId) =>
      if p !in l.existing then
        Some(Add(newId, Record(job.org, job.user, p, want[p].projectGrantId, want[p].roles)))
      else if RolesEqual(l.existing[p].record.roles, want[p].roles) then None
      else Some(Update(l.existing[p].id, want[p].roles))
    case Sweep(p, _) =>
      if p in want then None else Some(Remove(l.existing[p].id))
  }

  /** What the server accepts: a fresh id for a new grant, an existing grant of this user otherwise. */
  predicate Accepts(t: Table, org: string, user: string, w: Write) {
    match w
    case Add(id, r) => id !in t && Owned(r, org, user)
    case Update(id, _) => id in t && Owned(t[id], org, user)
    case Remove(id) => id in t && Owned(t[id], org, user)
  }

  function Apply(t: Table, w: Write): Table
    requires w.Update? ==> w.id in t
  {
    match w
    case Add(id, r) => t[id := r]
    case Update(id, roles) => t[id := t[id].(roles := roles)]
    case Remove(id) => t - {id}
  }

  function Count(c: Counts, w: Write): Counts {
    match w
    case Add(_, _) => c.(added := c.added + 1)
    case Update(_, _) => c.(updated := c.updated + 1)
    case Remove(_) => c.(removed := c.removed + 1)
  }

  function Tally(log: seq<Write>): Counts {
    if log == [] then Counts(0, 0, 0) else Count(Tally(log[..|log| - 1]), log[|log| - 1])
  }

  predicate InLoop(job: Job, l: Local, a: Action) {
    && l.Writing? && l.todo <= WantOf(job.desired).Keys && l.gone <= l.existing.Keys
    && match a
       case Page(_) => false
       case Visit(p, _, _) => p in l.todo
       case Sweep(p, _) => l.todo == {} && p in l.gone
  }

  predicate Enabled(job: Job, c: Conf, a: Action) {
    if a.Page? then c.local.Listing?
    else
      && InLoop(job, c.local, a)
      && match Call(job, c.local, a)
         case None => true
         case Some(w) => a.outcome == Rejected || Accepts(c.table, job.org, job.user, w)
  }

  /** A finished loop nest returns the counters. */
  function Settle(l: Local): Local {
    if l.Writing? && l.todo == {} && l.gone == {} then Finished(l.counts) else l
  }

  function Begin(job: Job, got: seq<Entry>): Local {
    var existing := IndexOf(got);
    Settle(Writing(existing, WantOf(job.desired).Keys, existing.Keys, Counts(0, 0, 0)))
  }

  /** The local variables once the action's key is dealt with. */
  function Onward(l: Local, a: Action, counts: Counts): Local
    requires l.Writing? && !a.Page?
  {
    Settle(if a.Visit? then l.(todo := l.todo - {a.project}, counts := counts)
           else l.(gone := l.gone - {a.project}, counts := counts))
  }

  ghost function Next(list: Lister, job: Job, c: Conf, a: Action): Conf
    requires IsLister(list) && Enabled(job, c, a)
  {
    if a.Page? then
      if !a.served then c.(local := Failed)
      else
        var page := PageOf(Items(list, c.table, job.org, job.user), |c.local.got|);
        var got := c.local.got + page;
        c.(local := if |page| < PageSize then Begin(job, got) else Listing(got))
    else
      match Call(job, c.local, a)
      case None => c.(local := Onward(c.local, a, c.local.counts))
      case Some(w) =>
        match a.outcome
        case Done => Conf(Apply(c.table, w), Onward(c.local, a, Count(c.local.counts, w)), c.log + [w])
        case Rejected => c.(local := Failed)
        case Lost => Conf(Apply(c.table, w), Failed, c.log + [w])
  }

  function Start(t: Table): Conf {
    Conf(t, Listing([]), [])
  }

  predicate Ended(l: Local) {
    l.Finished? || l.Failed?
  }

  /** The state after a sequence of actions, if each is possible where it occurs. */
  ghost function Exec(list: Lister, t: Table, job: Job, acts: seq<Action>): Option<Conf>
    requires IsLister(list)
  {
    if acts == [] then Some(Start(t))
    else
      var a := acts[|acts| - 1];
      match Exec(list, t, job, acts[..|acts| - 1])
      case None => None
      case Some(c) => if Enabled(job, c, a) then Some(Next(list, job, c, a)) else None
  }

  /** A whole Sync: it ran to its return. */
  ghost predicate Completes(list: Lister, t: Table, job: Job, acts: seq<Action>)
    requires IsLister(list)
  {
    var c := Exec(list, t, job, acts);
    c.Some? && Ended(c.value.local)
  }

  ghost function Result(list: Lister, t: Table, job: Job, acts: seq<Action>): Conf
    requires IsLister(list) && Completes(list, t, job, acts)
  {
    Exec(list, t, job, acts).value
  }

  lemma ExecSnoc(list: Lister, t: Table, job: Job, acts: seq<Action>, a: Action)
    requires IsLister(list) && Exec(list, t, job, acts).Some? && Enabled(job, Exec(list, t, job, acts).value, a)
    ensures Exec(list, t, job, acts + [a]) == Some(Next(list, job, Exec(list, t, job, acts).value, a))
  {
    hide IsLister, Next, Enabled;
    assert (acts + [a])[..|acts|] == acts;
  }

  /** A Sync that ran to its return without an error. */
  ghost predicate Returns(list: Lister, t0: Table, job: Job, acts: seq<Action>)
    requires IsLister(list)
  {
    var c := Exec(list, t0, job, acts); c.Some? && c.value.local.Finished?
  }

  /** The call was made and succeeded. */
  predicate Served(a: Action) {
    if a.Page? then a.served else a.outcome == Done
  }

  lemma BeforeFirstCall(list: Lister, t: Table, job: Job)
    requires IsLister(list)
    ensures Exec(list, t, job, []) == Some(Start(t))
  {
  }
}
