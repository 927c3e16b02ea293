/** The two-phase batch reconciliation (pkg/reconcile/reconcile.go). */
module Batch {
  import opened Mapper
  import opened Paging
  import opened Planner
  import opened Store
  import opened SyncMachine
  import opened SyncTheorems
  import opened Syncer
  import opened UserLocks
  import opened Webhook
  import opened Wrappers

  /** An org as the run meets it: its configuration, its users, and the resolver's answer for each; None is a failure. */
  datatype OrgInput = OrgInput(id: string, config: Option<OrgConfig>, listing: Option<seq<(UserInfo, Option<UserGroups>)>>)

  /** A phase-1 resolution awaiting reconciliation. */
  datatype Pending = Pending(org: string, rules: seq<Rule>, user: UserInfo, groups: seq<string>, suspended: bool)

  /** Settings and options of a run, and the catalog's answers for the n-th pending user. */
  datatype Setup = Setup(lib: Lib, protected: seq<string>, maxEmptyRatio: real, force: bool, catalog: nat -> Option<Answers>)

  /** `failed` counts the Syncs that returned an error; the run itself only logs them. */
  datatype Totals = Totals(processed: nat, skippedEmpty: nat, suspendedPruned: nat, failed: nat,
                           added: nat, updated: nat, removed: nat)

  const NoTotals := Totals(0, 0, 0, 0, 0, 0, 0)

  /* Phase 1: resolve every user, no writes */

  /** Whose groups are worth acting on: users with an address whose resolution succeeded. */
  function PendingUsers(org: string, rules: seq<Rule>, users: seq<(UserInfo, Option<UserGroups>)>): seq<Pending> {
    if users == [] then []
    else
      var n := |users| - 1;
      var (u, answer) := users[n];
      PendingUsers(org, rules, users[..n])
      + if '@' !in u.email || answer.None? then []
        else [Pending(org, rules, u, answer.value.groups, answer.value.suspended)]
  }

  function PendingOf(o: OrgInput): seq<Pending> {
    if o.config.None? || |o.config.value.rules| == 0 || o.listing.None? then []
    else PendingUsers(o.id, o.config.value.rules, o.listing.value)
  }

  function Phase1(orgs: seq<OrgInput>): seq<Pending> {
    if orgs == [] then [] else var n := |orgs| - 1; Phase1(orgs[..n]) + PendingOf(orgs[n])
  }

  /** Resolved to no groups without being suspended. */
  predicate IsEmpty(p: Pending) {
    |p.groups| == 0 && !p.suspended
  }

  function EmptyCount(ps: seq<Pending>): nat {
    if ps == [] then 0 else EmptyCount(ps[..|ps| - 1]) + if IsEmpty(ps[|ps| - 1]) then 1 else 0
  }

  /** The run-level safety threshold. */
  predicate Aborts(s: Setup, ps: seq<Pending>) {
    !s.force && |ps| > 0 && EmptyCount(ps) as real / |ps| as real > s.maxEmptyRatio
  }

  /** Where the directory answered with no groups and did not report the account suspended. */
  function EmptyPositions(ps: seq<Pending>): set<nat> {
    set i: nat | i < |ps| && |ps[i].groups| == 0 && !ps[i].suspended
  }

  lemma {:induction false} EmptyCountExactly(ps: seq<Pending>)
    ensures EmptyCount(ps) == |EmptyPositions(ps)|
  {
    if ps != [] {
      var n := |ps| - 1;
      EmptyCountExactly(ps[..n]);
      assert EmptyPositions(ps) == EmptyPositions(ps[..n]) + if IsEmpty(ps[n]) then {n} else {};
    }
  }

  lemma RatioExactly(count: nat, total: nat, max: real)
    requires total > 0
    ensures count as real / total as real > max <==> count as real > max * total as real
  {
    var ratio := count as real / total as real;
    assert ratio * total as real == count as real;
    if ratio > max {
      assert (ratio - max) * total as real > 0.0;
    } else {
      assert (max - ratio) * total as real >= 0.0;
    }
  }

  /**
   * Exactly when a run aborts: unforced, with someone pending, and with more users resolved to nothing
   * than the configured share of the pending ones.
   */
  lemma AbortsExactly(s: Setup, ps: seq<Pending>)
    ensures Aborts(s, ps) <==>
      !s.force && |ps| > 0 && |EmptyPositions(ps)| as real > s.maxEmptyRatio * |ps| as real
  {
    hide EmptyPositions, EmptyCount;
    EmptyCountExactly(ps);
    if |ps| > 0 {
      RatioExactly(EmptyCount(ps), |ps|, s.maxEmptyRatio);
    }
  }

  /* Phase 2: reconcile */

  /** The Sync a pending user gets, if any. */
  ghost function JobOf(s: Setup, n: nat, p: Pending): Option<Job> {
    if p.suspended then Some(Job(p.org, p.user.id, []))
    else if |p.groups| == 0 && !s.force && !RulesNameUser(s.lib, p.rules, p.user.email) then None
    else Some(Job(p.org, p.user.id, DesiredFor(s.lib, s.catalog(n), Subject(p.rules, p.user.email, p.groups, s.protected))))
  }

  /** The counters after one pending user. */
  function Account(tot: Totals, p: Pending, synced: bool, l: Local): Totals {
    if !synced then tot.(skippedEmpty := tot.skippedEmpty + 1)
    else if !l.Finished? then tot.(failed := tot.failed + 1)
    else if p.suspended then
      tot.(suspendedPruned := tot.suspendedPruned + 1, removed := tot.removed + l.total.removed)
    else
      tot.(processed := tot.processed + 1, added := tot.added + l.total.added,
           updated := tot.updated + l.total.updated, removed := tot.removed + l.total.removed)
  }

  /** Where phase 2 stands: the grants, the counters, and the Syncs run so far. */
  datatype Progress = Progress(table: Table, totals: Totals, turns: seq<Turn>)

  /** Phase 2 on the pending users, the n-th of whose Syncs makes the calls `acts[n]`. */
  ghost function Phase2(list: Lister, s: Setup, ps: seq<Pending>, acts: seq<seq<Action>>, t: Table): Option<Progress>
    requires IsLister(list) && |acts| == |ps|
    decreases |ps|
  {
    if ps == [] then Some(Progress(t, NoTotals, []))
    else
      var n := |ps| - 1;
      match Phase2(list, s, ps[..n], acts[..n], t)
      case None => None
      case Some(g) => Reconcile(list, s, n, ps[n], acts[n], g)
  }

  ghost function Reconcile(list: Lister, s: Setup, n: nat, p: Pending, acts: seq<Action>, g: Progress): Option<Progress>
    requires IsLister(list)
  {
    match JobOf(s, n, p)
    case None => Some(g.(totals := Account(g.totals, p, false, Failed)))
    case Some(job) =>
      if !Completes(list, g.table, job, acts) then None
      else
        var c := Result(list, g.table, job, acts);
        Some(Progress(c.table, Account(g.totals, p, true, c.local), g.turns + [Turn(job, acts)]))
  }

  /** The whole run: nothing at all when it aborts. */
  ghost function RunAll(list: Lister, s: Setup, orgs: seq<OrgInput>, acts: seq<seq<Action>>, t: Table): Option<Progress>
    requires IsLister(list)
  {
    var ps := Phase1(orgs);
    if Aborts(s, ps) then Some(Progress(t, NoTotals, []))
    else if |acts| != |ps| then None
    else Phase2(list, s, ps, acts, t)
  }

  /* The code */

  method ResolveAll(orgs: seq<OrgInput>) returns (pending: seq<Pending>, resolvedEmpty: nat)
    ensures pending == Phase1(orgs) && resolvedEmpty == EmptyCount(pending)
  {
    hide PendingUsers, EmptyCount;
    pending, resolvedEmpty := [], 0;
    EmptyCountAppend([], []);
    for i := 0 to |orgs|
      invariant pending == Phase1(orgs[..i]) && resolvedEmpty == EmptyCount(pending)
    {
      assert orgs[..i + 1][..i] == orgs[..i];
      var o := orgs[i];
      if o.config.None? || |o.config.value.rules| == 0 {
        continue;
      }
      if o.listing.None? {
        continue;
      }
      var more, empty := ResolveOrg(o.id, o.config.value.rules, o.listing.value);
      EmptyCountAppend(pending, more);
      pending := pending + more;
      resolvedEmpty := resolvedEmpty + empty;
    }
    assert orgs[..|orgs|] == orgs;
  }

  method ResolveOrg(org: string, rules: seq<Rule>, users: seq<(UserInfo, Option<UserGroups>)>)
    returns (pending: seq<Pending>, resolvedEmpty: nat)
    ensures pending == PendingUsers(org, rules, users) && resolvedEmpty == EmptyCount(pending)
  {
    pending, resolvedEmpty := [], 0;
    for i := 0 to |users|
      invariant pending == PendingUsers(org, rules, users[..i]) && resolvedEmpty == EmptyCount(pending)
    {
      assert users[..i + 1][..i] == users[..i];
      var (u, answer) := users[i];
      if '@' !in u.email {
        continue;
      }
      if answer.None? {
        continue;
      }
      var ug := answer.value;
      if |ug.groups| == 0 && !ug.suspended {
        resolvedEmpty := resolvedEmpty + 1;
      }
      assert (pending + [Pending(org, rules, u, ug.groups, ug.suspended)])[..|pending|] == pending;
      pending := pending + [Pending(org, rules, u, ug.groups, ug.suspended)];
    }
    assert users[..|users|] == users;
  }

  lemma {:induction false} EmptyCountAppend(a: seq<Pending>, b: seq<Pending>)
    ensures EmptyCount(a + b) == EmptyCount(a) + EmptyCount(b)
    ensures EmptyCount([]) == 0
  {
    if b == [] {
      assert a + b == a;
    } else {
      assert (a + b)[..|a + b| - 1] == a + b[..|b| - 1];
      EmptyCountAppend(a, b[..|b| - 1]);
    }
  }

  /** `All`. An aborted run returns zero counters and has written nothing. */
  method All(syncer: Syncer, s: Setup, orgs: seq<OrgInput>) returns (result: Totals, aborted: bool, ghost acts: seq<seq<Action>>)
    requires IsLister(syncer.api.list)
    modifies syncer.api`table
    ensures aborted <==>
      var ps := Phase1(orgs);
      !s.force && |ps| > 0 && |EmptyPositions(ps)| as real > s.maxEmptyRatio * |ps| as real
    ensures !aborted ==>
      |acts| == |Phase1(orgs)| && Phase2(syncer.api.list, s, Phase1(orgs), acts, old(syncer.api.table)).Some?
    ensures var run := RunAll(syncer.api.list, s, orgs, acts, old(syncer.api.table));
      run.Some? && run.value.table == syncer.api.table && run.value.totals == result
  {
    hide IsLister, JobOf, Completes, Phase1, EmptyCount, EmptyPositions;
    AbortsExactly(s, Phase1(orgs));
    var pending, resolvedEmpty := ResolveAll(orgs);
    if !s.force && |pending| > 0 {
      var ratio := resolvedEmpty as real / |pending| as real;
      if ratio > s.maxEmptyRatio {
        return NoTotals, true, [];
      }
    }
    aborted := false;
    result, acts := ReconcileAll(syncer, s, pending);
  }

  method ReconcileAll(syncer: Syncer, s: Setup, pending: seq<Pending>) returns (result: Totals, ghost acts: seq<seq<Action>>)
    requires IsLister(syncer.api.list)
    modifies syncer.api`table
    ensures |acts| == |pending|
    ensures var run := Phase2(syncer.api.list, s, pending, acts, old(syncer.api.table));
      run.Some? && run.value.table == syncer.api.table && run.value.totals == result
  {
    hide IsLister, JobOf, Completes;
    result, acts := NoTotals, [];
    ghost var g := Progress(syncer.api.table, NoTotals, []);
    for i := 0 to |pending|
      invariant |acts| == i && g.table == syncer.api.table && g.totals == result
      invariant Phase2(syncer.api.list, s, pending[..i], acts, old(syncer.api.table)) == Some(g)
    {
      ghost var calls: seq<Action>;
      ghost var before := g;
      result, calls := ReconcileUser(syncer, s, i, pending[i], result, before);
      g := Reconcile(syncer.api.list, s, i, pending[i], calls, before).value;
      assert pending[..i + 1][..i] == pending[..i] && (acts + [calls])[..i] == acts;
      acts := acts + [calls];
    }
    assert pending[..|pending|] == pending;
  }

  /** The loop body: prune a suspended account, skip an unreachable one, sync the rest. */
  method ReconcileUser(syncer: Syncer, s: Setup, n: nat, p: Pending, soFar: Totals, ghost g: Progress)
    returns (result: Totals, ghost calls: seq<Action>)
    requires IsLister(syncer.api.list) && g.table == syncer.api.table && g.totals == soFar
    modifies syncer.api`table
    ensures var next := Reconcile(syncer.api.list, s, n, p, calls, g);
      next.Some? && next.value.table == syncer.api.table && next.value.totals == result
  {
    hide IsLister, Completes, Clean, Unique, Others, DesiredFor;
    result, calls := soFar, [];
    var res: Option<Counts>;
    if p.suspended {
      res, calls := syncer.Sync(p.org, p.user.id, []);
      if res.None? {
        result := result.(failed := result.failed + 1);
        return;
      }
      result := result.(suspendedPruned := result.suspendedPruned + 1, removed := result.removed + res.value.removed);
      return;
    }
    if |p.groups| == 0 && !s.force && !RulesNameUser(s.lib, p.rules, p.user.email) {
      result := result.(skippedEmpty := result.skippedEmpty + 1);
      return;
    }
    var desired := DesiredGrants(s.lib, s.catalog(n), Subject(p.rules, p.user.email, p.groups, s.protected));
    res, calls := syncer.Sync(p.org, p.user.id, desired);
    if res.None? {
      result := result.(failed := result.failed + 1);
      return;
    }
    result := result.(processed := result.processed + 1, added := result.added + res.value.added,
                      updated := result.updated + res.value.updated, removed := result.removed + res.value.removed);
  }
}
