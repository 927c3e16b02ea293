/** Safety of whole histories: any sequence of logins and batch runs. */
module Runs {
  import opened AnyStore
  import opened Batch
  import opened BatchLaws
  import opened Entitlement
  import opened Mapper
  import opened Outcomes
  import opened Paging
  import opened Planner
  import opened Serialisability
  import opened Store
  import opened SyncMachine
  import opened UserLocks
  import opened Webhook
  import opened Wrappers

  /** Something that happened to the service, with everything it did not control. */
  datatype Event =
    | LoginEvent(login: Login, calls: seq<Action>)
    | BatchEvent(setup: Setup, orgs: seq<OrgInput>, runs: seq<seq<Action>>)

  /** What all events share: the rule engine's library, the protected roles and the server's listing order. */
  datatype Service = Service(lib: Lib, protected: seq<string>, list: Lister)

  /** The Syncs an event ran, in order, from the grants it found; None when the event's calls are not a run of the code. */
  ghost function TurnsIn(v: Service, e: Event, t: Table): Option<seq<Turn>>
    requires IsLister(v.list)
  {
    match e
    case LoginEvent(l, calls) =>
      (match LoginJob(v.lib, v.protected, l)
       case None => Some([])
       case Some(job) => if Completes(v.list, t, job, calls) then Some([Turn(job, calls)]) else None)
    case BatchEvent(s, orgs, runs) =>
      if s.lib != v.lib || s.protected != v.protected then None
      else
        match RunAll(v.list, s, orgs, runs, t)
        case None => None
        case Some(run) => Some(run.turns)
  }

  ghost function Next(v: Service, e: Event, t: Table): Option<Table>
    requires IsLister(v.list)
  {
    match TurnsIn(v, e, t)
    case None => None
    case Some(turns) => Serial(v.list, t, turns)
  }

  /** The grants after a history of events. */
  ghost function History(v: Service, t: Table, es: seq<Event>): Option<Table>
    requires IsLister(v.list)
  {
    if es == [] then Some(t)
    else
      match History(v, t, es[..|es| - 1])
      case None => None
      case Some(before) => Next(v, es[|es| - 1], before)
  }

  lemma NoTurn(list: Lister, t: Table)
    requires IsLister(list)
    ensures Serial(list, t, []) == Some(t)
  {
  }

  lemma OneTurn(list: Lister, t: Table, turn: Turn)
    requires IsLister(list) && Completes(list, t, turn.job, turn.acts)
    ensures Serial(list, t, [turn]) == Some(Result(list, t, turn.job, turn.acts).table)
  {
    hide IsLister, Completes, Result;
    assert [turn][..0] == [];
  }

  /** An event as the code runs it is what `HandleLogin` and `All` do to the grants. */
  lemma EventsAreTheCode(v: Service, e: Event, t: Table)
    requires IsLister(v.list)
    ensures e.LoginEvent? && LoginJob(v.lib, v.protected, e.login).Some?
            && Completes(v.list, t, LoginJob(v.lib, v.protected, e.login).value, e.calls) ==>
      Next(v, e, t) == Some(Result(v.list, t, LoginJob(v.lib, v.protected, e.login).value, e.calls).table)
    ensures e.LoginEvent? && LoginJob(v.lib, v.protected, e.login).None? ==> Next(v, e, t) == Some(t)
    ensures e.BatchEvent? && e.setup.lib == v.lib && e.setup.protected == v.protected
            && RunAll(v.list, e.setup, e.orgs, e.runs, t).Some? ==>
      Next(v, e, t) == Some(RunAll(v.list, e.setup, e.orgs, e.runs, t).value.table)
  {
    hide IsLister, LoginJob, Completes, Result, Phase2, Serial;
    NoTurn(v.list, t);
    match e
    case LoginEvent(l, calls) =>
      var job := LoginJob(v.lib, v.protected, l);
      if job.Some? && Completes(v.list, t, job.value, calls) {
        OneTurn(v.list, t, Turn(job.value, calls));
      }
    case BatchEvent(s, orgs, runs) =>
      if RunAll(v.list, s, orgs, runs, t).Some? && !Aborts(s, Phase1(orgs)) {
        Phase2IsSerial(v.list, s, Phase1(orgs), runs, t);
      }
  }

  /* Who may change whose grants */

  /**
   * A user's line in a batch run gives authority in an org with rules when the directory answered and
   * the answer is not empty, or a rule names the user, or the operator forces the run.
   */
  predicate LineAuthority(lib: Lib, force: bool, o: OrgInput, u: (UserInfo, Option<UserGroups>)) {
    && o.config.Some? && |o.config.value.rules| > 0
    && u.1.Some?
    && (u.1.value.suspended || |u.1.value.groups| > 0 || RulesNameUser(lib, o.config.value.rules, u.0.email) || force)
  }

  /**
   * Authority over one user's grants in one org, read off the event's inputs alone: the org is
   * configured with rules, and in this very event the directory reported the user suspended or gave
   * a non-empty group list, or a rule names the email. In a batch run the directory must have
   * answered, and a forced run takes any answer, an empty one too.
   */
  ghost predicate Authority(lib: Lib, e: Event, org: string, user: string) {
    match e
    case LoginEvent(l, _) => l.org == org && l.user == user && LoginAuthority(lib, l)
    case BatchEvent(s, orgs, _) =>
      exists o, u :: o in orgs && o.id == org && o.listing.Some? && u in o.listing.value && u.0.id == user
                  && LineAuthority(lib, s.force, o, u)
  }

  lemma {:induction false} PendingComesFromLine(org: string, rules: seq<Rule>, users: seq<(UserInfo, Option<UserGroups>)>, p: Pending)
    requires p in PendingUsers(org, rules, users)
    ensures p.org == org && p.rules == rules
    ensures exists u :: u in users && u.0 == p.user && u.1 == Some(UserGroups(p.groups, p.suspended))
  {
    var n := |users| - 1;
    assert users == users[..n] + [users[n]];
    if p in PendingUsers(org, rules, users[..n]) {
      PendingComesFromLine(org, rules, users[..n], p);
    } else {
      assert users[n] in users;
    }
  }

  lemma {:induction false} PendingComesFromOrg(orgs: seq<OrgInput>, p: Pending)
    requires p in Phase1(orgs)
    ensures exists o :: o in orgs && p in PendingOf(o)
  {
    hide PendingOf;
    var n := |orgs| - 1;
    if p in Phase1(orgs[..n]) {
      PendingComesFromOrg(orgs[..n], p);
    } else {
      assert orgs[n] in orgs;
    }
  }

  /** The event calls for this Sync: the login's own, or the one of some pending user of a run that is not aborted. */
  ghost predicate Issues(v: Service, e: Event, job: Job) {
    match e
    case LoginEvent(l, _) => LoginJob(v.lib, v.protected, l) == Some(job)
    case BatchEvent(s, orgs, _) =>
      && s.lib == v.lib && s.protected == v.protected && !Aborts(s, Phase1(orgs))
      && exists n :: 0 <= n < |Phase1(orgs)| && JobOf(s, n, Phase1(orgs)[n]) == Some(job)
  }

  lemma TurnsAreIssued(v: Service, e: Event, t: Table, turn: Turn)
    requires IsLister(v.list) && TurnsIn(v, e, t).Some? && turn in TurnsIn(v, e, t).value
    ensures Issues(v, e, turn.job)
  {
    hide IsLister, LoginJob, JobOf, Phase1, Phase2, Completes, EmptyCount;
    match e
    case LoginEvent(_, _) =>
    case BatchEvent(s, orgs, runs) =>
      Phase2IsSerial(v.list, s, Phase1(orgs), runs, t);
  }

  /** A batch run syncs a pending user only on authority. */
  lemma PendingHasAuthority(v: Service, e: Event, n: nat, p: Pending)
    requires e.BatchEvent? && e.setup.lib == v.lib && p in Phase1(e.orgs)
    requires JobOf(e.setup, n, p).Some?
    ensures Authority(v.lib, e, p.org, p.user.id)
  {
    hide DesiredFor, PendingUsers, Phase1;
    PendingComesFromOrg(e.orgs, p);
    var o :| o in e.orgs && p in PendingOf(o);
    PendingComesFromLine(o.id, o.config.value.rules, o.listing.value, p);
    var u :| u in o.listing.value && u.0 == p.user && u.1 == Some(UserGroups(p.groups, p.suspended));
    assert LineAuthority(v.lib, e.setup.force, o, u);
  }

  lemma IssuedHasAuthority(v: Service, e: Event, job: Job)
    requires Issues(v, e, job)
    ensures Authority(v.lib, e, job.org, job.user)
  {
    hide LoginJob, JobOf, Phase1, Authority, Aborts;
    match e
    case LoginEvent(l, _) =>
      LoginIssues(v, e, job);
    case BatchEvent(s, orgs, _) =>
      var n :| 0 <= n < |Phase1(orgs)| && JobOf(s, n, Phase1(orgs)[n]) == Some(job);
      JobIsFor(s, n, Phase1(orgs)[n]);
      PendingHasAuthority(v, e, n, Phase1(orgs)[n]);
  }

  lemma LoginIssues(v: Service, e: Event, job: Job)
    requires e.LoginEvent? && Issues(v, e, job)
    ensures Authority(v.lib, e, job.org, job.user)
    ensures var c := Cause(e.login.syncCatalog, PersonOf(e.login, v.protected), Suspended(e.login));
      IsPerson(e.login) && CauseIn(v, e, job, c) && PlannedFor(v, job, c)
  {
    PersonIsSubject(e.login, v.protected);
    hide DesiredFor, RulesNameUser;
    GateIsAuthority(v.lib, v.protected, e.login);
  }

  lemma {:induction false} SerialFrame(list: Lister, t: Table, turns: seq<Turn>, org: string, user: string)
    requires IsLister(list) && Serial(list, t, turns).Some?
    requires forall u :: u in turns ==> u.job.org != org || u.job.user != user
    ensures Slice(Serial(list, t, turns).value, org, user) == Slice(t, org, user)
  {
    hide IsLister, Exec, Slice, Others, Unique, View;
    if turns != [] {
      var last := turns[|turns| - 1];
      var rest := turns[..|turns| - 1];
      var base := Serial(list, t, rest).value;
      assert forall u :: u in rest ==> u in turns;
      assert last in turns;
      SerialFrame(list, t, rest, org, user);
      ExecFrame(list, base, last.job, last.acts);
      ViewOfOthers(base, Exec(list, base, last.job, last.acts).value.table, last.job.org, last.job.user, org, user);
    }
  }

  /** One event changes a user's grants in an org only on authority for that user in that org. */
  lemma EventNeedsAuthority(v: Service, e: Event, t: Table, org: string, user: string)
    requires IsLister(v.list) && Next(v, e, t).Some?
    requires !Authority(v.lib, e, org, user)
    ensures Slice(Next(v, e, t).value, org, user) == Slice(t, org, user)
  {
    hide IsLister, TurnsIn, Authority, Serial, Slice, Issues;
    var turns := TurnsIn(v, e, t).value;
    forall u | u in turns ensures u.job.org != org || u.job.user != user {
      TurnsAreIssued(v, e, t, u);
      IssuedHasAuthority(v, e, u.job);
    }
    SerialFrame(v.list, t, turns, org, user);
  }

  /**
   * Prune authority over whole histories. Across any logins and batch runs, with arbitrary
   * resolver errors, empty answers and API failures, a user's grants in an org are at the end
   * exactly what they were at the start unless some event had authority over them.
   */
  lemma {:induction false} GrantsChangeOnlyOnAuthority(v: Service, t: Table, es: seq<Event>, org: string, user: string)
    requires IsLister(v.list) && History(v, t, es).Some?
    requires forall e :: e in es ==> !Authority(v.lib, e, org, user)
    ensures Slice(History(v, t, es).value, org, user) == Slice(t, org, user)
  {
    hide IsLister, Authority, Slice, Next;
    if es != [] {
      var rest := es[..|es| - 1];
      assert forall e :: e in rest ==> e in es;
      assert es[|es| - 1] in es;
      GrantsChangeOnlyOnAuthority(v, t, rest, org, user);
      EventNeedsAuthority(v, es[|es| - 1], History(v, t, rest).value, org, user);
    }
  }

  /** Every turn of the interleaving is a Sync one of the events calls for. */
  ghost predicate Drawn(v: Service, es: seq<Event>, w: World) {
    forall user, turn :: turn in TurnsOf(w, user) ==> exists e :: e in es && Issues(v, e, turn.job)
  }

  lemma WhoIssued(v: Service, es: seq<Event>, w: World, user: string, turn: Turn) returns (e: Event)
    requires Drawn(v, es, w) && turn in TurnsOf(w, user)
    ensures e in es && Issues(v, e, turn.job)
  {
    hide Issues, TurnsOf;
    e :| e in es && Issues(v, e, turn.job);
  }

  /**
   * Prune authority under concurrency. Interleave the Syncs of any logins and batch runs at
   * single API calls, finished or not: at every moment a user's grants in an org are exactly the
   * initial ones unless some event had authority over them.
   */
  lemma ConcurrentAuthority(v: Service, t0: Table, es: seq<Event>, steps: seq<Step>, org: string, user: string)
    requires IsLister(v.list) && Run(v.list, t0, steps).Some? && Drawn(v, es, Run(v.list, t0, steps).value)
    requires forall e :: e in es ==> !Authority(v.lib, e, org, user)
    ensures Slice(Run(v.list, t0, steps).value.table, org, user) == Slice(t0, org, user)
  {
    hide IsLister, Authority, Slice, Issues, Run, TurnsOf, Serial, Of, LocksInv, Exec, Others, Unique, View;
    var w := Run(v.list, t0, steps).value;
    var turns := TurnsOf(w, user);
    forall u | u in turns ensures u.job.org != org || u.job.user != user {
      var e := WhoIssued(v, es, w, user, u);
      IssuedHasAuthority(v, e, u.job);
    }
    RunInv(v.list, t0, steps);
    assert UserInv(v.list, t0, w, user);
    SliceOf(t0, org, user);
    SliceOf(w.table, org, user);
    if !Busy(w, user) {
      SerialFrame(v.list, Of(t0, user), turns, org, user);
    } else {
      var n := |turns| - 1;
      var last, base := turns[n], Serial(v.list, Of(t0, user), turns[..n]).value;
      assert last in turns;
      SerialFrame(v.list, Of(t0, user), turns[..n], org, user);
      ExecFrame(v.list, base, last.job, last.acts);
      ViewOfOthers(base, Of(w.table, user), last.job.org, last.job.user, org, user);
    }
  }

  /** The org is not configured, or configured without rules, wherever the event mentions it. */
  ghost predicate WithoutRules(e: Event, org: string) {
    match e
    case LoginEvent(l, _) => l.org == org ==> Configured(l).None? || |Configured(l).value.rules| == 0
    case BatchEvent(_, orgs, _) =>
      forall o :: o in orgs && o.id == org ==> o.config.None? || |o.config.value.rules| == 0
  }

  /** Grants in an unconfigured org or one without rules never change, even in forced runs. */
  lemma NoRulesNoChange(v: Service, t: Table, es: seq<Event>, org: string, user: string)
    requires IsLister(v.list) && History(v, t, es).Some?
    requires forall e :: e in es ==> WithoutRules(e, org)
    ensures Slice(History(v, t, es).value, org, user) == Slice(t, org, user)
  {
    hide IsLister, Slice, Next, History;
    forall e | e in es ensures !Authority(v.lib, e, org, user) {
    }
    GrantsChangeOnlyOnAuthority(v, t, es, org, user);
  }

  /** The same at every moment of every interleaving. */
  lemma ConcurrentNoRules(v: Service, t0: Table, es: seq<Event>, steps: seq<Step>, org: string, user: string)
    requires IsLister(v.list) && Run(v.list, t0, steps).Some? && Drawn(v, es, Run(v.list, t0, steps).value)
    requires forall e :: e in es ==> WithoutRules(e, org)
    ensures Slice(Run(v.list, t0, steps).value.table, org, user) == Slice(t0, org, user)
  {
    hide IsLister, Slice, Run, Drawn;
    forall e | e in es ensures !Authority(v.lib, e, org, user) {
    }
    ConcurrentAuthority(v, t0, es, steps, org, user);
  }

  /* Write discipline */

  /** Whom a Sync was for, as the rules see the user, and why: to prune a suspended account or to plan. */
  datatype Cause = Cause(cat: Option<Answers>, subject: Subject, prune: bool)

  /** A Sync that prunes wants nothing, any other wants the plan. */
  ghost predicate PlannedFor(v: Service, job: Job, c: Cause) {
    job.desired == if c.prune then [] else DesiredFor(v.lib, c.cat, c.subject)
  }

  /** Exactly the roles the user is entitled to on the project, and at least one. */
  ghost predicate ExactRoles(v: Service, c: Cause, project: string, roles: seq<string>) {
    roles != [] && forall k :: k in roles <==> Entitled(v.lib, c.cat, c.subject, project, k)
  }

  /**
   * A write as it should be. An added grant is this user's, has exactly the entitled roles and the
   * catalog's project grant; an updated one gets exactly the entitled roles; a removed one is on a project
   * without entitlement, unless a suspended account is pruned, for which there are only removals.
   */
  ghost predicate Disciplined(v: Service, job: Job, c: Cause, t0: Table, w: Write) {
    match w
    case Add(_, r) =>
      !c.prune && Owned(r, job.org, job.user) && ExactRoles(v, c, r.project, r.roles)
      && r.projectGrantId == GrantIdOf(c.cat, r.project)
    case Update(id, roles) =>
      !c.prune && id in t0 && Owned(t0[id], job.org, job.user) && ExactRoles(v, c, t0[id].project, roles)
    case Remove(id) =>
      id in t0 && Owned(t0[id], job.org, job.user)
      && (c.prune || forall k :: !Entitled(v.lib, c.cat, c.subject, t0[id].project, k))
  }

  lemma WantedIsExact(v: Service, job: Job, c: Cause, project: string)
    requires PlannedFor(v, job, c)
    ensures var want := WantOf(job.desired);
      && (project in want ==>
            !c.prune && ExactRoles(v, c, project, want[project].roles)
            && want[project].projectGrantId == GrantIdOf(c.cat, project))
      && (project !in want ==> c.prune || forall k :: !Entitled(v.lib, c.cat, c.subject, project, k))
  {
    hide DesiredFor, Entitled, GrantIdOf;
    var want := WantOf(job.desired);
    if !c.prune {
      hide WantOf;
      WantedExactly(v.lib, c.cat, c.subject, project);
      if project in want {
        PlannedGrantExactly(v.lib, c.cat, c.subject, want[project]);
      }
    }
  }

  lemma SyncIsDisciplined(v: Service, t: Table, job: Job, acts: seq<Action>, c: Cause, w: Write)
    requires IsLister(v.list) && Exec(v.list, t, job, acts).Some? && PlannedFor(v, job, c)
    requires w in Exec(v.list, t, job, acts).value.log
    ensures Disciplined(v, job, c, t, w)
  {
    hide IsLister, Exec, PlannedFor, ExactRoles, Entitled, WantOf, GrantIdOf;
    WritesAreWanted(v.list, t, job, acts);
    assert WriteWanted(t, job, WantOf(job.desired), w);
    match w
    case Add(_, r) => WantedIsExact(v, job, c, r.project);
    case Update(id, _) => WantedIsExact(v, job, c, t[id].project);
    case Remove(id) => WantedIsExact(v, job, c, t[id].project);
  }

  /** What the event says about a Sync for this user in this org. */
  ghost predicate CauseIn(v: Service, e: Event, job: Job, c: Cause) {
    match e
    case LoginEvent(l, _) =>
      && l.org == job.org && l.user == job.user && IsPerson(l)
      && c == Cause(l.syncCatalog, PersonOf(l, v.protected), Suspended(l))
    case BatchEvent(setup, orgs, _) =>
      exists o, u, n :: o in orgs && o.id == job.org && o.listing.Some? && u in o.listing.value && IsKept(o, u)
        && u.0.id == job.user && c == BatchCause(v, setup, o, u, n)
  }

  /** A user's line in a batch run, with the catalog's answers for the n-th Sync. */
  function BatchCause(v: Service, setup: Setup, o: OrgInput, u: (UserInfo, Option<UserGroups>), n: nat): Cause
    requires o.config.Some? && u.1.Some?
  {
    Cause(setup.catalog(n), Subject(o.config.value.rules, u.0.email, u.1.value.groups, v.protected), u.1.value.suspended)
  }

  lemma PendingCause(v: Service, e: Event, n: nat, p: Pending)
    requires e.BatchEvent? && e.setup.lib == v.lib && e.setup.protected == v.protected && p in Phase1(e.orgs)
    requires JobOf(e.setup, n, p).Some?
    ensures var c := Cause(e.setup.catalog(n), Subject(p.rules, p.user.email, p.groups, v.protected), p.suspended);
      CauseIn(v, e, JobOf(e.setup, n, p).value, c) && PlannedFor(v, JobOf(e.setup, n, p).value, c)
  {
    hide DesiredFor, Phase1, RulesNameUser;
    PendingExactly(e.orgs, p);
    var o, u :| o in e.orgs && o.listing.Some? && u in o.listing.value && IsKept(o, u)
      && p == Pending(o.id, o.config.value.rules, u.0, u.1.value.groups, u.1.value.suspended);
    assert Cause(e.setup.catalog(n), Subject(p.rules, p.user.email, p.groups, v.protected), p.suspended)
        == BatchCause(v, e.setup, o, u, n);
  }

  lemma IssuedCause(v: Service, e: Event, job: Job) returns (c: Cause)
    requires Issues(v, e, job)
    ensures CauseIn(v, e, job, c) && PlannedFor(v, job, c)
  {
    hide LoginJob, JobOf, Phase1, DesiredFor, CauseIn, PlannedFor, Aborts;
    match e
    case LoginEvent(l, _) =>
      LoginIssues(v, e, job);
      c := Cause(l.syncCatalog, PersonOf(l, v.protected), Suspended(l));
    case BatchEvent(setup, orgs, _) =>
      var n :| 0 <= n < |Phase1(orgs)| && JobOf(setup, n, Phase1(orgs)[n]) == Some(job);
      var p := Phase1(orgs)[n];
      PendingCause(v, e, n, p);
      c := Cause(setup.catalog(n), Subject(p.rules, p.user.email, p.groups, v.protected), p.suspended);
  }

  /** Each write of this run of a Sync is as the event calls for. */
  ghost predicate DisciplinedRun(v: Service, e: Event, found: Table, turn: Turn)
    requires IsLister(v.list)
  {
    var run := Exec(v.list, found, turn.job, turn.acts);
    && run.Some?
    && exists c :: CauseIn(v, e, turn.job, c) && forall w :: w in run.value.log ==> Disciplined(v, turn.job, c, found, w)
  }

  lemma IssuedRunIsDisciplined(v: Service, e: Event, found: Table, turn: Turn)
    requires IsLister(v.list) && Issues(v, e, turn.job)
    requires Exec(v.list, found, turn.job, turn.acts).Some?
    ensures DisciplinedRun(v, e, found, turn)
  {
    hide IsLister, Issues, Exec, CauseIn, Disciplined, PlannedFor;
    var c := IssuedCause(v, e, turn.job);
    forall w | w in Exec(v.list, found, turn.job, turn.acts).value.log ensures Disciplined(v, turn.job, c, found, w) {
      SyncIsDisciplined(v, found, turn.job, turn.acts, c, w);
    }
  }

  /**
   * Write discipline over whole histories. Take any login or batch run (forced ones too) anywhere in
   * a history over any store, and any write any of its Syncs made: an added or updated grant gets exactly
   * the roles the org's rules entitle that user to on that project, a protected one only if a matching
   * rule lists it, and a grant goes only where there is no entitlement or the account is suspended.
   */
  lemma WritesAreDisciplined(v: Service, t: Table, es: seq<Event>, e: Event, i: nat)
    requires IsLister(v.list) && History(v, t, es).Some?
    requires TurnsIn(v, e, History(v, t, es).value).Some? && i < |TurnsIn(v, e, History(v, t, es).value).value|
    requires Next(v, e, History(v, t, es).value).Some?
    ensures var before := History(v, t, es).value;
      var turns := TurnsIn(v, e, before).value;
      && Serial(v.list, before, turns[..i]).Some?
      && DisciplinedRun(v, e, Serial(v.list, before, turns[..i]).value, turns[i])
  {
    hide IsLister, TurnsIn, Serial, Exec, DisciplinedRun, History, Issues;
    var before := History(v, t, es).value;
    var turns := TurnsIn(v, e, before).value;
    EveryTurnRan(v.list, before, turns, i);
    TurnsAreIssued(v, e, before, turns[i]);
    IssuedRunIsDisciplined(v, e, Serial(v.list, before, turns[..i]).value, turns[i]);
  }

  /** The same for every turn, finished or not, of every interleaving of the events' Syncs. */
  lemma ConcurrentDiscipline(v: Service, t0: Table, es: seq<Event>, steps: seq<Step>, user: string, i: nat)
    requires IsLister(v.list) && Run(v.list, t0, steps).Some?
    requires Drawn(v, es, Run(v.list, t0, steps).value) && i < |TurnsOf(Run(v.list, t0, steps).value, user)|
    ensures var turns := TurnsOf(Run(v.list, t0, steps).value, user);
      && Serial(v.list, Of(t0, user), turns[..i]).Some?
      && exists e :: e in es && DisciplinedRun(v, e, Serial(v.list, Of(t0, user), turns[..i]).value, turns[i])
  {
    hide IsLister, Run, Serial, Exec, DisciplinedRun, Issues, TurnsOf, Of;
    var turns := TurnsOf(Run(v.list, t0, steps).value, user);
    assert turns[i] in turns;
    EveryTurnRunning(v.list, t0, steps, user, i);
    var found := Serial(v.list, Of(t0, user), turns[..i]).value;
    var e := WhoIssued(v, es, Run(v.list, t0, steps).value, user, turns[i]);
    IssuedRunIsDisciplined(v, e, found, turns[i]);
  }

  /** A history keeps at most one grant per org, user and project. */
  lemma {:induction false} HistoryAtMostOne(v: Service, t: Table, es: seq<Event>)
    requires IsLister(v.list) && AtMostOne(t) && History(v, t, es).Some?
    ensures AtMostOne(History(v, t, es).value)
  {
    hide IsLister, AtMostOne, TurnsIn, Serial;
    if es != [] {
      var rest := es[..|es| - 1];
      HistoryAtMostOne(v, t, rest);
      var before := History(v, t, rest).value;
      SerialAtMostOne(v.list, before, TurnsIn(v, es[|es| - 1], before).value);
    }
  }
}
