/** What logins and batch runs come to, in terms of what they were given and nothing else. */
module Outcomes {
  import opened Batch
  import opened BatchLaws
  import opened Entitlement
  import opened Mapper
  import opened Paging
  import opened Planner
  import opened Store
  import opened Strings
  import opened SyncMachine
  import opened SyncTheorems
  import opened Webhook
  import opened Wrappers

  /* Logins */

  /** The address a login is about: the human's email, or the user name when there is none. */
  function AddressOf(l: Login): string {
    match l.humanEmail
    case Some(email) => if |email| > 0 then email else l.username
    case None => l.username
  }

  /** A login of a person in a configured org with a resolver. */
  predicate IsPerson(l: Login) {
    |l.org| > 0 && l.config.Some? && '@' in AddressOf(l) && |l.config.value.resolverUrl| > 0
  }

  /** The directory reported the account suspended. */
  predicate Suspended(l: Login) {
    l.resolution.Some? && l.resolution.value.suspended
  }

  /** The user as the rules see it; without an answer of the directory there are no groups. */
  function PersonOf(l: Login, protected: seq<string>): Subject
    requires l.config.Some?
  {
    Subject(l.config.value.rules, AddressOf(l), if l.resolution.Some? then l.resolution.value.groups else [], protected)
  }

  ghost predicate Named(lib: Lib, rules: seq<Rule>, email: string) {
    exists r, u :: r in rules && u in r.users && lib.fold(u) == lib.fold(email)
  }

  lemma PersonIsSubject(l: Login, protected: seq<string>)
    ensures IsPerson(l) <==> ReachesResolver(l)
    ensures IsPerson(l) ==> l.config == Configured(l) && SubjectOf(l, protected) == PersonOf(l, protected)
    ensures l.Email() == AddressOf(l) && (Suspended(l) <==> Resolved(l).suspended)
  {
  }

  /**
   * Exactly when a login runs a Sync, and for whom: for a person with a user id in an org with rules, of
   * whom the directory reported the account suspended or gave groups, or whom a rule names.
   */
  lemma LoginSyncsExactly(lib: Lib, protected: seq<string>, l: Login)
    ensures LoginJob(lib, protected, l).Some? <==>
      && IsPerson(l) && |l.user| > 0 && |l.config.value.rules| > 0
      && (Suspended(l)
          || (l.resolution.Some? && |l.resolution.value.groups| > 0)
          || Named(lib, l.config.value.rules, AddressOf(l)))
    ensures LoginJob(lib, protected, l).Some? ==>
      LoginJob(lib, protected, l).value.org == l.org && LoginJob(lib, protected, l).value.user == l.user
  {
    hide DesiredFor;
    PersonIsSubject(l, protected);
  }

  /**
   * What a login leaves. When its Sync returns from unique grants, a suspended user holds nothing in the
   * org, and everyone else exactly what the org's rules entitle the address and groups to.
   */
  lemma LoginOutcome(lib: Lib, protected: seq<string>, l: Login, list: Lister, t: Table, acts: seq<Action>)
    requires IsLister(list) && Unique(t, l.org, l.user) && LoginJob(lib, protected, l).Some?
    requires Returns(list, t, LoginJob(lib, protected, l).value, acts)
    ensures var n := Exec(list, t, LoginJob(lib, protected, l).value, acts).value.table;
      && Unique(n, l.org, l.user) && Others(n, l.org, l.user) == Others(t, l.org, l.user)
      && IsPerson(l)
      && if Suspended(l) then View(n, l.org, l.user) == map[]
         else Gives(lib, l.syncCatalog, PersonOf(l, protected), View(t, l.org, l.user), View(n, l.org, l.user))
  {
    PersonIsSubject(l, protected);
    hide IsLister, Unique, View, Exec, DesiredFor, WantOf, Final, Gives, Others, Clean;
    var job := LoginJob(lib, protected, l).value;
    LoginSyncsExactly(lib, protected, l);
    Convergence(list, t, job, acts);
    ReturnedView(list, t, job, acts);
    if Suspended(l) {
      NothingWanted(View(t, l.org, l.user));
    } else {
      FinalIsEntitlement(lib, l.syncCatalog, PersonOf(l, protected), View(t, l.org, l.user));
    }
  }

  lemma NothingWanted(before: ByProject)
    ensures Final(before, WantOf([])) == map[]
  {
  }

  /** An entry the token's claim gets from the rules: name:role for an entitled role of a project the catalog can name. */
  ghost predicate RoleEntry(lib: Lib, cat: Option<Answers>, s: Subject, x: string) {
    cat.Some?
    && exists p, k :: Entitled(lib, cat, s, p, k) && cat.value(p).Some?
                      && cat.value(p).value.name != "" && x == cat.value(p).value.name + ":" + k
  }

  /** A machine user in scope of its org's enrichment. */
  predicate IsMachine(l: Login) {
    && |l.org| > 0 && l.config.Some? && '@' !in AddressOf(l) && |l.username| > 0
    && l.config.value.machineUsers.Some? && l.config.value.machineUsers.value.inScope(l.username)
  }

  /**
   * What a login answers. A machine user in scope gets the synthetic email and the entries of its grants;
   * a person who is not suspended gets the groups, unless only roles are asked for, and, if roles are
   * asked for, the payload's entries and one for each entitled role, and the employee entry; everyone
   * else gets nothing.
   */
  lemma AnswerExactly(lib: Lib, protected: seq<string>, l: Login, answer: Answer)
    requires Webhook.Answers(lib, protected, l, answer)
    ensures IsMachine(l) ==>
      && answer.email == Some(l.username + "@" + l.config.value.machineUsers.value.emailDomain)
      && Sorted(answer.groups)
      && (l.payloadEntries != [] ==> multiset(answer.groups) == multiset(l.payloadEntries))
      && (l.payloadEntries == [] && l.apiEntries.Some? ==> multiset(answer.groups) == multiset(l.apiEntries.value))
      && (l.payloadEntries == [] && l.apiEntries.None? ==> answer.groups == [])
    ensures IsPerson(l) && !Suspended(l) ==>
      var s, org := PersonOf(l, protected), l.config.value;
      && answer.email == None
      && (!org.appendRoleClaims && l.employee.None? ==> answer.groups == s.groups)
      && (org.appendRoleClaims || l.employee.Some? ==> StrictlySorted(answer.groups))
      && forall x :: x in answer.groups <==>
           || (x in s.groups && !(org.appendRoleClaims && org.roleClaimsOnly))
           || (org.appendRoleClaims && (x in l.payloadEntries || RoleEntry(lib, l.claimCatalog, s, x)))
           || l.employee == Some(x)
    ensures !IsMachine(l) && (!IsPerson(l) || Suspended(l)) ==> answer == Answer(None, [])
  {
    PersonIsSubject(l, protected);
    assert IsMachine(l) <==> IsEnrichedMachine(l);
    hide Sorted, StrictlySorted, Entitled, EntriesFor, SortedSeq, RoleEntry;
    if IsPerson(l) && !Suspended(l) {
      var s, org := PersonOf(l, protected), l.config.value;
      var entries := EntriesFor(lib, l.claimCatalog, s);
      forall x ensures x in entries <==> RoleEntry(lib, l.claimCatalog, s, x) {
        IsRoleEntry(lib, l.claimCatalog, s, x);
      }
      if org.appendRoleClaims || l.employee.Some? {
        var claim := ClaimSet(s.groups, l.payloadEntries, entries, org.appendRoleClaims, org.roleClaimsOnly, l.employee);
        assert forall x :: x in answer.groups <==> x in Elems(answer.groups);
        assert Elems(answer.groups) == claim;
      }
    }
  }

  lemma IsRoleEntry(lib: Lib, cat: Option<Answers>, s: Subject, x: string)
    ensures x in EntriesFor(lib, cat, s) <==> RoleEntry(lib, cat, s, x)
  {
    hide Entitled, EntriesFor;
    EntriesExactly(lib, cat, s, x);
  }

  /* Batch runs */

  /** A user's line in an org's listing that phase 1 keeps: an address, an answer, and an org with rules. */
  predicate IsKept(o: OrgInput, u: (UserInfo, Option<UserGroups>)) {
    o.config.Some? && |o.config.value.rules| > 0 && '@' in u.0.email && u.1.Some?
  }

  /** Who is pending: exactly the users of such lines, with the org's rules and the directory's answer. */
  lemma {:induction false} PendingExactly(orgs: seq<OrgInput>, p: Pending)
    ensures p in Phase1(orgs) <==>
      exists o, u :: o in orgs && o.listing.Some? && u in o.listing.value && IsKept(o, u)
        && p == Pending(o.id, o.config.value.rules, u.0, u.1.value.groups, u.1.value.suspended)
  {
    hide PendingOf, IsKept;
    if orgs != [] {
      var n := |orgs| - 1;
      PendingExactly(orgs[..n], p);
      assert orgs == orgs[..n] + [orgs[n]];
      PendingOfExactly(orgs[n], p);
    }
  }

  lemma PendingOfExactly(o: OrgInput, p: Pending)
    ensures p in PendingOf(o) <==>
      o.listing.Some?
      && exists u :: u in o.listing.value && IsKept(o, u)
                     && p == Pending(o.id, o.config.value.rules, u.0, u.1.value.groups, u.1.value.suspended)
  {
    if o.config.Some? && |o.config.value.rules| > 0 && o.listing.Some? {
      PendingUsersExactly(o, o.listing.value, p);
    }
  }

  lemma {:induction false} PendingUsersExactly(o: OrgInput, users: seq<(UserInfo, Option<UserGroups>)>, p: Pending)
    requires o.config.Some? && |o.config.value.rules| > 0
    ensures p in PendingUsers(o.id, o.config.value.rules, users) <==>
      exists u :: u in users && IsKept(o, u)
        && p == Pending(o.id, o.config.value.rules, u.0, u.1.value.groups, u.1.value.suspended)
  {
    if users != [] {
      var n := |users| - 1;
      PendingUsersExactly(o, users[..n], p);
      OneUser(o, users, p);
      assert forall u :: u in users <==> u in users[..n] || u == users[n] by {
        assert users == users[..n] + [users[n]];
      }
      hide PendingUsers, IsKept;
    }
  }

  lemma OneUser(o: OrgInput, users: seq<(UserInfo, Option<UserGroups>)>, p: Pending)
    requires o.config.Some? && |o.config.value.rules| > 0 && users != []
    ensures var n := |users| - 1;
      var u := users[n];
      p in PendingUsers(o.id, o.config.value.rules, users) <==>
        || p in PendingUsers(o.id, o.config.value.rules, users[..n])
        || (IsKept(o, u) && p == Pending(o.id, o.config.value.rules, u.0, u.1.value.groups, u.1.value.suspended))
  {
  }

  /** The lines of the first `n` users of an org that phase 1 keeps. */
  function KeptLines(o: OrgInput, users: seq<(UserInfo, Option<UserGroups>)>): set<nat> {
    set j: nat | j < |users| && IsKept(o, users[j])
  }

  /** Each kept line of an org is pending once. */
  lemma {:induction false} PendingNumber(o: OrgInput, users: seq<(UserInfo, Option<UserGroups>)>)
    requires o.config.Some? && |o.config.value.rules| > 0
    ensures |PendingUsers(o.id, o.config.value.rules, users)| == |KeptLines(o, users)|
  {
    if users != [] {
      var n := |users| - 1;
      PendingNumber(o, users[..n]);
      assert KeptLines(o, users) == KeptLines(o, users[..n]) + if IsKept(o, users[n]) then {n} else {};
    }
  }

  /**
   * An unforced run at or below the configured share of empty answers goes ahead, and so does any forced
   * one: it reconciles every pending user. Above the share it writes and counts nothing.
   */
  lemma RunGoesAheadExactly(list: Lister, s: Setup, orgs: seq<OrgInput>, acts: seq<seq<Action>>, t: Table)
    requires IsLister(list) && |acts| == |Phase1(orgs)|
    ensures var ps := Phase1(orgs);
      if !s.force && |ps| > 0 && |EmptyPositions(ps)| as real > s.maxEmptyRatio * |ps| as real then
        RunAll(list, s, orgs, acts, t) == Some(Progress(t, NoTotals, []))
      else
        && RunAll(list, s, orgs, acts, t) == Phase2(list, s, ps, acts, t)
        && (RunAll(list, s, orgs, acts, t).Some? ==>
              var n := RunAll(list, s, orgs, acts, t).value.totals;
              n.processed + n.skippedEmpty + n.suspendedPruned + n.failed == |ps|)
  {
    hide IsLister, Phase1, Phase2, EmptyPositions, Aborts;
    AbortsExactly(s, Phase1(orgs));
    if RunAll(list, s, orgs, acts, t).Some? && !Aborts(s, Phase1(orgs)) {
      EveryUserCounted(list, s, Phase1(orgs), acts, t);
    }
  }

  /** What a pending user holds after a turn that was skipped or returned. */
  ghost predicate Settled(s: Setup, i: nat, p: Pending, before: ByProject, after: ByProject) {
    if p.suspended then after == map[]
    else if |p.groups| == 0 && !s.force && !Named(s.lib, p.rules, p.user.email) then after == before
    else Gives(s.lib, s.catalog(i), Subject(p.rules, p.user.email, p.groups, s.protected), before, after)
  }

  lemma TargetIsSettled(s: Setup, i: nat, p: Pending, before: ByProject)
    ensures Settled(s, i, p, before, Target(before, JobOf(s, i, p)))
  {
    hide DesiredFor, WantOf, Final, Gives;
    NothingWanted(before);
    FinalIsEntitlement(s.lib, s.catalog(i), Subject(p.rules, p.user.email, p.groups, s.protected), before);
  }

  /**
   * What a batch run leaves. Whatever else fails, a pending user whose own turn was skipped or returned
   * holds nothing if suspended, what was there before if the directory gave no groups, no rule names the
   * user and the run is not forced, and otherwise exactly what the org's rules entitle the user to.
   */
  lemma BatchOutcome(list: Lister, s: Setup, ps: seq<Pending>, acts: seq<seq<Action>>, t: Table, i: nat)
    requires IsLister(list) && AtMostOne(t) && DistinctUsers(ps) && |acts| == |ps| && i < |ps|
    requires Phase2(list, s, ps, acts, t).Some? && OwnReturns(list, s, ps, acts, t, i)
    ensures var n := Phase2(list, s, ps, acts, t).value.table;
      var org, user := ps[i].org, ps[i].user.id;
      Unique(n, org, user) && Unique(t, org, user) && Settled(s, i, ps[i], View(t, org, user), View(n, org, user))
  {
    hide IsLister, AtMostOne, Phase2, OwnReturns, View, Unique, JobOf, Settled, Between, Target, DistinctUsers;
    var org, user := ps[i].org, ps[i].user.id;
    FailuresAreIsolated(list, s, ps, acts, t, org, user);
    TargetIsSettled(s, i, ps[i], View(t, org, user));
  }
}
