/** The login webhook's decision whether to sync, and the claim it answers with (pkg/server/zitadel_handler.go). */
module Webhook {
  import opened AnyStore
  import opened FreshIds
  import opened Mapper
  import opened Planner
  import opened Store
  import opened Strings
  import opened SyncMachine
  import opened SyncTheorems
  import opened Syncer
  import opened Wrappers

  /** What the directory says about an account. */
  datatype UserGroups = UserGroups(groups: seq<string>, suspended: bool)

  /** Which machine usernames an org enriches (a regular expression), and the domain of their synthetic email. */
  datatype MachineUsers = MachineUsers(inScope: string -> bool, emailDomain: string)

  datatype OrgConfig = OrgConfig(rules: seq<Rule>, resolverUrl: string, appendRoleClaims: bool, roleClaimsOnly: bool,
                                 machineUsers: Option<MachineUsers>)

  /**
   * A verified login payload with what the webhook looks up for it: the org's configuration, the
   * resolver's answer (None when it fails), the catalog's answers for the sync and for the claim
   * (None without a catalog), the role entries of the payload's grants and of a machine user's grants
   * as the API knows them (None when that lookup fails), and the employee entry.
   */
  datatype Login = Login(
    org: string, user: string, username: string, humanEmail: Option<string>, config: Option<OrgConfig>,
    resolution: Option<UserGroups>, syncCatalog: Option<Answers>, claimCatalog: Option<Answers>,
    payloadEntries: seq<string>, apiEntries: Option<seq<string>>, employee: Option<string>)
  {
    /** The user name stands in for a missing or empty email. */
    function Email(): string {
      if humanEmail.Some? && humanEmail.value != "" then humanEmail.value else username
    }
  }

  /** The claims the handler appends. */
  datatype Answer = Answer(email: Option<string>, groups: seq<string>)

  /** The org's configuration; a login without an org is never configured. */
  function Configured(l: Login): Option<OrgConfig> {
    if l.org == "" then None else l.config
  }

  /** Machine users and orgs without a resolver never reach the resolver. */
  predicate ReachesResolver(l: Login) {
    Configured(l).Some? && '@' in l.Email() && Configured(l).value.resolverUrl != ""
  }

  /** A machine user of an org that enriches users of this name. */
  predicate IsEnrichedMachine(l: Login) {
    && Configured(l).Some? && '@' !in l.Email()
    && Configured(l).value.machineUsers.Some?
    && l.username != "" && Configured(l).value.machineUsers.value.inScope(l.username)
  }

  /** The payload's entries, or the API's when the payload has none; a failed lookup leaves none. */
  function MachineEntries(l: Login): seq<string> {
    if l.payloadEntries != [] then l.payloadEntries
    else if l.apiEntries.Some? then l.apiEntries.value
    else []
  }

  /** A failed resolution reads as no groups and not suspended. */
  function Resolved(l: Login): UserGroups {
    if l.resolution.Some? then l.resolution.value else UserGroups([], false)
  }

  function SubjectOf(l: Login, protected: seq<string>): Subject
    requires Configured(l).Some?
  {
    Subject(Configured(l).value.rules, l.Email(), Resolved(l).groups, protected)
  }

  /** The Sync a login runs, if it runs one. */
  ghost function LoginJob(lib: Lib, protected: seq<string>, l: Login): Option<Job> {
    if !ReachesResolver(l) || l.user == "" then None
    else
      var rules := Configured(l).value.rules;
      if Resolved(l).suspended then
        if |rules| > 0 then Some(Job(l.org, l.user, [])) else None
      else if RulesApply(lib, rules, l.Email(), Resolved(l).groups) then
        Some(Job(l.org, l.user, DesiredFor(lib, l.syncCatalog, SubjectOf(l, protected))))
      else None
  }

  /** What the handler answers: the claim, a machine user's enrichment, or nothing. */
  ghost predicate Answers(lib: Lib, protected: seq<string>, l: Login, answer: Answer) {
    if IsEnrichedMachine(l) then
      && answer.email == Some(l.username + "@" + Configured(l).value.machineUsers.value.emailDomain)
      && Sorted(answer.groups) && multiset(answer.groups) == multiset(MachineEntries(l))
    else if !ReachesResolver(l) || Resolved(l).suspended then answer == Answer(None, [])
    else
      var org := Configured(l).value;
      && answer.email == None
      && answer.groups ==
         if org.appendRoleClaims || l.employee.Some? then
           SortedSeq(ClaimSet(Resolved(l).groups, l.payloadEntries,
                              EntriesFor(lib, l.claimCatalog, SubjectOf(l, protected)),
                              org.appendRoleClaims, org.roleClaimsOnly, l.employee))
         else Resolved(l).groups
  }

  /** The handler: what it does to the grants and what it answers. */
  method HandleLogin(lib: Lib, protected: seq<string>, syncer: Syncer, l: Login)
    returns (answer: Answer, ghost acts: seq<Action>)
    requires IsLister(syncer.api.list)
    modifies syncer.api`table
    ensures match LoginJob(lib, protected, l)
      case None => syncer.api.table == old(syncer.api.table)
      case Some(job) =>
        && Completes(syncer.api.list, old(syncer.api.table), job, acts)
        && syncer.api.table == Result(syncer.api.list, old(syncer.api.table), job, acts).table
    ensures Answers(lib, protected, l, answer)
  {
    hide IsLister, SortedSeq, ClaimSet, EntriesFor, DesiredFor, Completes, Result, Clean, Unique, Others, Sort, Sorted;
    acts := [];
    answer := Answer(None, []);
    var config := Configured(l);
    if config.None? {
      return;
    }
    var org := config.value;
    if '@' !in l.Email() {
      if org.machineUsers.Some? && l.username != "" && org.machineUsers.value.inScope(l.username) {
        answer := MachineAnswer(l, org.machineUsers.value);
      }
      return;
    }
    if org.resolverUrl == "" {
      return;
    }
    var ug := Resolved(l);
    if ug.suspended {
      if l.user != "" && |org.rules| > 0 {
        var pruned: Option<Counts>;
        pruned, acts := syncer.Sync(l.org, l.user, []);
      }
      return;
    }
    var subject := Subject(org.rules, l.Email(), ug.groups, protected);
    if l.user != "" && RulesApply(lib, org.rules, l.Email(), ug.groups) {
      var desired := DesiredGrants(lib, l.syncCatalog, subject);
      var synced: Option<Counts>;
      synced, acts := syncer.Sync(l.org, l.user, desired);
    }
    var entries := RoleEntries(lib, l.claimCatalog, subject);
    var claim, added := AssembleClaim(ug.groups, l.payloadEntries, entries,
                                      org.appendRoleClaims, org.roleClaimsOnly, l.employee);
    answer := Answer(None, claim);
  }

  /** A machine user's synthetic email, and its grants as the payload or else the API knows them. */
  method MachineAnswer(l: Login, m: MachineUsers) returns (answer: Answer)
    ensures answer.email == Some(l.username + "@" + m.emailDomain)
    ensures Sorted(answer.groups) && multiset(answer.groups) == multiset(MachineEntries(l))
  {
    hide Sort, Sorted;
    var entries := l.payloadEntries;
    if |entries| == 0 && l.apiEntries.Some? {
      entries := l.apiEntries.value;
    }
    answer := Answer(Some(l.username + "@" + m.emailDomain), Sort(entries));
  }

  /* What a login may do */

  /** The directory's or the configuration's word on which a login may change the user's grants. */
  predicate LoginAuthority(lib: Lib, l: Login) {
    && Configured(l).Some? && |Configured(l).value.rules| > 0
    && (|| (l.resolution.Some? && l.resolution.value.suspended)
        || (l.resolution.Some? && |l.resolution.value.groups| > 0)
        || RulesNameUser(lib, Configured(l).value.rules, l.Email()))
  }

  /** The sync gate is exact: a human user of a resolver org is synced if and only if there is authority for it. */
  lemma GateIsAuthority(lib: Lib, protected: seq<string>, l: Login)
    ensures LoginJob(lib, protected, l).Some? <==> ReachesResolver(l) && l.user != "" && LoginAuthority(lib, l)
    ensures LoginJob(lib, protected, l).Some? ==>
      LoginJob(lib, protected, l).value.org == l.org && LoginJob(lib, protected, l).value.user == l.user
  {
    hide DesiredFor;
  }

  /** Resolved to no groups, by an empty answer or by a failure, and not suspended. */
  predicate ZeroGroups(l: Login) {
    |Resolved(l).groups| == 0 && !Resolved(l).suspended
  }

  /** Whatever the login finds and however its calls end, it leaves every grant alone. */
  ghost predicate Inert(lib: Lib, protected: seq<string>, l: Login, list: Lister, t: Table, acts: seq<Action>)
    requires IsLister(list)
  {
    match LoginJob(lib, protected, l)
    case None => true
    case Some(job) => Completes(list, t, job, acts) ==> Result(list, t, job, acts).table == t
  }

  /** A grant on a project nobody wants, and nothing else. */
  lemma UnwantedGrant(job: Job) returns (t: Table, project: string)
    ensures Unique(t, job.org, job.user) && project !in WantOf(job.desired) && project in View(t, job.org, job.user)
  {
    hide WantOf;
    project := LongerThanAll(WantOf(job.desired).Keys);
    t := map["id" := Record(job.org, job.user, project, "", [])];
    assert "id" in t;
  }

  /**
   * Exactly when a login with zero groups leaves all grants alone, for every state of the grants and
   * every way its calls may end: when no rule names the user.
   */
  lemma ZeroGroupsInertExactly(lib: Lib, protected: seq<string>, l: Login, list: Lister)
    requires IsLister(list) && ZeroGroups(l) && ReachesResolver(l) && l.user != ""
    ensures (forall t, acts :: Inert(lib, protected, l, list, t, acts))
            <==> !RulesNameUser(lib, Configured(l).value.rules, l.Email())
  {
    hide IsLister, DesiredFor, Completes, Result, View, WantOf, Exec, Unique, Inert;
    if RulesNameUser(lib, Configured(l).value.rules, l.Email()) {
      var job := LoginJob(lib, protected, l).value;
      var t, project := UnwantedGrant(job);
      BeforeFirstCall(list, t, job);
      var acts := ServedSyncReturns(list, t, job, []);
      Convergence(list, t, job, acts);
      NotInert(lib, protected, l, list, t, acts);
    } else {
      forall t, acts ensures Inert(lib, protected, l, list, t, acts) {
        NoJobIsInert(lib, protected, l, list, t, acts);
      }
    }
  }

  lemma NotInert(lib: Lib, protected: seq<string>, l: Login, list: Lister, t: Table, acts: seq<Action>)
    requires IsLister(list) && LoginJob(lib, protected, l).Some?
    requires var job := LoginJob(lib, protected, l).value;
      Returns(list, t, job, acts) && Exec(list, t, job, acts).value.table != t
    ensures !Inert(lib, protected, l, list, t, acts)
  {
    hide IsLister, LoginJob, Exec;
  }

  lemma NoJobIsInert(lib: Lib, protected: seq<string>, l: Login, list: Lister, t: Table, acts: seq<Action>)
    requires IsLister(list) && LoginJob(lib, protected, l).None?
    ensures Inert(lib, protected, l, list, t, acts)
  {
    hide IsLister, LoginJob;
  }

  /** A user named by a rule that grants nothing, in an org whose resolver is down. */
  function NamedLogin(): Login {
    var rule := Rule("", ["ann@corp"], []);
    var org := OrgConfig([rule], "http://resolver", false, false, None);
    Login("org", "ann", "ann@corp", None, Some(org), None, None, None, [], None, None)
  }

  /** With a concrete login: the resolver fails, and the login takes grants away all the same. */
  lemma FailedResolutionCanPrune(lib: Lib, protected: seq<string>, list: Lister)
    requires IsLister(list)
    ensures NamedLogin().resolution.None?
    ensures exists t, acts :: !Inert(lib, protected, NamedLogin(), list, t, acts)
  {
    hide IsLister, Inert;
    var l := NamedLogin();
    var rules := Configured(l).value.rules;
    var rule := rules[0];
    assert rule in rules && rule.users[0] == l.Email() && rule.users[0] in rule.users;
    assert lib.fold(rule.users[0]) == lib.fold(l.Email());
    assert RulesNameUser(lib, rules, l.Email());
    assert l.Email()[3] == '@';
    ZeroGroupsInertExactly(lib, protected, l, list);
    assert !(forall t, acts :: Inert(lib, protected, l, list, t, acts));
  }

  /**
   * A failed resolution is not inert. For a user whom a rule names it still runs a Sync, and that
   * Sync wants only what the naming rules give: grants the user has through groups are not wanted.
   */
  lemma FailedResolutionSyncsNamedUsers(lib: Lib, protected: seq<string>, l: Login)
    requires l.resolution.None? && ReachesResolver(l) && l.user != ""
    ensures LoginJob(lib, protected, l).Some? <==> RulesNameUser(lib, Configured(l).value.rules, l.Email())
    ensures LoginJob(lib, protected, l).Some? ==>
      LoginJob(lib, protected, l).value.desired
      == DesiredFor(lib, l.syncCatalog, Subject(Configured(l).value.rules, l.Email(), [], protected))
  {
    hide DesiredFor;
  }

  /** After such a Sync every grant left is one a rule naming the user gives: what came through groups is pruned. */
  lemma FailedResolutionPrunes(lib: Lib, protected: seq<string>, l: Login, list: Lister, t: Table, acts: seq<Action>)
    requires l.resolution.None? && LoginJob(lib, protected, l).Some? && IsLister(list)
    requires Unique(t, l.org, l.user) && Returns(list, t, LoginJob(lib, protected, l).value, acts)
    ensures var n := Exec(list, t, LoginJob(lib, protected, l).value, acts).value.table;
      && Unique(n, l.org, l.user)
      && forall p :: p in View(n, l.org, l.user) ==>
           exists g :: Grants(lib, Configured(l).value.rules, l.Email(), {}, g) && g.project == p
  {
    GateIsAuthority(lib, protected, l);
    FailedResolutionSyncsNamedUsers(lib, protected, l);
    hide LoginJob, Unique, View, Exec, DesiredFor, IsLister, Grants, Returns;
    var job := LoginJob(lib, protected, l).value;
    var s := Subject(Configured(l).value.rules, l.Email(), [], protected);
    Convergence(list, t, job, acts);
    ElemsEmpty([]);
    var n := Exec(list, t, job, acts).value.table;
    forall p | p in View(n, l.org, l.user)
      ensures exists g :: Grants(lib, Configured(l).value.rules, l.Email(), {}, g) && g.project == p
    {
      PlanDiscipline(lib, l.syncCatalog, s, WantOf(job.desired)[p]);
    }
  }
}
