/** Which of a user's grants a planned Sync takes away. */
module Pruning {
  import opened AnyStore
  import opened Entitlement
  import opened Mapper
  import opened Planner
  import opened Store
  import opened Strings
  import opened SyncMachine
  import opened Wrappers

  /**
   * Exactly which grants go. A planned Sync that returns removes the user's grant on a project if and
   * only if the user is entitled to no role there: no matching rule mentions the project, or those that
   * do list no explicit role and the lookup failed or no unprotected role it answered matches a pattern.
   */
  lemma RemovesExactlyUncovered(lib: Lib, cat: Option<Answers>, s: Subject, list: Lister, t: Table, job: Job,
                                acts: seq<Action>, project: string)
    requires IsLister(list) && Unique(t, job.org, job.user) && Returns(list, t, job, acts)
    requires job.desired == DesiredFor(lib, cat, s) && project in View(t, job.org, job.user)
    ensures var n := Exec(list, t, job, acts).value.table;
      && Unique(n, job.org, job.user)
      && (project !in View(n, job.org, job.user) <==> forall k :: !Entitled(lib, cat, s, project, k))
  {
    hide IsLister, Unique, View, Exec, DesiredFor, Entitled;
    SyncGivesEntitlement(lib, cat, s, list, t, job, acts);
  }

  /** One rule that grants by pattern only, for a user who has its group, and a catalog that is down. */
  function PatternOnly(): Subject {
    Subject([Rule("devs", [], [Grant("p", [], ["*"])])], "ann@corp", ["devs"], [])
  }

  function Down(): Answers {
    (_: string) => None
  }

  /**
   * A concrete user whose groups cover the grant: while the catalog has never been filled and fails,
   * the pattern stands for nothing, and a served Sync returns without the grant.
   */
  lemma CoveredGrantRemoved(lib: Lib, list: Lister) returns (acts: seq<Action>)
    requires IsLister(list)
    ensures exists g :: Grants(lib, PatternOnly().rules, PatternOnly().email, Elems(PatternOnly().groups), g) && g.project == "p"
    ensures var job := Job("org", "ann", DesiredFor(lib, Some(Down()), PatternOnly()));
      var t: Table := map["1" := Record("org", "ann", "p", "", ["viewer"])];
      && Returns(list, t, job, acts) && (forall a :: a in acts ==> Served(a))
      && Unique(t, "org", "ann") && "p" in View(t, "org", "ann")
      && Unique(Exec(list, t, job, acts).value.table, "org", "ann")
      && "p" !in View(Exec(list, t, job, acts).value.table, "org", "ann")
  {
    hide IsLister, Exec, DesiredFor, Served, Entitled, PatternOnly, Down;
    var s := PatternOnly();
    var job := Job("org", "ann", DesiredFor(lib, Some(Down()), s));
    var t: Table := map["1" := Record("org", "ann", "p", "", ["viewer"])];
    OnlyRule(lib, s);
    OnlyGrant(lib, s);
    assert "1" in t && t["1"].project == "p";
    hide Grants, Elems;
    BeforeFirstCall(list, t, job);
    acts := ServedSyncReturns(list, t, job, []);
    RemovesExactlyUncovered(lib, Some(Down()), s, list, t, job, acts, "p");
  }

  lemma OnlyRule(lib: Lib, s: Subject)
    requires s == PatternOnly()
    ensures exists g :: Grants(lib, s.rules, s.email, Elems(s.groups), g) && g.project == "p"
  {
    var rule := s.rules[0];
    assert rule in s.rules && "devs" in s.groups && rule.grants[0] in rule.grants;
    assert Grants(lib, s.rules, s.email, Elems(s.groups), rule.grants[0]);
  }

  lemma OnlyGrant(lib: Lib, s: Subject)
    requires s == PatternOnly()
    ensures forall k :: !Entitled(lib, Some(Down()), s, "p", k)
  {
    forall r, g | r in s.rules && g in r.grants ensures g.roles == [] {
      assert g == Grant("p", [], ["*"]);
    }
  }
}
