/**
 * What a user is entitled to, said once in terms of the rules, the user's email and groups and the
 * catalog's answers alone, and that plan, claim and synced grants are exactly that.
 */
module Entitlement {
  import opened Mapper
  import opened MapperLaws
  import opened Planner
  import opened Roles
  import opened Store
  import opened Strings
  import opened SyncMachine
  import opened SyncTheorems
  import opened Wrappers

  /**
   * A rule whose own non-empty group the user has, or which names the user's non-empty email up to
   * case, grants the project and lists the role there; or it lists a pattern there that globs this
   * very role, the role is not protected, and the catalog answered that the project has it.
   */
  ghost predicate Entitled(lib: Lib, cat: Option<Answers>, s: Subject, project: string, role: string) {
    exists r, g :: r in s.rules && g in r.grants && g.project == project
      && ((r.group != "" && r.group in s.groups)
          || (s.email != "" && exists u :: u in r.users && lib.fold(u) == lib.fold(s.email)))
      && (role in g.roles || (OnOffer(cat, s, project, role) && exists q :: q in g.patterns && lib.glob(q, role)))
  }

  /** An unprotected role the catalog answered for the project. */
  predicate OnOffer(cat: Option<Answers>, s: Subject, project: string, role: string) {
    && role !in s.protected
    && cat.Some? && cat.value(project).Some? && role in cat.value(project).value.roles
  }

  /** The project grant a new grant must refer to: the catalog's answer, and none without one. */
  function GrantIdOf(cat: Option<Answers>, project: string): string {
    if cat.Some? && cat.value(project).Some? then cat.value(project).value.projectGrantId else ""
  }

  /* The plan */

  /** The entry of the rule engine's answer for a project. */
  lemma MappedRoles(lib: Lib, s: Subject, m: Mapped)
    requires m in MapSpec(lib, s.rules, s.email, Elems(s.groups))
    ensures var answer := MapSpec(lib, s.rules, s.email, Elems(s.groups));
      && (forall k :: k in m.roles <==> k in RolesIn(answer, m.project))
      && (forall q :: q in m.patterns <==> q in PatternsIn(answer, m.project))
      && StrictlySorted(m.roles)
  {
    hide MapSpec, Less;
    AnswerMeaning(lib, s.rules, s.email, Elems(s.groups));
    var answer := MapSpec(lib, s.rules, s.email, Elems(s.groups));
    forall n | n in answer && n.project == m.project ensures n == m {
      OneEntry(answer, m, n);
    }
  }

  lemma OneEntry(answer: seq<Mapped>, m: Mapped, n: Mapped)
    requires Mapper.ByProject(answer) && m in answer && n in answer && n.project == m.project
    ensures n == m
  {
    hide Less;
    var i :| 0 <= i < |answer| && answer[i] == m;
    var j :| 0 <= j < |answer| && answer[j] == n;
    LessIrreflexive(m.project);
  }

  /** A role of one planned grant: listed, or brought by a pattern. */
  lemma PlanOneRoles(lib: Lib, cat: Option<Answers>, s: Subject, m: Mapped, k: string)
    ensures k in PlanOne(lib, cat, m, s.protected).roles <==>
      k in m.roles || (OnOffer(cat, s, m.project, k) && exists q :: q in m.patterns && lib.glob(q, k))
    ensures PlanOne(lib, cat, m, s.protected).project == m.project
    ensures PlanOne(lib, cat, m, s.protected).projectGrantId == GrantIdOf(cat, m.project)
    ensures StrictlySorted(m.roles) ==> StrictlySorted(PlanOne(lib, cat, m, s.protected).roles)
  {
    hide SortedSeq, StrictlySorted;
    var roles := PlanOne(lib, cat, m, s.protected).roles;
    assert k in roles <==> k in Elems(roles);
    if cat.None? {
      assert Elems(roles) == Expanded(lib, m, [], Elems(s.protected));
    } else if cat.value(m.project).Some? {
      assert Elems(roles) == Expanded(lib, m, cat.value(m.project).value.roles, Elems(s.protected));
    }
  }

  /** The user is entitled to a role exactly when the rule engine's answer lists it, or a pattern that brings it. */
  lemma EntitledByAnswer(lib: Lib, cat: Option<Answers>, s: Subject, project: string, k: string)
    ensures var answer := MapSpec(lib, s.rules, s.email, Elems(s.groups));
      Entitled(lib, cat, s, project, k) <==>
        k in RolesIn(answer, project)
        || (OnOffer(cat, s, project, k) && exists q :: q in PatternsIn(answer, project) && lib.glob(q, k))
  {
    hide MapSpec, OnOffer, RolesIn, PatternsIn, ProjectsIn;
    AnswerSpelledOut(lib, s.rules, s.email, Elems(s.groups));
    assert forall r: Rule :: r.group in Elems(s.groups) <==> r.group in s.groups;
    var answer := MapSpec(lib, s.rules, s.email, Elems(s.groups));
    if q :| OnOffer(cat, s, project, k) && q in PatternsIn(answer, project) && lib.glob(q, k) {
      var r, g :| r in s.rules && g in r.grants && g.project == project && q in g.patterns
        && ((r.group != "" && r.group in Elems(s.groups))
            || (s.email != "" && exists u :: u in r.users && lib.fold(u) == lib.fold(s.email)));
      assert Entitled(lib, cat, s, project, k);
    }
    if Entitled(lib, cat, s, project, k) && k !in RolesIn(answer, project) {
      var r, g :| r in s.rules && g in r.grants && g.project == project
        && ((r.group != "" && r.group in s.groups)
            || (s.email != "" && exists u :: u in r.users && lib.fold(u) == lib.fold(s.email)))
        && (k in g.roles || (OnOffer(cat, s, project, k) && exists q :: q in g.patterns && lib.glob(q, k)));
      var q :| q in g.patterns && lib.glob(q, k);
      assert q in PatternsIn(answer, project);
    }
  }

  /**
   * A planned grant is exactly the entitlement on its project: these roles and no others, each once and
   * in order, under the project grant the catalog answered.
   */
  lemma PlannedGrantExactly(lib: Lib, cat: Option<Answers>, s: Subject, d: Desired)
    requires d in DesiredFor(lib, cat, s)
    ensures d.roles != [] && StrictlySorted(d.roles) && d.projectGrantId == GrantIdOf(cat, d.project)
    ensures forall k :: k in d.roles <==> Entitled(lib, cat, s, d.project, k)
  {
    hide MapSpec, Elems, Entitled, PlanOne, StrictlySorted, OnOffer;
    var mapped := MapSpec(lib, s.rules, s.email, Elems(s.groups));
    PlanMembers(lib, cat, mapped, s.protected, d);
    var m :| m in mapped && d == PlanOne(lib, cat, m, s.protected);
    MappedRoles(lib, s, m);
    forall k ensures k in d.roles <==> Entitled(lib, cat, s, d.project, k) {
      PlanOneRoles(lib, cat, s, m, k);
      EntitledByAnswer(lib, cat, s, m.project, k);
    }
    PlanOneRoles(lib, cat, s, m, "");
  }

  /** A project is planned exactly when the user is entitled to some role on it. */
  lemma PlannedProjectsExactly(lib: Lib, cat: Option<Answers>, s: Subject, project: string)
    ensures (exists d :: d in DesiredFor(lib, cat, s) && d.project == project) <==>
            exists k :: Entitled(lib, cat, s, project, k)
  {
    if d :| d in DesiredFor(lib, cat, s) && d.project == project {
      PlannedGrantExactly(lib, cat, s, d);
      assert d.roles[0] in d.roles;
    }
    if k :| Entitled(lib, cat, s, project, k) {
      var d := EntitledIsPlanned(lib, cat, s, project, k);
    }
  }

  lemma EntitledIsPlanned(lib: Lib, cat: Option<Answers>, s: Subject, project: string, k: string) returns (d: Desired)
    requires Entitled(lib, cat, s, project, k)
    ensures d in DesiredFor(lib, cat, s) && d.project == project && k in d.roles
  {
    EntitledByAnswer(lib, cat, s, project, k);
    hide MapSpec, Elems, Entitled, PlanOne, OnOffer;
    var mapped := MapSpec(lib, s.rules, s.email, Elems(s.groups));
    var m: Mapped;
    if k in RolesIn(mapped, project) {
      m :| m in mapped && m.project == project && k in m.roles;
    } else {
      var q :| q in PatternsIn(mapped, project) && lib.glob(q, k);
      m :| m in mapped && m.project == project && q in m.patterns;
    }
    PlanOneRoles(lib, cat, s, m, k);
    d := PlanOne(lib, cat, m, s.protected);
    PlanMembers(lib, cat, mapped, s.protected, d);
  }

  ghost predicate InOrder(plan: seq<Desired>) {
    forall i, j :: 0 <= i < j < |plan| ==> Less(plan[i].project, plan[j].project)
  }

  lemma {:induction false} PlanSorted(lib: Lib, cat: Option<Answers>, mapped: seq<Mapped>, protected: seq<string>)
    requires Mapper.ByProject(mapped)
    ensures var plan := Plan(lib, cat, mapped, protected);
      && InOrder(plan) && (forall d :: d in plan ==> exists m :: m in mapped && m.project == d.project)
  {
    hide Less, Expanded, SortedSeq, Elems;
    if mapped != [] {
      var n := |mapped| - 1;
      PlanSorted(lib, cat, mapped[..n], protected);
      assert mapped == mapped[..n] + [mapped[n]];
      var plan := Plan(lib, cat, mapped[..n], protected);
      forall i | 0 <= i < |plan| ensures Less(plan[i].project, mapped[n].project) {
        assert plan[i] in plan;
        var m :| m in mapped[..n] && m.project == plan[i].project;
      }
    }
  }

  /** The plan has one grant per project, by project. */
  lemma PlanByProject(lib: Lib, cat: Option<Answers>, s: Subject)
    ensures InOrder(DesiredFor(lib, cat, s))
  {
    hide MapSpec, Less, InOrder, Plan, Mapper.ByProject, RolesIn, PatternsIn, ProjectsIn, StrictlySorted, Grants;
    AnswerMeaning(lib, s.rules, s.email, Elems(s.groups));
    PlanSorted(lib, cat, MapSpec(lib, s.rules, s.email, Elems(s.groups)), s.protected);
  }

  /* The claim */

  /** The claim's computed entries are exactly name:role for the entitled roles of projects the catalog can name. */
  lemma EntriesExactly(lib: Lib, cat: Option<Answers>, s: Subject, x: string)
    ensures x in EntriesFor(lib, cat, s) <==>
      cat.Some?
      && exists p, k :: Entitled(lib, cat, s, p, k) && cat.value(p).Some?
                        && cat.value(p).value.name != "" && x == cat.value(p).value.name + ":" + k
  {
    hide Entitled, DesiredFor, EntriesFor;
    if cat.None? {
      ClaimAgreesWithGrants(lib, (_: string) => None, s);
    } else {
      var answer := cat.value;
      ClaimAgreesWithGrants(lib, answer, s);
      FlattenMembers(answer, DesiredFor(lib, cat, s), x);
      if d, k :| d in DesiredFor(lib, cat, s) && k in d.roles && answer(d.project).Some?
                 && answer(d.project).value.name != "" && x == answer(d.project).value.name + ":" + k {
        PlannedGrantExactly(lib, cat, s, d);
      }
      if p, k :| Entitled(lib, cat, s, p, k) && answer(p).Some?
                 && answer(p).value.name != "" && x == answer(p).value.name + ":" + k {
        var d := EntitledIsPlanned(lib, cat, s, p, k);
      }
    }
  }

  lemma {:induction false} FlattenMembers(answer: Answers, desired: seq<Desired>, x: string)
    ensures x in Flatten(answer, desired) <==>
      exists d, k :: d in desired && k in d.roles && answer(d.project).Some?
        && answer(d.project).value.name != "" && x == answer(d.project).value.name + ":" + k
  {
    if desired != [] {
      var n := |desired| - 1;
      FlattenMembers(answer, desired[..n], x);
      assert desired == desired[..n] + [desired[n]];
      SpellMembers(answer, desired[n], x);
      hide Spell, Flatten;
      FlattenSnoc(answer, desired);
    }
  }

  lemma FlattenSnoc(answer: Answers, desired: seq<Desired>)
    requires desired != []
    ensures var n := |desired| - 1; Flatten(answer, desired) == Flatten(answer, desired[..n]) + Spell(answer, desired[n])
  {
  }

  lemma SpellMembers(answer: Answers, d: Desired, x: string)
    ensures x in Spell(answer, d) <==>
      exists k :: k in d.roles && answer(d.project).Some?
        && answer(d.project).value.name != "" && x == answer(d.project).value.name + ":" + k
  {
    if answer(d.project).Some? && answer(d.project).value.name != "" {
      var name := answer(d.project).value.name;
      if k :| k in d.roles && x == name + ":" + k {
        var i :| 0 <= i < |d.roles| && d.roles[i] == k;
        assert Labels(name, d.roles)[i] == x;
      }
    }
  }

  /* The synced grants */

  /** No role the user is entitled to on the project contains the separator of the role comparison. */
  ghost predicate CommaFreeOn(lib: Lib, cat: Option<Answers>, s: Subject, project: string) {
    forall k :: Entitled(lib, cat, s, project, k) ==> ',' !in k
  }

  /**
   * What the user holds afterwards, by project: a grant exactly on the projects with an entitlement,
   * with exactly the entitled roles; the catalog's project grant on a new grant, the old one on a
   * grant that was there. (On a grant that was there the roles need to be comma-free.)
   */
  ghost predicate Gives(lib: Lib, cat: Option<Answers>, s: Subject, before: ByProject, after: ByProject) {
    && (forall p :: p in after <==> exists k :: Entitled(lib, cat, s, p, k))
    && (forall p, k :: p in after && (p !in before || CommaFreeOn(lib, cat, s, p)) ==>
          (k in after[p].roles <==> Entitled(lib, cat, s, p, k)))
    && (forall p :: p in after && (p !in before || CommaFreeOn(lib, cat, s, p)) ==> Distinct(after[p].roles))
    && (forall p :: p in after ==>
          after[p].projectGrantId == if p in before then before[p].projectGrantId else GrantIdOf(cat, p))
  }

  lemma WantedExactly(lib: Lib, cat: Option<Answers>, s: Subject, project: string)
    ensures var want := WantOf(DesiredFor(lib, cat, s));
      && (project in want <==> exists k :: Entitled(lib, cat, s, project, k))
      && (project in want ==> want[project] in DesiredFor(lib, cat, s) && want[project].project == project)
  {
    hide DesiredFor, Entitled, WantOf;
    var desired := DesiredFor(lib, cat, s);
    PlannedProjectsExactly(lib, cat, s, project);
    if d :| d in desired && d.project == project {
      var i :| 0 <= i < |desired| && desired[i] == d;
      WantOfLastWins(desired, i);
    }
  }

  lemma SameMultiset(a: seq<string>, b: seq<string>)
    requires multiset(a) == multiset(b) && StrictlySorted(b)
    ensures Distinct(a) && forall k :: k in a <==> k in b
  {
    hide StrictlySorted;
    SameElems(a, b);
    assert forall k :: k in a <==> k in Elems(a);
    assert forall k :: k in b <==> k in Elems(b);
    StrictIsSortedAndDistinct(b);
    hide Sorted, Elems;
    forall i, j | 0 <= i < j < |a| ensures a[i] != a[j] {
      if a[i] == a[j] {
        TwiceInSeq(a, i, j);
        OnceInDistinct(b, a[i]);
      }
    }
  }

  /** The target of a planned Sync is the entitlement. */
  lemma FinalIsEntitlement(lib: Lib, cat: Option<Answers>, s: Subject, before: ByProject)
    ensures Gives(lib, cat, s, before, Final(before, WantOf(DesiredFor(lib, cat, s))))
  {
    hide DesiredFor, Entitled, WantOf, RolesEqual, CommaFree, Distinct, Elems, GrantIdOf, StrictlySorted;
    var want := WantOf(DesiredFor(lib, cat, s));
    var after := Final(before, want);
    FinalMeaning(before, want);
    forall p ensures p in after <==> exists k :: Entitled(lib, cat, s, p, k) {
      WantedExactly(lib, cat, s, p);
    }
    forall p | p in after
      ensures after[p].projectGrantId == if p in before then before[p].projectGrantId else GrantIdOf(cat, p)
      ensures p !in before || CommaFreeOn(lib, cat, s, p) ==>
        Distinct(after[p].roles) && forall k :: k in after[p].roles <==> Entitled(lib, cat, s, p, k)
    {
      WantedExactly(lib, cat, s, p);
      PlannedGrantExactly(lib, cat, s, want[p]);
      if p !in before || CommaFreeOn(lib, cat, s, p) {
        if p in before {
          PlannedCommaFree(lib, cat, s, want[p]);
        }
        SameMultiset(after[p].roles, want[p].roles);
      }
    }
  }

  lemma PlannedCommaFree(lib: Lib, cat: Option<Answers>, s: Subject, d: Desired)
    requires d in DesiredFor(lib, cat, s) && CommaFreeOn(lib, cat, s, d.project)
    ensures CommaFree(d.roles)
  {
    hide DesiredFor, Entitled;
    PlannedGrantExactly(lib, cat, s, d);
  }

  /** A planned Sync that returns from unique grants gives the user exactly the entitlement. */
  lemma SyncGivesEntitlement(lib: Lib, cat: Option<Answers>, s: Subject, list: Lister, t: Table, job: Job, acts: seq<Action>)
    requires IsLister(list) && Unique(t, job.org, job.user) && Returns(list, t, job, acts)
    requires job.desired == DesiredFor(lib, cat, s)
    ensures var n := Exec(list, t, job, acts).value.table;
      Unique(n, job.org, job.user)
      && Gives(lib, cat, s, View(t, job.org, job.user), View(n, job.org, job.user))
  {
    hide IsLister, Unique, View, Exec, DesiredFor, WantOf, Final, Gives;
    ReturnedView(list, t, job, acts);
    FinalIsEntitlement(lib, cat, s, View(t, job.org, job.user));
  }
}
