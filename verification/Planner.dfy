/** From a user's groups to the grants that should exist and to the claim the token carries. */
module Planner {
  import opened Mapper
  import opened MapperLaws
  import opened Paging
  import opened Store
  import opened Strings
  import opened Wrappers

  /** The catalog's answers for one org during one call; `None` is a failed lookup. */
  type Answers = string -> Option<ProjectInfo>

  /** What identifies the user to the rules, and the instance-wide list of protected roles. */
  datatype Subject = Subject(rules: seq<Rule>, email: string, groups: seq<string>, protected: seq<string>)

  /* Specification */

  ghost function PlanOne(lib: Lib, cat: Option<Answers>, m: Mapped, protected: seq<string>): Desired {
    match cat
    case None => Desired(m.project, "", SortedSeq(Expanded(lib, m, [], Elems(protected))))
    case Some(answer) =>
      match answer(m.project)
      case None => Desired(m.project, "", m.roles)
      case Some(info) => Desired(m.project, info.projectGrantId, SortedSeq(Expanded(lib, m, info.roles, Elems(protected))))
  }

  ghost function Plan(lib: Lib, cat: Option<Answers>, mapped: seq<Mapped>, protected: seq<string>): seq<Desired> {
    if mapped == [] then []
    else
      var n := |mapped| - 1;
      var d := PlanOne(lib, cat, mapped[n], protected);
      Plan(lib, cat, mapped[..n], protected) + if d.roles == [] then [] else [d]
  }

  ghost function DesiredFor(lib: Lib, cat: Option<Answers>, s: Subject): seq<Desired> {
    Plan(lib, cat, MapSpec(lib, s.rules, s.email, Elems(s.groups)), s.protected)
  }

  function Labels(name: string, roles: seq<string>): seq<string> {
    seq(|roles|, i requires 0 <= i < |roles| => name + ":" + roles[i])
  }

  ghost function EntriesOne(lib: Lib, answer: Answers, m: Mapped, protected: seq<string>): seq<string> {
    match answer(m.project)
    case None => []
    case Some(info) =>
      if info.name == "" then []
      else Labels(info.name, SortedSeq(Expanded(lib, m, info.roles, Elems(protected))))
  }

  ghost function Entries(lib: Lib, answer: Answers, mapped: seq<Mapped>, protected: seq<string>): seq<string> {
    if mapped == [] then []
    else
      var n := |mapped| - 1;
      Entries(lib, answer, mapped[..n], protected) + EntriesOne(lib, answer, mapped[n], protected)
  }

  ghost function EntriesFor(lib: Lib, cat: Option<Answers>, s: Subject): seq<string> {
    match cat
    case None => []
    case Some(answer) => Entries(lib, answer, MapSpec(lib, s.rules, s.email, Elems(s.groups)), s.protected)
  }

  /* The loops (pkg/reconcile/reconcile.go) */

  method DesiredGrants(lib: Lib, cat: Option<Answers>, s: Subject) returns (desired: seq<Desired>)
    ensures desired == DesiredFor(lib, cat, s)
  {
    hide PlanOne, MapSpec, Elems;
    var mapped := MapIdentity(lib, s.rules, s.email, s.groups);
    desired := [];
    for i := 0 to |mapped|
      invariant desired == Plan(lib, cat, mapped[..i], s.protected)
    {
      assert mapped[..i + 1][..i] == mapped[..i];
      var grant := DesiredGrant(lib, cat, mapped[i], s.protected);
      if |grant.roles| == 0 {
        continue;
      }
      desired := desired + [grant];
    }
    assert mapped[..|mapped|] == mapped;
  }

  /** The loop body: a failed lookup keeps the explicit roles, no catalog at all leaves nothing to expand against. */
  method DesiredGrant(lib: Lib, cat: Option<Answers>, mg: Mapped, protected: seq<string>) returns (grant: Desired)
    ensures grant == PlanOne(lib, cat, mg, protected)
  {
    hide Expanded, Elems;
    grant := Desired(mg.project, "", mg.roles);
    if cat.None? {
      var roles := ExpandRoles(lib, mg, [], protected);
      grant := grant.(roles := roles);
    } else {
      var answer := cat.value;
      var lookup := answer(mg.project);
      if lookup.Some? {
        var roles := ExpandRoles(lib, mg, lookup.value.roles, protected);
        grant := grant.(projectGrantId := lookup.value.projectGrantId, roles := roles);
      }
    }
  }

  method RoleEntries(lib: Lib, cat: Option<Answers>, s: Subject) returns (entries: seq<string>)
    ensures entries == EntriesFor(lib, cat, s)
  {
    hide EntriesOne, MapSpec, Elems;
    entries := [];
    if cat.None? {
      return;
    }
    var answer := cat.value;
    var mapped := MapIdentity(lib, s.rules, s.email, s.groups);
    for i := 0 to |mapped|
      invariant entries == Entries(lib, answer, mapped[..i], s.protected)
    {
      assert mapped[..i + 1][..i] == mapped[..i];
      var more := ProjectEntries(lib, answer, mapped[i], s.protected);
      entries := entries + more;
    }
    assert mapped[..|mapped|] == mapped;
  }

  /** The loop body: projects without a catalog answer or a name contribute nothing. */
  method ProjectEntries(lib: Lib, answer: Answers, mg: Mapped, protected: seq<string>) returns (entries: seq<string>)
    ensures entries == EntriesOne(lib, answer, mg, protected)
  {
    hide Expanded, Elems, SortedSeq;
    entries := [];
    var lookup := answer(mg.project);
    if lookup.None? || lookup.value.name == "" {
      return;
    }
    var info := lookup.value;
    var roles := ExpandRoles(lib, mg, info.roles, protected);
    for j := 0 to |roles|
      invariant entries == Labels(info.name, roles)[..j]
    {
      entries := entries + [info.name + ":" + roles[j]];
    }
  }

  /** `mergeClaimEntries`. */
  method MergeClaimEntries(groups: seq<string>, entries: seq<string>) returns (merged: seq<string>, added: nat)
    ensures merged == SortedSeq(Elems(groups) + Elems(entries))
    ensures added == |Elems(groups) + Elems(entries)| - |Elems(groups)|
  {
    hide Elems, Distinct;
    merged := [];
    ElemsEmpty(merged);
    var seen: set<string> := {};
    for i := 0 to |groups|
      invariant seen == Elems(merged) == Elems(groups[..i]) && Distinct(merged)
    {
      ElemsSnoc(groups[..i], groups[i]);
      assert groups[..i + 1] == groups[..i] + [groups[i]];
      if groups[i] in seen {
        assert seen + {groups[i]} == seen;
        continue;
      }
      ElemsSnoc(merged, groups[i]);
      seen := seen + {groups[i]};
      merged := merged + [groups[i]];
    }
    assert groups[..|groups|] == groups;
    added := 0;
    ElemsEmpty(entries[..0]);
    for i := 0 to |entries|
      invariant seen == Elems(merged) == Elems(groups) + Elems(entries[..i]) && Distinct(merged)
      invariant |seen| == |Elems(groups)| + added
    {
      ElemsSnoc(entries[..i], entries[i]);
      assert entries[..i + 1] == entries[..i] + [entries[i]];
      if entries[i] in seen {
        assert Elems(groups) + (Elems(entries[..i]) + {entries[i]}) == seen;
        continue;
      }
      ElemsSnoc(merged, entries[i]);
      seen := seen + {entries[i]};
      merged := merged + [entries[i]];
      added := added + 1;
    }
    assert entries[..|entries|] == entries;
    SortOfDistinct(merged);
    merged := Sort(merged);
  }

  /** The claim the webhook answers with (pkg/server/zitadel_handler.go). */
  method AssembleClaim(groups: seq<string>, payload: seq<string>, computed: seq<string>,
                       appendRoleClaims: bool, roleClaimsOnly: bool, employee: Option<string>)
    returns (claim: seq<string>, roleEntries: nat)
    ensures appendRoleClaims || employee.Some? ==>
      claim == SortedSeq(ClaimSet(groups, payload, computed, appendRoleClaims, roleClaimsOnly, employee))
    ensures !appendRoleClaims && employee.None? ==> claim == groups
    ensures !appendRoleClaims ==> roleEntries == 0
    ensures appendRoleClaims ==>
      var base := BaseSet(groups, roleClaimsOnly);
      roleEntries == |base + (Elems(payload) + Elems(computed))| - |base|
  {
    hide Elems, SortedSeq;
    claim, roleEntries := groups, 0;
    if appendRoleClaims {
      var base := if roleClaimsOnly then [] else groups;
      ElemsEmpty(base);
      ElemsConcat(payload, computed);
      claim, roleEntries := MergeClaimEntries(base, payload + computed);
    }
    if employee.Some? {
      var ignored: nat;
      OneElem(employee.value);
      claim, ignored := MergeClaimEntries(claim, [employee.value]);
    } else {
      assert appendRoleClaims ==> Elems(claim) + {} == Elems(claim);
    }
  }

  lemma OneElem(x: string)
    ensures Elems([x]) == {x}
  {
  }

  ghost function BaseSet(groups: seq<string>, roleClaimsOnly: bool): set<string> {
    if roleClaimsOnly then {} else Elems(groups)
  }

  ghost function ClaimSet(groups: seq<string>, payload: seq<string>, computed: seq<string>,
                          appendRoleClaims: bool, roleClaimsOnly: bool, employee: Option<string>): set<string> {
    (if appendRoleClaims then BaseSet(groups, roleClaimsOnly) + (Elems(payload) + Elems(computed)) else Elems(groups))
    + if employee.Some? then {employee.value} else {}
  }

  lemma ElemsConcat(a: seq<string>, b: seq<string>)
    ensures Elems(a + b) == Elems(a) + Elems(b)
  {
    assert forall x :: x in a + b <==> x in a || x in b;
  }

  /* Laws */

  /** One desired grant spelled out; it counts when the catalog knows the project's name. */
  ghost function Spell(answer: Answers, d: Desired): seq<string> {
    match answer(d.project)
    case None => []
    case Some(info) => if info.name == "" then [] else Labels(info.name, d.roles)
  }

  ghost function Flatten(answer: Answers, desired: seq<Desired>): seq<string> {
    if desired == [] then []
    else var n := |desired| - 1; Flatten(answer, desired[..n]) + Spell(answer, desired[n])
  }

  lemma EntriesOneIsSpelled(lib: Lib, answer: Answers, m: Mapped, protected: seq<string>)
    ensures EntriesOne(lib, answer, m, protected) == Spell(answer, PlanOne(lib, Some(answer), m, protected))
    ensures PlanOne(lib, Some(answer), m, protected).roles == [] ==> EntriesOne(lib, answer, m, protected) == []
  {
    hide Expanded, Elems;
  }

  lemma {:induction false} EntriesArePlan(lib: Lib, answer: Answers, mapped: seq<Mapped>, protected: seq<string>)
    ensures Entries(lib, answer, mapped, protected) == Flatten(answer, Plan(lib, Some(answer), mapped, protected))
  {
    hide PlanOne, EntriesOne, Spell;
    if mapped != [] {
      var n := |mapped| - 1;
      EntriesArePlan(lib, answer, mapped[..n], protected);
      EntriesOneIsSpelled(lib, answer, mapped[n], protected);
      var before := Plan(lib, Some(answer), mapped[..n], protected);
      var d := PlanOne(lib, Some(answer), mapped[n], protected);
      assert (before + [d])[..|before|] == before && before + [] == before;
      assert Flatten(answer, before) + [] == Flatten(answer, before);
    }
  }

  /** The claim's computed entries and the synced grants agree, given the same catalog answers. */
  lemma ClaimAgreesWithGrants(lib: Lib, answer: Answers, s: Subject)
    ensures EntriesFor(lib, Some(answer), s) == Flatten(answer, DesiredFor(lib, Some(answer), s))
    ensures EntriesFor(lib, None, s) == []
  {
    EntriesArePlan(lib, answer, MapSpec(lib, s.rules, s.email, Elems(s.groups)), s.protected);
  }

  lemma {:induction false} PlanMembers(lib: Lib, cat: Option<Answers>, mapped: seq<Mapped>, protected: seq<string>, d: Desired)
    ensures d in Plan(lib, cat, mapped, protected) <==>
      d.roles != [] && exists m :: m in mapped && d == PlanOne(lib, cat, m, protected)
  {
    hide PlanOne;
    if mapped != [] {
      var n := |mapped| - 1;
      PlanMembers(lib, cat, mapped[..n], protected, d);
      assert mapped == mapped[..n] + [mapped[n]];
    }
  }

  /** A role a plan holds beyond the explicit ones came through a pattern, so it is not protected. */
  lemma PlanOneProtected(lib: Lib, cat: Option<Answers>, s: Subject, m: Mapped, k: string)
    requires m in MapSpec(lib, s.rules, s.email, Elems(s.groups))
    requires k in PlanOne(lib, cat, m, s.protected).roles && k in s.protected
    ensures exists g :: Grants(lib, s.rules, s.email, Elems(s.groups), g) && g.project == m.project && k in g.roles
  {
    hide MapSpec, Expanded;
    var d := PlanOne(lib, cat, m, s.protected);
    assert k in Elems(d.roles) && k in Elems(s.protected);
    if cat.Some? && cat.value(m.project).None? {
      AnswerMeaning(lib, s.rules, s.email, Elems(s.groups));
      assert k in RolesIn(MapSpec(lib, s.rules, s.email, Elems(s.groups)), m.project);
    } else {
      var available := if cat.None? then [] else cat.value(m.project).value.roles;
      ProtectedOnlyExplicit(lib, s.rules, s.email, Elems(s.groups), m, available, Elems(s.protected), k);
    }
  }

  /**
   * Write discipline of the plan: no desired grant is empty, each is for a project some matching
   * rule mentions, and a protected role is in it only if a matching rule lists that role for that project.
   */
  lemma PlanDiscipline(lib: Lib, cat: Option<Answers>, s: Subject, d: Desired)
    requires d in DesiredFor(lib, cat, s)
    ensures d.roles != []
    ensures exists g :: Grants(lib, s.rules, s.email, Elems(s.groups), g) && g.project == d.project
    ensures forall k :: k in d.roles && k in s.protected ==>
      exists g :: Grants(lib, s.rules, s.email, Elems(s.groups), g) && g.project == d.project && k in g.roles
  {
    hide MapSpec, Grants, Elems;
    var mapped := MapSpec(lib, s.rules, s.email, Elems(s.groups));
    PlanMembers(lib, cat, mapped, s.protected, d);
    AnswerMeaning(lib, s.rules, s.email, Elems(s.groups));
    var m :| m in mapped && d == PlanOne(lib, cat, m, s.protected);
    assert d.project in ProjectsIn(mapped);
    forall k | k in d.roles && k in s.protected
      ensures exists g :: Grants(lib, s.rules, s.email, Elems(s.groups), g) && g.project == d.project && k in g.roles
    {
      PlanOneProtected(lib, cat, s, m, k);
    }
  }

  /** Without a matching rule nothing is desired. */
  lemma ClosedGatePlansNothing(lib: Lib, cat: Option<Answers>, s: Subject)
    requires !RulesApply(lib, s.rules, s.email, s.groups)
    ensures DesiredFor(lib, cat, s) == [] && EntriesFor(lib, cat, s) == []
  {
    ClosedGateGrantsNothing(lib, s.rules, s.email, s.groups);
  }
}
