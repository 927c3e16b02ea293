/** The rule engine: which grants an org's rules give one user (pkg/mapper/rules.go, match.go). */
module Mapper {
  import opened Strings

  /**
   * The two library calls the engine makes. `fold` picks the representative of a string's
   * case-folding class, so `strings.EqualFold(a, b)` is `fold(a) == fold(b)`; `glob(p, s)` is
   * `path.Match` on a pattern whose syntax was validated when the configuration was loaded.
   */
  datatype Lib = Lib(fold: string -> string, glob: (string, string) -> bool)

  datatype Grant = Grant(project: string, roles: seq<string>, patterns: seq<string>)
  datatype Rule = Rule(group: string, users: seq<string>, grants: seq<Grant>)
  datatype Mapped = Mapped(project: string, roles: seq<string>, patterns: seq<string>)

  predicate RuleMatches(lib: Lib, rule: Rule, email: string, groups: set<string>) {
    || (rule.group != "" && rule.group in groups)
    || (email != "" && exists u :: u in rule.users && lib.fold(u) == lib.fold(email))
  }

  predicate RulesNameUser(lib: Lib, rules: seq<Rule>, email: string) {
    exists r, u :: r in rules && u in r.users && lib.fold(u) == lib.fold(email)
  }

  /** The webhook's gate before it syncs (pkg/server/zitadel_handler.go). */
  predicate RulesApply(lib: Lib, rules: seq<Rule>, email: string, groups: seq<string>) {
    |rules| > 0 && (|groups| > 0 || RulesNameUser(lib, rules, email))
  }

  /* Specification: the grants of all matching rules, and the sets they amount to. */

  function Matching(lib: Lib, rules: seq<Rule>, email: string, groups: set<string>): seq<Grant> {
    if rules == [] then []
    else
      var n := |rules| - 1;
      Matching(lib, rules[..n], email, groups)
      + (if RuleMatches(lib, rules[n], email, groups) then rules[n].grants else [])
  }

  ghost predicate Grants(lib: Lib, rules: seq<Rule>, email: string, groups: set<string>, g: Grant) {
    exists r :: r in rules && RuleMatches(lib, r, email, groups) && g in r.grants
  }

  lemma {:induction false} MatchingIsGrants(lib: Lib, rules: seq<Rule>, email: string, groups: set<string>, g: Grant)
    ensures g in Matching(lib, rules, email, groups) <==> Grants(lib, rules, email, groups, g)
  {
    if rules != [] {
      var n := |rules| - 1;
      MatchingIsGrants(lib, rules[..n], email, groups, g);
      assert rules == rules[..n] + [rules[n]];
    }
  }

  function Projects(gs: seq<Grant>): set<string> {
    set g | g in gs :: g.project
  }

  function RolesOf(gs: seq<Grant>, project: string): set<string> {
    set g, k | g in gs && g.project == project && k in g.roles :: k
  }

  function PatternsOf(gs: seq<Grant>, project: string): set<string> {
    set g, k | g in gs && g.project == project && k in g.patterns :: k
  }

  ghost function Entry(gs: seq<Grant>, project: string): Mapped {
    Mapped(project, SortedSeq(RolesOf(gs, project)), SortedSeq(PatternsOf(gs, project)))
  }

  /** One entry per mentioned project, by project, with the sorted unions of roles and patterns. */
  ghost function Aggregate(gs: seq<Grant>): seq<Mapped> {
    var ps := SortedSeq(Projects(gs));
    seq(|ps|, i requires 0 <= i < |ps| => Entry(gs, ps[i]))
  }

  ghost function MapSpec(lib: Lib, rules: seq<Rule>, email: string, groups: set<string>): seq<Mapped> {
    Aggregate(Matching(lib, rules, email, groups))
  }

  /* sort.Slice by project */

  ghost predicate ByProject(s: seq<Mapped>) {
    forall i, j :: 0 <= i < j < |s| ==> Less(s[i].project, s[j].project)
  }

  function InsertMapped(m: Mapped, s: seq<Mapped>): (r: seq<Mapped>)
    ensures forall x :: x in r <==> x in s || x == m
    ensures ByProject(s) && (forall x :: x in s ==> x.project != m.project) ==> ByProject(r)
  {
    if s == [] then [m]
    else if Less(m.project, s[0].project) then
      assert ByProject(s) ==> ByProject([m] + s) by {
        forall i | 0 <= i < |s| && ByProject(s) ensures Less(m.project, s[i].project) {
          if i > 0 {
            LessTransitive(m.project, s[0].project, s[i].project);
          }
        }
      }
      [m] + s
    else
      var t := InsertMapped(m, s[1..]);
      assert s == [s[0]] + s[1..];
      assert ByProject(s) && (forall x :: x in s ==> x.project != m.project) ==> ByProject([s[0]] + t) by {
        LessTotal(m.project, s[0].project);
        forall x | x in t && ByProject(s) && (forall y :: y in s ==> y.project != m.project)
          ensures Less(s[0].project, x.project)
        {
          assert s[0] in s;
        }
      }
      [s[0]] + t
  }

  function SortByProject(s: seq<Mapped>): (r: seq<Mapped>)
    ensures forall x :: x in r <==> x in s
    ensures (forall i, j :: 0 <= i < j < |s| ==> s[i].project != s[j].project) ==> ByProject(r)
  {
    if s == [] then []
    else
      assert s == [s[0]] + s[1..];
      InsertMapped(s[0], SortByProject(s[1..]))
  }

  ghost function ProjectList(s: seq<Mapped>): seq<string> {
    seq(|s|, i requires 0 <= i < |s| => s[i].project)
  }

  lemma ByProjectUnique(a: seq<Mapped>, b: seq<Mapped>)
    requires ByProject(a) && ByProject(b) && forall x :: x in a <==> x in b
    ensures a == b
  {
    var p, q := ProjectList(a), ProjectList(b);
    SameProjects(a, b);
    SameProjects(b, a);
    StrictUnique(p, q);
    StrictIsSortedAndDistinct(p);
    forall i | 0 <= i < |a| ensures a[i] == b[i] {
      assert a[i] in b;
      var j :| 0 <= j < |b| && b[j] == a[i];
      assert q[j] == p[i];
    }
  }

  lemma SameProjects(a: seq<Mapped>, b: seq<Mapped>)
    requires forall x :: x in a ==> x in b
    ensures Elems(ProjectList(a)) <= Elems(ProjectList(b))
  {
    forall p | p in ProjectList(a) ensures p in ProjectList(b) {
      var i :| 0 <= i < |a| && a[i].project == p;
      assert a[i] in b;
      var j :| 0 <= j < |b| && b[j] == a[i];
      assert ProjectList(b)[j] == p;
    }
  }

  lemma AggregateByProject(gs: seq<Grant>)
    ensures ByProject(Aggregate(gs))
    ensures forall m :: m in Aggregate(gs) <==> m.project in Projects(gs) && m == Entry(gs, m.project)
  {
    var ps := SortedSeq(Projects(gs));
    var r := Aggregate(gs);
    forall m ensures m in r <==> m.project in Projects(gs) && m == Entry(gs, m.project) {
      if m.project in Projects(gs) && m == Entry(gs, m.project) {
        assert m.project in Elems(ps);
        var i :| 0 <= i < |ps| && ps[i] == m.project;
        assert r[i] == m;
      }
      if m in r {
        var i :| 0 <= i < |r| && r[i] == m;
        assert ps[i] in Elems(ps);
      }
    }
  }

  /* The loops */

  /**
   * `MapIdentity`: the nested accumulation over rules and grants, then the walk over the
   * accumulated map in whatever order the runtime yields it, then the sort.
   */
  method MapIdentity(lib: Lib, rules: seq<Rule>, email: string, groups: seq<string>) returns (result: seq<Mapped>)
    ensures result == MapSpec(lib, rules, email, Elems(groups))
  {
    var groupSet := Elems(groups);
    var projectRoles: map<string, set<string>> := map[];
    var projectPatterns: map<string, set<string>> := map[];
    for i := 0 to |rules|
      invariant Accumulated(Matching(lib, rules[..i], email, groupSet), projectRoles, projectPatterns)
    {
      assert rules[..i + 1][..i] == rules[..i];
      if !RuleMatches(lib, rules[i], email, groupSet) {
        continue;
      }
      projectRoles, projectPatterns := AddGrants(
        Matching(lib, rules[..i], email, groupSet), rules[i].grants, projectRoles, projectPatterns);
    }
    assert rules[..|rules|] == rules;
    result := Collect(Matching(lib, rules, email, groupSet), projectRoles, projectPatterns);
  }

  method AddGrants(ghost before: seq<Grant>, grants: seq<Grant>,
                   roles: map<string, set<string>>, patterns: map<string, set<string>>)
    returns (projectRoles: map<string, set<string>>, projectPatterns: map<string, set<string>>)
    requires Accumulated(before, roles, patterns)
    ensures Accumulated(before + grants, projectRoles, projectPatterns)
  {
    hide Projects, RolesOf, PatternsOf, Elems;
    projectRoles, projectPatterns := roles, patterns;
    assert before + grants[..0] == before;
    for j := 0 to |grants|
      invariant Accumulated(before + grants[..j], projectRoles, projectPatterns)
    {
      var g := grants[j];
      AccumulateOne(before + grants[..j], g);
      assert before + grants[..j + 1] == before + grants[..j] + [g];
      if g.project !in projectRoles {
        projectRoles := projectRoles[g.project := {}];
        projectPatterns := projectPatterns[g.project := {}];
      }
      projectRoles := projectRoles[g.project := projectRoles[g.project] + Elems(g.roles)];
      projectPatterns := projectPatterns[g.project := projectPatterns[g.project] + Elems(g.patterns)];
    }
    assert grants[..|grants|] == grants;
  }

  method Collect(ghost gs: seq<Grant>, projectRoles: map<string, set<string>>, projectPatterns: map<string, set<string>>)
    returns (result: seq<Mapped>)
    requires Accumulated(gs, projectRoles, projectPatterns)
    ensures result == Aggregate(gs)
  {
    hide RolesOf, PatternsOf, Projects, SortedSeq, SortByProject, ByProject, Aggregate;
    result := [];
    var todo := projectRoles.Keys;
    while todo != {}
      invariant todo <= projectRoles.Keys
      invariant Collected(gs, projectRoles.Keys - todo, result)
      decreases todo
    {
      var project :| project in todo;
      var roles := SortedKeys(projectRoles[project]);
      var patterns := SortedKeys(projectPatterns[project]);
      CollectOne(gs, projectRoles.Keys - todo, result, project);
      assert projectRoles.Keys - (todo - {project}) == projectRoles.Keys - todo + {project};
      result := result + [Mapped(project, roles, patterns)];
      todo := todo - {project};
    }
    result := SortByProject(result);
    AggregateByProject(gs);
    ByProjectUnique(result, Aggregate(gs));
  }

  ghost predicate Collected(gs: seq<Grant>, done: set<string>, result: seq<Mapped>) {
    && (forall m :: m in result <==> m.project in done && m == Entry(gs, m.project))
    && forall a, b :: 0 <= a < b < |result| ==> result[a].project != result[b].project
  }

  lemma CollectOne(gs: seq<Grant>, done: set<string>, result: seq<Mapped>, project: string)
    requires Collected(gs, done, result) && project !in done
    ensures Collected(gs, done + {project}, result + [Entry(gs, project)])
  {
    var longer := result + [Entry(gs, project)];
    assert forall a :: 0 <= a < |result| ==> result[a] in result;
    forall m ensures m in longer <==> m.project in done + {project} && m == Entry(gs, m.project) {
      assert m in longer <==> m in result || m == Entry(gs, project);
    }
  }

  ghost predicate Accumulated(gs: seq<Grant>, roles: map<string, set<string>>, patterns: map<string, set<string>>) {
    && roles.Keys == patterns.Keys == Projects(gs)
    && forall p :: p in roles ==> roles[p] == RolesOf(gs, p) && patterns[p] == PatternsOf(gs, p)
  }

  lemma AccumulateOne(gs: seq<Grant>, g: Grant)
    ensures Projects(gs + [g]) == Projects(gs) + {g.project}
    ensures forall p :: RolesOf(gs + [g], p) == RolesOf(gs, p) + if p == g.project then Elems(g.roles) else {}
    ensures forall p :: PatternsOf(gs + [g], p) == PatternsOf(gs, p) + if p == g.project then Elems(g.patterns) else {}
    ensures forall p :: p !in Projects(gs) ==> RolesOf(gs, p) == {} && PatternsOf(gs, p) == {}
  {
    assert forall x :: x in gs + [g] <==> x in gs || x == g;
  }

  /** The role keys a mapped grant stands for, given the project's catalog roles. */
  ghost function Expanded(lib: Lib, g: Mapped, available: seq<string>, protected: set<string>): set<string> {
    Elems(g.roles)
    + set k, p | k in available && k !in protected && p in g.patterns && lib.glob(p, k) :: k
  }

  method ExpandRoles(lib: Lib, g: Mapped, available: seq<string>, protectedRoles: seq<string>) returns (r: seq<string>)
    ensures r == SortedSeq(Expanded(lib, g, available, Elems(protectedRoles)))
  {
    var roleSet := Elems(g.roles);
    var protected := Elems(protectedRoles);
    for i := 0 to |g.patterns|
      invariant roleSet == Elems(g.roles)
                           + set k, p | k in available && k !in protected && p in g.patterns[..i] && lib.glob(p, k) :: k
    {
      var pattern := g.patterns[i];
      assert forall p :: p in g.patterns[..i + 1] <==> p in g.patterns[..i] || p == pattern;
      ghost var before := roleSet;
      for j := 0 to |available|
        invariant roleSet == before + set k | k in available[..j] && k !in protected && lib.glob(pattern, k) :: k
      {
        var role := available[j];
        assert available[..j + 1] == available[..j] + [role];
        if role in protected {
          continue;
        }
        if lib.glob(pattern, role) {
          roleSet := roleSet + {role};
        }
      }
      assert available[..|available|] == available;
    }
    assert g.patterns[..|g.patterns|] == g.patterns;
    r := SortedKeys(roleSet);
  }
}
