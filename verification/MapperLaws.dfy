/** What the rule engine's answer means, and how it behaves when rules, groups or emails change. */
module MapperLaws {
  import opened Strings
  import opened Mapper

  /** Role keys (patterns) an answer holds for a project; empty when it has no entry for it. */
  ghost function RolesIn(answer: seq<Mapped>, project: string): set<string> {
    set m, k | m in answer && m.project == project && k in m.roles :: k
  }

  ghost function PatternsIn(answer: seq<Mapped>, project: string): set<string> {
    set m, k | m in answer && m.project == project && k in m.patterns :: k
  }

  ghost function ProjectsIn(answer: seq<Mapped>): set<string> {
    set m | m in answer :: m.project
  }

  lemma AnswerSets(gs: seq<Grant>)
    ensures ProjectsIn(Aggregate(gs)) == Projects(gs)
    ensures forall p :: RolesIn(Aggregate(gs), p) == RolesOf(gs, p)
    ensures forall p :: PatternsIn(Aggregate(gs), p) == PatternsOf(gs, p)
  {
    var a := Aggregate(gs);
    AggregateByProject(gs);
    assert ProjectsIn(a) == Projects(gs) by {
      forall p | p in Projects(gs) ensures p in ProjectsIn(a) {
        assert Entry(gs, p) in a;
      }
    }
    forall p ensures RolesIn(a, p) == RolesOf(gs, p) && PatternsIn(a, p) == PatternsOf(gs, p) {
      var e := Entry(gs, p);
      assert Elems(e.roles) == RolesOf(gs, p) && Elems(e.patterns) == PatternsOf(gs, p);
      assert p in Projects(gs) ==> e in a;
      forall k | k in RolesOf(gs, p) ensures k in RolesIn(a, p) {
        assert k in Elems(e.roles);
      }
      forall k | k in PatternsOf(gs, p) ensures k in PatternsIn(a, p) {
        assert k in Elems(e.patterns);
      }
      forall k | k in RolesIn(a, p) ensures k in RolesOf(gs, p) {
        assert k in Elems(e.roles);
      }
      forall k | k in PatternsIn(a, p) ensures k in PatternsOf(gs, p) {
        assert k in Elems(e.patterns);
      }
    }
  }

  /** The answer in terms of the rules alone: which projects, which roles, which patterns, in which order. */
  lemma AnswerMeaning(lib: Lib, rules: seq<Rule>, email: string, groups: set<string>)
    ensures var answer := MapSpec(lib, rules, email, groups);
      && ByProject(answer)
      && (forall m :: m in answer ==> StrictlySorted(m.roles) && StrictlySorted(m.patterns))
      && (forall p :: p in ProjectsIn(answer) <==>
          exists g :: Grants(lib, rules, email, groups, g) && g.project == p)
      && (forall p, k :: k in RolesIn(answer, p) <==>
          exists g :: Grants(lib, rules, email, groups, g) && g.project == p && k in g.roles)
      && (forall p, k :: k in PatternsIn(answer, p) <==>
          exists g :: Grants(lib, rules, email, groups, g) && g.project == p && k in g.patterns)
  {
    var gs := Matching(lib, rules, email, groups);
    AggregateByProject(gs);
    AnswerSets(gs);
    forall g ensures g in gs <==> Grants(lib, rules, email, groups, g) {
      MatchingIsGrants(lib, rules, email, groups, g);
    }
  }

  /**
   * The answer spelled out. A project, a role on it or a pattern on it is in the answer if and only if
   * some rule's grant lists it, and that rule's own group is not empty and among the user's, or the
   * email is not empty and folds to one of the rule's users.
   */
  lemma AnswerSpelledOut(lib: Lib, rules: seq<Rule>, email: string, groups: set<string>)
    ensures var answer := MapSpec(lib, rules, email, groups);
      && (forall p :: p in ProjectsIn(answer) <==>
          exists r, g :: r in rules && g in r.grants && g.project == p
            && ((r.group != "" && r.group in groups)
                || (email != "" && exists u :: u in r.users && lib.fold(u) == lib.fold(email))))
      && (forall p, k :: k in RolesIn(answer, p) <==>
          exists r, g :: r in rules && g in r.grants && g.project == p && k in g.roles
            && ((r.group != "" && r.group in groups)
                || (email != "" && exists u :: u in r.users && lib.fold(u) == lib.fold(email))))
      && (forall p, k :: k in PatternsIn(answer, p) <==>
          exists r, g :: r in rules && g in r.grants && g.project == p && k in g.patterns
            && ((r.group != "" && r.group in groups)
                || (email != "" && exists u :: u in r.users && lib.fold(u) == lib.fold(email))))
  {
    hide MapSpec;
    AnswerMeaning(lib, rules, email, groups);
  }

  /** Groups no rule names make no difference, whether the user has them or not. */
  lemma UnnamedGroupsIrrelevant(lib: Lib, rules: seq<Rule>, email: string, groups: set<string>, groups': set<string>)
    requires forall r :: r in rules && r.group != "" ==> (r.group in groups <==> r.group in groups')
    ensures MapSpec(lib, rules, email, groups) == MapSpec(lib, rules, email, groups')
  {
    var gs, hs := Matching(lib, rules, email, groups), Matching(lib, rules, email, groups');
    forall g ensures g in gs <==> g in hs {
      MatchingIsGrants(lib, rules, email, groups, g);
      MatchingIsGrants(lib, rules, email, groups', g);
    }
    SameGrantsSameAnswer(gs, hs);
  }

  lemma SameGrantsSameAnswer(gs: seq<Grant>, hs: seq<Grant>)
    requires forall g :: g in gs <==> g in hs
    ensures Aggregate(gs) == Aggregate(hs)
  {
    assert Projects(gs) == Projects(hs);
    forall p ensures Entry(gs, p) == Entry(hs, p) {
      assert RolesOf(gs, p) == RolesOf(hs, p);
      assert PatternsOf(gs, p) == PatternsOf(hs, p);
    }
  }

  /** Two emails the engine cannot tell apart. */
  predicate SameIdentity(lib: Lib, email: string, other: string) {
    email == other || (email != "" && other != "" && lib.fold(email) == lib.fold(other))
  }

  /** Reordering or repeating rules or groups, or changing the email's case, changes nothing. */
  lemma OrderIrrelevant(lib: Lib, rules: seq<Rule>, rules': seq<Rule>, email: string, email': string,
                        groups: seq<string>, groups': seq<string>)
    requires forall r :: r in rules <==> r in rules'
    requires Elems(groups) == Elems(groups') && SameIdentity(lib, email, email')
    ensures MapSpec(lib, rules, email, Elems(groups)) == MapSpec(lib, rules', email', Elems(groups'))
  {
    var gs := Matching(lib, rules, email, Elems(groups));
    var hs := Matching(lib, rules', email', Elems(groups'));
    forall g ensures g in gs <==> g in hs {
      MatchingIsGrants(lib, rules, email, Elems(groups), g);
      MatchingIsGrants(lib, rules', email', Elems(groups'), g);
    }
    SameGrantsSameAnswer(gs, hs);
  }

  /** More rules or more groups never take a project, a role or a pattern away. */
  lemma Monotone(lib: Lib, rules: seq<Rule>, rules': seq<Rule>, email: string, groups: set<string>, groups': set<string>)
    requires (forall r :: r in rules ==> r in rules') && groups <= groups'
    ensures var small, large := MapSpec(lib, rules, email, groups), MapSpec(lib, rules', email, groups');
      && ProjectsIn(small) <= ProjectsIn(large)
      && forall p :: RolesIn(small, p) <= RolesIn(large, p) && PatternsIn(small, p) <= PatternsIn(large, p)
  {
    var gs, hs := Matching(lib, rules, email, groups), Matching(lib, rules', email, groups');
    forall g | g in gs ensures g in hs {
      MatchingIsGrants(lib, rules, email, groups, g);
      MatchingIsGrants(lib, rules', email, groups', g);
    }
    AnswerSets(gs);
    AnswerSets(hs);
  }

  lemma {:induction false} MatchingAppend(lib: Lib, rules: seq<Rule>, more: seq<Rule>, email: string, groups: set<string>)
    ensures Matching(lib, rules + more, email, groups)
         == Matching(lib, rules, email, groups) + Matching(lib, more, email, groups)
  {
    if more == [] {
      assert rules + more == rules;
    } else {
      var n := |more| - 1;
      assert (rules + more)[..|rules + more| - 1] == rules + more[..n];
      MatchingAppend(lib, rules, more[..n], email, groups);
    }
  }

  lemma AppendIsUnion(gs: seq<Grant>, hs: seq<Grant>)
    ensures Projects(gs + hs) == Projects(gs) + Projects(hs)
    ensures forall p :: RolesOf(gs + hs, p) == RolesOf(gs, p) + RolesOf(hs, p)
    ensures forall p :: PatternsOf(gs + hs, p) == PatternsOf(gs, p) + PatternsOf(hs, p)
  {
    assert forall g :: g in gs + hs <==> g in gs || g in hs;
  }

  /** The answer of two rule lists put together is the project-wise union of their answers. */
  lemma ConcatenationIsUnion(lib: Lib, rules: seq<Rule>, more: seq<Rule>, email: string, groups: set<string>)
    ensures var a, b, c := MapSpec(lib, rules, email, groups), MapSpec(lib, more, email, groups),
                           MapSpec(lib, rules + more, email, groups);
      && ProjectsIn(c) == ProjectsIn(a) + ProjectsIn(b)
      && forall p :: RolesIn(c, p) == RolesIn(a, p) + RolesIn(b, p)
                  && PatternsIn(c, p) == PatternsIn(a, p) + PatternsIn(b, p)
  {
    var gs, hs := Matching(lib, rules, email, groups), Matching(lib, more, email, groups);
    MatchingAppend(lib, rules, more, email, groups);
    AnswerSets(gs);
    AnswerSets(hs);
    AnswerSets(gs + hs);
    AppendIsUnion(gs, hs);
  }

  lemma NoMatchNoAnswer(lib: Lib, rules: seq<Rule>, email: string, groups: set<string>)
    requires forall r :: r in rules ==> !RuleMatches(lib, r, email, groups)
    ensures MapSpec(lib, rules, email, groups) == []
  {
    var gs := Matching(lib, rules, email, groups);
    if gs != [] {
      MatchingIsGrants(lib, rules, email, groups, gs[0]);
    }
    assert Projects(gs) == {};
  }

  /** A closed gate withholds nothing: where the webhook skips the sync, the rules grant nothing. */
  lemma ClosedGateGrantsNothing(lib: Lib, rules: seq<Rule>, email: string, groups: seq<string>)
    requires !RulesApply(lib, rules, email, groups)
    ensures MapSpec(lib, rules, email, Elems(groups)) == []
  {
    ElemsEmpty(groups);
    NoMatchNoAnswer(lib, rules, email, Elems(groups));
  }

  /**
   * Without groups the gate is exact for a non-empty email: a rule names the user if and only if
   * some rule matches. (An empty email is named by an empty user entry and matches no rule.)
   */
  lemma NamedIffMatches(lib: Lib, rules: seq<Rule>, email: string)
    ensures email != "" ==>
      (RulesNameUser(lib, rules, email) <==> exists r :: r in rules && RuleMatches(lib, r, email, {}))
    ensures email == "" ==> forall r :: r in rules ==> !RuleMatches(lib, r, email, {})
  {
    if email != "" && RulesNameUser(lib, rules, email) {
      var r, u :| r in rules && u in r.users && lib.fold(u) == lib.fold(email);
      assert RuleMatches(lib, r, email, {});
    }
  }

  /** A protected role comes only from a rule that lists it, never from a pattern. */
  lemma ProtectedOnlyExplicit(lib: Lib, rules: seq<Rule>, email: string, groups: set<string>, m: Mapped,
                              available: seq<string>, protected: set<string>, role: string)
    requires m in MapSpec(lib, rules, email, groups)
    requires role in protected && role in Expanded(lib, m, available, protected)
    ensures exists g :: Grants(lib, rules, email, groups, g) && g.project == m.project && role in g.roles
  {
    AnswerMeaning(lib, rules, email, groups);
    assert role in RolesIn(MapSpec(lib, rules, email, groups), m.project);
  }
}
