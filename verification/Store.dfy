/** User grants as the identity provider stores them, and one user's grants seen by project. */
module Store {
  import opened Roles
  import opened Wrappers

  datatype Record = Record(org: string, user: string, project: string, projectGrantId: string, roles: seq<string>)

  /** All user grants of the instance, by grant id. */
  type Table = map<string, Record>

  /** What a user holds on one project. */
  datatype Val = Val(projectGrantId: string, roles: seq<string>)

  /** One user's grants in one org, by project. */
  type ByProject = map<string, Val>

  /** A grant that should exist. */
  datatype Desired = Desired(project: string, projectGrantId: string, roles: seq<string>)

  predicate Owned(r: Record, org: string, user: string) {
    r.org == org && r.user == user
  }

  /** The grants a Sync of this user in this org may see and touch. */
  function Slice(t: Table, org: string, user: string): Table {
    map id | id in t && Owned(t[id], org, user) :: t[id]
  }

  function Others(t: Table, org: string, user: string): Table {
    map id | id in t && !Owned(t[id], org, user) :: t[id]
  }

  /** The user holds at most one grant per project in the org. */
  ghost predicate Unique(t: Table, org: string, user: string) {
    forall i, j :: i in t && j in t && Owned(t[i], org, user) && Owned(t[j], org, user) && t[i].project == t[j].project
      ==> i == j
  }

  /** At most one grant per org, user and project. */
  ghost predicate AtMostOne(t: Table) {
    forall org, user :: Unique(t, org, user)
  }

  ghost function View(t: Table, org: string, user: string): ByProject
    requires Unique(t, org, user)
  {
    map id | id in t && Owned(t[id], org, user) :: t[id].project := Val(t[id].projectGrantId, t[id].roles)
  }

  function At<V>(m: map<string, V>, project: string): Option<V> {
    if project in m then Some(m[project]) else None
  }

  /** The last entry for a project wins (`desiredByProject`). */
  function WantOf(desired: seq<Desired>): (want: map<string, Desired>)
    ensures forall p :: p in want ==> want[p] in desired && want[p].project == p
  {
    if desired == [] then map[]
    else var d := desired[|desired| - 1]; WantOf(desired[..|desired| - 1])[d.project := d]
  }

  lemma {:induction false} WantOfLastWins(desired: seq<Desired>, i: nat)
    requires i < |desired|
    ensures desired[i].project in WantOf(desired)
    ensures (forall j :: i < j < |desired| ==> desired[j].project != desired[i].project)
            ==> WantOf(desired)[desired[i].project] == desired[i]
  {
    if i < |desired| - 1 {
      WantOfLastWins(desired[..|desired| - 1], i);
    }
  }

  /** The grant set a fully successful Sync must leave, given what was there before. */
  function Final(before: ByProject, want: map<string, Desired>): ByProject {
    map p | p in want ::
      if p !in before then Val(want[p].projectGrantId, want[p].roles)
      else if RolesEqual(before[p].roles, want[p].roles) then before[p]
      else Val(before[p].projectGrantId, want[p].roles)
  }

  /** Projects on which two grant sets disagree. */
  function Disagreement(a: ByProject, b: ByProject): set<string> {
    set p | p in a.Keys + b.Keys && At(a, p) != At(b, p)
  }

  /** Every project is at its old or at its wanted value. */
  ghost predicate Between(now: ByProject, before: ByProject, after: ByProject) {
    forall p :: At(now, p) == At(before, p) || At(now, p) == At(after, p)
  }

  lemma FinalIdempotent(before: ByProject, want: map<string, Desired>)
    ensures Final(Final(before, want), want) == Final(before, want)
  {
  }

  /** A half-done Sync does not change where a later one ends. */
  lemma FinalFromBetween(now: ByProject, before: ByProject, want: map<string, Desired>)
    requires Between(now, before, Final(before, want))
    ensures Final(now, want) == Final(before, want)
  {
    forall p | p in want ensures Final(now, want)[p] == Final(before, want)[p] {
      assert At(now, p) == At(before, p) || At(now, p) == At(Final(before, want), p);
    }
  }

  /** Bringing one project to its target takes exactly that project out of the disagreement. */
  lemma OneStepCloser(now: ByProject, next: ByProject, after: ByProject, project: string)
    requires forall p :: p != project ==> At(now, p) == At(next, p)
    requires At(now, project) != At(after, project) && At(next, project) == At(after, project)
    ensures |Disagreement(now, after)| == |Disagreement(next, after)| + 1
  {
    assert Disagreement(now, after) == Disagreement(next, after) + {project} by {
      forall p ensures p in Disagreement(now, after) <==> p in Disagreement(next, after) + {project} {
        assert p != project ==> At(now, p) == At(next, p);
      }
    }
    assert project !in Disagreement(next, after);
  }

  /* How the three writes change a user's grants by project */

  ghost predicate Represents(v: ByProject, t: Table, org: string, user: string) {
    && (forall id :: id in t && Owned(t[id], org, user) ==>
          t[id].project in v && v[t[id].project] == Val(t[id].projectGrantId, t[id].roles))
    && (forall p :: p in v ==> HasGrant(t, org, user, p))
  }

  ghost predicate HasGrant(t: Table, org: string, user: string, project: string) {
    exists id :: id in t && Owned(t[id], org, user) && t[id].project == project
  }

  lemma ViewRepresents(t: Table, org: string, user: string)
    requires Unique(t, org, user)
    ensures Represents(View(t, org, user), t, org, user)
  {
  }

  lemma RepresentedView(v: ByProject, t: Table, org: string, user: string)
    requires Unique(t, org, user) && Represents(v, t, org, user)
    ensures View(t, org, user) == v
  {
    var w := View(t, org, user);
    ViewRepresents(t, org, user);
    forall p ensures At(w, p) == At(v, p) {
      if HasGrant(t, org, user, p) {
        var id :| id in t && Owned(t[id], org, user) && t[id].project == p;
        assert w[p] == v[p];
      }
    }
    SameAtSameMap(w, v);
  }

  lemma ViewAdd(t: Table, id: string, r: Record)
    requires Unique(t, r.org, r.user) && id !in t && r.project !in View(t, r.org, r.user)
    ensures Unique(t[id := r], r.org, r.user)
    ensures View(t[id := r], r.org, r.user) == View(t, r.org, r.user)[r.project := Val(r.projectGrantId, r.roles)]
    ensures Others(t[id := r], r.org, r.user) == Others(t, r.org, r.user)
  {
    hide View;
    var n := t[id := r];
    var v := View(t, r.org, r.user)[r.project := Val(r.projectGrantId, r.roles)];
    ViewRepresents(t, r.org, r.user);
    forall p | p in v ensures HasGrant(n, r.org, r.user, p) {
      if p == r.project {
        assert n[id] == r;
      } else {
        var i :| i in t && Owned(t[i], r.org, r.user) && t[i].project == p;
        assert n[i] == t[i];
      }
    }
    RepresentedView(v, n, r.org, r.user);
  }

  lemma ViewUpdate(t: Table, id: string, roles: seq<string>)
    requires id in t && Unique(t, t[id].org, t[id].user)
    ensures Unique(t[id := t[id].(roles := roles)], t[id].org, t[id].user)
    ensures var r := t[id];
      View(t[id := r.(roles := roles)], r.org, r.user) == View(t, r.org, r.user)[r.project := Val(r.projectGrantId, roles)]
    ensures var r := t[id];
      Others(t[id := r.(roles := roles)], r.org, r.user) == Others(t, r.org, r.user)
  {
    hide View;
    var r := t[id];
    var n := t[id := r.(roles := roles)];
    var v := View(t, r.org, r.user)[r.project := Val(r.projectGrantId, roles)];
    ViewRepresents(t, r.org, r.user);
    forall p | p in v ensures HasGrant(n, r.org, r.user, p) {
      if p == r.project {
        assert n[id].project == p;
      } else {
        var i :| i in t && Owned(t[i], r.org, r.user) && t[i].project == p;
        assert n[i] == t[i];
      }
    }
    RepresentedView(v, n, r.org, r.user);
  }

  lemma ViewRemove(t: Table, id: string)
    requires id in t && Unique(t, t[id].org, t[id].user)
    ensures Unique(t - {id}, t[id].org, t[id].user)
    ensures var r := t[id]; View(t - {id}, r.org, r.user) == View(t, r.org, r.user) - {r.project}
    ensures var r := t[id]; Others(t - {id}, r.org, r.user) == Others(t, r.org, r.user)
  {
    hide View;
    var r := t[id];
    var n := t - {id};
    var v := View(t, r.org, r.user) - {r.project};
    ViewRepresents(t, r.org, r.user);
    forall p | p in v ensures HasGrant(n, r.org, r.user, p) {
      var i :| i in t && Owned(t[i], r.org, r.user) && t[i].project == p;
      assert n[i] == t[i];
    }
    RepresentedView(v, n, r.org, r.user);
  }

  lemma SameAtSameMap(a: ByProject, b: ByProject)
    requires forall p :: At(a, p) == At(b, p)
    ensures a == b
  {
    forall p ensures p in a <==> p in b {
      assert At(a, p) == At(b, p);
    }
    forall p | p in a ensures a[p] == b[p] {
      assert At(a, p) == At(b, p);
    }
  }

  /** What a user holds elsewhere depends only on the grants outside the slice. */
  lemma ViewOfOthers(t: Table, n: Table, org: string, user: string, org': string, user': string)
    requires Others(t, org, user) == Others(n, org, user)
    requires org != org' || user != user'
    ensures Slice(t, org', user') == Slice(n, org', user')
    ensures Unique(t, org', user') ==> Unique(n, org', user') && View(t, org', user') == View(n, org', user')
  {
    assert Slice(t, org', user') == Slice(n, org', user') by {
      forall id ensures (id in Slice(t, org', user') <==> id in Slice(n, org', user'))
                     && (id in Slice(t, org', user') ==> t[id] == n[id])
      {
        assert id in Slice(t, org', user') ==> id in Others(t, org, user) && Others(t, org, user)[id] == t[id];
        assert id in Slice(n, org', user') ==> id in Others(n, org, user) && Others(n, org, user)[id] == n[id];
      }
    }
    if Unique(t, org', user') {
      SameSliceSameView(t, n, org', user');
    }
  }

  lemma SameSliceSameView(t: Table, n: Table, org: string, user: string)
    requires Unique(t, org, user) && Slice(t, org, user) == Slice(n, org, user)
    ensures Unique(n, org, user) && View(t, org, user) == View(n, org, user)
  {
    var v := View(t, org, user);
    ViewRepresents(t, org, user);
    forall id | id in n && Owned(n[id], org, user) ensures id in t && t[id] == n[id] {
      assert id in Slice(n, org, user) && Slice(t, org, user)[id] == n[id];
    }
    forall p | p in v ensures HasGrant(n, org, user, p) {
      var i :| i in t && Owned(t[i], org, user) && t[i].project == p;
      assert i in Slice(t, org, user) && Slice(n, org, user)[i] == t[i];
    }
    RepresentedView(v, n, org, user);
  }
}
