/** What Sync promises, for every iteration order, number of pages and pattern of failures. */
module SyncTheorems {
  import opened AnyStore
  import opened Roles
  import opened Store
  import opened SyncMachine
  import opened SyncProof

  /** The user's grants are exactly the wanted ones. */
  ghost predicate Clean(t: Table, job: Job) {
    var want := WantOf(job.desired);
    && Unique(t, job.org, job.user)
    && (forall p :: p in want ==> HasGrant(t, job.org, job.user, p))
    && (forall id :: id in t && Owned(t[id], job.org, job.user) ==>
          t[id].project in want && RolesEqual(t[id].roles, want[t[id].project].roles))
  }

  /**
   * Convergence. A Sync that returns without error leaves one grant per wanted project and no other:
   * a grant that was there keeps its id and project grant, and its very role list if that was
   * already equal to the wanted one; a new grant carries the wanted project grant. Nothing of other
   * users or orgs changes. The counters are the numbers of missing, differing and unwanted projects.
   */
  lemma Convergence(list: Lister, t0: Table, job: Job, acts: seq<Action>)
    requires IsLister(list) && Unique(t0, job.org, job.user) && Returns(list, t0, job, acts)
    ensures var c := Exec(list, t0, job, acts).value;
      var before, want := View(t0, job.org, job.user), WantOf(job.desired);
      && Clean(c.table, job)
      && Others(c.table, job.org, job.user) == Others(t0, job.org, job.user)
      && Survivors(t0, job, want, c.table)
      && (var after := View(c.table, job.org, job.user);
          && after.Keys == want.Keys
          && (forall p :: p in want && p !in before ==> after[p] == Val(want[p].projectGrantId, want[p].roles))
          && (forall p :: p in want && p in before ==> after[p].projectGrantId == before[p].projectGrantId)
          && (forall p :: p in want && p in before && RolesEqual(before[p].roles, want[p].roles) ==> after[p] == before[p])
          && (forall p :: p in want && CommaFree(want[p].roles) ==> multiset(after[p].roles) == multiset(want[p].roles)))
      && c.local.total == Counts(|Missing(before, want)|, |Differing(before, want)|, |Unwanted(before, want)|)
  {
    hide View, WantOf, Final, Unique, Others, Survivors, Clean, RolesEqual, CommaFree, Exec, Inv, Missing, Differing,
         Unwanted, IsLister;
    var c := Exec(list, t0, job, acts).value;
    ExecInv(list, t0, job, acts);
    WhenFinished(list, t0, job, c);
    FinalMeaning(View(t0, job.org, job.user), WantOf(job.desired));
    CleanView(c.table, job);
  }

  /** A Sync that returns leaves the target. */
  lemma ReturnedView(list: Lister, t0: Table, job: Job, acts: seq<Action>)
    requires IsLister(list) && Unique(t0, job.org, job.user) && Returns(list, t0, job, acts)
    ensures var n := Exec(list, t0, job, acts).value.table;
      Unique(n, job.org, job.user)
      && View(n, job.org, job.user) == Final(View(t0, job.org, job.user), WantOf(job.desired))
  {
    hide View, WantOf, Unique, Others, Survivors, RolesEqual, Exec, Inv, IsLister, Final;
    ExecInv(list, t0, job, acts);
    WhenFinished(list, t0, job, Exec(list, t0, job, acts).value);
  }

  lemma WhenFinished(list: Lister, t0: Table, job: Job, c: Conf)
    requires IsLister(list) && Unique(t0, job.org, job.user) && Inv(list, t0, job, c) && c.local.Finished?
    ensures var before, want := View(t0, job.org, job.user), WantOf(job.desired);
      && Unique(c.table, job.org, job.user) && Others(c.table, job.org, job.user) == Others(t0, job.org, job.user)
      && Survivors(t0, job, want, c.table) && View(c.table, job.org, job.user) == Final(before, want)
      && c.local.total == Counts(|Missing(before, want)|, |Differing(before, want)|, |Unwanted(before, want)|)
  {
    hide View, WantOf, Final, Unique, Others, Survivors, Progress, Missing, Differing, Unwanted, IsLister,
         Tally;
  }

  lemma FinalMeaning(before: ByProject, want: map<string, Desired>)
    ensures var after := Final(before, want);
      && after.Keys == want.Keys
      && (forall p :: p in want && p !in before ==> after[p] == Val(want[p].projectGrantId, want[p].roles))
      && (forall p :: p in want && p in before ==> after[p].projectGrantId == before[p].projectGrantId)
      && (forall p :: p in want && p in before && RolesEqual(before[p].roles, want[p].roles) ==> after[p] == before[p])
      && (forall p :: p in want ==> RolesEqual(after[p].roles, want[p].roles))
      && (forall p :: p in want && CommaFree(want[p].roles) ==> multiset(after[p].roles) == multiset(want[p].roles))
  {
    hide RolesEqual, CommaFree;
    var after := Final(before, want);
    forall p | p in want
      ensures RolesEqual(after[p].roles, want[p].roles)
      ensures CommaFree(want[p].roles) ==> multiset(after[p].roles) == multiset(want[p].roles)
    {
      SelfEqual(want[p].roles);
      if CommaFree(want[p].roles) {
        RolesEqualIsMultisetEquality(after[p].roles, want[p].roles);
      }
    }
  }

  lemma SelfEqual(roles: seq<string>)
    ensures RolesEqual(roles, roles)
  {
  }

  lemma CleanView(t: Table, job: Job)
    requires Unique(t, job.org, job.user)
    requires var v, want := View(t, job.org, job.user), WantOf(job.desired);
      v.Keys == want.Keys && forall p :: p in want ==> RolesEqual(v[p].roles, want[p].roles)
    ensures Clean(t, job)
  {
    ViewRepresents(t, job.org, job.user);
  }

  /**
   * Delta-minimality, at every moment of every run: the writes made so far and the projects still
   * wrong add up to the projects that were wrong at the start. So each write settles exactly one
   * project, and a run that returns makes exactly as many writes as there was disagreement.
   */
  lemma EveryWriteSettlesOne(list: Lister, t0: Table, job: Job, acts: seq<Action>)
    requires IsLister(list) && Unique(t0, job.org, job.user) && Exec(list, t0, job, acts).Some?
    ensures var c := Exec(list, t0, job, acts).value;
      var before := View(t0, job.org, job.user);
      var target := Final(before, WantOf(job.desired));
      && Unique(c.table, job.org, job.user)
      && |Disagreement(View(c.table, job.org, job.user), target)| + |c.log| == |Disagreement(before, target)|
      && (c.local.Finished? ==>
            c.local.total.added + c.local.total.updated + c.local.total.removed == |Disagreement(before, target)|)
      && |c.table| + Tally(c.log).removed == |t0| + Tally(c.log).added
  {
    hide View, WantOf, Final, Unique, Others, Exec, Disagreement, IsLister, Survivors, Settled, Counted, Tally, WriteWanted;
    ExecInv(list, t0, job, acts);
    WritesAreWanted(list, t0, job, acts);
    SelfAgreement(Final(View(t0, job.org, job.user), WantOf(job.desired)));
  }

  /** Stopped anywhere, by any failure, every project is at its old or its wanted value. */
  lemma OldOrWanted(list: Lister, t0: Table, job: Job, acts: seq<Action>)
    requires IsLister(list) && Unique(t0, job.org, job.user) && Exec(list, t0, job, acts).Some?
    ensures var c := Exec(list, t0, job, acts).value;
      var before := View(t0, job.org, job.user);
      && Unique(c.table, job.org, job.user)
      && Between(View(c.table, job.org, job.user), before, Final(before, WantOf(job.desired)))
      && Others(c.table, job.org, job.user) == Others(t0, job.org, job.user)
  {
    hide View, WantOf, Final, Unique, Others;
    ExecInv(list, t0, job, acts);
  }

  /**
   * Resumption. Let a Sync stop anywhere and a later one return: the grants end where the first
   * would have taken them, and the two together make exactly the writes one would have made.
   */
  lemma Resumption(list: Lister, t0: Table, job: Job, first: seq<Action>, second: seq<Action>)
    requires IsLister(list) && Unique(t0, job.org, job.user) && Exec(list, t0, job, first).Some?
    requires Returns(list, Exec(list, t0, job, first).value.table, job, second)
    ensures var c := Exec(list, t0, job, first).value;
      var d := Exec(list, c.table, job, second).value;
      var before := View(t0, job.org, job.user);
      var target := Final(before, WantOf(job.desired));
      && Unique(d.table, job.org, job.user) && View(d.table, job.org, job.user) == target
      && |c.log| + |d.log| == |Disagreement(before, target)|
  {
    hide View, WantOf, Final, Unique, Others, Disagreement;
    var c := Exec(list, t0, job, first).value;
    OldOrWanted(list, t0, job, first);
    EveryWriteSettlesOne(list, t0, job, first);
    FinalFromBetween(View(c.table, job.org, job.user), View(t0, job.org, job.user), WantOf(job.desired));
    ExecInv(list, c.table, job, second);
    EveryWriteSettlesOne(list, c.table, job, second);
    SelfAgreement(Final(View(t0, job.org, job.user), WantOf(job.desired)));
  }

  lemma SelfAgreement(v: ByProject)
    ensures Disagreement(v, v) == {}
  {
  }

  /** Idempotence. After a Sync that returned, the same Sync writes nothing, whatever happens to it. */
  lemma SecondSyncWritesNothing(list: Lister, t0: Table, job: Job, first: seq<Action>, second: seq<Action>)
    requires IsLister(list) && Unique(t0, job.org, job.user) && Returns(list, t0, job, first)
    requires Exec(list, Exec(list, t0, job, first).value.table, job, second).Some?
    ensures var c := Exec(list, t0, job, first).value;
      var d := Exec(list, c.table, job, second).value;
      d.log == [] && d.table == c.table
  {
    hide View, WantOf, Final, Unique, Others, Disagreement;
    var c := Exec(list, t0, job, first).value;
    ExecInv(list, t0, job, first);
    FinalIdempotent(View(t0, job.org, job.user), WantOf(job.desired));
    EveryWriteSettlesOne(list, c.table, job, second);
    SelfAgreement(View(c.table, job.org, job.user));
    NoWritesNoChange(list, c.table, job, second);
  }

  lemma {:induction false} NoWritesNoChange(list: Lister, t0: Table, job: Job, acts: seq<Action>)
    requires IsLister(list) && Exec(list, t0, job, acts).Some?
    ensures var c := Exec(list, t0, job, acts).value; c.log == [] ==> c.table == t0
  {
    hide IsLister, WantOf, Apply, Onward, Call, Begin, Items;
    if acts != [] {
      NoWritesNoChange(list, t0, job, acts[..|acts| - 1]);
    }
  }

  /* Why the initial grants must be unique by project */

  /**
   * Exactly when one Sync suffices: a run that returns without error leaves the wanted grants and
   * no others if and only if the user started with at most one grant per project. The index keeps
   * one grant per project, so a second one on the same project survives unseen.
   */
  lemma CleanExactlyWhenUnique(list: Lister, t0: Table, job: Job, acts: seq<Action>)
    requires IsLister(list) && Returns(list, t0, job, acts)
    ensures Clean(Exec(list, t0, job, acts).value.table, job) <==> Unique(t0, job.org, job.user)
  {
    hide Exec, IsLister, Listed, WantOf, RolesEqual, Clean, Kept, Unique, Sized, Tally;
    var t := Exec(list, t0, job, acts).value.table;
    if Unique(t0, job.org, job.user) {
      Convergence(list, t0, job, acts);
    } else {
      ExecKeeps(list, t0, job, acts);
      DuplicateSpoils(list, t0, job, t);
    }
  }

  /**
   * From every store with two grants of the user on one project, and for every desired list, there is
   * a Sync all of whose calls are served, which returns, and which leaves wrong grants behind.
   */
  lemma DuplicatesSurvive(list: Lister, t0: Table, job: Job) returns (acts: seq<Action>)
    requires IsLister(list) && !Unique(t0, job.org, job.user)
    ensures Returns(list, t0, job, acts) && (forall a :: a in acts ==> Served(a))
    ensures !Clean(Exec(list, t0, job, acts).value.table, job)
  {
    hide IsLister, Exec, Unique, Clean, Served;
    BeforeFirstCall(list, t0, job);
    acts := ServedSyncReturns(list, t0, job, []);
    CleanExactlyWhenUnique(list, t0, job, acts);
  }

  /** Such a store: one user with two grants on one project. */
  function TwoGrants(org: string, user: string): Table {
    map["1" := Record(org, user, "p", "", ["viewer"]), "2" := Record(org, user, "p", "", ["admin"])]
  }

  /** Wanting nothing, a served Sync of such a user returns and leaves a grant behind. */
  lemma SecondGrantSurvives(list: Lister, org: string, user: string) returns (acts: seq<Action>)
    requires IsLister(list)
    ensures Returns(list, TwoGrants(org, user), Job(org, user, []), acts) && (forall a :: a in acts ==> Served(a))
    ensures Slice(Exec(list, TwoGrants(org, user), Job(org, user, []), acts).value.table, org, user) != map[]
  {
    var t := TwoGrants(org, user);
    var job := Job(org, user, []);
    assert "1" in t && "2" in t && t["1"].project == t["2"].project;
    hide IsLister, Exec, Served, TwoGrants;
    acts := DuplicatesSurvive(list, t, job);
    var left := Exec(list, t, job, acts).value.table;
    if Slice(left, org, user) == map[] {
      NothingLeftIsClean(left, job);
    }
  }

  lemma NothingLeftIsClean(t: Table, job: Job)
    requires job.desired == [] && Slice(t, job.org, job.user) == map[]
    ensures Clean(t, job)
  {
    assert forall id :: id in t && Owned(t[id], job.org, job.user) ==> id in Slice(t, job.org, job.user);
  }

  lemma DuplicateSpoils(list: Lister, t0: Table, job: Job, t: Table)
    requires IsLister(list) && !Unique(t0, job.org, job.user)
    requires Kept(t0, job, Listed(list, t0, job), t)
    ensures !Clean(t, job)
  {
    hide IsLister, Listed, WantOf, RolesEqual;
    ListedPoints(list, t0, job);
    var index := Listed(list, t0, job);
    var i, j :| i in t0 && j in t0 && Owned(t0[i], job.org, job.user) && Owned(t0[j], job.org, job.user)
                && t0[i].project == t0[j].project && i != j;
    var hidden := if index[t0[i].project].id == i then j else i;
    assert Hidden(t0, index, hidden);
    if t0[hidden].project in WantOf(job.desired) {
      assert index[t0[hidden].project].id in t;
    }
  }
}
