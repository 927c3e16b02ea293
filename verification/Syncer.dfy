/** `Syncer` and the management API it calls, as code over a mutable grant table (pkg/grantsync/syncer.go). */
module Syncer {
  import opened Paging
  import opened Roles
  import opened Store
  import opened Wrappers
  import opened SyncMachine
  import opened SyncTheorems

  /** The identity provider's grant API. Every call may fail, and a failed write may or may not have been applied. */
  class GrantApi {
    const list: Lister
    var table: Table

    constructor (list: Lister, table: Table)
      ensures this.list == list && this.table == table
    {
      this.list := list;
      this.table := table;
    }

    method ListUserGrants(org: string, user: string, offset: nat) returns (page: Option<seq<Entry>>)
      requires IsLister(list)
      ensures page.Some? ==> page.value == PageOf(Items(list, table, org, user), offset)
    {
      var served: bool := *;
      if served {
        page := Some(PageOf(Items(list, table, org, user), offset));
      } else {
        page := None;
      }
    }

    method AddUserGrant(org: string, user: string, project: string, projectGrantId: string, roles: seq<string>)
      returns (outcome: Outcome, id: string)
      modifies this`table
      ensures outcome == Rejected ==> table == old(table)
      ensures outcome != Rejected ==>
        id !in old(table) && table == old(table)[id := Record(org, user, project, projectGrantId, roles)]
    {
      outcome, id := *, *;
      if id in table {
        outcome := Rejected;
      } else if outcome != Rejected {
        table := table[id := Record(org, user, project, projectGrantId, roles)];
      }
    }

    method UpdateUserGrant(org: string, user: string, id: string, roles: seq<string>) returns (outcome: Outcome)
      modifies this`table
      ensures outcome == Rejected ==> table == old(table)
      ensures outcome != Rejected ==>
        id in old(table) && Owned(old(table)[id], org, user) && table == old(table)[id := old(table)[id].(roles := roles)]
    {
      outcome := *;
      if id !in table || !Owned(table[id], org, user) {
        outcome := Rejected;
      } else if outcome != Rejected {
        table := table[id := table[id].(roles := roles)];
      }
    }

    method RemoveUserGrant(org: string, user: string, id: string) returns (outcome: Outcome)
      modifies this`table
      ensures outcome == Rejected ==> table == old(table)
      ensures outcome != Rejected ==> id in old(table) && Owned(old(table)[id], org, user) && table == old(table) - {id}
    {
      outcome := *;
      if id !in table || !Owned(table[id], org, user) {
        outcome := Rejected;
      } else if outcome != Rejected {
        table := table - {id};
      }
    }
  }

  class Syncer {
    const api: GrantApi

    constructor (api: GrantApi)
      ensures this.api == api
    {
      this.api := api;
    }

    /** `listUserGrants`: page after page until a short one. */
    method ListUserGrants(job: Job) returns (all: Option<seq<Entry>>, ghost acts: seq<Action>)
      requires IsLister(api.list)
      ensures all.Some? ==> all.value == Items(api.list, api.table, job.org, job.user)
      ensures Exec(api.list, api.table, job, acts)
           == Some(Conf(api.table, if all.Some? then Begin(job, all.value) else Failed, []))
    {
      hide IsLister, Items, WantOf, IndexOf, PageOf;
      var got: seq<Entry> := [];
      var offset := 0;
      ghost var items := Items(api.list, api.table, job.org, job.user);
      acts := [];
      while true
        invariant offset == |got| <= |items| && got == items[..|got|]
        invariant Exec(api.list, api.table, job, acts) == Some(Conf(api.table, Listing(got), []))
        decreases |items| - |got|
      {
        ghost var before := acts;
        var page := api.ListUserGrants(job.org, job.user, offset);
        acts := acts + [Page(page.Some?)];
        ExecSnoc(api.list, api.table, job, before, Page(page.Some?));
        if page.None? {
          return None, acts;
        }
        PagesAddUp(items, got);
        got := got + page.value;
        if |page.value| < PageSize {
          return Some(got), acts;
        }
        offset := offset + PageSize;
      }
    }

    static method IndexExisting(entries: seq<Entry>) returns (existing: map<string, Entry>)
      ensures existing == IndexOf(entries)
    {
      hide IndexOf;
      existing := map[];
      IndexOfSome(entries);
      for i := 0 to |entries|
        invariant existing == IndexOf(entries[..i])
      {
        existing := existing[entries[i].record.project := entries[i]];
      }
      assert entries[..|entries|] == entries;
    }

    static method IndexDesired(desired: seq<Desired>) returns (want: map<string, Desired>)
      ensures want == WantOf(desired)
    {
      want := map[];
      for i := 0 to |desired|
        invariant want == WantOf(desired[..i])
      {
        want := want[desired[i].project := desired[i]];
        assert desired[..i + 1][..i] == desired[..i];
      }
      assert desired[..|desired|] == desired;
    }

    /**
     * `Sync`. The returned trace ties what it did to the step machine, so every theorem about the
     * machine is a theorem about this method; the main one is restated here.
     */
    method Sync(org: string, user: string, desired: seq<Desired>) returns (result: Option<Counts>, ghost acts: seq<Action>)
      requires IsLister(api.list)
      modifies api`table
      ensures var job := Job(org, user, desired);
        && Completes(api.list, old(api.table), job, acts)
        && api.table == Result(api.list, old(api.table), job, acts).table
        && Result(api.list, old(api.table), job, acts).local
           == (if result.Some? then Finished(result.value) else Failed)
      ensures result.Some? && Unique(old(api.table), org, user) ==>
        && Clean(api.table, Job(org, user, desired))
        && Others(api.table, org, user) == Others(old(api.table), org, user)
    {
      hide IsLister, Items, WantOf, IndexOf, PageOf, Apply, RolesEqual, Clean, Others, Unique;
      ghost var t0 := api.table;
      var job := Job(org, user, desired);
      var existing: Option<seq<Entry>>;
      existing, acts := ListUserGrants(job);
      if existing.None? {
        return None, acts;
      }
      var existingByProject := IndexExisting(existing.value);
      var desiredByProject := IndexDesired(desired);
      ghost var log: seq<Write>;
      result, acts, log := WriteDesired(t0, job, acts, existingByProject, desiredByProject);
      if result.None? {
        return;
      }
      result, acts, log := RemoveUnwanted(t0, job, acts, log, existingByProject, desiredByProject, result.value);
      if result.Some? && Unique(t0, org, user) {
        Convergence(api.list, t0, job, acts);
      }
    }

    /** The first loop: add or update. Map iteration yields the projects in any order. */
    method WriteDesired(ghost t0: Table, job: Job, ghost before: seq<Action>,
                        existing: map<string, Entry>, want: map<string, Desired>)
      returns (result: Option<Counts>, ghost acts: seq<Action>, ghost log: seq<Write>)
      requires IsLister(api.list) && want == WantOf(job.desired)
      requires Exec(api.list, t0, job, before)
            == Some(Conf(api.table, Settle(Writing(existing, want.Keys, existing.Keys, Counts(0, 0, 0))), []))
      modifies api`table
      ensures Exec(api.list, t0, job, acts) == Some(Conf(api.table,
        if result.Some? then Settle(Writing(existing, {}, existing.Keys, result.value)) else Failed, log))
    {
      hide IsLister, Items, WantOf, IndexOf, PageOf, RolesEqual, Exec;
      var todo := want.Keys;
      var counts := Counts(0, 0, 0);
      acts, log := before, [];
      while todo != {}
        invariant todo <= want.Keys
        invariant Exec(api.list, t0, job, acts)
               == Some(Conf(api.table, Settle(Writing(existing, todo, existing.Keys, counts)), log))
        decreases todo
      {
        var project :| project in todo;
        var d := want[project];
        var outcome, id := Done, "";
        ghost var c := Conf(api.table, Writing(existing, todo, existing.Keys, counts), log);
        if project in existing {
          if !RolesEqual(existing[project].record.roles, d.roles) {
            outcome := api.UpdateUserGrant(job.org, job.user, existing[project].id, d.roles);
          }
        } else {
          outcome, id := api.AddUserGrant(job.org, job.user, project, d.projectGrantId, d.roles);
        }
        ghost var a := Visit(project, outcome, id);
        ExecSnoc(api.list, t0, job, acts, a);
        acts := acts + [a];
        var called := project !in existing || !RolesEqual(existing[project].record.roles, d.roles);
        if called && outcome != Rejected {
          log := log + [Call(job, c.local, a).value];
        }
        if outcome != Done {
          return None, acts, log;
        }
        if project !in existing {
          counts := counts.(added := counts.added + 1);
        } else if called {
          counts := counts.(updated := counts.updated + 1);
        }
        todo := todo - {project};
      }
      result := Some(counts);
    }

    /** The second loop: remove what is no longer wanted. */
    method RemoveUnwanted(ghost t0: Table, job: Job, ghost before: seq<Action>, ghost written: seq<Write>,
                          existing: map<string, Entry>, want: map<string, Desired>, soFar: Counts)
      returns (result: Option<Counts>, ghost acts: seq<Action>, ghost log: seq<Write>)
      requires IsLister(api.list) && want == WantOf(job.desired)
      requires Exec(api.list, t0, job, before)
            == Some(Conf(api.table, Settle(Writing(existing, {}, existing.Keys, soFar)), written))
      modifies api`table
      ensures Exec(api.list, t0, job, acts)
           == Some(Conf(api.table, if result.Some? then Finished(result.value) else Failed, log))
    {
      hide IsLister, Items, WantOf, IndexOf, PageOf, RolesEqual, Exec;
      var gone := existing.Keys;
      var counts := soFar;
      acts, log := before, written;
      while gone != {}
        invariant gone <= existing.Keys
        invariant Exec(api.list, t0, job, acts)
               == Some(Conf(api.table, Settle(Writing(existing, {}, gone, counts)), log))
        decreases gone
      {
        var project :| project in gone;
        var outcome := Done;
        ghost var c := Conf(api.table, Writing(existing, {}, gone, counts), log);
        if project !in want {
          outcome := api.RemoveUserGrant(job.org, job.user, existing[project].id);
        }
        ghost var a := Sweep(project, outcome);
        ExecSnoc(api.list, t0, job, acts, a);
        acts := acts + [a];
        if project !in want && outcome != Rejected {
          log := log + [Call(job, c.local, a).value];
        }
        if outcome != Done {
          return None, acts, log;
        }
        if project !in want {
          counts := counts.(removed := counts.removed + 1);
        }
        gone := gone - {project};
      }
      result := Some(counts);
    }
  }

  lemma IndexOfSome(entries: seq<Entry>)
    ensures IndexOf(entries[..0]) == map[]
    ensures forall i :: 0 <= i < |entries| ==>
      IndexOf(entries[..i + 1]) == IndexOf(entries[..i])[entries[i].record.project := entries[i]]
  {
    forall i | 0 <= i < |entries|
      ensures IndexOf(entries[..i + 1]) == IndexOf(entries[..i])[entries[i].record.project := entries[i]]
    {
      assert entries[..i + 1][..i] == entries[..i];
    }
  }
}
