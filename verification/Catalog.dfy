/** The two-layer role catalog: TTL, stale serving and failure backoff (pkg/catalog/catalog.go). */
module Catalog {
  import opened Paging
  import opened Wrappers

  /** `refreshFailureBackoff`, in milliseconds. */
  const FailureBackoff: int := 30_000

  datatype OwnedEntry = OwnedEntry(fetchedAt: int, roles: seq<string>, name: string, failedAt: Option<int>)

  /** `granted` is None until the first successful listing; `None` in a failure time is Go's zero time. */
  datatype OrgEntry = OrgEntry(granted: Option<map<string, ProjectInfo>>, grantedAt: int, grantedFailedAt: Option<int>,
                               owned: map<string, OwnedEntry>)

  type Cache = map<string, OrgEntry>

  /**
   * One call of `Project` with what the outside world contributes: the TTL in force, the clock
   * readings in the order in which the code takes them, and the answers of the three fetches.
   */
  datatype Lookup = Lookup(
    org: string, project: string, ttl: int,
    grantedAge: int, grantedBackoff: int, grantedFetched: int,
    ownedAge: int, ownedBackoff: int, ownedFetched: int,
    granted: Option<map<string, ProjectInfo>>, roles: Option<seq<string>>, name: Option<string>)
  {
    /** `fetchOwnedName`: a failed name lookup reads as the empty name. */
    function NameOrNone(): string {
      if name.Some? then name.value else ""
    }

    /** The clock never goes backwards. */
    predicate Timely() {
      grantedAge <= grantedBackoff <= grantedFetched <= ownedAge <= ownedBackoff <= ownedFetched
    }
  }

  datatype Attempt = NotTried | Refreshed | RefreshFailed

  datatype Outcome = Outcome(entry: OrgEntry, answer: Option<ProjectInfo>, granted: Attempt, owned: Attempt)

  const NewEntry := OrgEntry(None, 0, None, map[])

  function EntryOf(c: Cache, org: string): OrgEntry {
    if org in c then c[org] else NewEntry
  }

  predicate InFailureBackoff(failedAt: Option<int>, now: int) {
    failedAt.Some? && now - failedAt.value < FailureBackoff
  }

  /** A layer is refreshed when it is empty, or too old and not in backoff. */
  predicate Due(cold: bool, fetchedAt: int, failedAt: Option<int>, ttl: int, age: int, backoff: int) {
    cold || (age - fetchedAt > ttl && !InFailureBackoff(failedAt, backoff))
  }

  predicate GrantedDue(e: OrgEntry, l: Lookup) {
    Due(e.granted.None?, e.grantedAt, e.grantedFailedAt, l.ttl, l.grantedAge, l.grantedBackoff)
  }

  predicate OwnedDue(e: OrgEntry, l: Lookup) {
    if l.project !in e.owned then true
    else Due(false, e.owned[l.project].fetchedAt, e.owned[l.project].failedAt, l.ttl, l.ownedAge, l.ownedBackoff)
  }

  function RefreshGranted(e: OrgEntry, l: Lookup): OrgEntry {
    if !GrantedDue(e, l) then e
    else
      match l.granted
      case None => e.(grantedFailedAt := Some(l.grantedFetched))
      case Some(g) => e.(granted := Some(g), grantedAt := l.grantedFetched, grantedFailedAt := None)
  }

  function RefreshOwned(e: OrgEntry, l: Lookup): OrgEntry {
    if !OwnedDue(e, l) then e
    else
      match l.roles
      case None =>
        if l.project !in e.owned then e
        else e.(owned := e.owned[l.project := e.owned[l.project].(failedAt := Some(l.ownedFetched))])
      case Some(roles) => e.(owned := e.owned[l.project := OwnedEntry(l.ownedFetched, roles, l.NameOrNone(), None)])
  }

  function Tried(due: bool, ok: bool): Attempt {
    if !due then NotTried else if ok then Refreshed else RefreshFailed
  }

  /** The whole lookup on one org's entry. */
  function Serve(e: OrgEntry, l: Lookup): Outcome {
    var g := RefreshGranted(e, l);
    var granted := Tried(GrantedDue(e, l), l.granted.Some?);
    if g.granted.None? then Outcome(g, None, granted, NotTried)
    else if l.project in g.granted.value then Outcome(g, Some(g.granted.value[l.project]), granted, NotTried)
    else
      var o := RefreshOwned(g, l);
      var owned := Tried(OwnedDue(g, l), l.roles.Some?);
      if l.project !in o.owned then Outcome(o, None, granted, owned)
      else Outcome(o, Some(ProjectInfo(l.project, o.owned[l.project].name, "", o.owned[l.project].roles)), granted, owned)
  }

  function Step(c: Cache, l: Lookup): Cache {
    c[l.org := Serve(EntryOf(c, l.org), l).entry]
  }

  /** The cache after a sequence of lookups; the mutex makes concurrent calls such a sequence. */
  function RunCache(c: Cache, ls: seq<Lookup>): Cache {
    if ls == [] then c else Step(RunCache(c, ls[..|ls| - 1]), ls[|ls| - 1])
  }

  class Catalog {
    var orgs: Cache

    constructor ()
      ensures orgs == map[]
    {
      orgs := map[];
    }

    /** `Project`. A failed lookup of an empty layer is the only error. */
    method Project(l: Lookup) returns (info: Option<ProjectInfo>)
      modifies this
      ensures orgs == Step(old(orgs), l)
      ensures info == Serve(EntryOf(old(orgs), l.org), l).answer
    {
      if l.org !in orgs {
        orgs := orgs[l.org := NewEntry];
      }
      var entry := orgs[l.org];
      if entry.granted.None? || (l.grantedAge - entry.grantedAt > l.ttl
                                 && !InFailureBackoff(entry.grantedFailedAt, l.grantedBackoff)) {
        if l.granted.None? {
          entry := entry.(grantedFailedAt := Some(l.grantedFetched));
          orgs := orgs[l.org := entry];
          if entry.granted.None? {
            return None;
          }
        } else {
          entry := entry.(granted := l.granted, grantedAt := l.grantedFetched, grantedFailedAt := None);
          orgs := orgs[l.org := entry];
        }
      }
      if l.project in entry.granted.value {
        return Some(entry.granted.value[l.project]);
      }
      var known := l.project in entry.owned;
      if !known || (l.ownedAge - entry.owned[l.project].fetchedAt > l.ttl
                    && !InFailureBackoff(entry.owned[l.project].failedAt, l.ownedBackoff)) {
        if l.roles.None? {
          if !known {
            return None;
          }
          entry := entry.(owned := entry.owned[l.project := entry.owned[l.project].(failedAt := Some(l.ownedFetched))]);
        } else {
          var name := if l.name.Some? then l.name.value else "";
          entry := entry.(owned := entry.owned[l.project := OwnedEntry(l.ownedFetched, l.roles.value, name, None)]);
        }
        orgs := orgs[l.org := entry];
      }
      var owned := entry.owned[l.project];
      return Some(ProjectInfo(l.project, owned.name, "", owned.roles));
    }
  }
}
