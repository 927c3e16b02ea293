/**
 * The catalog cache seen one layer at a time. Each layer, an org's granted projects or one owned
 * project, behaves like a cache of a single cell: this module states that cell and proves the cache
 * refines it, so that the laws need not look at the whole lookup again.
 */
module CatalogLayers {
  import opened Catalog
  import opened Paging
  import opened Wrappers

  datatype Layer = GrantedLayer(org: string) | OwnedLayer(org: string, project: string)

  /** What a layer holds: a listing of the granted projects, or an owned project's roles and name. */
  datatype Content = Listing(granted: map<string, ProjectInfo>) | Owned(roles: seq<string>, name: string)

  datatype Held = Held(content: Content, fetchedAt: int, failedAt: Option<int>)

  function HeldOn(c: Cache, y: Layer): (h: Option<Held>)
    ensures h.Some? ==> (h.value.content.Listing? <==> y.GrantedLayer?)
  {
    var e := EntryOf(c, y.org);
    match y
    case GrantedLayer(_) =>
      if e.granted.None? then None else Some(Held(Listing(e.granted.value), e.grantedAt, e.grantedFailedAt))
    case OwnedLayer(_, p) =>
      if p !in e.owned then None
      else Some(Held(Owned(e.owned[p].roles, e.owned[p].name), e.owned[p].fetchedAt, e.owned[p].failedAt))
  }

  predicate Warm(c: Cache, y: Layer) {
    HeldOn(c, y).Some?
  }

  function ContentOn(c: Cache, y: Layer): Option<Content> {
    var h := HeldOn(c, y);
    if h.None? then None else Some(h.value.content)
  }

  /* What a lookup contributes to a layer */

  /** What the lookup's fetch of the layer finds; None is a failure. */
  function Found(l: Lookup, y: Layer): Option<Content> {
    match y
    case GrantedLayer(_) => if l.granted.None? then None else Some(Listing(l.granted.value))
    case OwnedLayer(_, _) => if l.roles.None? then None else Some(Owned(l.roles.value, l.NameOrNone()))
  }

  /** When the lookup checks the layer's age and its backoff, and when its fetch ended. */
  function AgeCheck(l: Lookup, y: Layer): int {
    if y.GrantedLayer? then l.grantedAge else l.ownedAge
  }

  function BackoffCheck(l: Lookup, y: Layer): int {
    if y.GrantedLayer? then l.grantedBackoff else l.ownedBackoff
  }

  function FetchEnd(l: Lookup, y: Layer): int {
    if y.GrantedLayer? then l.grantedFetched else l.ownedFetched
  }

  /**
   * The lookup comes to ask about the layer: always for its org's granted projects, and for an owned
   * project when the listing it holds by then does not have it.
   */
  predicate Reaches(c: Cache, l: Lookup, y: Layer) {
    l.org == y.org
    && (y.OwnedLayer? ==>
          && l.project == y.project
          && var g := RefreshGranted(EntryOf(c, l.org), l).granted;
             g.Some? && l.project !in g.value)
  }

  /** The attempt the lookup makes on the layer, if any. */
  function AttemptOn(c: Cache, l: Lookup, y: Layer): Attempt {
    if l.org != y.org || (y.OwnedLayer? && l.project != y.project) then NotTried
    else
      var o := Serve(EntryOf(c, l.org), l);
      if y.GrantedLayer? then o.granted else o.owned
  }

  /* The cell */

  /** Empty, or older than the TTL and not within 30 s of a failure. */
  predicate CellDue(h: Option<Held>, l: Lookup, y: Layer) {
    h.None?
    || (AgeCheck(l, y) - h.value.fetchedAt > l.ttl
        && (h.value.failedAt.None? || BackoffCheck(l, y) - h.value.failedAt.value >= 30_000))
  }

  /** What an attempt leaves in the cell: a failure is noted only where there is something to keep. */
  function CellAfter(h: Option<Held>, a: Attempt, l: Lookup, y: Layer): Option<Held> {
    match a
    case NotTried => h
    case Refreshed => if Found(l, y).None? then h else Some(Held(Found(l, y).value, FetchEnd(l, y), None))
    case RefreshFailed => if h.None? then None else Some(h.value.(failedAt := Some(FetchEnd(l, y))))
  }

  lemma GrantedCell(e: OrgEntry, l: Lookup)
    ensures var o := Serve(e, l);
      && o.granted == Tried(GrantedDue(e, l), l.granted.Some?)
      && (o.granted == NotTried ==> o.entry.(owned := e.owned) == e)
      && (o.granted == Refreshed ==> o.entry.(owned := e.owned) == OrgEntry(l.granted, l.grantedFetched, None, e.owned))
      && (o.granted == RefreshFailed ==> o.entry.(owned := e.owned) == e.(grantedFailedAt := Some(l.grantedFetched)))
  {
    hide OwnedDue, GrantedDue;
  }

  lemma OwnedCell(e: OrgEntry, l: Lookup)
    ensures var o := Serve(e, l);
      var g := RefreshGranted(e, l);
      var reached := g.granted.Some? && l.project !in g.granted.value;
      && o.owned == Tried(reached && OwnedDue(e, l), l.roles.Some?)
      && (o.owned == NotTried ==> o.entry.owned == e.owned)
      && (o.owned == Refreshed ==>
            o.entry.owned == e.owned[l.project := OwnedEntry(l.ownedFetched, l.roles.value, l.NameOrNone(), None)])
      && (o.owned == RefreshFailed && l.project !in e.owned ==> o.entry.owned == e.owned)
      && (o.owned == RefreshFailed && l.project in e.owned ==>
            o.entry.owned == e.owned[l.project := e.owned[l.project].(failedAt := Some(l.ownedFetched))])
  {
    hide GrantedDue;
  }

  /** A lookup does to each layer what it would do to a single cell, and nothing to layers it does not reach. */
  lemma OneCell(c: Cache, l: Lookup, y: Layer)
    ensures AttemptOn(c, l, y) == if !Reaches(c, l, y) || !CellDue(HeldOn(c, y), l, y) then NotTried
                                  else if Found(l, y).Some? then Refreshed
                                  else RefreshFailed
    ensures HeldOn(Step(c, l), y) == CellAfter(HeldOn(c, y), AttemptOn(c, l, y), l, y)
  {
    hide Serve, RefreshGranted;
    GrantedCell(EntryOf(c, l.org), l);
    OwnedCell(EntryOf(c, l.org), l);
  }

  /* The answer */

  /** The lookup's answer from what the two layers hold. */
  function Combined(granted: Option<Content>, owned: Option<Content>, project: string): Option<ProjectInfo> {
    if granted.None? || !granted.value.Listing? then None
    else if project in granted.value.granted then Some(granted.value.granted[project])
    else if owned.None? || !owned.value.Owned? then None
    else Some(ProjectInfo(project, owned.value.name, "", owned.value.roles))
  }

  lemma AnswerIsCombined(c: Cache, l: Lookup)
    ensures var n := Step(c, l);
      var granted := ContentOn(n, GrantedLayer(l.org));
      && Serve(EntryOf(c, l.org), l).answer == Combined(granted, ContentOn(n, OwnedLayer(l.org, l.project)), l.project)
      && (Reaches(c, l, OwnedLayer(l.org, l.project)) <==> granted.Some? && l.project !in granted.value.granted)
  {
    hide GrantedDue, OwnedDue;
  }
}
