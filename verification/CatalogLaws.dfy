/** What the catalog's answers are worth, and how often it asks. */
module CatalogLaws {
  import opened Catalog
  import opened CatalogLayers
  import opened Paging
  import opened Wrappers

  /* Retry bound */

  /** The last clock reading of the check that decided on an attempt. */
  function CheckTime(h: Held, l: Lookup, y: Layer): int {
    if h.failedAt.None? then AgeCheck(l, y) else BackoffCheck(l, y)
  }

  lemma StaysWarm(c: Cache, l: Lookup, y: Layer)
    requires Warm(c, y)
    ensures Warm(Step(c, l), y)
  {
    hide Step, HeldOn, AttemptOn;
    OneCell(c, l, y);
  }

  /** Check times of all attempts on a layer in a run, oldest first. */
  function Attempts(c: Cache, ls: seq<Lookup>, y: Layer): seq<int>
    requires Warm(c, y)
    ensures Warm(RunCache(c, ls), y)
  {
    if ls == [] then []
    else
      var before := RunCache(c, ls[..|ls| - 1]);
      var l := ls[|ls| - 1];
      var ts := Attempts(c, ls[..|ls| - 1], y);
      StaysWarm(before, l, y);
      if AttemptOn(before, l, y) == NotTried then ts else ts + [CheckTime(HeldOn(before, y).value, l, y)]
  }

  /** No attempt is decided on before this time. */
  function NextAttempt(h: Held, ttl: int): int {
    match h.failedAt
    case Some(t) => t + 30_000
    case None => h.fetchedAt + ttl
  }

  function Spacing(ttl: int): int {
    if ttl < 30_000 then ttl else 30_000
  }

  lemma OneAttempt(c: Cache, l: Lookup, y: Layer, ttl: int)
    requires Warm(c, y) && l.Timely() && l.ttl >= ttl
    ensures Warm(Step(c, l), y)
    ensures var h, n, a := HeldOn(c, y).value, HeldOn(Step(c, l), y).value, AttemptOn(c, l, y);
      && (a == NotTried ==> NextAttempt(n, ttl) == NextAttempt(h, ttl))
      && (a != NotTried ==>
            CheckTime(h, l, y) >= NextAttempt(h, ttl) && NextAttempt(n, ttl) >= CheckTime(h, l, y) + Spacing(ttl))
  {
    hide Step, HeldOn, AttemptOn, Reaches;
    OneCell(c, l, y);
  }

  lemma {:induction false} AttemptsSpread(c: Cache, ls: seq<Lookup>, y: Layer, ttl: int)
    requires Warm(c, y) && (forall i :: 0 <= i < |ls| ==> ls[i].Timely() && ls[i].ttl >= ttl)
    ensures var ts := Attempts(c, ls, y);
      && (forall k :: 0 <= k < |ts| - 1 ==> ts[k + 1] - ts[k] >= Spacing(ttl))
      && (ts != [] ==> NextAttempt(HeldOn(RunCache(c, ls), y).value, ttl) >= ts[|ts| - 1] + Spacing(ttl))
  {
    hide Step, NextAttempt, CheckTime, AttemptOn, HeldOn;
    if ls != [] {
      AttemptsSpread(c, ls[..|ls| - 1], y, ttl);
      OneAttempt(RunCache(c, ls[..|ls| - 1]), ls[|ls| - 1], y, ttl);
    }
  }

  lemma {:induction false} SpreadSpans(ts: seq<int>, gap: int)
    requires ts != [] && forall k :: 0 <= k < |ts| - 1 ==> ts[k + 1] - ts[k] >= gap
    ensures ts[|ts| - 1] - ts[0] >= (|ts| - 1) * gap
  {
    if |ts| > 1 {
      SpreadSpans(ts[..|ts| - 1], gap);
    }
  }

  /**
   * The retry bound. However many lookups arrive and however the API fails, `n` attempts to refresh
   * a layer that has been filled once span at least `(n - 1) * min(ttl, 30 s)`.
   */
  lemma RetryBound(c: Cache, ls: seq<Lookup>, y: Layer, ttl: int)
    requires Warm(c, y) && (forall i :: 0 <= i < |ls| ==> ls[i].Timely() && ls[i].ttl >= ttl)
    ensures var ts := Attempts(c, ls, y);
      ts != [] ==> ts[|ts| - 1] - ts[0] >= (|ts| - 1) * Spacing(ttl)
  {
    AttemptsSpread(c, ls, y, ttl);
    if Attempts(c, ls, y) != [] {
      SpreadSpans(Attempts(c, ls, y), Spacing(ttl));
    }
  }

  /* Backoff */

  /** None of these lookups attempts the layer: they do not reach it, or leave it alone. */
  predicate NoneTries(c: Cache, ls: seq<Lookup>, y: Layer) {
    forall i :: 0 <= i < |ls| ==> AttemptOn(RunCache(c, ls[..i]), ls[i], y) == NotTried
  }

  lemma {:induction false} HeldMeanwhile(c: Cache, ls: seq<Lookup>, y: Layer)
    requires NoneTries(c, ls, y)
    ensures HeldOn(RunCache(c, ls), y) == HeldOn(c, y)
  {
    hide Step, HeldOn, AttemptOn;
    if ls != [] {
      var n := |ls| - 1;
      assert forall i :: 0 <= i < n ==> ls[..n][..i] == ls[..i];
      HeldMeanwhile(c, ls[..n], y);
      OneCell(RunCache(c, ls[..n]), ls[n], y);
    }
  }

  /**
   * Exactly when the backoff holds. Let a refresh of a layer fail, let any lookups follow that make
   * no attempt on it, and let one more come to the layer within 30 s of the failure: it leaves the
   * layer alone if and only if the layer had been filled before the failure.
   */
  lemma BackoffExactlyWhenWarm(c: Cache, l: Lookup, between: seq<Lookup>, m: Lookup, y: Layer)
    requires AttemptOn(c, l, y) == RefreshFailed && NoneTries(Step(c, l), between, y)
    requires Reaches(RunCache(Step(c, l), between), m, y) && BackoffCheck(m, y) - FetchEnd(l, y) < 30_000
    ensures AttemptOn(RunCache(Step(c, l), between), m, y) == NotTried <==> Warm(c, y)
  {
    hide Step, RunCache, HeldOn, AttemptOn, Reaches, NoneTries;
    OneCell(c, l, y);
    HeldMeanwhile(Step(c, l), between, y);
    OneCell(RunCache(Step(c, l), between), m, y);
  }

  /** The retry bound needs the layer to have been filled: an empty one is asked for on every lookup that reaches it. */
  lemma ColdLayerHasNoBackoff(c: Cache, l: Lookup, y: Layer)
    requires !Warm(c, y) && Reaches(c, l, y) && Found(l, y).None?
    ensures AttemptOn(c, l, y) == RefreshFailed && !Warm(Step(c, l), y)
  {
    hide Step, HeldOn, AttemptOn, Reaches;
    OneCell(c, l, y);
  }

  /** A lookup that fails on the layer when nothing is cached. */
  predicate FailsCold(l: Lookup, y: Layer) {
    && l.org == y.org && Found(l, y).None?
    && (y.OwnedLayer? ==> l.project == y.project && l.granted.Some? && l.project !in l.granted.value)
  }

  /** Empty, and holding no other listing than the one the lookup finds. */
  predicate ColdFor(c: Cache, l: Lookup, y: Layer) {
    !Warm(c, y) && (EntryOf(c, y.org).granted.None? || EntryOf(c, y.org).granted == l.granted)
  }

  lemma ColdReaches(c: Cache, l: Lookup, y: Layer)
    requires ColdFor(c, l, y) && FailsCold(l, y)
    ensures Reaches(c, l, y)
  {
  }

  lemma ColdStays(c: Cache, l: Lookup, y: Layer)
    requires ColdFor(c, l, y) && FailsCold(l, y)
    ensures ColdFor(Step(c, l), l, y)
  {
    hide OwnedDue, GrantedDue;
  }

  lemma {:induction false} StillCold(l: Lookup, y: Layer, n: nat)
    requires FailsCold(l, y)
    ensures ColdFor(RunCache(map[], seq(n, _ => l)), l, y)
  {
    hide Step, ColdFor, FailsCold;
    if n > 0 {
      StillCold(l, y, n - 1);
      assert seq(n, _ => l)[..n - 1] == seq(n - 1, _ => l);
      ColdStays(RunCache(map[], seq(n - 1, _ => l)), l, y);
    } else {
      NothingCached(l, y);
    }
  }

  lemma NothingCached(l: Lookup, y: Layer)
    ensures ColdFor(map[], l, y)
  {
  }

  /** So, for either layer, any number of lookups at one instant make as many attempts. */
  lemma ColdAttemptsUnbounded(l: Lookup, y: Layer, n: nat)
    requires FailsCold(l, y)
    ensures !Warm(RunCache(map[], seq(n, _ => l)), y)
    ensures AttemptOn(RunCache(map[], seq(n, _ => l)), l, y) == RefreshFailed
  {
    hide RunCache, Step, AttemptOn, Reaches;
    StillCold(l, y, n);
    ColdReaches(RunCache(map[], seq(n, _ => l)), l, y);
    ColdLayerHasNoBackoff(RunCache(map[], seq(n, _ => l)), l, y);
  }

  /* Where answers come from */

  /** The attempt the i-th lookup of a run makes on a layer. */
  function AttemptIn(ls: seq<Lookup>, i: nat, y: Layer): Attempt
    requires i < |ls|
  {
    AttemptOn(RunCache(map[], ls[..i]), ls[i], y)
  }

  /** What the latest successful fetch of the layer found, and when it ended. */
  function LatestIn(ls: seq<Lookup>, y: Layer): Option<Content> {
    if ls == [] then None
    else if AttemptIn(ls, |ls| - 1, y) == Refreshed then Found(ls[|ls| - 1], y)
    else LatestIn(ls[..|ls| - 1], y)
  }

  function FetchedIn(ls: seq<Lookup>, y: Layer): Option<int> {
    if ls == [] then None
    else if AttemptIn(ls, |ls| - 1, y) == Refreshed then Some(FetchEnd(ls[|ls| - 1], y))
    else FetchedIn(ls[..|ls| - 1], y)
  }

  /** When the latest attempt on the layer ended, if it failed. */
  function FailedIn(ls: seq<Lookup>, y: Layer): Option<int> {
    if ls == [] then None
    else
      match AttemptIn(ls, |ls| - 1, y)
      case Refreshed => None
      case RefreshFailed => Some(FetchEnd(ls[|ls| - 1], y))
      case NotTried => FailedIn(ls[..|ls| - 1], y)
  }

  /** The cache is the run: content and both time stamps of each layer are those of the run's fetches. */
  lemma {:induction false} CacheIsLatest(ls: seq<Lookup>, y: Layer)
    ensures LatestIn(ls, y).Some? <==> FetchedIn(ls, y).Some?
    ensures HeldOn(RunCache(map[], ls), y)
         == if LatestIn(ls, y).None? then None
            else Some(Held(LatestIn(ls, y).value, FetchedIn(ls, y).value, FailedIn(ls, y)))
  {
    hide Step, AttemptOn;
    if ls != [] {
      hide HeldOn;
      CacheIsLatest(ls[..|ls| - 1], y);
      OneCell(RunCache(map[], ls[..|ls| - 1]), ls[|ls| - 1], y);
    }
  }

  /** A failure of the layer's latest attempt that ended less than 30 s before the lookup's check. */
  predicate FailedLately(ls: seq<Lookup>, l: Lookup, y: Layer) {
    FailedIn(ls, y).Some? && BackoffCheck(l, y) - FailedIn(ls, y).value < 30_000
  }

  /**
   * The layer as the lookup uses it: refreshed just now, or its refresh failed just now, or its latest
   * fetch ended at most one TTL ago, or its latest refresh failed within 30 s.
   */
  predicate Fresh(ls: seq<Lookup>, l: Lookup, y: Layer) {
    AttemptOn(RunCache(map[], ls), l, y) == NotTried ==>
      FetchedIn(ls, y).Some? && (AgeCheck(l, y) - FetchedIn(ls, y).value <= l.ttl || FailedLately(ls, l, y))
  }

  lemma OneMore(ls: seq<Lookup>, l: Lookup, y: Layer)
    ensures RunCache(map[], ls + [l]) == Step(RunCache(map[], ls), l)
    ensures var a := AttemptOn(RunCache(map[], ls), l, y);
      && LatestIn(ls + [l], y) == (if a == Refreshed then Found(l, y) else LatestIn(ls, y))
      && ContentOn(Step(RunCache(map[], ls), l), y) == LatestIn(ls + [l], y)
  {
    hide Step, AttemptOn, HeldOn, Reaches;
    assert (ls + [l])[..|ls|] == ls;
    CacheIsLatest(ls + [l], y);
  }

  lemma ReachedIsFresh(ls: seq<Lookup>, l: Lookup, y: Layer)
    requires Reaches(RunCache(map[], ls), l, y)
    ensures Fresh(ls, l, y)
  {
    hide AttemptOn, HeldOn, Reaches, RunCache, LatestIn, FetchedIn, FailedIn;
    CacheIsLatest(ls, y);
    OneCell(RunCache(map[], ls), l, y);
  }

  /** The call fails when the lookup comes to an empty layer and cannot fill it. */
  predicate ComesToNothing(ls: seq<Lookup>, l: Lookup, y: Layer) {
    Reaches(RunCache(map[], ls), l, y) && LatestIn(ls, y).None? && Found(l, y).None?
  }

  /**
   * Refinement of the uncached lookup. The answer is made of the latest successful fetch of each
   * layer it uses, for that very org and project; each layer it uses is fresh by the fetches of the
   * run; the call fails only when it comes to an empty layer whose fetch fails, and then no layer of
   * an owned project changes; entries of other orgs stay as they are.
   */
  lemma AnswersAreLatest(ls: seq<Lookup>, l: Lookup)
    ensures var c := RunCache(map[], ls);
      var answer := Serve(EntryOf(c, l.org), l).answer;
      var granted, owned := GrantedLayer(l.org), OwnedLayer(l.org, l.project);
      && answer == Combined(LatestIn(ls + [l], granted), LatestIn(ls + [l], owned), l.project)
      && Fresh(ls, l, granted)
      && (Reaches(c, l, owned) ==> Fresh(ls, l, owned))
      && (answer.None? <==> ComesToNothing(ls, l, granted) || ComesToNothing(ls, l, owned))
      && (answer.None? ==> forall p :: HeldOn(Step(c, l), OwnedLayer(l.org, p)) == HeldOn(c, OwnedLayer(l.org, p)))
      && (forall org :: org != l.org ==> EntryOf(Step(c, l), org) == EntryOf(c, org))
  {
    var c := RunCache(map[], ls);
    var granted, owned := GrantedLayer(l.org), OwnedLayer(l.org, l.project);
    OtherOrgs(c, l);
    assert Reaches(c, l, granted);
    hide *;
    AnswerIsCombined(c, l);
    OneMore(ls, l, granted);
    OneMore(ls, l, owned);
    ReachedIsFresh(ls, l, granted);
    if Reaches(c, l, owned) {
      ReachedIsFresh(ls, l, owned);
    }
    if Serve(EntryOf(c, l.org), l).answer.None? {
      ErrorCachesNothing(c, l);
    }
    NoneExactly(ls, l);
  }

  /** An error means a layer the lookup came to stayed empty. */
  lemma NoneExactly(ls: seq<Lookup>, l: Lookup)
    ensures var granted, owned := GrantedLayer(l.org), OwnedLayer(l.org, l.project);
      Combined(LatestIn(ls + [l], granted), LatestIn(ls + [l], owned), l.project).None?
      <==> ComesToNothing(ls, l, granted) || ComesToNothing(ls, l, owned)
  {
    var c := RunCache(map[], ls);
    var granted, owned := GrantedLayer(l.org), OwnedLayer(l.org, l.project);
    assert Reaches(c, l, granted);
    hide Reaches, RunCache, Step, AttemptOn, HeldOn, LatestIn, FetchedIn, FailedIn, Serve;
    AnswerIsCombined(c, l);
    EmptyAfter(ls, l, granted);
    EmptyAfter(ls, l, owned);
  }

  lemma EmptyAfter(ls: seq<Lookup>, l: Lookup, y: Layer)
    ensures var n := ContentOn(Step(RunCache(map[], ls), l), y);
      && LatestIn(ls + [l], y) == n
      && (n.Some? ==> (n.value.Listing? <==> y.GrantedLayer?))
      && (Reaches(RunCache(map[], ls), l, y) ==> (n.None? <==> ComesToNothing(ls, l, y)))
  {
    hide Reaches, RunCache, Step, AttemptOn, HeldOn, LatestIn, FetchedIn, FailedIn, CellDue;
    OneMore(ls, l, y);
    OneCell(RunCache(map[], ls), l, y);
    CacheIsLatest(ls, y);
    ColdIsDue(HeldOn(RunCache(map[], ls), y), l, y);
  }

  lemma ColdIsDue(h: Option<Held>, l: Lookup, y: Layer)
    ensures h.None? ==> CellDue(h, l, y)
  {
  }

  lemma OtherOrgs(c: Cache, l: Lookup)
    ensures forall org :: org != l.org ==> EntryOf(Step(c, l), org) == EntryOf(c, org)
  {
    hide Serve;
  }

  lemma ErrorCachesNothing(c: Cache, l: Lookup)
    requires Serve(EntryOf(c, l.org), l).answer.None?
    ensures forall p :: HeldOn(Step(c, l), OwnedLayer(l.org, p)) == HeldOn(c, OwnedLayer(l.org, p))
  {
    hide GrantedDue, OwnedDue;
  }

  /* Agreement with an API that stands still */

  datatype World = World(granted: map<string, map<string, ProjectInfo>>, roles: map<(string, string), seq<string>>,
                         names: map<(string, string), string>)

  /** Every fetch succeeds and answers from the world. */
  predicate Truthful(w: World, l: Lookup) {
    && l.org in w.granted && (l.org, l.project) in w.roles && (l.org, l.project) in w.names
    && l.granted == Some(w.granted[l.org]) && l.roles == Some(w.roles[(l.org, l.project)])
    && l.name == Some(w.names[(l.org, l.project)])
  }

  /** The lookup without a cache. */
  function Uncached(w: World, org: string, project: string): ProjectInfo
    requires org in w.granted && (org, project) in w.roles && (org, project) in w.names
  {
    if project in w.granted[org] then w.granted[org][project]
    else ProjectInfo(project, w.names[(org, project)], "", w.roles[(org, project)])
  }

  /** Every successful fetch of the layer found the same. */
  lemma {:induction false} SameThroughout(w: World, ls: seq<Lookup>, l: Lookup, y: Layer)
    requires (forall i :: 0 <= i < |ls| ==> Truthful(w, ls[i])) && Truthful(w, l)
    requires y.org == l.org && (y.OwnedLayer? ==> y.project == l.project)
    ensures LatestIn(ls, y).Some? ==> LatestIn(ls, y) == Found(l, y)
  {
    hide RunCache, HeldOn, Reaches, Serve;
    if ls != [] {
      SameThroughout(w, ls[..|ls| - 1], l, y);
    }
  }

  /** Against an API that neither changes nor fails, the cache is invisible. */
  lemma CacheIsInvisible(w: World, ls: seq<Lookup>, l: Lookup)
    requires (forall i :: 0 <= i < |ls| ==> Truthful(w, ls[i])) && Truthful(w, l)
    ensures Serve(EntryOf(RunCache(map[], ls), l.org), l).answer == Some(Uncached(w, l.org, l.project))
  {
    hide RunCache, HeldOn, Reaches, Serve, LatestIn, AttemptOn, Fresh;
    AnswersAreLatest(ls, l);
    SameThroughout(w, ls, l, GrantedLayer(l.org));
    SameThroughout(w, ls, l, OwnedLayer(l.org, l.project));
    OneMore(ls, l, GrantedLayer(l.org));
    OneMore(ls, l, OwnedLayer(l.org, l.project));
  }

  /* How soon a change shows, whatever fails */

  /**
   * From time `since` on, a fetch of the layer that starts and succeeds finds something `good`; no
   * fetch takes longer than `slow`.
   */
  predicate FindsSince(l: Lookup, y: Layer, good: Content -> bool, since: int, slow: int) {
    && FetchEnd(l, y) - AgeCheck(l, y) <= slow
    && (AgeCheck(l, y) >= since && Found(l, y).Some? ==> good(Found(l, y).value))
  }

  /** The attempts the run makes on the layer find something `good` from `since` on. They may fail at any time. */
  predicate RunFindsSince(ls: seq<Lookup>, y: Layer, good: Content -> bool, since: int, slow: int) {
    forall i :: 0 <= i < |ls| && AttemptIn(ls, i, y) != NotTried ==> FindsSince(ls[i], y, good, since, slow)
  }

  lemma {:induction false} OldFetchedBefore(ls: seq<Lookup>, y: Layer, good: Content -> bool, since: int, slow: int)
    requires RunFindsSince(ls, y, good, since, slow)
    ensures LatestIn(ls, y).Some? <==> FetchedIn(ls, y).Some?
    ensures LatestIn(ls, y).Some? && !good(LatestIn(ls, y).value) ==> FetchedIn(ls, y).value < since + slow
  {
    hide AttemptOn, HeldOn, RunCache;
    CacheIsLatest(ls, y);
    if ls != [] {
      var n := |ls| - 1;
      assert forall i :: 0 <= i < n ==> AttemptIn(ls[..n], i, y) == AttemptIn(ls, i, y) by {
        assert forall i :: 0 <= i < n ==> ls[..n][..i] == ls[..i];
      }
      OldFetchedBefore(ls[..n], y, good, since, slow);
      assert AttemptIn(ls, n, y) == Refreshed ==> FindsSince(ls[n], y, good, since, slow);
      OneCell(RunCache(map[], ls[..n]), ls[n], y);
    }
  }

  /** A lookup that comes to the layer one TTL and one fetch after `since`. */
  predicate LateEnough(ls: seq<Lookup>, l: Lookup, y: Layer, good: Content -> bool, since: int, slow: int) {
    && RunFindsSince(ls, y, good, since, slow)
    && (AttemptOn(RunCache(map[], ls), l, y) != NotTried ==> FindsSince(l, y, good, since, slow))
    && Reaches(RunCache(map[], ls), l, y) && slow >= 0 && l.ttl >= 0
    && AgeCheck(l, y) >= since + slow + l.ttl
  }

  /**
   * Bounded staleness under arbitrary failures. Let successful fetches of a layer find something good
   * from `since` on. A lookup that comes to the layer at least one TTL and one fetch later uses
   * something good, or its own refresh has just failed, or the latest refresh in the run failed less
   * than 30 s before.
   */
  lemma BoundedStaleness(ls: seq<Lookup>, l: Lookup, y: Layer, good: Content -> bool, since: int, slow: int)
    requires LateEnough(ls, l, y, good, since, slow)
    ensures || (LatestIn(ls + [l], y).Some? && good(LatestIn(ls + [l], y).value))
            || AttemptOn(RunCache(map[], ls), l, y) == RefreshFailed
            || (AttemptOn(RunCache(map[], ls), l, y) == NotTried && FailedLately(ls, l, y))
  {
    hide Reaches, RunCache, AttemptOn, HeldOn, LatestIn, FetchedIn, FailedIn, RunFindsSince;
    OldFetchedBefore(ls, y, good, since, slow);
    ReachedIsFresh(ls, l, y);
    OneMore(ls, l, y);
    OneCell(RunCache(map[], ls), l, y);
  }

  /** The lookup neither fails its own refresh nor leaves the layer alone because of a failure within 30 s. */
  predicate Undisturbed(ls: seq<Lookup>, l: Lookup, y: Layer) {
    match AttemptOn(RunCache(map[], ls), l, y)
    case Refreshed => true
    case RefreshFailed => false
    case NotTried => !FailedLately(ls, l, y)
  }

  /** So the answer of every such undisturbed lookup is made of something good. */
  lemma ChangeShowsWithinTtl(ls: seq<Lookup>, l: Lookup, y: Layer, good: Content -> bool, since: int, slow: int)
    requires LateEnough(ls, l, y, good, since, slow) && Undisturbed(ls, l, y)
    ensures LatestIn(ls + [l], y).Some? && good(LatestIn(ls + [l], y).value)
    ensures var answer := Serve(EntryOf(RunCache(map[], ls), l.org), l).answer;
      match LatestIn(ls + [l], y).value
      case Listing(g) => y.GrantedLayer? && (l.project in g ==> answer == Some(g[l.project]))
      case Owned(roles, name) => y.OwnedLayer? && answer == Some(ProjectInfo(l.project, name, "", roles))
  {
    BoundedStaleness(ls, l, y, good, since, slow);
    OneCell(RunCache(map[], ls), l, y);
    AnswersAreLatest(ls, l);
    AnswerIsCombined(RunCache(map[], ls), l);
    OneMore(ls, l, y);
    OneMore(ls, l, GrantedLayer(l.org));
    ReachedLayer(RunCache(map[], ls), l, y);
    hide Reaches, RunCache, AttemptOn, HeldOn, LatestIn, FetchedIn, FailedIn, RunFindsSince, FindsSince, FailedLately, Serve,
         Step, Fresh;
  }

  lemma ReachedLayer(c: Cache, l: Lookup, y: Layer)
    requires Reaches(c, l, y)
    ensures y == if y.GrantedLayer? then GrantedLayer(l.org) else OwnedLayer(l.org, l.project)
  {
  }

  /* Roles and names of owned projects */

  predicate HasRoles(c: Content, roles: seq<string>) {
    c.Owned? && c.roles == roles
  }

  /** Changed roles show in time whatever becomes of the name lookups. */
  lemma RolesShowWithinTtl(ls: seq<Lookup>, l: Lookup, y: Layer, roles: seq<string>, since: int, slow: int)
    requires LateEnough(ls, l, y, c => HasRoles(c, roles), since, slow) && Undisturbed(ls, l, y)
    ensures var answer := Serve(EntryOf(RunCache(map[], ls), l.org), l).answer;
      answer.Some? && answer.value.roles == roles
  {
    ChangeShowsWithinTtl(ls, l, y, c => HasRoles(c, roles), since, slow);
    hide LateEnough, Undisturbed, LatestIn, RunCache, Serve;
  }

  /** Roles and name show in time when the name lookups of successful fetches succeed too. */
  lemma NameShowsWithinTtl(ls: seq<Lookup>, l: Lookup, y: Layer, roles: seq<string>, name: string, since: int, slow: int)
    requires LateEnough(ls, l, y, c => c == Owned(roles, name), since, slow) && Undisturbed(ls, l, y)
    ensures Serve(EntryOf(RunCache(map[], ls), l.org), l).answer == Some(ProjectInfo(l.project, name, "", roles))
  {
    ChangeShowsWithinTtl(ls, l, y, c => c == Owned(roles, name), since, slow);
    hide LateEnough, Undisturbed, LatestIn, RunCache, Serve;
  }

  /** The name lookup that went with the latest successful fetch of the layer. */
  function NameIn(ls: seq<Lookup>, y: Layer): Option<Option<string>> {
    if ls == [] then None
    else if AttemptIn(ls, |ls| - 1, y) == Refreshed then Some(ls[|ls| - 1].name)
    else NameIn(ls[..|ls| - 1], y)
  }

  /** The name held for an owned project is the one looked up then, and the empty name if that lookup failed. */
  lemma {:induction false} NameIsLatest(ls: seq<Lookup>, y: Layer)
    requires y.OwnedLayer?
    ensures LatestIn(ls, y).Some? <==> NameIn(ls, y).Some?
    ensures LatestIn(ls, y).Some? ==>
      LatestIn(ls, y).value.Owned?
      && LatestIn(ls, y).value.name == if NameIn(ls, y).value.Some? then NameIn(ls, y).value.value else ""
  {
    hide AttemptOn, HeldOn, RunCache;
    if ls != [] {
      NameIsLatest(ls[..|ls| - 1], y);
      OneCell(RunCache(map[], ls[..|ls| - 1]), ls[|ls| - 1], y);
    }
  }

  /**
   * Exactly when a known name is lost. Name lookups that succeed find a name; then a lookup leaves a
   * project whose name was known without one if and only if it refreshed the roles and its name
   * lookup failed.
   */
  lemma NameLostExactly(c: Cache, l: Lookup, y: Layer)
    requires y.OwnedLayer? && Warm(c, y) && HeldOn(c, y).value.content.name != ""
    requires l.name != Some("")
    ensures Warm(Step(c, l), y)
    ensures HeldOn(Step(c, l), y).value.content.name == "" <==> AttemptOn(c, l, y) == Refreshed && l.name.None?
  {
    hide Step, AttemptOn, Reaches;
    OneCell(c, l, y);
  }

  /** One lookup of an owned project, all at one instant. */
  function LookupAt(time: int, ttl: int, name: Option<string>): Lookup {
    Lookup("org", "p", ttl, time, time, time, time, time, time, Some(map[]), Some(["viewer"]), name)
  }

  /** The name is known, then lost with a refresh of the roles whose name lookup fails. */
  function LostName(): seq<Lookup> {
    [LookupAt(0, 10, Some("proj")), LookupAt(11, 10, None)]
  }

  /**
   * A concrete run: although the project has been "proj" all along and no refresh has failed, a lookup
   * within the next TTL makes no attempt and answers the empty name.
   */
  lemma NameLost()
    ensures var y, l := OwnedLayer("org", "p"), LookupAt(21, 10, Some("proj"));
      var c := RunCache(map[], LostName());
      && AttemptOn(c, l, y) == NotTried && FailedIn(LostName(), y) == None
      && HeldOn(RunCache(map[], LostName()[..1]), y).value.content == Owned(["viewer"], "proj")
      && Serve(EntryOf(c, "org"), l).answer == Some(ProjectInfo("p", "", "", ["viewer"]))
  {
    var y, l := OwnedLayer("org", "p"), LookupAt(21, 10, Some("proj"));
    var ls := LostName();
    var empty: Cache := map[];
    assert ls[..1][..0] == [] && ls[..2] == ls && ls[..2][..1] == ls[..1];
    assert RunCache(map[], ls[..0]) == empty;
    var c1 := Step(empty, ls[0]);
    assert RunCache(map[], ls[..1]) == c1;
    var c2 := Step(c1, ls[1]);
    assert RunCache(map[], ls) == c2;
    assert EntryOf(c1, "org").owned["p"] == OwnedEntry(0, ["viewer"], "proj", None);
    assert EntryOf(c2, "org").owned["p"] == OwnedEntry(11, ["viewer"], "", None);
    assert AttemptIn(ls, 1, y) == Refreshed;
  }
}
