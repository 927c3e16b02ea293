/** The JWK Set cache of the webhook verifier (pkg/zitadeljwt/jwt.go). */
module KeySet {
  import opened Wrappers

  /** A JWK Set (section 5 of RFC 7517), as the set of its key ids. */
  type Kids = set<string>

  /** One fetch: what came back, when the server answered, and the clock reading after it. */
  datatype Fetch = Fetch(keys: Option<Kids>, answered: int, finished: int)

  /** One call: the key ids of the message's signatures and what clock and server contribute, in order. */
  datatype Call = Call(kids: seq<Option<string>>, periodic: int, refresh: Fetch, unknown: int, refetch: Fetch)
  {
    /** The clock never goes backwards. */
    predicate Timely() {
      periodic <= refresh.answered <= refresh.finished <= unknown <= refetch.answered <= refetch.finished
    }
  }

  datatype State = State(keySet: Option<Kids>, fetchedAt: int)

  datatype Intervals = Intervals(refresh: int, minRefetch: int)

  predicate HoldsAllKids(keys: Kids, kids: seq<Option<string>>) {
    forall k :: k in kids ==> k.Some? && k.value != "" && k.value in keys
  }

  predicate RefreshDue(i: Intervals, v: State, c: Call) {
    v.keySet.None? || c.periodic - v.fetchedAt > i.refresh
  }

  function Refetched(v: State, f: Fetch): State {
    if f.keys.Some? then State(f.keys, f.finished) else v
  }

  function AfterRefresh(i: Intervals, v: State, c: Call): State {
    if RefreshDue(i, v, c) then Refetched(v, c.refresh) else v
  }

  predicate RefetchDue(i: Intervals, v: State, c: Call) {
    var r := AfterRefresh(i, v, c);
    r.keySet.Some? && !HoldsAllKids(r.keySet.value, c.kids) && c.unknown - r.fetchedAt >= i.minRefetch
  }

  function Step(i: Intervals, v: State, c: Call): State {
    if RefetchDue(i, v, c) then Refetched(AfterRefresh(i, v, c), c.refetch) else AfterRefresh(i, v, c)
  }

  const Empty := State(None, 0)

  /** The cache after a sequence of calls; the mutex makes concurrent calls such a sequence. */
  function Run(i: Intervals, cs: seq<Call>): State {
    if cs == [] then Empty else Step(i, Run(i, cs[..|cs| - 1]), cs[|cs| - 1])
  }

  class Verifier {
    const intervals: Intervals
    var keySet: Option<Kids>
    var fetchedAt: int

    constructor (intervals: Intervals)
      ensures this.intervals == intervals && State(keySet, fetchedAt) == Empty
    {
      this.intervals := intervals;
      keySet, fetchedAt := None, 0;
    }

    /** `holdsAllKidsLocked`: a signature without a key id counts as unknown. */
    method HoldsAll(kids: seq<Option<string>>) returns (all: bool)
      requires keySet.Some?
      ensures all <==> HoldsAllKids(keySet.value, kids)
    {
      for n := 0 to |kids|
        invariant HoldsAllKids(keySet.value, kids[..n])
      {
        if kids[n].None? || kids[n].value == "" || kids[n].value !in keySet.value {
          assert kids[n] in kids;
          return false;
        }
      }
      assert kids[..|kids|] == kids;
      return true;
    }

    method Refetch(f: Fetch) returns (ok: bool)
      modifies this
      ensures ok == f.keys.Some? && State(keySet, fetchedAt) == Refetched(old(State(keySet, fetchedAt)), f)
    {
      if f.keys.None? {
        return false;
      }
      keySet := f.keys;
      fetchedAt := f.finished;
      return true;
    }

    method KeySetFor(c: Call) returns (keys: Option<Kids>)
      modifies this
      ensures State(keySet, fetchedAt) == Step(intervals, old(State(keySet, fetchedAt)), c)
      ensures keys == keySet
    {
      if keySet.None? || c.periodic - fetchedAt > intervals.refresh {
        var ok := Refetch(c.refresh);
        if !ok && keySet.None? {
          return None;
        }
      }
      var known := HoldsAll(c.kids);
      if !known && c.unknown - fetchedAt >= intervals.minRefetch {
        var ignored := Refetch(c.refetch);
      }
      return keySet;
    }
  }

  /* Laws */

  /**
   * One call spelled out. It fetches when nothing is cached or the set is older than the refresh
   * interval; then, if some signature names no key id, an empty one or one the set lacks, and the set
   * is at least as old as the minimal interval, it fetches again. Only successful fetches count.
   */
  lemma CallExactly(i: Intervals, v: State, c: Call)
    ensures var r :=
        if (v.keySet.None? || c.periodic - v.fetchedAt > i.refresh) && c.refresh.keys.Some? then
          State(c.refresh.keys, c.refresh.finished)
        else v;
      Step(i, v, c) ==
        if r.keySet.Some? && c.unknown - r.fetchedAt >= i.minRefetch && c.refetch.keys.Some?
           && (exists k :: k in c.kids && (k == None || k == Some("") || k.value !in r.keySet.value)) then
          State(c.refetch.keys, c.refetch.finished)
        else r
  {
  }

  /** The latest successful fetch of a run. */
  function Latest(i: Intervals, cs: seq<Call>): Option<Kids> {
    if cs == [] then None
    else
      var v := Run(i, cs[..|cs| - 1]);
      var c := cs[|cs| - 1];
      if RefetchDue(i, v, c) && c.refetch.keys.Some? then c.refetch.keys
      else if RefreshDue(i, v, c) && c.refresh.keys.Some? then c.refresh.keys
      else Latest(i, cs[..|cs| - 1])
  }

  /** The cached set is the latest successful fetch, and once there is one the cache is never empty again. */
  lemma {:induction false} CachedIsLatest(i: Intervals, cs: seq<Call>, more: seq<Call>)
    ensures Run(i, cs + more).keySet == Latest(i, cs + more)
    ensures Run(i, cs).keySet.Some? ==> Run(i, cs + more).keySet.Some?
    decreases |cs + more|, |more|
  {
    var all := cs + more;
    if more != [] {
      assert all[..|all| - 1] == cs + more[..|more| - 1];
      CachedIsLatest(i, cs, more[..|more| - 1]);
    } else {
      assert all == cs;
      if cs != [] {
        CachedIsLatest(i, cs[..|cs| - 1], []);
        assert cs[..|cs| - 1] + [] == cs[..|cs| - 1];
      }
    }
  }

  /** A fetch no slower than `slow` whose answers, from time `since` on, hold the key id exactly if `present`. */
  predicate Reports(f: Fetch, kid: string, present: bool, since: int, slow: int) {
    f.finished - f.answered <= slow
    && (f.keys.Some? && f.answered >= since ==> (kid in f.keys.value <==> present))
  }

  predicate CallReports(c: Call, kid: string, present: bool, since: int, slow: int) {
    c.Timely() && Reports(c.refresh, kid, present, since, slow) && Reports(c.refetch, kid, present, since, slow)
  }

  /** A cached set that is wrong about the key id was fetched before the change became visible. */
  predicate WrongOnlyIfOld(v: State, kid: string, present: bool, since: int, slow: int) {
    v.keySet.Some? && (kid in v.keySet.value) != present ==> v.fetchedAt < since + slow
  }

  lemma {:induction false} WrongOnlyWhenOld(i: Intervals, cs: seq<Call>, kid: string, present: bool, since: int, slow: int)
    requires forall c :: c in cs ==> CallReports(c, kid, present, since, slow)
    ensures WrongOnlyIfOld(Run(i, cs), kid, present, since, slow)
  {
    if cs != [] {
      var rest := cs[..|cs| - 1];
      assert forall c :: c in rest ==> c in cs;
      assert cs[|cs| - 1] in cs;
      WrongOnlyWhenOld(i, rest, kid, present, since, slow);
    }
  }

  /**
   * Rotation. A key id published at `since` and kept is in the result of every call that refers to
   * it, starts at least the minimal refetch interval and one fetch later, and whose fetches succeed.
   */
  lemma NewKeyIsFound(i: Intervals, cs: seq<Call>, c: Call, kid: string, since: int, slow: int)
    requires (forall d :: d in cs ==> CallReports(d, kid, true, since, slow)) && CallReports(c, kid, true, since, slow)
    requires Some(kid) in c.kids && slow >= 0 && i.minRefetch >= 0
    requires c.refresh.keys.Some? && c.refetch.keys.Some?
    requires c.periodic >= since + slow + i.minRefetch
    ensures var keys := Step(i, Run(i, cs), c).keySet; keys.Some? && kid in keys.value
  {
    WrongOnlyWhenOld(i, cs, kid, true, since, slow);
  }

  /**
   * Withdrawal. A key id withdrawn at `since` for good is in no result of a call that starts more
   * than the refresh interval plus one fetch later and whose fetches succeed, whatever it refers to.
   */
  lemma OldKeyIsGone(i: Intervals, cs: seq<Call>, c: Call, kid: string, since: int, slow: int)
    requires (forall d :: d in cs ==> CallReports(d, kid, false, since, slow)) && CallReports(c, kid, false, since, slow)
    requires slow >= 0 && i.refresh >= 0 && c.refresh.keys.Some? && c.refetch.keys.Some?
    requires c.periodic >= since + slow + i.refresh
    ensures var keys := Step(i, Run(i, cs), c).keySet; keys.Some? && kid !in keys.value
  {
    WrongOnlyWhenOld(i, cs, kid, false, since, slow);
  }

  /** Completion times of the successful fetches of a run, oldest first. */
  function Successes(i: Intervals, cs: seq<Call>): seq<int> {
    if cs == [] then []
    else
      var v := Run(i, cs[..|cs| - 1]);
      var c := cs[|cs| - 1];
      Successes(i, cs[..|cs| - 1])
      + (if RefreshDue(i, v, c) && c.refresh.keys.Some? then [c.refresh.finished] else [])
      + (if RefetchDue(i, v, c) && c.refetch.keys.Some? then [c.refetch.finished] else [])
  }

  function Gap(i: Intervals): int {
    if i.refresh < i.minRefetch then i.refresh else i.minRefetch
  }

  ghost predicate Spread(ts: seq<int>, gap: int) {
    forall n :: 0 <= n < |ts| - 1 ==> ts[n + 1] - ts[n] >= gap
  }

  lemma SpreadSnoc(ts: seq<int>, t: int, gap: int)
    requires Spread(ts, gap) && (ts != [] ==> t - ts[|ts| - 1] >= gap)
    ensures Spread(ts + [t], gap)
  {
  }

  /** Successful fetches are at least the smaller interval apart, within a call and across calls. */
  lemma {:induction false} SuccessesSpread(i: Intervals, cs: seq<Call>)
    requires forall c :: c in cs ==> c.Timely()
    ensures var ts := Successes(i, cs);
      && Spread(ts, Gap(i))
      && (Run(i, cs).keySet.Some? <==> ts != [])
      && (ts != [] ==> Run(i, cs).fetchedAt == ts[|ts| - 1])
  {
    if cs != [] {
      var rest := cs[..|cs| - 1];
      var c := cs[|cs| - 1];
      assert forall d :: d in rest ==> d in cs;
      assert c in cs;
      SuccessesSpread(i, rest);
      var v, ts := Run(i, rest), Successes(i, rest);
      var mid := if RefreshDue(i, v, c) && c.refresh.keys.Some? then ts + [c.refresh.finished] else ts;
      if RefreshDue(i, v, c) && c.refresh.keys.Some? {
        SpreadSnoc(ts, c.refresh.finished, Gap(i));
      }
      if RefetchDue(i, v, c) && c.refetch.keys.Some? {
        SpreadSnoc(mid, c.refetch.finished, Gap(i));
      }
    }
  }

  /** Fetches a call makes, successful or not. */
  function Fetches(i: Intervals, v: State, c: Call): nat {
    (if RefreshDue(i, v, c) then 1 else 0) + if RefetchDue(i, v, c) then 1 else 0
  }

  /** The cache after more calls. */
  function Serve(i: Intervals, v: State, ds: seq<Call>): State {
    if ds == [] then v else Step(i, Serve(i, v, ds[..|ds| - 1]), ds[|ds| - 1])
  }

  /** The call makes a fetch that succeeds. */
  predicate Succeeds(i: Intervals, v: State, d: Call) {
    (RefreshDue(i, v, d) && d.refresh.keys.Some?) || (RefetchDue(i, v, d) && d.refetch.keys.Some?)
  }

  /** Some fetch of these calls succeeds. */
  predicate AnySucceeds(i: Intervals, v: State, ds: seq<Call>) {
    ds != []
    && var n := |ds| - 1;
       AnySucceeds(i, v, ds[..n]) || Succeeds(i, Serve(i, v, ds[..n]), ds[n])
  }

  /** The calls come after `t`, on a clock that never goes backwards. */
  predicate Since(ds: seq<Call>, t: int) {
    forall d :: d in ds ==> d.Timely() && t <= d.periodic
  }

  lemma OneCall(i: Intervals, v: State, d: Call, t: int)
    requires d.Timely() && t <= d.periodic
    ensures if Succeeds(i, v, d) then Step(i, v, d).fetchedAt >= t else Step(i, v, d) == v
    ensures v.keySet.Some? ==> Step(i, v, d).keySet.Some?
  {
    hide HoldsAllKids;
  }

  lemma {:induction false} LaterCalls(i: Intervals, v: State, ds: seq<Call>, t: int)
    requires v.keySet.Some? && Since(ds, t)
    ensures Serve(i, v, ds).keySet.Some?
    ensures if AnySucceeds(i, v, ds) then Serve(i, v, ds).fetchedAt >= t else Serve(i, v, ds) == v
  {
    hide Step, Succeeds;
    if ds != [] {
      var n := |ds| - 1;
      assert ds[n] in ds && forall d :: d in ds[..n] ==> d in ds;
      LaterCalls(i, v, ds[..n], t);
      OneCall(i, Serve(i, v, ds[..n]), ds[n], t);
    }
  }

  /**
   * Exactly when the refetch for an unknown key id is rate-limited. Let a call refetch, let any calls
   * follow, and let one more, less than the minimal interval after that refetch, still miss a key id
   * once its own periodic refresh is dealt with. It refetches again if and only if no fetch has
   * succeeded from that first refetch on.
   */
  lemma RefetchLimitedExactly(i: Intervals, v: State, c: Call, between: seq<Call>, d: Call)
    requires c.Timely() && RefetchDue(i, v, c)
    requires Since(between, c.refetch.finished) && Since([d], c.refetch.finished)
    requires d.unknown - c.refetch.finished < i.minRefetch
    requires var w := Serve(i, Step(i, v, c), between);
      var r := AfterRefresh(i, w, d);
      r.keySet.Some? && !HoldsAllKids(r.keySet.value, d.kids)
    ensures var w := Serve(i, Step(i, v, c), between);
      RefetchDue(i, w, d) <==>
        && c.refetch.keys.None? && !AnySucceeds(i, Step(i, v, c), between)
        && (RefreshDue(i, w, d) ==> d.refresh.keys.None?)
  {
    hide HoldsAllKids, Serve, AnySucceeds;
    assert d in [d];
    var first := Step(i, v, c);
    assert first.keySet.Some? && (c.refetch.keys.None? ==> first == AfterRefresh(i, v, c));
    LaterCalls(i, Step(i, v, c), between, c.refetch.finished);
  }

  /** The rate limit counts successes only: a call that fetches and fails leaves the cache as it was. */
  lemma {:induction false} FailuresLeaveCache(i: Intervals, cs: seq<Call>, c: Call, n: nat)
    requires c.refresh.keys.None? && c.refetch.keys.None?
    ensures Run(i, cs + seq(n, _ => c)) == Run(i, cs)
  {
    if n == 0 {
      assert cs + seq(0, _ => c) == cs;
    } else {
      FailuresLeaveCache(i, cs, c, n - 1);
      var all := cs + seq(n, _ => c);
      assert all[..|all| - 1] == cs + seq(n - 1, _ => c);
    }
  }

  /**
   * Failed refetches are not spaced out. Once the minimal interval has passed since the last
   * successful fetch, each of any number of calls at one instant that name an unknown key id and
   * whose fetches fail makes its own fetch.
   */
  lemma FailuresAreNotSpaced(i: Intervals, cs: seq<Call>, c: Call, n: nat)
    requires c.refresh.keys.None? && c.refetch.keys.None?
    requires var v := Run(i, cs);
      v.keySet.Some? && !HoldsAllKids(v.keySet.value, c.kids) && c.unknown - v.fetchedAt >= i.minRefetch
    ensures RefetchDue(i, Run(i, cs + seq(n, _ => c)), c)
    ensures Fetches(i, Run(i, cs + seq(n, _ => c)), c) >= 1
  {
    hide HoldsAllKids, Run;
    FailuresLeaveCache(i, cs, c, n);
  }

  /** The server answers once, at time 0, with one key. */
  function FirstFetch(): Call {
    Call([], 0, Fetch(Some({"old"}), 0, 0), 0, Fetch(None, 0, 0))
  }

  /** Then it is down, and a message names another key when the minimal interval has just passed. */
  function UnknownKey(i: Intervals): Call {
    var now := if i.minRefetch > 0 then i.minRefetch else 0;
    Call([Some("new")], now, Fetch(None, now, now), now, Fetch(None, now, now))
  }

  /** A concrete run in which any number of calls at one instant all fetch. */
  lemma HammeredWhileDown(i: Intervals, n: nat)
    ensures FirstFetch().Timely() && UnknownKey(i).Timely()
    ensures RefetchDue(i, Run(i, [FirstFetch()] + seq(n, _ => UnknownKey(i))), UnknownKey(i))
    ensures Fetches(i, Run(i, [FirstFetch()] + seq(n, _ => UnknownKey(i))), UnknownKey(i)) >= 1
  {
    var cs := [FirstFetch()];
    assert cs[..0] == [] && Run(i, cs[..0]) == Empty;
    assert Run(i, cs) == State(Some({"old"}), 0);
    var c := UnknownKey(i);
    assert c.kids[0] in c.kids && "new" !in {"old"};
    FailuresAreNotSpaced(i, cs, c, n);
  }
}
