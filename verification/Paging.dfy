/** The page loops: limit and offset against a stable list, any page of which may fail. */
module Paging {
  import opened Wrappers

  const PageSize: nat := 100

  function Min(a: nat, b: nat): nat {
    if a < b then a else b
  }

  /** One page of at most `PageSize` items. */
  function PageOf<T>(items: seq<T>, offset: nat): seq<T> {
    items[Min(offset, |items|)..Min(offset + PageSize, |items|)]
  }

  lemma PagesAddUp<T>(items: seq<T>, got: seq<T>)
    requires |got| <= |items| && got == items[..|got|]
    ensures var page := PageOf(items, |got|);
      && |got + page| <= |items| && got + page == items[..|got + page|] && |page| <= PageSize
      && (|page| < PageSize ==> got + page == items)
  {
  }

  lemma PageIsSlice<T>(items: seq<T>, offset: nat)
    requires offset <= |items|
    ensures var page := PageOf(items, offset);
      && |page| <= PageSize && offset + |page| <= |items| && page == items[offset..offset + |page|]
      && (|page| < PageSize ==> offset + |page| == |items|)
  {
  }

  /** A stable list behind a paged endpoint; `up(n)` says whether the call at offset `n` succeeds. */
  datatype Endpoint<!T> = Endpoint(items: seq<T>, up: nat -> bool)
  {
    /** Every page that a complete listing asks for is served, including the empty one after a full last page. */
    ghost predicate ServesAll() {
      forall n: nat :: n <= |items| && n % PageSize == 0 ==> up(n)
    }

    method List(offset: nat) returns (page: Option<seq<T>>)
      ensures page == if up(offset) then Some(PageOf(items, offset)) else None
    {
      page := if up(offset) then Some(PageOf(items, offset)) else None;
    }
  }

  /** A user as the API returns it. */
  datatype RawUser = RawUser(id: string, humanEmail: Option<string>, userName: string)

  datatype UserInfo = UserInfo(id: string, email: string)

  /** The user name stands in for a missing or empty email. */
  function InfoOf(u: RawUser): UserInfo {
    UserInfo(u.id, if u.humanEmail.Some? && u.humanEmail.value != "" then u.humanEmail.value else u.userName)
  }

  function InfosOf(us: seq<RawUser>): (infos: seq<UserInfo>)
    ensures |infos| == |us|
  {
    seq(|us|, i requires 0 <= i < |us| => InfoOf(us[i]))
  }

  lemma InfosMeaning(us: seq<RawUser>)
    ensures forall i :: 0 <= i < |us| ==>
      var raw, info := us[i], InfosOf(us)[i];
      info.id == raw.id
      && (raw.humanEmail.Some? && raw.humanEmail.value != "" ==> info.email == raw.humanEmail.value)
      && (raw.humanEmail == None || raw.humanEmail == Some("") ==> info.email == raw.userName)
  {
  }

  lemma InfosOfNext(us: seq<RawUser>, n: nat)
    requires n < |us|
    ensures InfosOf(us[..n + 1]) == InfosOf(us[..n]) + [InfoOf(us[n])]
  {
  }

  /** `ListUsers` returns the whole list in order, or fails exactly when some needed page does. */
  method ListUsers(api: Endpoint<RawUser>) returns (users: Option<seq<UserInfo>>)
    ensures users == if api.ServesAll() then Some(InfosOf(api.items)) else None
    ensures users.Some? <==> forall n: nat :: n <= |api.items| && n % 100 == 0 ==> api.up(n)
    ensures users.Some? ==> |users.value| == |api.items| && forall i :: 0 <= i < |api.items| ==>
      var raw, info := api.items[i], users.value[i];
      info.id == raw.id
      && (raw.humanEmail.Some? && raw.humanEmail.value != "" ==> info.email == raw.humanEmail.value)
      && (raw.humanEmail == None || raw.humanEmail == Some("") ==> info.email == raw.userName)
  {
    hide PageOf, InfosOf;
    var all: seq<UserInfo> := [];
    var offset := 0;
    while true
      invariant offset == |all| <= |api.items| && offset % PageSize == 0
      invariant all == InfosOf(api.items[..offset])
      invariant forall n: nat :: n < offset && n % PageSize == 0 ==> api.up(n)
      decreases |api.items| - offset
    {
      var page := api.List(offset);
      if page.None? {
        return None;
      }
      PageIsSlice(api.items, offset);
      for i := 0 to |page.value|
        invariant all == InfosOf(api.items[..offset + i])
      {
        var u := page.value[i];
        var email := if u.humanEmail.Some? then u.humanEmail.value else "";
        if email == "" {
          email := u.userName;
        }
        all := all + [UserInfo(u.id, email)];
        InfosOfNext(api.items, offset + i);
      }
      if |page.value| < PageSize {
        assert api.items[..|api.items|] == api.items;
        InfosMeaning(api.items);
        return Some(all);
      }
      offset := offset + PageSize;
    }
  }

  /** A project granted to an org, as the API returns it. */
  datatype GrantedProject = GrantedProject(projectId: string, name: string, grantId: string, roles: seq<string>)

  /** How an org can grant a project (pkg/catalog/catalog.go). */
  datatype ProjectInfo = ProjectInfo(projectId: string, name: string, projectGrantId: string, roles: seq<string>)

  /** The listed projects by id; a later entry for the same project replaces an earlier one. */
  function GrantedMap(gs: seq<GrantedProject>): (m: map<string, ProjectInfo>)
    ensures forall p :: p in m ==> m[p].projectId == p
  {
    if gs == [] then map[]
    else
      var g := gs[|gs| - 1];
      GrantedMap(gs[..|gs| - 1])[g.projectId := ProjectInfo(g.projectId, g.name, g.grantId, g.roles)]
  }

  /** The projects of the map are the listed ones, each as it was listed last. */
  lemma {:induction false} GrantedMapIsLast(gs: seq<GrantedProject>, i: nat)
    requires i < |gs|
    ensures forall p :: p in GrantedMap(gs) <==> exists g :: g in gs && g.projectId == p
    ensures (forall j :: i < j < |gs| ==> gs[j].projectId != gs[i].projectId) ==>
      var info := GrantedMap(gs)[gs[i].projectId];
      && info.projectId == gs[i].projectId && info.name == gs[i].name
      && info.projectGrantId == gs[i].grantId && info.roles == gs[i].roles
  {
    var n := |gs| - 1;
    assert gs == gs[..n] + [gs[n]];
    if n > 0 {
      GrantedMapIsLast(gs[..n], if i < n then i else 0);
    } else {
      assert GrantedMap(gs[..n]) == map[];
    }
  }

  method FetchGranted(api: Endpoint<GrantedProject>) returns (granted: Option<map<string, ProjectInfo>>)
    ensures granted == if api.ServesAll() then Some(GrantedMap(api.items)) else None
    ensures granted.Some? <==> forall n: nat :: n <= |api.items| && n % 100 == 0 ==> api.up(n)
  {
    hide PageOf, GrantedMap;
    var all: map<string, ProjectInfo> := map[];
    var offset := 0;
    NothingGranted(api.items);
    while true
      invariant 0 <= offset <= |api.items| && offset % PageSize == 0
      invariant GrantedUpTo(api.items, offset, all)
      invariant forall n: nat :: n < offset && n % PageSize == 0 ==> api.up(n)
      decreases |api.items| - offset
    {
      var page := api.List(offset);
      if page.None? {
        return None;
      }
      PageIsSlice(api.items, offset);
      all := AddPage(api.items, offset, page.value, all);
      if |page.value| < PageSize {
        assert api.items[..|api.items|] == api.items;
        return Some(all);
      }
      offset := offset + PageSize;
    }
  }

  ghost predicate GrantedUpTo(items: seq<GrantedProject>, n: nat, all: map<string, ProjectInfo>) {
    n <= |items| && all == GrantedMap(items[..n])
  }

  lemma NothingGranted(items: seq<GrantedProject>)
    ensures GrantedUpTo(items, 0, map[])
  {
  }

  method AddPage(ghost items: seq<GrantedProject>, ghost offset: nat, page: seq<GrantedProject>,
                 soFar: map<string, ProjectInfo>)
    returns (all: map<string, ProjectInfo>)
    requires offset + |page| <= |items| && page == items[offset..offset + |page|]
    requires GrantedUpTo(items, offset, soFar)
    ensures GrantedUpTo(items, offset + |page|, all)
  {
    all := soFar;
    for i := 0 to |page|
      invariant GrantedUpTo(items, offset + i, all)
    {
      var gp := page[i];
      assert items[..offset + i + 1][..offset + i] == items[..offset + i];
      all := all[gp.projectId := ProjectInfo(gp.projectId, gp.name, gp.grantId, gp.roles)];
    }
  }

  method FetchOwnedRoles(api: Endpoint<string>) returns (roles: Option<seq<string>>)
    ensures roles == if api.ServesAll() then Some(api.items) else None
    ensures roles.Some? <==> forall n: nat :: n <= |api.items| && n % 100 == 0 ==> api.up(n)
  {
    var all: seq<string> := [];
    var offset := 0;
    while true
      invariant offset == |all| <= |api.items| && offset % PageSize == 0
      invariant all == api.items[..offset]
      invariant forall n: nat :: n < offset && n % PageSize == 0 ==> api.up(n)
      decreases |api.items| - offset
    {
      var page := api.List(offset);
      if page.None? {
        return None;
      }
      PagesAddUp(api.items, all);
      all := all + page.value;
      if |page.value| < PageSize {
        return Some(all);
      }
      offset := offset + PageSize;
    }
  }
}
