/**
 * The request gate `authenticate` (src/middlewares/auth.js): reads the
 * bearer token from the `Authorization` header, verifies it, loads the user
 * with roles and permissions, and either attaches the user or answers 401.
 * Token verification and the user lookup are parameters.
 */
module Gate {
  import opened Wrappers
  import opened Response
  import opened Access
  import opened Store

  /** The decoded payload of a verified token; a property may be missing. */
  datatype Claims = Claims(id: Option<UserId>, username: Option<string>)

  /** What `jwt.verify` does with a token: decode it, or throw one of two errors. */
  datatype Verification = Verified(claims: Claims) | Expired | Invalid

  /** What `User.findByPk(id, {include: roles.permissions})` does. */
  datatype Lookup = Found(user: Access.UserView) | NotFound | LookupFailed

  /** The gate's two endings: attach the user and call next, or respond. */
  datatype GateResult = Attach(user: Access.UserView) | Reject(response: ErrorReply)

  // --------------------------------------------------------- header parsing

  /** `s.split(sep)` for a one-character separator. */
  function Split(s: string, sep: char): (r: seq<string>)
    ensures |r| >= 1
    ensures forall k :: 0 <= k < |r| ==> sep !in r[k]
    ensures sep in s ==> |r| >= 2
    decreases |s|
  {
    if |s| == 0 then [""]
    else
      var rest := Split(s[1..], sep);
      if s[0] == sep then [""] + rest
      else [[s[0]] + rest[0]] + rest[1..]
  }

  /** `parts.join(sep)`. */
  function Join(parts: seq<string>, sep: char): string
    requires |parts| >= 1
    decreases |parts|
  {
    if |parts| == 1 then parts[0] else parts[0] + [sep] + Join(parts[1..], sep)
  }

  /** Splitting loses nothing: joining the fields back gives the string. */
  lemma {:induction false} JoinSplit(s: string, sep: char)
    ensures Join(Split(s, sep), sep) == s
    decreases |s|
  {
    if |s| > 0 {
      JoinSplit(s[1..], sep);
      var rest := Split(s[1..], sep);
      if s[0] == sep {
        assert Split(s, sep)[1..] == rest;
      } else {
        var r := Split(s, sep);
        if |rest| == 1 {
          assert r == [[s[0]] + rest[0]];
        } else {
          assert r[1..] == rest[1..];
          assert Join(rest, sep) == rest[0] + [sep] + Join(rest[1..], sep);
        }
      }
    }
  }

  /** Fields free of the separator come back unchanged from a join and a split. */
  lemma {:induction false} SplitJoin(parts: seq<string>, sep: char)
    requires |parts| >= 1
    requires forall k :: 0 <= k < |parts| ==> sep !in parts[k]
    ensures Split(Join(parts, sep), sep) == parts
    decreases |parts|
  {
    if |parts| == 1 {
      SplitNoSep(parts[0], sep);
    } else {
      SplitJoin(parts[1..], sep);
      SplitAfter(parts[0], sep, Join(parts[1..], sep));
      assert parts == [parts[0]] + parts[1..];
    }
  }

  lemma {:induction false} SplitNoSep(s: string, sep: char)
    requires sep !in s
    ensures Split(s, sep) == [s]
    decreases |s|
  {
    if |s| > 0 {
      SplitNoSep(s[1..], sep);
      assert [s[0]] + s[1..] == s;
    }
  }

  /** A field free of the separator followed by the separator is split off whole. */
  lemma {:induction false} SplitAfter(p: string, sep: char, rest: string)
    requires sep !in p
    ensures Split(p + [sep] + rest, sep) == [p] + Split(rest, sep)
    decreases |p|
  {
    var s := p + [sep] + rest;
    if |p| == 0 {
      assert s[1..] == rest;
    } else {
      SplitAfter(p[1..], sep, rest);
      assert s[1..] == p[1..] + [sep] + rest;
      assert [p[0]] + p[1..] == p;
    }
  }

  // ----------------------------------------------------------------- tokens

  const BearerPrefix: string := "Bearer "

  predicate StartsWith(s: string, prefix: string) {
    |prefix| <= |s| && s[..|prefix|] == prefix
  }

  /** `authHeader && authHeader.startsWith('Bearer ')` (an empty header is falsy and fails both). */
  predicate IsBearer(header: Option<string>) {
    header.Some? && StartsWith(header.value, BearerPrefix)
  }

  /** `authHeader.split(' ')[1]`: the field between the first and the second space. */
  function TokenOf(header: string): (t: string)
    requires StartsWith(header, BearerPrefix)
    ensures ' ' !in t
  {
    assert header[6] == ' ';
    Split(header, ' ')[1]
  }

  /**
   * The token is the text after "Bearer " up to the next space, so
   * "Bearer  x" carries the empty token.
   */
  lemma {:induction false} TokenAfterPrefix(rest: string)
    ensures TokenOf(BearerPrefix + rest) == Split(rest, ' ')[0]
    ensures TokenOf(BearerPrefix + " x") == ""
    ensures ' ' !in rest ==> TokenOf(BearerPrefix + rest) == rest
  {
    SplitAfter("Bearer", ' ', rest);
    assert BearerPrefix + rest == "Bearer" + [' '] + rest;
    SplitAfter("Bearer", ' ', " x");
    assert BearerPrefix + " x" == "Bearer" + [' '] + " x";
    SplitAfter("", ' ', "x");
    assert " x" == "" + [' '] + "x";
    if ' ' !in rest { SplitNoSep(rest, ' '); }
  }

  // ------------------------------------------------------------ the gate

  /** `authenticate`: every failure is a 401 with a message naming the cause. */
  function Authenticate(header: Option<string>, verify: string -> Verification,
                        lookup: UserId -> Lookup): (r: GateResult)
    ensures !IsBearer(header) ==>
              r == Reject(UnauthorizedResponse(Some("Authentication token is required")))
    ensures IsBearer(header) && verify(TokenOf(header.value)).Expired? ==>
              r == Reject(UnauthorizedResponse(Some("Token expired")))
    ensures IsBearer(header) && verify(TokenOf(header.value)).Invalid? ==>
              r == Reject(UnauthorizedResponse(Some("Invalid token")))
    ensures IsBearer(header) && verify(TokenOf(header.value)).Verified? ==>
              var id := verify(TokenOf(header.value)).claims.id;
              && (id.None? || lookup(id.value).NotFound? ==> r == Reject(UnauthorizedResponse(Some("User not found"))))
              && (id.Some? && lookup(id.value).LookupFailed? ==> r == Reject(UnauthorizedResponse(Some("Invalid token"))))
              && (id.Some? && lookup(id.value).Found? ==> r == Attach(lookup(id.value).user))
    ensures r.Reject? ==> r.response.status == 401
  {
    if !IsBearer(header) then Reject(UnauthorizedResponse(Some("Authentication token is required")))
    else
      match verify(TokenOf(header.value))
      case Expired => Reject(UnauthorizedResponse(Some("Token expired")))
      case Invalid => Reject(UnauthorizedResponse(Some("Invalid token")))
      case Verified(claims) =>
        // `findByPk(undefined)` finds nothing.
        var found := if claims.id.Some? then lookup(claims.id.value) else NotFound;
        match found
        case Found(u) => Attach(u)
        case NotFound => Reject(UnauthorizedResponse(Some("User not found")))
        // A store failure is one more exception the gate catches.
        case LookupFailed => Reject(UnauthorizedResponse(Some("Invalid token")))
  }

  /** The gate attaches a user exactly when every step succeeded, and never answers 403. */
  lemma {:induction false} AttachIffAllStepsSucceed(header: Option<string>, verify: string -> Verification,
                                                    lookup: UserId -> Lookup)
    ensures var r := Authenticate(header, verify, lookup);
            && (r.Attach? <==>
                  && IsBearer(header)
                  && verify(TokenOf(header.value)).Verified?
                  && verify(TokenOf(header.value)).claims.id.Some?
                  && lookup(verify(TokenOf(header.value)).claims.id.value).Found?)
            && (r.Reject? ==> r.response.status != 403)
  {
    var r := Authenticate(header, verify, lookup);
    if IsBearer(header) {
      var v := verify(TokenOf(header.value));
      if v.Verified? && v.claims.id.Some? {
        match lookup(v.claims.id.value)
        case Found(u) =>
        case NotFound =>
        case LookupFailed =>
      }
    }
  }

  // ------------------------------------------------------ identity resolver

  function PermViews(s: Store, ids: seq<PermId>): (r: seq<Access.PermView>)
    requires forall i :: 0 <= i < |ids| ==> ids[i] in s.perms
    ensures |r| == |ids|
    ensures forall i :: 0 <= i < |ids| ==> r[i] == Access.PermView(ids[i], s.perms[ids[i]].name, s.perms[ids[i]].desc, s.perms[ids[i]].parent)
  {
    seq(|ids|, i requires 0 <= i < |ids| && ids[i] in s.perms =>
      Access.PermView(ids[i], s.perms[ids[i]].name, s.perms[ids[i]].desc, s.perms[ids[i]].parent))
  }

  /** A role with all its existing permissions loaded. */
  function LoadRole(s: Store, role: RoleId): (r: Access.RoleView)
    requires role in s.roles
    ensures r.id == role && r.name == s.roles[role].name && r.desc == s.roles[role].desc && r.permissions.Some?
    ensures forall x :: x in PermsOf(s, role) <==>
              exists i :: 0 <= i < |r.permissions.value| && r.permissions.value[i].id == x
    ensures forall i :: 0 <= i < |r.permissions.value| ==>
              var p := r.permissions.value[i];
              p.id in s.perms && p == Access.PermView(p.id, s.perms[p.id].name, s.perms[p.id].desc, s.perms[p.id].parent)
    ensures forall i, j :: 0 <= i < j < |r.permissions.value| ==> r.permissions.value[i].id != r.permissions.value[j].id
    ensures forall n :: n in PermNames(r.permissions.value) <==>
              exists p :: p in PermsOf(s, role) && s.perms[p].name == n
  {
    var ids := SortedIds(PermsOf(s, role));
    var ps := PermViews(s, ids);
    GrantedViews(s, role, ids, ps);
    Access.RoleView(role, s.roles[role].name, s.roles[role].desc, Some(ps))
  }

  /** The views of a role's granted ids list each granted permission once, by id and by name. */
  lemma GrantedViews(s: Store, role: RoleId, ids: seq<PermId>, ps: seq<Access.PermView>)
    requires forall x :: x in ids <==> x in PermsOf(s, role)
    requires forall i, j :: 0 <= i < j < |ids| ==> ids[i] < ids[j]
    requires forall i :: 0 <= i < |ids| ==> ids[i] in s.perms
    requires ps == PermViews(s, ids)
    ensures forall x :: x in PermsOf(s, role) <==> exists i :: 0 <= i < |ps| && ps[i].id == x
    ensures forall i, j :: 0 <= i < j < |ps| ==> ps[i].id != ps[j].id
    ensures forall n :: n in PermNames(ps) <==> exists p :: p in PermsOf(s, role) && s.perms[p].name == n
  {
    forall x | x in PermsOf(s, role) ensures exists i :: 0 <= i < |ps| && ps[i].id == x {
      var i :| 0 <= i < |ids| && ids[i] == x;
      assert ps[i].id == x;
    }
    forall n ensures n in PermNames(ps) <==> exists p :: p in PermsOf(s, role) && s.perms[p].name == n {
      if n in PermNames(ps) {
        var j :| 0 <= j < |ps| && PermNames(ps)[j] == n;
        assert ids[j] in PermsOf(s, role);
      }
      if exists p :: p in PermsOf(s, role) && s.perms[p].name == n {
        var p :| p in PermsOf(s, role) && s.perms[p].name == n;
        var j :| 0 <= j < |ids| && ids[j] == p;
        assert PermNames(ps)[j] == n;
      }
    }
  }

  function LoadRoles(s: Store, ids: seq<RoleId>): (r: seq<Access.RoleView>)
    requires forall i :: 0 <= i < |ids| ==> ids[i] in s.roles
    ensures |r| == |ids|
    ensures forall i :: 0 <= i < |ids| ==> r[i] == LoadRole(s, ids[i])
  {
    seq(|ids|, i requires 0 <= i < |ids| && ids[i] in s.roles => LoadRole(s, ids[i]))
  }

  /** The names a user holds in the store: through any existing role it is assigned, any existing grant. */
  ghost function StoreGranted(s: Store, u: UserId): set<string> {
    set g | g in s.grants && g.0 in RolesOf(s, u) && g.1 in s.perms :: s.perms[g.1].name
  }

  /** The user loaded with roles and, for each role, its permissions. */
  function LoadIdentity(s: Store, u: UserId): (r: Access.UserView)
    requires u in s.users
    ensures r.id == u && r.username == s.users[u].username && r.password == s.users[u].password
    ensures && r.firstname == s.users[u].firstname && r.lastname == s.users[u].lastname
            && r.email == s.users[u].email && r.mobile == s.users[u].mobile
    ensures Loaded(r)
    ensures forall x :: x in RolesOf(s, u) <==> exists i :: 0 <= i < |r.roles.value| && r.roles.value[i].id == x
    ensures forall i :: 0 <= i < |r.roles.value| ==>
              r.roles.value[i].id in s.roles && r.roles.value[i] == LoadRole(s, r.roles.value[i].id)
    ensures forall i, j :: 0 <= i < j < |r.roles.value| ==> r.roles.value[i].id != r.roles.value[j].id
    ensures GrantedSet(r.roles.value) == StoreGranted(s, u)
  {
    var x := s.users[u];
    var ids := SortedIds(RolesOf(s, u));
    var rs := LoadRoles(s, ids);
    IdentityGrants(s, u, ids, rs);
    Access.UserView(u, x.username, x.password, x.firstname, x.lastname, x.email, x.mobile, Some(rs))
  }

  lemma IdentityGrants(s: Store, u: UserId, ids: seq<RoleId>, rs: seq<Access.RoleView>)
    requires forall x :: x in ids <==> x in RolesOf(s, u)
    requires forall i :: 0 <= i < |ids| ==> ids[i] in s.roles
    requires rs == LoadRoles(s, ids)
    ensures GrantedSet(rs) == StoreGranted(s, u)
  {
    forall n | n in GrantedSet(rs) ensures n in StoreGranted(s, u) {
      var i, j :| 0 <= i < |rs| && rs[i].permissions.Some? && 0 <= j < |rs[i].permissions.value|
                  && rs[i].permissions.value[j].name == n;
      assert n in PermNames(rs[i].permissions.value) by {
        assert PermNames(rs[i].permissions.value)[j] == n;
      }
      var p :| p in PermsOf(s, ids[i]) && s.perms[p].name == n;
      assert (ids[i], p) in s.grants;
    }
    forall n | n in StoreGranted(s, u) ensures n in GrantedSet(rs) {
      var g :| g in s.grants && g.0 in RolesOf(s, u) && g.1 in s.perms && s.perms[g.1].name == n;
      var i :| 0 <= i < |ids| && ids[i] == g.0;
      assert g.1 in PermsOf(s, ids[i]);
      assert n in PermNames(rs[i].permissions.value);
      var j :| 0 <= j < |rs[i].permissions.value| && PermNames(rs[i].permissions.value)[j] == n;
      assert rs[i].permissions.value[j].name == n;
    }
  }

  /** The user lookup the gate performs against a store that answers. */
  function StoreLookup(s: Store): UserId -> Lookup {
    u => if u in s.users then Found(LoadIdentity(s, u)) else NotFound
  }

  /**
   * Against a store, the gate attaches exactly the user the token names,
   * and that user's permission set is the one the store grants it.
   */
  lemma {:induction false} GateResolvesStoreIdentity(s: Store, header: Option<string>, verify: string -> Verification)
    requires IsBearer(header)
    requires verify(TokenOf(header.value)).Verified?
    ensures var c := verify(TokenOf(header.value)).claims;
            var r := Authenticate(header, verify, StoreLookup(s));
            && (r.Attach? <==> c.id.Some? && c.id.value in s.users)
            && (r.Attach? ==> r.user.id == c.id.value && GrantedSet(r.user.roles.value) == StoreGranted(s, c.id.value))
  {
  }
}
