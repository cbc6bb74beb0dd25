/** User id and roles taken from the claims of an identity (Auth.cs). */
module Auth {
  import opened Wrappers
  import opened Linq

  const SubClaimType := "https://hip.cs.upb.de/sub"
  const RolesClaimType := "https://hip.cs.upb.de/roles"

  /** A claim: a type key and a value, both strings. */
  datatype Claim = Claim(claimType: string, value: string)

  /** An `IIdentity`: `Some(claims)` when it is a `ClaimsIdentity` with those claims
      in enumeration order, `None` for any other kind of identity. */
  type Identity = Option<seq<Claim>>

  /** Exact (ordinal, case-sensitive) match of the subject type. */
  predicate IsSubClaim(c: Claim) {
    c.claimType == SubClaimType
  }

  /** Exact (ordinal, case-sensitive) match of the roles type. */
  predicate IsRolesClaim(c: Claim) {
    c.claimType == RolesClaimType
  }

  /** `GetUserIdentity`: the value of the first subject claim, or null. */
  function GetUserIdentity(identity: Identity): (r: Option<string>)
    ensures identity.None? ==> r == None
    ensures identity.Some? ==>
      (r == None <==> forall i :: 0 <= i < |identity.value| ==> identity.value[i].claimType != SubClaimType)
  {
    match identity
    case None => None
    case Some(claims) =>
      match FirstIndex(claims, IsSubClaim)
      case None => None
      case Some(i) => Some(claims[i].value)
  }

  /** `GetUserRoles`: all roles claims, in order; never null. */
  function GetUserRoles(identity: Identity): (r: seq<Claim>)
    ensures identity.None? ==> r == []
    ensures forall k :: 0 <= k < |r| ==> r[k].claimType == RolesClaimType
  {
    match identity
    case None => []
    case Some(claims) => Where(claims, IsRolesClaim)
  }

  /** The id is the value of the subject claim at `i` when no earlier claim is one. */
  lemma UserIdentityIsFirstSub(claims: seq<Claim>, i: nat)
    requires i < |claims| && claims[i].claimType == SubClaimType
    requires forall j :: 0 <= j < i ==> claims[j].claimType != SubClaimType
    ensures GetUserIdentity(Some(claims)) == Some(claims[i].value)
  {
  }

  /** Claims after the first subject claim never affect the id. */
  lemma UserIdentityIgnoresLaterClaims(before: seq<Claim>, after: seq<Claim>)
    requires exists i :: 0 <= i < |before| && before[i].claimType == SubClaimType
    ensures GetUserIdentity(Some(before + after)) == GetUserIdentity(Some(before))
  {
    var i := FirstIndex(before, IsSubClaim).value;
    assert forall j :: 0 <= j < i ==> (before + after)[j] == before[j];
    FirstIndexAt(before + after, IsSubClaim, i);
  }

  /** A value is among the roles exactly as often as it is a roles claim of the identity;
      in particular the number of roles is the number of roles claims. */
  lemma UserRolesExactly(claims: seq<Claim>, c: Claim)
    ensures multiset(GetUserRoles(Some(claims)))[c] ==
      if c.claimType == RolesClaimType then multiset(claims)[c] else 0
  {
    WhereMultiplicity(claims, IsRolesClaim, c);
  }

  /** The roles keep the order of the claims. */
  lemma UserRolesKeepOrder(before: seq<Claim>, after: seq<Claim>)
    ensures GetUserRoles(Some(before + after)) == GetUserRoles(Some(before)) + GetUserRoles(Some(after))
  {
    WhereConcat(before, after, IsRolesClaim);
  }

  /** An identity made only of roles claims yields all of them. */
  lemma UserRolesAllRoles(claims: seq<Claim>)
    requires forall k :: 0 <= k < |claims| ==> claims[k].claimType == RolesClaimType
    ensures GetUserRoles(Some(claims)) == claims
  {
    WhereAll(claims, IsRolesClaim);
  }

  /** The worked example: two subject claims and two roles claims, interleaved;
      a differently-cased type is not a match. */
  lemma UserClaimsExample()
    ensures
      var claims := [Claim(SubClaimType, "u1"), Claim(RolesClaimType, "editor"),
                     Claim(RolesClaimType, "admin"), Claim(SubClaimType, "u2")];
      GetUserIdentity(Some(claims)) == Some("u1") &&
      GetUserRoles(Some(claims)) == [claims[1], claims[2]]
    ensures GetUserIdentity(Some([Claim("https://hip.cs.upb.de/SUB", "u1")])) == None
  {
    var claims := [Claim(SubClaimType, "u1"), Claim(RolesClaimType, "editor"),
                   Claim(RolesClaimType, "admin"), Claim(SubClaimType, "u2")];
    UserIdentityIsFirstSub(claims, 0);
    assert claims == [claims[0]] + [claims[1], claims[2]] + [claims[3]];
    UserRolesKeepOrder([claims[0]] + [claims[1], claims[2]], [claims[3]]);
    UserRolesKeepOrder([claims[0]], [claims[1], claims[2]]);
    UserRolesAllRoles([claims[1], claims[2]]);
    assert "https://hip.cs.upb.de/SUB"[22] != SubClaimType[22];
  }
}
