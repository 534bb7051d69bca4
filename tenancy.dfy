// Which organisations a user belongs to, and with which role. The
// membership table is a sequence of rows in storage order.
module Tenancy {
  import opened Wrappers
  import opened Models

  /** The organisations `user` has a membership in. */
  function UserOrgIds(ms: seq<Membership>, user: nat): (r: set<nat>)
  {
    set i | 0 <= i < |ms| && ms[i].user == user :: ms[i].org
  }

  /** A (user, org) membership row exists, whatever its role. */
  predicate IsMember(ms: seq<Membership>, user: nat, org: nat) {
    exists m :: m in ms && m.user == user && m.org == org
  }

  /** `org` is in `UserOrgIds` exactly when a (user, org) membership row exists. */
  lemma UserOrgIdsIffMember(ms: seq<Membership>, user: nat, org: nat)
    ensures org in UserOrgIds(ms, user) <==> IsMember(ms, user, org)
  {
    if org in UserOrgIds(ms, user) {
      var i :| 0 <= i < |ms| && ms[i].user == user && ms[i].org == org;
      assert ms[i] in ms;
    }
    if IsMember(ms, user, org) {
      var m :| m in ms && m.user == user && m.org == org;
      var i :| 0 <= i < |ms| && ms[i] == m;
      assert ms[i].org in UserOrgIds(ms, user);
    }
  }

  /** The role of the first (user, org) row, or `None` when there is none. */
  function UserRoleInOrg(ms: seq<Membership>, user: nat, org: nat): (r: Option<Role>)
    ensures r.Some? ==> Membership(user, org, r.value) in ms
  {
    if |ms| == 0 then None
    else if ms[0].user == user && ms[0].org == org then Some(ms[0].role)
    else UserRoleInOrg(ms[1..], user, org)
  }

  /** `UserRoleInOrg` is `None` exactly when the user has no membership in
      the organisation, i.e. when `org` is not among `UserOrgIds`. */
  lemma {:induction false} RoleIffMember(ms: seq<Membership>, user: nat, org: nat)
    ensures UserRoleInOrg(ms, user, org).Some? <==> org in UserOrgIds(ms, user)
  {
    if |ms| > 0 {
      RoleIffMember(ms[1..], user, org);
      if ms[0].user == user && ms[0].org == org {
        assert ms[0].org in UserOrgIds(ms, user);
      } else {
        if org in UserOrgIds(ms, user) {
          var i :| 0 <= i < |ms| && ms[i].user == user && ms[i].org == org;
          assert i > 0 && ms[1..][i - 1] == ms[i];
          assert org in UserOrgIds(ms[1..], user);
        }
        if org in UserOrgIds(ms[1..], user) {
          var i :| 0 <= i < |ms[1..]| && ms[1..][i].user == user && ms[1..][i].org == org;
          assert ms[i + 1] == ms[1..][i];
          assert ms[i + 1].org in UserOrgIds(ms, user);
        }
      }
    }
  }

  /** Under the (user, organization) uniqueness constraint, the role found is
      the role of the one membership row there is. */
  lemma {:induction false} RoleOfUniqueMembership(ms: seq<Membership>, i: nat)
    requires UniqueMembership(ms)
    requires i < |ms|
    ensures UserRoleInOrg(ms, ms[i].user, ms[i].org) == Some(ms[i].role)
  {
    if i > 0 {
      assert !(ms[0].user == ms[i].user && ms[0].org == ms[i].org);
      assert UniqueMembership(ms[1..]) by {
        forall a, b | 0 <= a < b < |ms[1..]|
          ensures !(ms[1..][a].user == ms[1..][b].user && ms[1..][a].org == ms[1..][b].org)
        {
          assert ms[1..][a] == ms[a + 1] && ms[1..][b] == ms[b + 1];
        }
      }
      assert ms[1..][i - 1] == ms[i];
      RoleOfUniqueMembership(ms[1..], i - 1);
    }
  }
}
