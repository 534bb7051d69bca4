// The object-level permission on tickets: any member may read, only
// admins and agents may write.
module Permissions {
  import opened Wrappers
  import opened Models
  import opened Tenancy

  /** The HTTP methods that only read. */
  const SafeMethods: set<string> := {"GET", "HEAD", "OPTIONS"}

  /** A role that may change tickets and suggestions. */
  predicate CanWrite(role: Role) {
    role == Admin || role == Agent
  }

  /** The role check of the suggestion and document handlers: an admin or
      an agent membership; no membership at all fails it too. */
  predicate AdminOrAgent(role: Option<Role>) {
    role.Some? && CanWrite(role.value)
  }

  /** Whether `user` may use HTTP method `verb` on an object of organisation `org`. */
  function HasObjectPermission(ms: seq<Membership>, user: nat, org: nat, verb: string): (r: bool)
    ensures UserRoleInOrg(ms, user, org).None? ==> !r
    ensures UserRoleInOrg(ms, user, org).Some? && verb in SafeMethods ==> r
    ensures UserRoleInOrg(ms, user, org).Some? && verb !in SafeMethods ==>
              (r <==> CanWrite(UserRoleInOrg(ms, user, org).value))
  {
    match UserRoleInOrg(ms, user, org)
    case None => false
    case Some(role) => verb in SafeMethods || role == Admin || role == Agent
  }

  /** A user with no membership in the organisation is refused, whatever the verb. */
  lemma NonMemberDenied(ms: seq<Membership>, user: nat, org: nat, verb: string)
    requires org !in UserOrgIds(ms, user)
    ensures !HasObjectPermission(ms, user, org, verb)
  {
    RoleIffMember(ms, user, org);
  }

  /** Every member may read, whatever their role. */
  lemma MemberMayRead(ms: seq<Membership>, user: nat, org: nat, verb: string)
    requires org in UserOrgIds(ms, user)
    requires verb in SafeMethods
    ensures HasObjectPermission(ms, user, org, verb)
  {
    RoleIffMember(ms, user, org);
  }

  /** With one membership row per (user, organization), a write is allowed
      exactly for an admin or an agent; a viewer is refused. */
  lemma WriteIffAdminOrAgent(ms: seq<Membership>, i: nat, verb: string)
    requires UniqueMembership(ms) && i < |ms|
    requires verb !in SafeMethods
    ensures HasObjectPermission(ms, ms[i].user, ms[i].org, verb) <==> ms[i].role in {Admin, Agent}
  {
    RoleOfUniqueMembership(ms, i);
  }

  /** The decision depends only on the role found and the method: two
      membership tables that give the same role give the same answer. */
  lemma DecidedByRoleAndMethod(ms1: seq<Membership>, ms2: seq<Membership>, user1: nat, user2: nat,
                               org1: nat, org2: nat, verb: string)
    requires UserRoleInOrg(ms1, user1, org1) == UserRoleInOrg(ms2, user2, org2)
    ensures HasObjectPermission(ms1, user1, org1, verb) == HasObjectPermission(ms2, user2, org2, verb)
  {
  }
}
