/** The escalation rule every role-granting write shares. */
module Roles {
  import opened Domain
  import opened Tables

  /** The actor is a member of `event` at all, and either grants `Attendee` or
      holds an admin row there. Fails closed for a non-member. */
  predicate CanGrant(members: map<Id, Member>, event: Id, actor: Id, role: Role) {
    && IsMember(members, event, actor)
    && (role == Attendee ||
        exists m :: m in members && members[m].eventId == event && members[m].userId == actor && members[m].role == Admin)
  }
}
