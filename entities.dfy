/**
 * The values the leadership service works on: users, team memberships,
 * leadership terms, the two response shapes it returns, and its two
 * failure kinds.
 */
module Entities {

  type TeamId = nat
  type UserId = nat

  datatype Option<+T> = None | Some(value: T)

  /** The two exceptions the service throws: a missing (or soft-deleted)
      team or user, and a violated business rule. */
  datatype Error = ResourceNotFound | BadRequest

  datatype Result<+T> = Ok(value: T) | Err(error: Error)

  /** A user as the user store returns it; the leadership record keeps a
      reference to it, so the values stored there are this whole record. */
  datatype User = User(id: UserId, name: string, email: string)

  /** Only ACTIVE matters to the service; every other status is Inactive. */
  datatype MembershipStatus = Active | Inactive

  datatype Membership = Membership(user: UserId, team: TeamId, status: MembershipStatus, joinedAt: nat)

  /** One leadership term. `endedAt == None` marks the team's current leader. */
  datatype LeadershipRecord = LeadershipRecord(team: TeamId, leader: User, startedAt: nat, endedAt: Option<nat>)

  /** What assignLeader, changeLeader and getCurrentLeader return. */
  datatype LeaderInfo = LeaderInfo(userId: UserId, name: string, email: string)

  /** One line of a team's leadership history. */
  datatype HistoryEntry = HistoryEntry(leaderId: UserId, leaderName: string, startedAt: nat, endedAt: Option<nat>, isCurrent: bool)

  function InfoOf(u: User): LeaderInfo {
    LeaderInfo(u.id, u.name, u.email)
  }

  predicate IsActiveFor(rec: LeadershipRecord, team: TeamId) {
    rec.team == team && rec.endedAt.None?
  }
}
