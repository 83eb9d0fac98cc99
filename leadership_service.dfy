/**
 * The team-leadership service: it assigns, changes and removes a team's
 * leader and answers who leads a team now and who led it before.
 *
 * The service's four repositories are the fields of one object: the live
 * (not soft-deleted) teams and users, the append-only leadership log and
 * the membership table. `clock` stands for the current time; every write
 * an operation makes is stamped with it, and only `Tick` moves it forward.
 */
module LeadershipService {
  import opened Entities
  import opened Repositories

  class TeamLeadershipService {
    var teams: set<TeamId>
    var users: map<UserId, User>
    var records: seq<LeadershipRecord>
    var memberships: seq<Membership>
    var clock: nat

    /** Users are stored under their own ids; the log is chronological,
        within the clock, and has at most one open term per team (the
        latest); a user has at most one ACTIVE membership. */
    ghost predicate Valid()
      reads this
    {
      && (forall id :: id in users ==> users[id].id == id)
      && Chronological(records)
      && TermsWithin(records, clock)
      && ActiveIsLatest(records)
      && AtMostOneActiveMembership(memberships)
    }

    constructor (teams: set<TeamId>, users: map<UserId, User>, memberships: seq<Membership>)
      requires forall id :: id in users ==> users[id].id == id
      requires AtMostOneActiveMembership(memberships)
      ensures Valid()
      ensures this.teams == teams && this.users == users && this.memberships == memberships
      ensures records == [] && clock == 0
    {
      this.teams := teams;
      this.users := users;
      this.memberships := memberships;
      records := [];
      clock := 0;
    }

    /** Lets time pass. */
    method Tick(elapsed: nat)
      requires Valid()
      modifies this
      ensures Valid()
      ensures clock == old(clock) + elapsed
      ensures teams == old(teams) && users == old(users) && records == old(records) && memberships == old(memberships)
    {
      clock := clock + elapsed;
    }

    /** getCurrentLeader: the leader of the team's open term, None when the
        team exists but has no leader, ResourceNotFound when it does not exist. */
    function GetCurrentLeader(teamId: TeamId): (r: Result<Option<LeaderInfo>>)
      reads this
      ensures r.Err? <==> teamId !in teams
      ensures r.Err? ==> r.error == ResourceNotFound
      ensures r.Ok? && r.value.None? ==> forall i :: 0 <= i < |records| ==> !IsActiveFor(records[i], teamId)
      ensures r.Ok? && r.value.Some? ==>
        exists i :: 0 <= i < |records| && IsActiveFor(records[i], teamId) && r.value.value == InfoOf(records[i].leader)
    {
      if teamId !in teams then Err(ResourceNotFound)
      else
        match FindActiveLeader(records, teamId)
        case None => Ok(None)
        case Some(i) => Ok(Some(InfoOf(records[i].leader)))
    }

    /** getLeadershipHistory: one line per term of the team, newest first,
        where only the newest line can be current, and it is current exactly
        when the team has a leader now. */
    function GetLeadershipHistory(teamId: TeamId): (r: Result<seq<HistoryEntry>>)
      requires Valid()
      reads this
      ensures r.Err? <==> teamId !in teams
      ensures r.Err? ==> r.error == ResourceNotFound
      ensures r.Ok? ==> |r.value| == |TeamHistory(records, teamId)|
      ensures r.Ok? ==> forall k :: 0 <= k < |r.value| ==> r.value[k] == ToHistoryEntry(TeamHistory(records, teamId)[k])
      ensures r.Ok? ==> forall k :: 0 <= k < |r.value| ==>
        exists i :: 0 <= i < |records| && records[i].team == teamId && r.value[k] == ToHistoryEntry(records[i])
      ensures r.Ok? ==> forall i :: 0 <= i < |records| && records[i].team == teamId ==>
        ToHistoryEntry(records[i]) in r.value
      ensures r.Ok? ==> forall k :: 0 <= k < |r.value| ==> (r.value[k].isCurrent <==> r.value[k].endedAt.None?)
      ensures r.Ok? ==> forall k, m :: 0 <= k < m < |r.value| ==> r.value[k].startedAt >= r.value[m].startedAt
      ensures r.Ok? ==> forall k :: 0 < k < |r.value| ==> !r.value[k].isCurrent
      ensures r.Ok? ==>
        (|r.value| > 0 && r.value[0].isCurrent <==> GetCurrentLeader(teamId).Ok? && GetCurrentLeader(teamId).value.Some?)
      ensures r.Ok? && |r.value| > 0 && r.value[0].isCurrent ==>
        GetCurrentLeader(teamId).value.value.userId == r.value[0].leaderId &&
        GetCurrentLeader(teamId).value.value.name == r.value[0].leaderName
    {
      if teamId !in teams then Err(ResourceNotFound)
      else
        var terms := TeamHistory(records, teamId);
        TeamHistoryNewestFirst(records, teamId);
        OnlyNewestMayBeOpen(records, teamId);
        OpenTermHeadsHistory(records, teamId);
        HistoryLinesAreTeamTerms(records, teamId);
        Ok(ToHistoryEntries(terms))
    }

    /** assignLeader: makes the user the leader of a team that has none,
        enrolling the user in the team first when the user is not an active
        member anywhere. */
    method AssignLeader(teamId: TeamId, userId: UserId) returns (r: Result<LeaderInfo>)
      requires Valid()
      modifies this
      ensures Valid()
      ensures teams == old(teams) && users == old(users) && clock == old(clock)
      ensures r == Err(ResourceNotFound) <==> teamId !in teams || userId !in users
      ensures r == Err(BadRequest) <==>
        teamId in teams && userId in users &&
        (FindActiveLeader(old(records), teamId).Some? ||
         (FindActiveMembership(old(memberships), userId).Some? &&
          FindActiveMembership(old(memberships), userId).value.team != teamId))
      ensures r.Ok? <==>
        teamId in teams && userId in users && FindActiveLeader(old(records), teamId).None? &&
        (FindActiveMembership(old(memberships), userId).None? ||
         FindActiveMembership(old(memberships), userId).value.team == teamId)
      ensures r.Err? ==> records == old(records) && memberships == old(memberships)
      ensures r.Ok? ==> userId in users && r.value == InfoOf(users[userId]) && r.value.userId == userId
      ensures r.Ok? ==> records == old(records) + [LeadershipRecord(teamId, users[userId], clock, None)]
      ensures r.Ok? && FindActiveMembership(old(memberships), userId).None? ==>
        memberships == old(memberships) + [Membership(userId, teamId, Active, clock)]
      ensures r.Ok? && FindActiveMembership(old(memberships), userId).Some? ==>
        memberships == old(memberships)
      ensures r.Ok? ==> GetCurrentLeader(teamId) == Ok(Some(r.value))
    {
      if teamId !in teams {
        return Err(ResourceNotFound);
      }
      if userId !in users {
        return Err(ResourceNotFound);
      }
      if FindActiveLeader(records, teamId).Some? {
        return Err(BadRequest);
      }
      var user := users[userId];
      var current := FindActiveMembership(memberships, userId);
      if current.None? {
        memberships := memberships + [Membership(userId, teamId, Active, clock)];
      } else if current.value.team != teamId {
        return Err(BadRequest);
      }
      records := records + [LeadershipRecord(teamId, user, clock, None)];
      r := Ok(InfoOf(user));
    }

    /** changeLeader: ends the current leader's term and starts one for
        another active member of the team. */
    method ChangeLeader(teamId: TeamId, newUserId: UserId) returns (r: Result<LeaderInfo>)
      requires Valid()
      modifies this
      ensures Valid()
      ensures teams == old(teams) && users == old(users) && memberships == old(memberships) && clock == old(clock)
      ensures r == Err(ResourceNotFound) <==> teamId !in teams || newUserId !in users
      ensures r == Err(BadRequest) <==>
        teamId in teams && newUserId in users &&
        (FindActiveLeader(old(records), teamId).None? ||
         old(records)[FindActiveLeader(old(records), teamId).value].leader.id == newUserId ||
         FindActiveMembership(memberships, newUserId).None? ||
         FindActiveMembership(memberships, newUserId).value.team != teamId)
      ensures r.Ok? <==>
        teamId in teams && newUserId in users && FindActiveLeader(old(records), teamId).Some? &&
        old(records)[FindActiveLeader(old(records), teamId).value].leader.id != newUserId &&
        FindActiveMembership(memberships, newUserId).Some? &&
        FindActiveMembership(memberships, newUserId).value.team == teamId
      ensures r.Err? ==> records == old(records)
      ensures r.Ok? ==> newUserId in users && r.value == InfoOf(users[newUserId]) && r.value.userId == newUserId
      ensures r.Ok? ==>
        var i := FindActiveLeader(old(records), teamId).value;
        records == old(records)[i := old(records)[i].(endedAt := Some(clock))] +
                   [LeadershipRecord(teamId, users[newUserId], clock, None)]
      ensures r.Ok? ==> GetCurrentLeader(teamId) == Ok(Some(r.value))
    {
      if teamId !in teams {
        return Err(ResourceNotFound);
      }
      if newUserId !in users {
        return Err(ResourceNotFound);
      }
      var found := FindActiveLeader(records, teamId);
      if found.None? {
        return Err(BadRequest);
      }
      var i := found.value;
      if records[i].leader.id == newUserId {
        return Err(BadRequest);
      }
      var membership := FindActiveMembership(memberships, newUserId);
      if membership.None? || membership.value.team != teamId {
        return Err(BadRequest);
      }
      var newLeader := users[newUserId];
      records := records[i := records[i].(endedAt := Some(clock))];
      records := records + [LeadershipRecord(teamId, newLeader, clock, None)];
      r := Ok(InfoOf(newLeader));
    }

    /** removeLeader: ends the current leader's term; the team is then
        without a leader. */
    method RemoveLeader(teamId: TeamId) returns (r: Result<()>)
      requires Valid()
      modifies this
      ensures Valid()
      ensures teams == old(teams) && users == old(users) && memberships == old(memberships) && clock == old(clock)
      ensures r == Err(ResourceNotFound) <==> teamId !in teams
      ensures r == Err(BadRequest) <==> teamId in teams && FindActiveLeader(old(records), teamId).None?
      ensures r.Ok? <==> teamId in teams && FindActiveLeader(old(records), teamId).Some?
      ensures r.Err? ==> records == old(records)
      ensures r.Ok? ==>
        var i := FindActiveLeader(old(records), teamId).value;
        records == old(records)[i := old(records)[i].(endedAt := Some(clock))]
      ensures r.Ok? ==> GetCurrentLeader(teamId) == Ok(None)
    {
      if teamId !in teams {
        return Err(ResourceNotFound);
      }
      var found := FindActiveLeader(records, teamId);
      if found.None? {
        return Err(BadRequest);
      }
      var i := found.value;
      records := records[i := records[i].(endedAt := Some(clock))];
      r := Ok(());
    }
  }
}
