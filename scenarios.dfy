/**
 * Clients of the service that walk through the leadership lifecycle and
 * check, from the operations' contracts alone, the outcome of each call.
 * Team 1 and team 2 exist; Alice (user 1) is in no team and Bob (user 2)
 * is an active member of team 1.
 */
module Scenarios {
  import opened Entities
  import opened Repositories
  import opened LeadershipService

  function Alice(): User { User(1, "Alice", "alice@example.com") }
  function Bob(): User { User(2, "Bob", "bob@example.com") }

  method NewService() returns (s: TeamLeadershipService)
    ensures fresh(s) && s.Valid()
    ensures s.teams == {1, 2} && s.users == map[1 := Alice(), 2 := Bob()]
    ensures s.memberships == [Membership(2, 1, Active, 0)] && s.records == [] && s.clock == 0
  {
    s := new TeamLeadershipService({1, 2}, map[1 := Alice(), 2 := Bob()], [Membership(2, 1, Active, 0)]);
  }

  /** A missing team or user is reported as not found. */
  method MissingTeamOrUser() {
    var s := NewService();
    var r := s.AssignLeader(99, 1);
    assert r == Err(ResourceNotFound);
    r := s.AssignLeader(1, 7);
    assert r == Err(ResourceNotFound);
    r := s.ChangeLeader(99, 2);
    assert r == Err(ResourceNotFound);
    var u := s.RemoveLeader(99);
    assert u == Err(ResourceNotFound);
    assert s.GetCurrentLeader(99) == Err(ResourceNotFound);
    assert s.GetLeadershipHistory(99) == Err(ResourceNotFound);
  }

  /** A team without a leader: absent rather than an error, and nothing to
      remove or change. */
  method TeamWithoutLeader() {
    var s := NewService();
    assert s.GetCurrentLeader(1) == Ok(None);
    assert s.GetLeadershipHistory(1) == Ok([]);
    var u := s.RemoveLeader(1);
    assert u == Err(BadRequest);
    var r := s.ChangeLeader(1, 2);
    assert r == Err(BadRequest);
  }

  /** Alice, in no team, becomes leader of team 1 and is enrolled in it. */
  method AssignEnrolsLeader() {
    var s := NewService();
    assert FindActiveLeader(s.records, 1) == None;
    assert FindActiveMembership(s.memberships, 1) == None;
    var r := s.AssignLeader(1, 1);
    assert r == Ok(LeaderInfo(1, "Alice", "alice@example.com"));
    assert s.memberships == [Membership(2, 1, Active, 0), Membership(1, 1, Active, 0)];
    assert s.records == [LeadershipRecord(1, Alice(), 0, None)];
    assert s.GetCurrentLeader(1) == Ok(Some(LeaderInfo(1, "Alice", "alice@example.com")));
  }

  /** Once Alice leads team 1, team 1 takes no second leader, Alice leads no
      other team, and she cannot be changed to herself. */
  method ConflictsAfterAssign() {
    var s := NewService();
    assert FindActiveLeader(s.records, 1) == None;
    assert FindActiveMembership(s.memberships, 1) == None;
    var r := s.AssignLeader(1, 1);
    assert r.Ok?;
    assert FindActiveLeader(s.records, 1) == Some(0);
    assert FindActiveMembership(s.memberships, 1) == Some(Membership(1, 1, Active, 0));
    r := s.AssignLeader(1, 2);
    assert r == Err(BadRequest);
    assert FindActiveLeader(s.records, 2) == None;
    r := s.AssignLeader(2, 1);
    assert r == Err(BadRequest);
    r := s.ChangeLeader(1, 1);
    assert r == Err(BadRequest);
  }

  /** Bob, an active member of team 1, takes over from Alice, whose term is
      closed; removing him leaves the team without a leader. */
  method ChangeThenRemove() {
    var s := NewService();
    assert FindActiveLeader(s.records, 1) == None;
    assert FindActiveMembership(s.memberships, 1) == None;
    var r := s.AssignLeader(1, 1);
    assert r.Ok?;
    s.Tick(5);
    assert s.records == [LeadershipRecord(1, Alice(), 0, None)];
    assert FindActiveLeader(s.records, 1) == Some(0);
    assert FindActiveMembership(s.memberships, 2) == Some(Membership(2, 1, Active, 0));
    r := s.ChangeLeader(1, 2);
    assert r == Ok(LeaderInfo(2, "Bob", "bob@example.com"));
    assert s.records == [LeadershipRecord(1, Alice(), 0, Some(5)), LeadershipRecord(1, Bob(), 5, None)];

    s.Tick(3);
    assert FindActiveLeader(s.records, 1) == Some(1);
    var u := s.RemoveLeader(1);
    assert u.Ok?;
    assert s.GetCurrentLeader(1) == Ok(None);
    assert s.records == [LeadershipRecord(1, Alice(), 0, Some(5)), LeadershipRecord(1, Bob(), 5, Some(8))];
  }

  /** A history of two terms lists the open one first, marked current. */
  method HistoryNewestFirst() {
    var records := [LeadershipRecord(1, Alice(), 0, Some(5)), LeadershipRecord(1, Bob(), 5, None)];
    assert TeamHistory(records[..1], 1) == [records[0]];
    assert TeamHistory(records, 1) == [records[1], records[0]];
    var h := ToHistoryEntries(TeamHistory(records, 1));
    assert h == [HistoryEntry(2, "Bob", 5, None, true), HistoryEntry(1, "Alice", 0, Some(5), false)];
  }
}
