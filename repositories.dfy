/**
 * The repository queries the leadership service relies on, as pure
 * functions over the stored rows, together with the invariants of the two
 * stores and what those invariants guarantee about the queries' answers.
 *
 * The leadership store is an append-only log: rows are added at the end
 * and the only in-place change is setting a row's `endedAt`.
 */
module Repositories {
  import opened Entities

  // ----- Invariants of the stores -----

  /** Terms are appended in the order they start. */
  ghost predicate Chronological(records: seq<LeadershipRecord>) {
    forall i, j :: 0 <= i < j < |records| ==> records[i].startedAt <= records[j].startedAt
  }

  /** No term starts in the future, and an ended term ended between its
      start and now. */
  ghost predicate TermsWithin(records: seq<LeadershipRecord>, now: nat) {
    forall i :: 0 <= i < |records| ==>
      records[i].startedAt <= now &&
      (records[i].endedAt.Some? ==> records[i].startedAt <= records[i].endedAt.value <= now)
  }

  /** A term is open only if it is the team's latest term: every term that
      a later term of the same team follows has been ended. */
  ghost predicate ActiveIsLatest(records: seq<LeadershipRecord>) {
    forall i, j :: 0 <= i < j < |records| && records[i].team == records[j].team ==> records[i].endedAt.Some?
  }

  /** At most one row with a null `endedAt` per team. */
  ghost predicate AtMostOneActiveLeader(records: seq<LeadershipRecord>) {
    forall team, i, j ::
      0 <= i < |records| && 0 <= j < |records| && IsActiveFor(records[i], team) && IsActiveFor(records[j], team)
      ==> i == j
  }

  /** At most one ACTIVE membership per user, system-wide. */
  ghost predicate AtMostOneActiveMembership(memberships: seq<Membership>) {
    forall i, j :: 0 <= i < j < |memberships| && memberships[i].status == Active && memberships[j].status == Active ==>
      memberships[i].user != memberships[j].user
  }

  /** Terms listed newest first. */
  ghost predicate NewestFirst(records: seq<LeadershipRecord>) {
    forall i, j :: 0 <= i < j < |records| ==> records[i].startedAt >= records[j].startedAt
  }

  // ----- Queries -----

  /** findActiveLeaderByTeamId: the position of the team's open term, if any. */
  function FindActiveLeader(records: seq<LeadershipRecord>, team: TeamId): (r: Option<nat>)
    ensures r.Some? ==> r.value < |records| && IsActiveFor(records[r.value], team)
    ensures r.None? ==> forall i :: 0 <= i < |records| ==> !IsActiveFor(records[i], team)
  {
    if records == [] then None
    else if IsActiveFor(records[|records| - 1], team) then Some(|records| - 1)
    else FindActiveLeader(records[..|records| - 1], team)
  }

  /** findActiveTeamByUserId: the user's ACTIVE membership, in whatever team,
      or None (the source's null). */
  function FindActiveMembership(memberships: seq<Membership>, user: UserId): (r: Option<Membership>)
    ensures r.Some? ==> r.value in memberships && r.value.user == user && r.value.status == Active
    ensures r.None? ==> forall i :: 0 <= i < |memberships| ==>
      !(memberships[i].user == user && memberships[i].status == Active)
  {
    if memberships == [] then None
    else
      var last := memberships[|memberships| - 1];
      if last.user == user && last.status == Active then Some(last)
      else FindActiveMembership(memberships[..|memberships| - 1], user)
  }

  /** findByTeamIdOrderByStartedAtDesc: the team's terms, the latest first. */
  function TeamHistory(records: seq<LeadershipRecord>, team: TeamId): (r: seq<LeadershipRecord>)
    ensures |r| <= |records|
    ensures forall x :: x in r <==> x in records && x.team == team
  {
    if records == [] then []
    else
      var n := |records| - 1;
      var rest := TeamHistory(records[..n], team);
      assert records == records[..n] + [records[n]];
      if records[n].team == team then [records[n]] + rest else rest
  }

  function ToHistoryEntry(rec: LeadershipRecord): HistoryEntry {
    HistoryEntry(rec.leader.id, rec.leader.name, rec.startedAt, rec.endedAt, rec.endedAt.None?)
  }

  /** Maps terms to history lines in the order given. */
  function ToHistoryEntries(records: seq<LeadershipRecord>): (h: seq<HistoryEntry>)
    ensures |h| == |records|
    ensures forall k :: 0 <= k < |h| ==>
      h[k].leaderId == records[k].leader.id && h[k].leaderName == records[k].leader.name &&
      h[k].startedAt == records[k].startedAt && h[k].endedAt == records[k].endedAt &&
      (h[k].isCurrent <==> records[k].endedAt.None?)
  {
    seq(|records|, k requires 0 <= k < |records| => ToHistoryEntry(records[k]))
  }

  /** The team's history holds each of the team's terms exactly as many times
      as the log does, and nothing else. */
  lemma {:induction false} TeamHistoryCounts(records: seq<LeadershipRecord>, team: TeamId)
    ensures forall x ::
      multiset(TeamHistory(records, team))[x] == (if x.team == team then multiset(records)[x] else 0)
  {
    if records != [] {
      var n := |records| - 1;
      TeamHistoryCounts(records[..n], team);
      assert records == records[..n] + [records[n]];
      assert multiset(records) == multiset(records[..n]) + multiset{records[n]};
    }
  }

  /** Every line of a team's history describes one of the team's terms, and
      every term of the team has a line. */
  lemma HistoryLinesAreTeamTerms(records: seq<LeadershipRecord>, team: TeamId)
    ensures forall k :: 0 <= k < |ToHistoryEntries(TeamHistory(records, team))| ==>
      exists i :: 0 <= i < |records| && records[i].team == team &&
        ToHistoryEntries(TeamHistory(records, team))[k] == ToHistoryEntry(records[i])
    ensures forall i :: 0 <= i < |records| && records[i].team == team ==>
      ToHistoryEntry(records[i]) in ToHistoryEntries(TeamHistory(records, team))
  {
    var terms := TeamHistory(records, team);
    var h := ToHistoryEntries(terms);
    forall k | 0 <= k < |h|
      ensures exists i :: 0 <= i < |records| && records[i].team == team && h[k] == ToHistoryEntry(records[i])
    {
      assert terms[k] in records;
      var i :| 0 <= i < |records| && records[i] == terms[k];
      assert h[k] == ToHistoryEntry(records[i]);
    }
    forall i | 0 <= i < |records| && records[i].team == team
      ensures ToHistoryEntry(records[i]) in h
    {
      assert records[i] in terms;
      var k :| 0 <= k < |terms| && terms[k] == records[i];
      assert h[k] == ToHistoryEntry(records[i]);
    }
  }

  // ----- What the invariants guarantee -----

  /** The latest-term-only-open rule is the "one leader per team" rule. */
  lemma ActiveIsLatestGivesOneLeader(records: seq<LeadershipRecord>)
    requires ActiveIsLatest(records)
    ensures AtMostOneActiveLeader(records)
  {
  }

  /** A team's history holds no term that starts later than every row of the log. */
  lemma TeamHistoryStartsBy(records: seq<LeadershipRecord>, team: TeamId, bound: nat)
    requires forall k :: 0 <= k < |records| ==> records[k].startedAt <= bound
    ensures forall x :: x in TeamHistory(records, team) ==> x.startedAt <= bound
  {
  }

  /** A chronological log yields a history in start-descending order. */
  lemma {:induction false} TeamHistoryNewestFirst(records: seq<LeadershipRecord>, team: TeamId)
    requires Chronological(records)
    ensures NewestFirst(TeamHistory(records, team))
  {
    if records != [] {
      var n := |records| - 1;
      var prefix := records[..n];
      assert Chronological(prefix);
      TeamHistoryNewestFirst(prefix, team);
      if records[n].team == team {
        var rest := TeamHistory(prefix, team);
        TeamHistoryStartsBy(prefix, team, records[n].startedAt);
        assert TeamHistory(records, team) == [records[n]] + rest;
      }
    }
  }

  /** Only the newest line of a team's history can be its open term. */
  lemma {:induction false} OnlyNewestMayBeOpen(records: seq<LeadershipRecord>, team: TeamId)
    requires ActiveIsLatest(records)
    ensures forall k :: 0 < k < |TeamHistory(records, team)| ==> TeamHistory(records, team)[k].endedAt.Some?
  {
    if records != [] {
      var n := |records| - 1;
      var prefix := records[..n];
      assert ActiveIsLatest(prefix);
      var rest := TeamHistory(prefix, team);
      if records[n].team == team {
        var h := TeamHistory(records, team);
        assert h == [records[n]] + rest;
        forall k | 0 < k < |h| ensures h[k].endedAt.Some? {
          assert h[k] == rest[k - 1];
          assert rest[k - 1] in prefix;
          var m :| 0 <= m < n && prefix[m] == h[k];
          assert records[m] == h[k] && records[m].team == records[n].team;
        }
      } else {
        OnlyNewestMayBeOpen(prefix, team);
      }
    }
  }

  /** The open term the active-leader lookup finds is exactly the head of the
      team's history, and the head is open exactly when such a term exists. */
  lemma OpenTermHeadsHistory(records: seq<LeadershipRecord>, team: TeamId)
    requires ActiveIsLatest(records)
    ensures var h := TeamHistory(records, team);
      FindActiveLeader(records, team).Some? <==> |h| > 0 && h[0].endedAt.None?
    ensures var h := TeamHistory(records, team);
      FindActiveLeader(records, team).Some? ==> records[FindActiveLeader(records, team).value] == h[0]
  {
    var h := TeamHistory(records, team);
    var found := FindActiveLeader(records, team);
    OnlyNewestMayBeOpen(records, team);
    if found.Some? {
      var x := records[found.value];
      assert x in h;
      var k :| 0 <= k < |h| && h[k] == x;
      assert k == 0;
    }
  }
}
