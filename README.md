# Team leadership lifecycle

A Dafny model of the team-leadership service of the member management
system (`TeamLeadershipServiceImpl`). The service assigns, changes and
removes a team's leader. It keeps every leadership term in an append-only
log, so that it can answer who leads a team now and who led it before.

The source of `TeamLeadershipServiceImpl` is not part of this model. Its
behaviour is taken from its unit tests,
`src/test/java/vn/sun/membermanagementsystem/service/TeamLeadershipServiceTest.java`.
Each stubbed repository call in those tests becomes a query over in-memory
stores. Each `verify(..., times(n)).save(...)` becomes an exact statement of
what the stores hold after the call.

Files:

- `entities.dfy` (module `Entities`): users, memberships (`ACTIVE` or not),
  leadership records (`endedAt == None` marks the open term), the
  `TeamLeaderDTO` and history-line shapes, and the two failure kinds
  `ResourceNotFound` and `BadRequest`.
- `repositories.dfy` (module `Repositories`): the repository queries as
  pure functions over the stored rows (`findActiveLeaderByTeamId`,
  `findActiveTeamByUserId`, `findByTeamIdOrderByStartedAtDesc`). It also
  holds the store invariants and the lemmas about what those invariants
  guarantee.
- `leadership_service.dfy` (module `LeadershipService`): class
  `TeamLeadershipService`. Its fields are the live teams and users, the
  leadership log, the membership table and a clock. It has the three
  operations that write (`AssignLeader`, `ChangeLeader`, `RemoveLeader`)
  and the two queries (`GetCurrentLeader`, `GetLeadershipHistory`).
- `scenarios.dfy` (module `Scenarios`): client methods that replay the
  tests' situations. Each outcome is derived from the contracts alone.

The object invariant `Valid()` has four parts:

- users are stored under their own ids;
- the log is in start order, and no time in it is after the clock;
- an open term is always its team's latest term, so a team has at most
  one leader;
- a user has at most one `ACTIVE` membership in the whole system.

Every write preserves `Valid()`. Each write states exactly which rows are
appended and which single row has its `endedAt` set in place. It also
states exactly when it fails, and that a failure writes nothing.

## Model

| member | source | states |
|---|---|---|
| `Repositories.FindActiveLeader` | src/test/java/vn/sun/membermanagementsystem/service/TeamLeadershipServiceTest.java:141-151 | Returns the position of an open term of the team. It returns None only when no term of that team is open. |
| `Repositories.FindActiveMembership` | src/test/java/vn/sun/membermanagementsystem/service/TeamLeadershipServiceTest.java:153-171 | Returns an ACTIVE membership of the user in any team. It returns None (the source's null) only when the user has no ACTIVE membership. |
| `Repositories.TeamHistory` | src/test/java/vn/sun/membermanagementsystem/service/TeamLeadershipServiceTest.java:285-287 | Every row it holds is a term of the team, and every term of the team is among them. How many times each appears is stated by `TeamHistoryCounts`. |
| `Repositories.TeamHistoryCounts` | src/test/java/vn/sun/membermanagementsystem/service/TeamLeadershipServiceTest.java:285-292 | The team's history holds each of the team's terms exactly as many times as the log holds it, and holds no row of another team. |
| `Repositories.HistoryLinesAreTeamTerms` | src/test/java/vn/sun/membermanagementsystem/service/TeamLeadershipServiceTest.java:285-292 | Every history line describes a term of the team, and every term of the team has a line. |
| `Repositories.ToHistoryEntries` | src/test/java/vn/sun/membermanagementsystem/service/TeamLeadershipServiceTest.java:289-294 | One history line per term, in the same order. Each line carries that term's leader, start and end. `isCurrent` is true exactly when `endedAt` is null. |
| `Repositories.ActiveIsLatestGivesOneLeader` | src/test/java/vn/sun/membermanagementsystem/service/TeamLeadershipServiceTest.java:141-151 | If open terms are always their team's latest, then each team has at most one open term. |
| `Repositories.TeamHistoryNewestFirst` | src/test/java/vn/sun/membermanagementsystem/service/TeamLeadershipServiceTest.java:279-287 | A log kept in start order gives each team's history in start-descending order. |
| `Repositories.OnlyNewestMayBeOpen` | src/test/java/vn/sun/membermanagementsystem/service/TeamLeadershipServiceTest.java:289-294 | Under the log invariant, every history line after the first is an ended term. |
| `Repositories.OpenTermHeadsHistory` | src/test/java/vn/sun/membermanagementsystem/service/TeamLeadershipServiceTest.java:252-294 | The team has an open term exactly when the newest history line is open. The open term that the active-leader lookup finds is that newest line. |
| `LeadershipService.TeamLeadershipService.constructor` | src/test/java/vn/sun/membermanagementsystem/service/TeamLeadershipServiceTest.java:58-82 | Starts from given teams, users and memberships, with an empty leadership log. The invariant holds. |
| `LeadershipService.TeamLeadershipService.Tick` | src/test/java/vn/sun/membermanagementsystem/service/TeamLeadershipServiceTest.java:279-283 | Moves the clock forward and changes nothing else. |
| `LeadershipService.TeamLeadershipService.GetCurrentLeader` | src/test/java/vn/sun/membermanagementsystem/service/TeamLeadershipServiceTest.java:252-274 | A missing team gives ResourceNotFound. Otherwise the result is the open term's leader (id, name, email), or None exactly when the team has no open term. |
| `LeadershipService.TeamLeadershipService.GetLeadershipHistory` | src/test/java/vn/sun/membermanagementsystem/service/TeamLeadershipServiceTest.java:276-303 | A missing team gives ResourceNotFound. Otherwise there is exactly one line for each of the team's terms (counting identical terms separately) and nothing else, newest first, the k-th line describing the k-th term of the team's history. `isCurrent` means `endedAt` is null. Only the first line can be current, and it is current exactly when `GetCurrentLeader` reports that same leader. |
| `LeadershipService.TeamLeadershipService.AssignLeader` | src/test/java/vn/sun/membermanagementsystem/service/TeamLeadershipServiceTest.java:84-171 | A missing team or user gives ResourceNotFound. An open term, or an ACTIVE membership in another team, gives BadRequest. Success happens exactly otherwise. A failure writes nothing. On success, exactly one open term is appended. A new ACTIVE membership is appended only when the user had none. The result is the user's id, name and email, and afterwards the user is the current leader. Invariants are preserved. |
| `LeadershipService.TeamLeadershipService.ChangeLeader` | src/test/java/vn/sun/membermanagementsystem/service/TeamLeadershipServiceTest.java:173-227 | A missing team or user gives ResourceNotFound. These give BadRequest: no open term, the new user already being the leader, or the new user having no ACTIVE membership in this team. Success happens exactly otherwise. On success the log is the old log with the open term's `endedAt` set to now, plus one new open term for the new user. Memberships are unchanged, the result is the new leader's info, and that leader is now current. |
| `LeadershipService.TeamLeadershipService.RemoveLeader` | src/test/java/vn/sun/membermanagementsystem/service/TeamLeadershipServiceTest.java:229-250 | A missing team gives ResourceNotFound, and no open term gives BadRequest. A failure writes nothing. On success, only the open term changes: its `endedAt` is set to now. Nothing is appended, and the team then has no current leader. |

## Left out

- `TeamStatisticsDTO` (src/main/java/vn/sun/membermanagementsystem/dto/response/TeamStatisticsDTO.java) is a data holder with no logic. Statistics aggregation is not part of this model.
- `TeamLeadershipServiceImpl`, the JPA entities and the repositories are not part of this model. The repositories become sequences, a set and a map inside the class. Mockito stubbing and JUnit scaffolding are gone.
- The repository sorts history by `startedAt` descending. Here the order is the reverse of the team's log order. The model proves this order is start-descending. It fixes one order among terms that started at the same instant, where the database leaves the order open.
- GetLeadershipHistory: the promise that only the first line can be current holds for the model's reverse-log order. AssignLeader followed by ChangeLeader at the same clock value gives the ended term and the open term the same `startedAt`. An `ORDER BY startedAt DESC` query may then list the ended term first.
- `LocalDateTime.now()` becomes the natural-number field `clock`. Only `Tick` advances it, so time never runs backwards.
- Soft deletion (`findByIdAndNotDeleted`) becomes presence in `teams` and `users`. Creating or deleting teams and users is outside the leadership service and is not modelled.
- Each operation runs as one atomic step. Transactions and concurrent callers racing on the check-then-act sequences are not modelled.
- Exception messages and HTTP status codes are dropped. Only the two failure kinds remain.
- No leadership operation changes a membership's status, so every status other than ACTIVE is one value, `Inactive`.
- Team fields other than the id (name, creation time) play no part in leadership and are not modelled.
- In changeLeader, the tests cover only a new leader with no ACTIVE membership. The model also refuses a new leader whose ACTIVE membership is in another team, because the service is described as requiring membership of this team. The same-leader check comes before the membership check. The test at lines 219-227 is consistent with this order, and with the other order too: either way the call gives BadRequest and writes nothing.
- GetLeadershipHistory requires the object invariant `Valid()`. The newest-first ordering and the single-current-line guarantees depend on it.
