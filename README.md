# Party Ranking leaderboard client: a Dafny model

The Party Ranking front end is a single React screen. It lists the users of a
remote directory and lets an operator award points to the selected user or add
a new user. It also shows a live leaderboard pushed over a socket: the top
three on a podium, the rest in a list. Confetti plays when the leader changes.

This project models the logic of that screen that is not rendering:

- `Types` (types.dfy): users, leaderboard entries, nullable values,
  request outcomes and JavaScript truthiness of ids.
- `JsString` (js_string.dfy): `String.prototype.trim`, which decides whether
  the add-user form may submit. It strips ECMAScript WhiteSpace and
  LineTerminator characters.
- `Podium` (podium.dfy): the pure layout. `slice(0, 3)` and `slice(3)` with
  JavaScript's clamping, `find` of the first entry of a rank, the podium order
  (rank 2, rank 1, rank 3, absent ones dropped) and `getPodiumClass`.
- `LeaderTracker` (leader_tracker.dfy): the `leaderboardUpdate` handler and
  the confetti completion as pure transitions over a `Tracker` value. It also
  states what the state is after any sequence of events.
- `AppState` (app.dfy): class `App` with the six state cells of the
  component (`users`, `selectedUser`, `leaderboard`, `newUserName`,
  `showConfetti`, `leaderId`). It has one method per event. Network results
  are parameters, and the requests a handler would send are its results.

Four points of src/App.js that the model keeps as written:

- An empty snapshot leaves the recorded leader as it was. It does not reset
  it to "none" (src/App.js:40). So after an empty snapshot, the next
  non-empty one is compared with the leader before the empty one.
- The leader is the snapshot's first entry by position, not the entry whose
  rank is 1.
- "A leader is recorded" is JavaScript truthiness of `leaderId`. `null` and
  the empty id `""` both count as no leader.
- A snapshot whose first entry has no rank 1 still gets a leader recorded. The
  code has no "no leader" fallback for it.

## Model

| member | source | states |
|---|---|---|
| `JsString.TrimStart` | src/App.js:63 | The result is the suffix of the input left after a wholly blank prefix, and it does not start with whitespace. |
| `JsString.TrimEnd` | src/App.js:63 | The result is the prefix of the input left before a wholly blank suffix, and it does not end with whitespace. |
| `JsString.Trim` | src/App.js:63 | `!name.trim()` holds exactly when every character of the name is whitespace. A non-empty result starts and ends with a non-whitespace character. |
| `JsString.TrimSpec` | src/App.js:63 | The input is a blank prefix, then the trimmed result, then a blank suffix. |
| `Podium.ClampIndex` | src/App.js:72-73 | A `slice` index lands within the sequence: a non-negative one at min(index, length), a negative one that many places from the end, or at 0 if that is before the start. |
| `Podium.TopThree` | src/App.js:72 | `leaderboard.slice(0, 3)` is the prefix of length min(3, length). |
| `Podium.RestOfLeaderboard` | src/App.js:73 | `topThree + restOfLeaderboard == leaderboard`. The rest is empty exactly when there are at most three entries. |
| `Podium.Find` | src/App.js:125 | `find(u => u.rank === r)` is absent exactly when no entry has rank r. Otherwise it is the first entry of rank r. |
| `Podium.PodiumMembers` | src/App.js:125-126 | The podium has at most three entries. Each is in `topThree`, has rank 1, 2 or 3, and is the first entry of its rank. |
| `Podium.PodiumOrder` | src/App.js:125-126 | The ranks on the podium read 2, 1, 3 from left to right, with absent ones dropped. |
| `Podium.PodiumCoversRanks` | src/App.js:125-126 | For each rank 1, 2 and 3, the podium shows an entry of that rank exactly when `topThree` has one. |
| `Podium.PodiumClass` | src/App.js:75-80 | `getPodiumClass(r)` is `"rank-"` followed by the digit r for r in 1..3, and `""` for any other rank. |
| `Podium.PodiumClassesDistinct` | src/App.js:125-127 | Every podium entry gets a non-empty class, and no two podium entries get the same class. |
| `Podium.ConsecutiveRanksPodium` | src/App.js:72-126 | When entry i has rank i + 1, the podium reads second, first, third (or as many as exist), and every listed entry has rank at least 4. |
| `Podium.TiedEntryHidden` | src/App.js:72-126 | When two distinct entries of the top three share a rank, the later one is neither on the podium nor in the list. |
| `LeaderTracker.Observe` | src/App.js:37-50 | The board becomes the snapshot in every case. A non-empty snapshot records its first entry's id. An empty one leaves the leader and the flag alone. The flag is never cleared. With no truthy leader recorded it is not raised. With one recorded it is raised exactly when the new first id differs. |
| `LeaderTracker.Complete` | src/App.js:90 | The completion callback clears the flag and changes nothing else. |
| `LeaderTracker.RepeatedLeaderKeepsFlag` | src/App.js:43-47 | A second snapshot with the same leader, such as a repeated snapshot, leaves the flag as the first left it. |
| `LeaderTracker.LeaderAfterRun` | src/App.js:40-47 | After any sequence of events, the recorded leader is the first id of the last non-empty snapshot. With no non-empty snapshot, it is the starting one. |
| `LeaderTracker.LeaderboardAfterRun` | src/App.js:49 | After any sequence of events, the board is the last snapshot received, empty or not. With no snapshot, it is the starting board. |
| `LeaderTracker.ConfettiAfterRun` | src/App.js:43-44 | After any sequence of events, the flag is up exactly when some snapshot raised it (or it started up) and no completion came after that. A snapshot raises it when its first id differs from the truthy leader recorded before it. |
| `LeaderTracker.FirstLeaderNeverCelebrates` | src/App.js:22-47 | From the mount state, the first non-empty snapshot never raises the flag, and it records its first entry's id. |
| `AppState.App.constructor` | src/App.js:16-23 | The mount state: no users, no selection, no typed name, an empty board, no leader (`null`) and no confetti. |
| `AppState.App.UsersLoaded` | src/App.js:25-34 | A fetched directory replaces `users`. A non-empty one selects its first user. A failed fetch changes nothing. |
| `AppState.App.SelectUser` | src/App.js:101-104 | The selector's change sets the selection to the id of one of the listed users, so the selection names a user. |
| `AppState.App.EditNewUserName` | src/App.js:113-114 | The input's change sets the typed name. |
| `AppState.App.ClaimPoints` | src/App.js:55-59 | A claim is sent, for the selected id, exactly when the selection is non-empty. |
| `AppState.App.AddUser` | src/App.js:61-70 | No request when the name is blank. Otherwise the untrimmed name is posted. On success the created user is appended at the end and the input cleared. On failure nothing changes. A valid selection stays valid. |
| `AppState.App.OnLeaderboardUpdate` | src/App.js:37-50 | The handler moves the tracker state exactly as `LeaderTracker.Observe` does. |
| `AppState.App.OnConfettiComplete` | src/App.js:90 | The callback moves the tracker state exactly as `LeaderTracker.Complete` does. |

## Left out

- HTTP calls (`GET /api/users`, `POST /api/users`, `POST /api/claim`) and the
  remote service's behaviour are not modelled. This includes rejecting
  duplicate names and incrementing points. Their outcomes are method
  parameters, and the requests are method results.
- The socket connection and the effect's subscribe/unsubscribe lifecycle
  (src/App.js:13, 38, 52) are not modelled. Each snapshot is one sequential
  method call. The handler closes over the `leaderId` of the render that
  subscribed it. The model assumes that each event sees the latest
  committed state. This holds when React re-renders between two socket
  events.
- AppState.App.AddUser: models submit and settlement as one step. The source
  appends to the `users` captured at submit time (src/App.js:66). A fetch or
  another add that settles in between is lost in the source but not in this
  model.
- Interleaving of in-flight requests with other events is not modelled.
  Everything happens in arrival order.
- Confetti animation parameters and timing (src/App.js:86-89) are left out.
  Only the completion callback is an event here.
- JSX rendering is left out. This includes the podium container's
  `topThree.length > 0` guard, the crown icon, avatar URLs,
  `toLocaleString`, `alert` and `console.error`.
- Ranks, points and ids are taken as JavaScript numbers and strings that
  hold integers and Unicode text. Floating-point ranks and UTF-16 lone
  surrogates are not modelled.
- The selection invariant is not kept by every event. A fetch that returns
  an empty directory after a selection was made leaves the selection
  pointing at a user who is no longer listed. `UsersLoaded` therefore
  promises `SelectionValid` only for a non-empty directory.
