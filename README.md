# Quiz session and best-record merge, modelled in Dafny

This project models two small sequential parts of a single-player trivia quiz.

**The quiz session** (`src/App.jsx`, module `App`, file `app.dfy`) is the class `App.Session`. Its fields are:

- the shuffled `deck` of questions and the index `i` of the current question;
- the counters `seen` and `correct`;
- the selected labels `chosen`;
- the `phase` (`Answer` or `Review`);
- the persisted list `wrong` of missed questions.

Its methods are the app's transitions:

- `Preload` is the mount effect. It copies the bundled deck, shuffles it and loads it.
- `ToggleChoice` selects or deselects a label. It replaces the selection on a single-answer question. On a multi-answer question it adds a label only while below capacity.
- `Submit` judges the selection with `EqSets` and counts it. It moves to review and appends a missed question to `wrong`.
- `Next` advances to the next question. At the end of the deck it re-decks from a shuffled copy of `wrong` and empties the list. With nothing missed, it reports the end and changes nothing.

`Shuffle` is the in-place descending Fisher–Yates loop over an `array`. Its result is tied to the function `FisherYates`, which is proved to be a permutation of its input. The session invariant `Valid()` holds before and after every method:

- the index lies inside a loaded deck;
- `correct <= seen`;
- the selection never exceeds `MaxSelectable` of the current question.

**The best-record merge** exists twice:

- `src/db.js` (module `Db`, file `db.dfy`): `UsersTable.UpdateRecordIfBetter` reads the user's row, max-merges it with the run (`NextBest`) and upserts it. It fails on an empty name, a failed read or a failed write. The table is a map field.
- `api/leaderboard-upsert.js` (module `LeaderboardUpsert`, file `leaderboard_upsert.dfy`): `Kv.Handler` is the edge handler. It returns 405 or 400 without touching the store. Otherwise it reads the whole leaderboard map, max-merges the submitted record into the named user's entry (`MergeUser`) and writes the map back. It answers 200 with the map, or 500 when the write fails. The stored value is an `Option` map field.

Each store request is a method with a failure flag as a parameter, so every error exit can be stated. A ghost log `calls` records the requests in order, which makes "no read or write happened" a checkable claim. `Common` (file `common.dfy`) holds `Option`, `Result`, `OrZero` (a zero default for an absent value) and `Max`.

Notes on what the code does:

- The app has no lives, streak, score, game modes or timer.
- A question with no correct labels accepts any non-empty selection (`src/App.jsx:98`).
- `submit` and `next` do not check the phase themselves; only the buttons are gated on it (`src/App.jsx:199`, `210`).
- The best record is written to the remote store only. The app keeps no local copy of it.
- The comments at `src/db.js:12` and `src/db.js:31` say the record is updated "only if better". The code in fact upserts every time, so `updated_at` is refreshed on every call. `UpdateRecordIfBetter` follows the code. `NextBestAbsorbs` is therefore about points and streak alone: a run that is no better keeps both, while the row's `updatedAt` still changes to `now`.
- The KV store's read has three outcomes (`GetStatus`): 200 with the value as `result`, which is null for a missing key; 404, one way a store can signal a missing key; and any other error status. Which way the store signals a missing key is the parameter `missingAs404`.

## Model

| member | source | states |
|---|---|---|
| `App.MaxSelectable` | src/App.jsx:62-64 | at least one label is always selectable and never fewer than the question's answers; a multi-answer question allows exactly as many labels as it lists answers, a single-answer question one |
| `App.EqSets` | src/App.jsx:224-228 | the size check followed by the membership loop returns true exactly when the two sets are equal |
| `App.VerdictMeaning` | src/App.jsx:98 | a question without correct labels accepts any selection; otherwise the verdict holds exactly when every chosen label is a correct one and every correct label is chosen (order and repetition ignored, no partial credit) |
| `App.SwapIndex` | src/App.jsx:75 | `Math.floor(r * (j + 1))` for a draw `0 <= r < 1` is an index in `[0, j]` |
| `App.ShuffleFromPermutes` | src/App.jsx:74-77 | the loop iterations from position `j` down to 1 keep the length and the multiset of elements |
| `App.FisherYatesPermutes` | src/App.jsx:73-78 | for every sequence of draws, the shuffle's result is a permutation of its input |
| `App.Shuffle` | src/App.jsx:73-78 | the in-place swap loop leaves the array equal to `FisherYates` of its old contents, hence a permutation of them |
| `App.Session.LoadedDeckHasCurrent` | src/App.jsx:61-62 | in a valid session there is a current question exactly when a deck is loaded, and it is a question of that deck; so the `!cur` guards of lines 82, 97 and 111 only apply before the deck is loaded |
| `App.Session.constructor` | src/App.jsx:54-59 | the session starts with no deck, index 0, zero counters, an empty selection, the answer phase and the persisted wrong list; the invariant holds |
| `App.Session.Preload` | src/App.jsx:67-71 | the loaded deck is the shuffle of the bundled deck (empty when the bundle is not an array), a permutation of it; nothing else changes and the invariant holds |
| `App.Session.ToggleChoice` | src/App.jsx:81-94 | no change without a current question or outside the answer phase; a chosen label is removed and nothing else; on a single-answer question a new label becomes the whole selection; on a multi-answer question a new label is added below capacity and ignored at capacity; the selection never exceeds `MaxSelectable` (at most 1 on a single-answer question) |
| `App.Session.Submit` | src/App.jsx:96-108 | no change without a current question or with an empty selection; otherwise `seen` grows by one, `correct` grows by one exactly when the verdict holds, the phase becomes review, and a miss (only a miss) appends the current question to the wrong list; `correct <= seen` is kept |
| `App.Session.Next` | src/App.jsx:110-128 | no change without a current question; before the last question the index advances, the selection is cleared and the phase returns to answer; at the end with missed questions the deck becomes their shuffle (a permutation), the wrong list is emptied and the index is 0; at the end with none missed it reports `finished` and changes nothing; the index stays inside the deck |
| `Common.Max` | src/db.js:28-29 | the result is at least both arguments and equal to one of them |
| `Db.NextBest` | src/db.js:25-29 | each merged field is at least the stored value (0 when the row or column is absent) and at least the run's value (0 when absent), and equals one of the two |
| `Db.NextBestAbsorbs` | src/db.js:28-29 | merging into the written row a run that is no better in either field returns the same record: the merge is idempotent and a worse run never lowers the record |
| `Db.NextBestCommutes` | src/db.js:28-29 | two runs merged one after the other give the same record in either order |
| `Db.NextBestMonotone` | src/db.js:28-29 | a run at least as good in both fields yields a record at least as good in both fields |
| `Db.UsersTable.Select` | src/db.js:17-23 | the read is logged; it yields the user's row (or none) unless the store errs |
| `Db.UsersTable.Upsert` | src/db.js:31-44 | the write is logged; on success the row under the name is replaced and no other row changes; on failure the table is unchanged |
| `Db.UsersTable.UpdateRecordIfBetter` | src/db.js:13-46 | an empty name fails with no request sent; a failed read fails with no write; otherwise the merged row is upserted, and a failed write fails while a successful one returns exactly the record written; only the row of that name can change |
| `LeaderboardUpsert.Merged` | api/leaderboard-upsert.js:24-28 | the new entry has both fields set; each is at least the existing value (0 when the entry or field is absent) and at least the submitted value, and equals one of them |
| `LeaderboardUpsert.MergeUser` | api/leaderboard-upsert.js:24-28 | the key set gains at most the name; every other user's entry is unchanged; the name's entry is the per-field max |
| `LeaderboardUpsert.MergeUserIdempotent` | api/leaderboard-upsert.js:24-28 | applying the same upsert twice gives the map one application gives |
| `LeaderboardUpsert.MergeUserCommutes` | api/leaderboard-upsert.js:24-28 | two upserts give the same map in either order, whether for one user or two |
| `LeaderboardUpsert.MergeAllKeepsMaxima` | api/leaderboard-upsert.js:24-28 | after any series of successful upserts no user disappears and no user's points or streak is lower than before; every submitted value is at most its user's stored value, and each stored value is the earlier one or one submitted for that user (it is the maximum of them) |
| `LeaderboardUpsert.ReadFailureErasesOthers` | api/leaderboard-upsert.js:18-28 | for every stored map, name and values, a failed read followed by the merge leaves a map whose only key is the submitted name: every other user is dropped from what is then written |
| `LeaderboardUpsert.CheckedReadKeepsOthers` | api/leaderboard-upsert.js:18-28 | a read that did not fail is never an error; it yields the stored map, or the empty map for a missing key whether answered 404 or with a null `result`; the merge into it keeps every other stored user's entry |
| `LeaderboardUpsert.Kv.Read` | api/leaderboard-upsert.js:17-22 | the read is logged and answered as `GetStatusOf` says; the map is the stored one when the answer is 200 and a value is present (`get.ok` and a non-null `result`), otherwise empty |
| `LeaderboardUpsert.Kv.Write` | api/leaderboard-upsert.js:31-38 | the write is logged; a successful write stores the whole map, a failed one leaves the value as it was |
| `LeaderboardUpsert.Kv.Handler` | api/leaderboard-upsert.js:5-44 | a method other than POST yields 405 and a missing or empty name yields 400, both with no store request and no change; otherwise the map read (empty when the key is missing, whether answered 404 or with a null `result`, and empty when the read fails), with the name's entry max-merged, is sent to the store; a failed write yields 500 while a successful one stores that map and returns 200 with it |
| `LeaderboardUpsert.Kv.HandlerCheckedRead` | api/leaderboard-upsert.js:5-44 | the same handler, except that a failed read is answered by 500 before any write. A missing key, whether answered 404 or with a null `result`, is read as the empty map, so the first entry can be stored. On every path, every other user's stored entry survives unchanged |

## Left out

- React rendering, the `Pill`, `Bubble` and `TopBar` components, and the accuracy percentage with its float division and rounding (`src/App.jsx:40`, `121`). `Next` returns `finished` where the app would show the "Finished!" alert.
- The keyboard shortcut listener (`src/App.jsx:131-141`) and the rest of the effect wiring. The mount effect is the method `Preload`, which requires an empty deck because the effect runs once, at mount.
- The JSON (de)serialisation of the wrong list in the device store. The list is the field `wrong`, and a corrupt stored entry, which would make `JSON.parse` throw, is not modelled.
- `Math.random`. Each shuffle receives a source of draws in `[0, 1)`, one per loop position. The uniformity of the shuffle is not proved.
- React's deferred state setters. Each transition is an immediate sequential update. This matches the source, because every handler reads only the values captured when it was called.
- The Supabase client construction and environment checks (`src/db.js:4-10`). Also left out are `getLeaderboardByPoints` and `getLeaderboardByStreak`, thin query wrappers whose ordering is done by the database, and `api/leaderboard-get.js`, a pass-through read.
- HTTP, `fetch` and the KV REST protocol. Each store request is a method whose success or failure is a parameter, and a failed write is taken to change nothing.
- JavaScript value coercion: `Number()`, NaN, and names that are `null` or non-strings. Points and streaks are unbounded integers and a missing value is 0. In `src/db.js` the name is a string, and `!name` is the empty string.
- A stored leaderboard value that is not valid JSON or has no `users` field, for which the handler would throw.
- LeaderboardUpsert.Kv.Write: the model assumes that a successful write and the next read round-trip the map. The request body at `api/leaderboard-upsert.js:37` wraps the serialised map as `{ value: "…" }`, while the read at line 21 parses `result` directly as `{ users }`. If the store kept the wrapper as the value, the next read would find no `users` field and line 24 would throw. Every upsert after the first would then fail. The store's handling of the body is not modelled.
- LeaderboardUpsert.GetStatusOf: a network failure, where `fetch` rejects, is not modelled. In the source it throws out of the handler. At `api/leaderboard-upsert.js:17` it throws before any write. At line 31 it throws instead of answering "kv set failed". The model has no such exit: `getFails` and `setOk` stand only for an answer that arrived with an error status.
- LeaderboardUpsert.MergeUser: every name is treated as an ordinary key of the users map. In the source the map is a plain JavaScript object, so a name that is a special property of such objects (`__proto__`) behaves differently. Line 24 reads the object's prototype, so both current values count as 0. Line 25 sets the prototype instead of adding an own key. The entry is then dropped by `JSON.stringify` at lines 37 and 41. The model stores that entry like any other.
- `updated_at`: the clock reading `new Date().toISOString()` is the parameter `now`.
- The non-atomic read-then-write under concurrent writers. Each update is one sequential step.
- `App.Session.Submit`, `App.Session.Next`: they carry no phase guard, as in the source; only the buttons (`src/App.jsx:199`, `210`) are gated on the phase.

## Findings

| source | as written | input that shows it | evidently intended | confidence | as-written member | corrected member |
|---|---|---|---|---|---|---|
| api/leaderboard-upsert.js:17-22 | a read answered with an error status other than a missing key's 404 (`get.ok` false) leaves `data = { users: {} }`, and the handler then merges into this empty map and writes the whole map back | the stored value is `{ana: {bestPoints: 50, bestStreak: 3}}`, the read fails, the body is `{name: "bo", bestPoints: 10, bestStreak: 1}` and the write succeeds: the store now holds only `bo`, and `ana`'s record is lost | a failed read is answered with an error and nothing is written, while a missing key (404 or a null `result`) still reads as an empty leaderboard, as `api/leaderboard-get.js:14-22` does | medium; not executed | `LeaderboardUpsert.Kv.Handler`, `LeaderboardUpsert.ReadFailureErasesOthers` | `LeaderboardUpsert.Kv.HandlerCheckedRead`, `LeaderboardUpsert.CheckedReadKeepsOthers` |
