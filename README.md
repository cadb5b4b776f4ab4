# In-memory task store of crosszan/a2a, modelled in Dafny

This project models the storage engine of an agent-to-agent request tracker: `InMemoryStorage`
in `storage/storage.go`. The store keeps two tables:

- task records, keyed by task id;
- append-only message histories, keyed by session id.

It offers six operations. `CreateTask` stores a task and silently replaces any task with the
same id. `GetTask` reads a task back or fails with "task not found". `AppendHistory` adds a
message to a session. `GetHistory` returns all of a session's messages, or only the most recent
ones. `UpdateStatus` applies the latest-timestamp-wins rule to a task's status. `UpdateArtifact`
places an artifact chunk at its index and fills any gap with zero-valued placeholders.

Files:

- `wrappers.dfy`: `Option`, `Result` and `Outcome`, which stand for Go's nil pointers,
  `(value, error)` returns and bare `error` returns.
- `schema.dfy`: the records from `schema/task.go` and `schema/artifact.go` as datatypes. The
  zero-valued artifact is `ZeroArtifact`.
- `rules.dfy` (module `StoreRules`): the store's rules as functions on values: the history tail,
  the status decision and the artifact placement. It also holds the lemmas about them: append
  order, tails of tails, timestamp monotonicity, idempotence, order independence of two status
  updates, and order independence of chunks at different indices.
- `storage.dfy` (module `Storage`): the class `InMemoryStorage` with fields `tasks` and `history`.
  Each method states the store's whole new state in terms of the old state and those functions.
  The object invariant `Valid()` says that every task is filed under its own id.
  `GrowArtifacts` is the `make` and `copy` growth step, written as a loop over a fresh array.
- `scenarios.dfy`: clients that drive a fresh store through the store's documented behaviours.
  They are proved from the method contracts alone.

Two library calls become parameters of `UpdateStatus`:

- `now` is the current time already formatted as RFC 3339.
- `parse` is the date-time reader for section 5.6 of RFC 3339. It maps a string to an `Instant`
  (an `int` on a totally ordered time line), or to `None` when the string does not parse.

The model needs no assumption about `parse`. If `now` fails to parse, the error path handles it,
just as in the code.

Where the design description and the code disagree, the model follows the code:

- The description says callers always get independent copies. In the code, `cloned := *task` is
  a shallow copy, so the `Artifacts` slice stays shared with the caller, and `GetHistory`
  returns the internal slice. The model works on values, so this sharing is not represented
  (see "Left out").
- The description says `CreateTask` expects a non-empty id. The code never checks this, and
  neither does the model.
- The `Storage` interface declares `GetTask` as returning `(string, error)`. The model follows
  the implementation, which returns the task record (`storage/storage.go:59`).

## Model

| member | source | states |
|---|---|---|
| Storage.InMemoryStorage.constructor | storage/storage.go:42-47 | both tables start empty and the object invariant holds |
| Storage.InMemoryStorage.CreateTask | storage/storage.go:49-57 | always succeeds; the task is stored under its own id, replacing any earlier task with that id; every other task and all histories are unchanged |
| Storage.InMemoryStorage.GetTask | storage/storage.go:59-69 | returns the stored task for a known id, whose id is the one asked for; returns TaskNotFound for an unknown id; changes nothing |
| Storage.InMemoryStorage.AppendHistory | storage/storage.go:71-82 | always succeeds; the session's history becomes its old history (empty if absent) plus the message; other sessions and the task table are unchanged |
| Storage.InMemoryStorage.GetHistory | storage/storage.go:84-99 | never fails and changes nothing; returns the tail of the session's history that `Recent` selects, which is empty for an unknown session |
| Storage.InMemoryStorage.UpdateStatus | storage/storage.go:101-132 | unknown id: TaskNotFound and no change; otherwise a parse error leaves the store unchanged, and success sets only that task's status to the one `Resolve` selects; histories are unchanged |
| Storage.InMemoryStorage.UpdateArtifact | storage/storage.go:134-152 | unknown id: TaskNotFound and no change; otherwise only that task's artifact list changes, to the list given by `PlaceArtifact`; histories are unchanged |
| Storage.GrowArtifacts | storage/storage.go:143-146 | a fresh list of index+1 zero slots, with the old list copied to its front and the artifact at its index, equals `PlaceArtifact` |
| StoreRules.Appended | storage/storage.go:76-80 | the session's list gains the message at its end, created empty first if absent; the session becomes a key; every other session's list is unchanged |
| StoreRules.AppendedAllMessages | storage/storage.go:71-82 | after appending ms one by one, the session holds its old history followed by ms in call order; every other session is unchanged |
| StoreRules.HistoryOfAppends | storage/storage.go:84-98 | reading a session filled only by appends of ms returns all of ms for a negative limit and the last k of ms for 0 <= k < \|ms\|; other sessions read empty |
| StoreRules.Recent | storage/storage.go:90-96 | a negative limit, or a limit of at least the length, returns everything; otherwise exactly `limit` messages; the result is always a suffix of the history, in order |
| StoreRules.RecentAfterAppend | storage/storage.go:93-94 | after one more append, the last k messages are the last k-1 from before, followed by the new message (k >= 1) |
| StoreRules.RecentOfRecent | storage/storage.go:93-94 | taking the last j of the last k messages gives the last min(j, k) |
| StoreRules.Stamped | storage/storage.go:110-114 | an incoming status without a timestamp gets `now`; one with a timestamp is kept as it is; state and message are never touched |
| StoreRules.Resolve | storage/storage.go:110-131 | the result is the stored status or the stamped incoming status, never a merge; the call fails (ParseError) exactly when the stored status has a timestamp and that timestamp or the incoming one does not parse; with no stored timestamp the stamped incoming status wins |
| StoreRules.ResolveOrdered | storage/storage.go:116-130 | when both timestamps parse, an incoming time strictly before the stored time leaves the stored status; an equal or later time replaces it wholesale |
| StoreRules.ResolveMonotone | storage/storage.go:115-130 | after a successful update, a readable stored timestamp is never lost and never moves backwards |
| StoreRules.ResolveIdempotent | storage/storage.go:124-130 | delivering the same timestamped update a second time changes nothing more |
| StoreRules.ResolveOrderIndependent | storage/storage.go:115-131 | two readable updates with times ta < tb both succeed and give the same final status in either arrival order: the stored status if it is later than tb, otherwise the tb update |
| StoreRules.PlaceArtifact | storage/storage.go:140-147 | an index inside the list overwrites only that slot and keeps the length; a larger index grows the list to index+1, keeps the old prefix, fills the gap with zero-valued artifacts and puts the argument at the index |
| StoreRules.PlaceArtifactDetermined | storage/storage.go:140-147 | the placement properties determine the list: any list that has them equals `PlaceArtifact` |
| StoreRules.PlaceArtifactKeepsOthers | storage/storage.go:140-146 | the list never shrinks; inside the bounds it is a one-slot overwrite; past the bounds the old list is its prefix |
| StoreRules.PlaceArtifactIdempotent | storage/storage.go:140-141 | placing the same chunk twice gives the same list as placing it once |
| StoreRules.PlaceArtifactCommutes | storage/storage.go:140-147 | chunks for two different indices give the same list in either arrival order |
| Scenarios.CreateThenGet | storage/storage.go:49-69 | a created task reads back equal; re-creating its id replaces it; an id never created gives TaskNotFound |
| Scenarios.HistoryInOrder | storage/storage.go:71-98 | three appends read back in call order in full (limit -1) and as their last two (limit 2); an unknown session reads empty without an error |
| Scenarios.LateStatusIgnored | storage/storage.go:101-131 | a "working" update at 00:00:10 is applied to a task with no timestamp; a later-arriving "completed" update at 00:00:05 succeeds but leaves "working" at 00:00:10 in place |
| Scenarios.StatusUpdatesCommute | storage/storage.go:101-131 | two stores given the same two timestamped updates in opposite orders end up holding the same task, which is the later update when the task had no timestamp |
| Scenarios.ArtifactGapFilled | storage/storage.go:134-149 | an artifact at index 3 of a task with no artifacts gives three zero-valued placeholders followed by the artifact |

## Left out

- The `sync.RWMutex`, `sync.Once` and lazy `init()` (storage/storage.go:35-36, 42-47). Each method is modelled as one atomic step, and the constructor allocates both tables.
- The `context.Context` parameters. The code never uses them.
- `time.Now().Format(time.RFC3339)` (storage/storage.go:112). It is the parameter `now`.
- `time.Parse(time.RFC3339, …)` and `Time.Before` (storage/storage.go:116-124). They are the parameter `parse`, into a totally ordered `Instant`. RFC 3339 syntax, time zones and fractional seconds are not modelled.
- Pointer sharing: the shallow copy in `CreateTask` and `GetTask` shares the `Artifacts` slice with the caller, the in-place write at storage/storage.go:141 is visible through it, and `GetHistory` returns the internal slice. The model works on values, so a caller can never change stored state through a returned record.
- Storage.InMemoryStorage.UpdateArtifact: a negative index panics in Go when the task exists, so the model requires a non-negative index in that case only. Go's `int` overflow in `Index+1` is not modelled, because integers here are unbounded.
- The free-form `Metadata` and `Data` maps of tasks, parts and artifacts. The store never reads them, so the records leave them out.
- The fields of `Message`. `schema/message.go` is not part of this model, and a message is modelled as a sequence of parts that the store never inspects.
- `schema/agent.go`. It describes agents and has no behaviour.
- The `errorx` error values. They are the enumeration `StoreError` (`TaskNotFound`, `ParseError`).
