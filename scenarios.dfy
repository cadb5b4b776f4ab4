/**
 * Clients of the store that drive a fresh InMemoryStorage through the
 * behaviours its design promises and state the outcomes. They are proved
 * from the method contracts alone.
 */
module Scenarios {
  import opened Wrappers
  import opened Schema
  import opened StoreRules
  import opened Storage

  /** A created task reads back equal; re-creating the id replaces it; any other id is unknown. */
  method CreateThenGet(t: Task, u: Task, other: string) returns (first: Result<Task, StoreError>, second: Result<Task, StoreError>, missing: Result<Task, StoreError>)
    requires u.id == t.id && other != t.id
    ensures first == Success(t)
    ensures second == Success(u)
    ensures missing == Failure(TaskNotFound)
  {
    var store := new InMemoryStorage();
    var _ := store.CreateTask(t);
    first := store.GetTask(t.id);
    var _ := store.CreateTask(u);
    second := store.GetTask(t.id);
    missing := store.GetTask(other);
  }

  /** Appended messages read back in call order, as a whole or as a tail; an unknown session reads empty. */
  method HistoryInOrder(session: string, other: string, m1: Message, m2: Message, m3: Message)
    returns (all: Result<seq<Message>, StoreError>, lastTwo: Result<seq<Message>, StoreError>, none: Result<seq<Message>, StoreError>)
    requires session != other
    ensures all == Success([m1, m2, m3])
    ensures lastTwo == Success([m2, m3])
    ensures none == Success([])
  {
    var store := new InMemoryStorage();
    var _ := store.AppendHistory(session, m1);
    var _ := store.AppendHistory(session, m2);
    var _ := store.AppendHistory(session, m3);
    assert Messages(store.history, session) == [m1] + [m2] + [m3] == [m1, m2, m3];
    all := store.GetHistory(session, -1);
    lastTwo := store.GetHistory(session, 2);
    none := store.GetHistory(other, 5);
  }

  /**
   * A task created without a status timestamp takes a "working" update
   * stamped at 00:00:10; a later-arriving "completed" update stamped at
   * 00:00:05 succeeds but leaves "working" in place.
   */
  method LateStatusIgnored(t: Task, now: string, parse: string -> Option<Instant>)
    returns (first: Outcome<StoreError>, second: Outcome<StoreError>, stored: Result<Task, StoreError>)
    requires t.id == "t1" && t.status.timestamp.None?
    requires parse("2024-01-01T00:00:10Z") == Some(10)
    requires parse("2024-01-01T00:00:05Z") == Some(5)
    ensures first == Pass && second == Pass
    ensures stored == Success(t.(status := TaskStatus(Working, None, Some("2024-01-01T00:00:10Z"))))
  {
    var store := new InMemoryStorage();
    var _ := store.CreateTask(t);
    first := store.UpdateStatus("t1", TaskStatus(Working, None, Some("2024-01-01T00:00:10Z")), now, parse);
    second := store.UpdateStatus("t1", TaskStatus(Completed, None, Some("2024-01-01T00:00:05Z")), now, parse);
    stored := store.GetTask("t1");
  }

  /**
   * Two timestamped updates applied to two copies of a task in opposite
   * orders leave both copies with the same status: the later one, unless
   * the task already held a later status.
   */
  method StatusUpdatesCommute(t: Task, a: TaskStatus, b: TaskStatus, now: string, parse: string -> Option<Instant>)
    returns (one: Result<Task, StoreError>, two: Result<Task, StoreError>)
    requires a.timestamp.Some? && parse(a.timestamp.value).Some?
    requires b.timestamp.Some? && parse(b.timestamp.value).Some?
    requires parse(a.timestamp.value).value < parse(b.timestamp.value).value
    requires t.status.timestamp.Some? ==> parse(t.status.timestamp.value).Some?
    ensures one == two
    ensures t.status.timestamp.None? ==> one == Success(t.(status := b))
  {
    ResolveOrderIndependent(t.status, a, b, now, parse, parse(a.timestamp.value).value, parse(b.timestamp.value).value);
    var s1 := new InMemoryStorage();
    var _ := s1.CreateTask(t);
    var _ := s1.UpdateStatus(t.id, a, now, parse);
    var _ := s1.UpdateStatus(t.id, b, now, parse);
    one := s1.GetTask(t.id);
    var s2 := new InMemoryStorage();
    var _ := s2.CreateTask(t);
    var _ := s2.UpdateStatus(t.id, b, now, parse);
    var _ := s2.UpdateStatus(t.id, a, now, parse);
    two := s2.GetTask(t.id);
  }

  /** An artifact at index 3 of a task with none grows its list to three placeholders and the artifact. */
  method ArtifactGapFilled(t: Task, a: Artifact) returns (stored: Result<Task, StoreError>)
    requires t.artifacts == [] && a.index == 3
    ensures stored.Success?
    ensures stored.value.artifacts == [ZeroArtifact, ZeroArtifact, ZeroArtifact, a]
  {
    var store := new InMemoryStorage();
    var _ := store.CreateTask(t);
    var _ := store.UpdateArtifact(t.id, a);
    stored := store.GetTask(t.id);
    assert stored.value.artifacts == PlaceArtifact([], a);
  }
}
