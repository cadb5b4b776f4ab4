/**
 * The in-memory task store of storage/storage.go: two tables, tasks by
 * task id and message histories by session id, and the six operations on
 * them. Each method runs as one atomic step; the lock that makes this so
 * in the source is not modelled.
 */
module Storage {
  import opened Wrappers
  import opened Schema
  import opened StoreRules

  /**
   * The artifact list grown for an index at or past its end: a fresh list
   * of `a.index + 1` zero-valued slots, the old list copied into its front,
   * and `a` written at its index.
   */
  method GrowArtifacts(arts: seq<Artifact>, a: Artifact) returns (r: seq<Artifact>)
    requires |arts| <= a.index
    ensures r == PlaceArtifact(arts, a)
  {
    var grown := new Artifact[a.index + 1](_ => ZeroArtifact);
    var i := 0;
    while i < |arts|
      invariant 0 <= i <= |arts|
      invariant forall j :: 0 <= j < i ==> grown[j] == arts[j]
      invariant forall j :: i <= j < grown.Length ==> grown[j] == ZeroArtifact
    {
      grown[i] := arts[i];
      i := i + 1;
    }
    grown[a.index] := a;
    r := grown[..];
    PlaceArtifactDetermined(arts, a, r);
  }

  class InMemoryStorage {
    /** Task records by task id. */
    var tasks: map<string, Task>
    /** Message histories by session id. */
    var history: map<string, seq<Message>>

    /** Every task is filed under its own id; no operation changes an id. */
    ghost predicate Valid()
      reads this
    {
      forall id :: id in tasks ==> tasks[id].id == id
    }

    /** Both tables start empty. */
    constructor ()
      ensures Valid()
      ensures tasks == map[] && history == map[]
    {
      tasks := map[];
      history := map[];
    }

    /** Stores `task` under its id, replacing any task already there. Never fails. */
    method CreateTask(task: Task) returns (r: Outcome<StoreError>)
      requires Valid()
      modifies this
      ensures Valid()
      ensures r == Pass
      ensures tasks == old(tasks)[task.id := task]
      ensures history == old(history)
    {
      tasks := tasks[task.id := task];
      r := Pass;
    }

    /** The task stored under `taskID`, or TaskNotFound. */
    method GetTask(taskID: string) returns (r: Result<Task, StoreError>)
      requires Valid()
      ensures taskID in tasks ==> r == Success(tasks[taskID])
      ensures taskID !in tasks ==> r == Failure(TaskNotFound)
      ensures r.Success? ==> r.value.id == taskID
    {
      if taskID in tasks {
        r := Success(tasks[taskID]);
      } else {
        r := Failure(TaskNotFound);
      }
    }

    /** Appends `message` to the history of `sessionID`, starting one if there is none. Never fails. */
    method AppendHistory(sessionID: string, message: Message) returns (r: Outcome<StoreError>)
      requires Valid()
      modifies this
      ensures Valid()
      ensures r == Pass
      ensures history == Appended(old(history), sessionID, message)
      ensures tasks == old(tasks)
    {
      if sessionID !in history {
        history := history[sessionID := []];
      }
      history := history[sessionID := history[sessionID] + [message]];
      r := Pass;
    }

    /**
     * The history of `sessionID`: all of it for a negative `limit`,
     * otherwise its last `limit` messages; empty for an unknown session.
     * Never fails.
     */
    method GetHistory(sessionID: string, limit: int) returns (r: Result<seq<Message>, StoreError>)
      ensures r == Success(Recent(Messages(history, sessionID), limit))
    {
      if sessionID in history {
        var messages := history[sessionID];
        if limit < 0 {
          return Success(messages);
        }
        if |messages| > limit {
          return Success(messages[|messages| - limit..]);
        }
        return Success(messages);
      }
      r := Success([]);
    }

    /**
     * Updates the status of `taskID` by the latest-timestamp-wins rule.
     * `now` is the current time formatted as RFC 3339 and `parse` reads an
     * RFC 3339 date-time; both stand for library calls.
     */
    method UpdateStatus(taskID: string, status: TaskStatus, now: string, parse: string -> Option<Instant>)
      returns (r: Outcome<StoreError>)
      requires Valid()
      modifies this
      ensures Valid()
      ensures history == old(history)
      ensures taskID !in old(tasks) ==> r == Fail(TaskNotFound) && tasks == old(tasks)
      ensures taskID in old(tasks) ==>
                match Resolve(old(tasks)[taskID].status, status, now, parse)
                case Success(next) => r == Pass && tasks == old(tasks)[taskID := old(tasks)[taskID].(status := next)]
                case Failure(e) => r == Fail(e) && tasks == old(tasks)
    {
      if taskID !in tasks {
        return Fail(TaskNotFound);
      }
      var task := tasks[taskID];
      var incoming := status;
      if incoming.timestamp.None? {
        incoming := incoming.(timestamp := Some(now));
      }
      if task.status.timestamp.Some? {
        var before := parse(task.status.timestamp.value);
        if before.None? {
          return Fail(ParseError);
        }
        var after := parse(incoming.timestamp.value);
        if after.None? {
          return Fail(ParseError);
        }
        if after.value < before.value {
          return Pass;
        }
      }
      task := task.(status := incoming);
      tasks := tasks[taskID := task];
      r := Pass;
    }

    /**
     * Places `artifact` in the artifact list of `taskID` at its index. A
     * negative index is a run-time panic in the source when the task exists.
     */
    method UpdateArtifact(taskID: string, artifact: Artifact) returns (r: Outcome<StoreError>)
      requires Valid()
      requires taskID in tasks ==> artifact.index >= 0
      modifies this
      ensures Valid()
      ensures history == old(history)
      ensures taskID !in old(tasks) ==> r == Fail(TaskNotFound) && tasks == old(tasks)
      ensures taskID in old(tasks) ==>
                r == Pass
                && tasks == old(tasks)[taskID := old(tasks)[taskID].(artifacts := PlaceArtifact(old(tasks)[taskID].artifacts, artifact))]
    {
      if taskID in tasks {
        var task := tasks[taskID];
        if artifact.index < |task.artifacts| {
          task := task.(artifacts := task.artifacts[artifact.index := artifact]);
        } else {
          var grown := GrowArtifacts(task.artifacts, artifact);
          task := task.(artifacts := grown);
        }
        tasks := tasks[taskID := task];
        return Pass;
      }
      r := Fail(TaskNotFound);
    }
  }
}
