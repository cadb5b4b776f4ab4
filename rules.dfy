/**
 * The rules the in-memory store applies inside its operations, as
 * functions on values: the history tail GetHistory returns, the
 * latest-timestamp-wins decision of UpdateStatus, and the sparse-index
 * placement of UpdateArtifact. The store's methods are proved against them.
 */
module StoreRules {
  import opened Wrappers
  import opened Schema

  /** The two ways an operation of the store can fail. */
  datatype StoreError = TaskNotFound | ParseError

  /** A parsed RFC 3339 date-time: a point on a totally ordered time line. */
  type Instant = int

  // ---------------------------------------------------------------------
  // History

  /** The history of a session; a session never appended to has none. */
  function Messages(history: map<string, seq<Message>>, session: string): seq<Message>
  {
    if session in history then history[session] else []
  }

  /** The history table after appending one message to one session. */
  function Appended(history: map<string, seq<Message>>, session: string, m: Message): (r: map<string, seq<Message>>)
    ensures r.Keys == history.Keys + {session}
    ensures Messages(r, session) == Messages(history, session) + [m]
    ensures forall s :: s != session ==> Messages(r, s) == Messages(history, s)
  {
    history[session := Messages(history, session) + [m]]
  }

  /** The history table after appending each of `ms`, in order, to one session. */
  function AppendedAll(history: map<string, seq<Message>>, session: string, ms: seq<Message>): map<string, seq<Message>>
    decreases |ms|
  {
    if ms == [] then history else AppendedAll(Appended(history, session, ms[0]), session, ms[1..])
  }

  /** Appends are kept in call order and touch no other session. */
  lemma {:induction false} AppendedAllMessages(history: map<string, seq<Message>>, session: string, ms: seq<Message>, s: string)
    ensures Messages(AppendedAll(history, session, ms), s)
            == if s == session then Messages(history, session) + ms else Messages(history, s)
    decreases |ms|
  {
    if ms != [] {
      AppendedAllMessages(Appended(history, session, ms[0]), session, ms[1..], s);
      assert [ms[0]] + ms[1..] == ms;
      assert Messages(history, session) + [ms[0]] + ms[1..] == Messages(history, session) + ms;
    }
  }

  /**
   * The messages a history read returns: everything for a negative limit,
   * otherwise the last `limit` messages (all of them when there are fewer).
   */
  function Recent(msgs: seq<Message>, limit: int): (r: seq<Message>)
    ensures limit < 0 || |msgs| <= limit ==> r == msgs
    ensures 0 <= limit <= |msgs| ==> |r| == limit
    ensures |r| <= |msgs| && r == msgs[|msgs| - |r|..]
  {
    if limit < 0 then msgs
    else if |msgs| > limit then msgs[|msgs| - limit..]
    else msgs
  }

  /** Reading the last `limit` after an append: the last `limit - 1` before it, then the new message. */
  lemma RecentAfterAppend(msgs: seq<Message>, m: Message, limit: int)
    requires limit >= 1
    ensures Recent(msgs + [m], limit) == Recent(msgs, limit - 1) + [m]
  {
  }

  /** Narrowing a tail is the same as taking the shorter tail at once. */
  lemma RecentOfRecent(msgs: seq<Message>, outer: int, inner: int)
    requires outer >= 0 && inner >= 0
    ensures Recent(Recent(msgs, outer), inner) == Recent(msgs, if inner < outer then inner else outer)
  {
  }

  /** Reading back a session filled only by appends of `ms`. */
  lemma HistoryOfAppends(session: string, ms: seq<Message>, limit: int)
    ensures limit < 0 ==> Recent(Messages(AppendedAll(map[], session, ms), session), limit) == ms
    ensures 0 <= limit < |ms| ==> Recent(Messages(AppendedAll(map[], session, ms), session), limit) == ms[|ms| - limit..]
    ensures forall s :: s != session ==> Messages(AppendedAll(map[], session, ms), s) == []
  {
    forall s ensures Messages(AppendedAll(map[], session, ms), s) == if s == session then ms else [] {
      AppendedAllMessages(map[], session, ms, s);
    }
  }

  // ---------------------------------------------------------------------
  // Status

  /** The incoming status, stamped with the current time when it carries no timestamp. */
  function Stamped(incoming: TaskStatus, now: string): (r: TaskStatus)
    ensures r.timestamp.Some?
    ensures incoming.timestamp.Some? ==> r == incoming
    ensures incoming.timestamp.None? ==> r.timestamp == Some(now)
    ensures r.state == incoming.state && r.message == incoming.message
  {
    if incoming.timestamp.None? then incoming.(timestamp := Some(now)) else incoming
  }

  /**
   * The status a task holds after an update of status `stored` with
   * `incoming` at time `now`: latest timestamp wins, an earlier incoming
   * timestamp leaves `stored` in place, and a stored or (checked second)
   * incoming timestamp that `parse` rejects is an error. The incoming
   * timestamp is parsed only when the stored status has one.
   */
  function Resolve(stored: TaskStatus, incoming: TaskStatus, now: string, parse: string -> Option<Instant>): (r: Result<TaskStatus, StoreError>)
    ensures r.Success? ==> r.value == stored || r.value == Stamped(incoming, now)
    ensures r.Failure? <==> stored.timestamp.Some?
                            && (parse(stored.timestamp.value).None? || parse(Stamped(incoming, now).timestamp.value).None?)
    ensures r.Failure? ==> r.error == ParseError
    ensures stored.timestamp.None? ==> r == Success(Stamped(incoming, now))
  {
    var next := Stamped(incoming, now);
    if stored.timestamp.None? then Success(next)
    else match parse(stored.timestamp.value)
      case None => Failure(ParseError)
      case Some(before) =>
        match parse(next.timestamp.value)
        case None => Failure(ParseError)
        case Some(after) => if after < before then Success(stored) else Success(next)
  }

  /** With both timestamps readable: strictly earlier is ignored, equal or later replaces wholesale. */
  lemma ResolveOrdered(stored: TaskStatus, incoming: TaskStatus, now: string, parse: string -> Option<Instant>, before: Instant, after: Instant)
    requires stored.timestamp.Some? && parse(stored.timestamp.value) == Some(before)
    requires parse(Stamped(incoming, now).timestamp.value) == Some(after)
    ensures after < before ==> Resolve(stored, incoming, now, parse) == Success(stored)
    ensures before <= after ==> Resolve(stored, incoming, now, parse) == Success(Stamped(incoming, now))
  {
  }

  /** A successful update never moves a readable stored timestamp backwards, and never drops it. */
  lemma ResolveMonotone(stored: TaskStatus, incoming: TaskStatus, now: string, parse: string -> Option<Instant>, before: Instant)
    requires stored.timestamp.Some? && parse(stored.timestamp.value) == Some(before)
    requires Resolve(stored, incoming, now, parse).Success?
    ensures Resolve(stored, incoming, now, parse).value.timestamp.Some?
    ensures parse(Resolve(stored, incoming, now, parse).value.timestamp.value).Some?
    ensures before <= parse(Resolve(stored, incoming, now, parse).value.timestamp.value).value
  {
  }

  /** Re-delivering the same timestamped update changes nothing more. */
  lemma ResolveIdempotent(stored: TaskStatus, incoming: TaskStatus, now: string, parse: string -> Option<Instant>)
    requires incoming.timestamp.Some? && parse(incoming.timestamp.value).Some?
    requires Resolve(stored, incoming, now, parse).Success?
    ensures Resolve(Resolve(stored, incoming, now, parse).value, incoming, now, parse)
            == Resolve(stored, incoming, now, parse)
  {
  }

  /**
   * Two timestamped updates `a` (earlier) and `b` (later) give the same
   * final status in either arrival order: `b`, unless the stored status is
   * later than both.
   */
  lemma ResolveOrderIndependent(stored: TaskStatus, a: TaskStatus, b: TaskStatus, now: string, parse: string -> Option<Instant>, ta: Instant, tb: Instant)
    requires a.timestamp.Some? && parse(a.timestamp.value) == Some(ta)
    requires b.timestamp.Some? && parse(b.timestamp.value) == Some(tb)
    requires ta < tb
    requires stored.timestamp.Some? ==> parse(stored.timestamp.value).Some?
    ensures Resolve(stored, a, now, parse).Success? && Resolve(stored, b, now, parse).Success?
    ensures Resolve(Resolve(stored, a, now, parse).value, b, now, parse)
            == Resolve(Resolve(stored, b, now, parse).value, a, now, parse)
    ensures var final := Resolve(Resolve(stored, a, now, parse).value, b, now, parse);
            final == if stored.timestamp.Some? && tb < parse(stored.timestamp.value).value
                     then Success(stored) else Success(b)
  {
  }

  // ---------------------------------------------------------------------
  // Artifacts

  /**
   * The artifact list after placing `a` at its index: an index inside the
   * list overwrites that slot; a larger index grows the list to `index + 1`,
   * keeping the old prefix and filling the gap with zero-valued artifacts.
   */
  function PlaceArtifact(arts: seq<Artifact>, a: Artifact): (r: seq<Artifact>)
    requires a.index >= 0
    ensures |r| == if a.index < |arts| then |arts| else a.index + 1
    ensures r[a.index] == a
    ensures forall i :: 0 <= i < |arts| && i != a.index ==> r[i] == arts[i]
    ensures forall i :: |arts| <= i < |r| && i != a.index ==> r[i] == ZeroArtifact
  {
    if a.index < |arts| then arts[a.index := a]
    else arts + seq(a.index - |arts|, _ => ZeroArtifact) + [a]
  }

  /** The placement postconditions pin the list down: nothing else satisfies them. */
  lemma PlaceArtifactDetermined(arts: seq<Artifact>, a: Artifact, r: seq<Artifact>)
    requires a.index >= 0
    requires |r| == if a.index < |arts| then |arts| else a.index + 1
    requires r[a.index] == a
    requires forall i :: 0 <= i < |arts| && i != a.index ==> r[i] == arts[i]
    requires forall i :: |arts| <= i < |r| && i != a.index ==> r[i] == ZeroArtifact
    ensures r == PlaceArtifact(arts, a)
  {
  }

  /** Placing never shrinks the list and keeps every other slot of the old list. */
  lemma PlaceArtifactKeepsOthers(arts: seq<Artifact>, a: Artifact)
    requires a.index >= 0
    ensures |arts| <= |PlaceArtifact(arts, a)|
    ensures a.index < |arts| ==> PlaceArtifact(arts, a) == arts[a.index := a]
    ensures |arts| <= a.index ==> PlaceArtifact(arts, a)[..|arts|] == arts
  {
  }

  /** Placing the same chunk twice is the same as placing it once. */
  lemma PlaceArtifactIdempotent(arts: seq<Artifact>, a: Artifact)
    requires a.index >= 0
    ensures PlaceArtifact(PlaceArtifact(arts, a), a) == PlaceArtifact(arts, a)
  {
  }

  /** Chunks for different indices may arrive in either order: the list comes out the same. */
  lemma PlaceArtifactCommutes(arts: seq<Artifact>, a: Artifact, b: Artifact)
    requires a.index >= 0 && b.index >= 0 && a.index != b.index
    ensures PlaceArtifact(PlaceArtifact(arts, a), b) == PlaceArtifact(PlaceArtifact(arts, b), a)
  {
  }
}
