/**
 * Server-sent event streams of the A2A endpoint: serveStream of server/routes/a2a.js over the
 * cursor of server/services/crewA2aView.js. Announcements carry no content: a stream re-reads the
 * task each time, so they may be repeated, late, or merged.
 */
module A2aStream {
  import opened Text

  datatype CrewState = Submitted | Working | InputRequired | Completed | Failed | Canceled | Rejected

  predicate Terminal(s: CrewState) {
    s in {Completed, Failed, Canceled, Rejected}
  }

  /** A stored message: may carry an artifact, a text, and the state the task had once it was written. */
  datatype Message = Message(id: nat, artifact: bool, text: bool, stateAfter: Option<CrewState>)

  datatype Task = Task(state: CrewState, messages: seq<Message>)

  datatype Item =
    | Snapshot(state: CrewState)
    | Artifact(id: nat)
    | Status(state: CrewState, message: Option<nat>)

  datatype Cursor = Cursor(state: CrewState, lastMsgId: nat)

  const MESSAGE_CAP := 200

  // ---- what a cursor delivers ------------------------------------------------------------------------

  /** taskMessages: the newest messages, oldest first; a rejected task shows none. */
  function Visible(t: Task): seq<Message> {
    if t.state == Rejected then []
    else if |t.messages| <= MESSAGE_CAP then t.messages
    else t.messages[|t.messages| - MESSAGE_CAP..]
  }

  function LastId(messages: seq<Message>, otherwise: nat): nat {
    if messages == [] then otherwise else messages[|messages| - 1].id
  }

  function CursorOf(t: Task): Cursor {
    Cursor(t.state, LastId(Visible(t), 0))
  }

  function Fresh(messages: seq<Message>, lastMsgId: nat): seq<Message> {
    if messages == [] then []
    else (if messages[0].id > lastMsgId then [messages[0]] else []) + Fresh(messages[1..], lastMsgId)
  }

  function Render(m: Message, state: CrewState): seq<Item> {
    (if m.artifact then [Artifact(m.id)] else [])
    + if m.text then [Status(if m.stateAfter == None then state else m.stateAfter.value, Some(m.id))] else []
  }

  function RenderAll(messages: seq<Message>, state: CrewState): seq<Item> {
    if messages == [] then []
    else RenderAll(messages[..|messages| - 1], state) + Render(messages[|messages| - 1], state)
  }

  /** The state the viewer was last told, or `otherwise` if these items tell none. */
  function Told(items: seq<Item>, otherwise: CrewState): CrewState {
    if items == [] then otherwise
    else
      match items[|items| - 1]
      case Snapshot(s) => s
      case Status(s, _) => s
      case Artifact(_) => Told(items[..|items| - 1], otherwise)
  }

  predicate TellsState(items: seq<Item>) {
    exists i | 0 <= i < |items| :: !items[i].Artifact?
  }

  function EventsSince(t: Task, c: Cursor): (seq<Item>, Cursor) {
    var unseen := Fresh(Visible(t), c.lastMsgId);
    var items := RenderAll(unseen, t.state);
    var silent := t.state != c.state && !(TellsState(items) && Told(items, c.state) == t.state);
    (items + if silent then [Status(t.state, None)] else [], Cursor(t.state, LastId(unseen, c.lastMsgId)))
  }

  // ---- one stream ---------------------------------------------------------------------------------------

  datatype Reason = TaskEnded | TaskLost | Deleted | TimedOut | Disconnected

  datatype Stream = Stream(agent: nat, cursor: Cursor, sent: seq<Item>, ended: Option<Reason>)

  /** Subscribing and snapshotting happen in one turn of the event loop. */
  function Open(agent: nat, task: Option<Task>): Stream {
    match task
    case None => Stream(agent, Cursor(Submitted, 0), [], Some(TaskLost))
    case Some(t) =>
      Stream(agent, CursorOf(t), [Snapshot(t.state)], if Terminal(t.state) then Some(TaskEnded) else None)
  }

  /** onEvent, with the task as this agent sees it now. */
  function OnAnnouncement(st: Stream, deleted: bool, task: Option<Task>): Stream {
    if st.ended != None then st
    else if deleted then st.(ended := Some(Deleted))
    else
      match task
      case None => st.(ended := Some(TaskLost))
      case Some(t) =>
        var r := EventsSince(t, st.cursor);
        st.(cursor := r.1, sent := st.sent + r.0, ended := if Terminal(t.state) then Some(TaskEnded) else None)
  }

  /** A stream opens ended exactly on a lost or a finished task, and only a lost one gets no snapshot. */
  lemma OpeningEndsIff(agent: nat, task: Option<Task>)
    ensures var st := Open(agent, task);
            && st.agent == agent
            && st.sent == (if task == None then [] else [Snapshot(task.value.state)])
            && st.ended == (if task == None then Some(TaskLost)
                            else if Terminal(task.value.state) then Some(TaskEnded) else None)
  {
  }

  /**
   * An announcement ends a stream if and only if it tells of a deletion or finds the task lost or
   * finished, with that reason; any other leaves it open. An ended stream stays as it is.
   */
  lemma AnnouncementEndsIff(st: Stream, deleted: bool, task: Option<Task>)
    ensures var after := OnAnnouncement(st, deleted, task);
            && (after.ended != None <==> st.ended != None || deleted || task == None || Terminal(task.value.state))
            && (st.ended != None ==> after == st)
            && (st.ended == None && deleted ==> after == st.(ended := Some(Deleted)))
            && (st.ended == None && !deleted && task == None ==> after == st.(ended := Some(TaskLost)))
            && (st.ended == None && !deleted && task != None && Terminal(task.value.state) ==> after.ended == Some(TaskEnded))
            && after.agent == st.agent && st.sent <= after.sent
  {
  }

  // ---- exactly once, in order -----------------------------------------------------------------------------

  /** Message ids grow: the column is an autoincrement key. */
  ghost predicate Ordered(messages: seq<Message>) {
    (forall i | 0 <= i < |messages| :: messages[i].id > 0) &&
    forall i, j | 0 <= i < j < |messages| :: messages[i].id < messages[j].id
  }

  /** The items that stand for messages, without the state they are rendered with. */
  function Marks(items: seq<Item>): seq<(bool, nat)> {
    if items == [] then []
    else
      Marks(items[..|items| - 1]) +
      match items[|items| - 1]
      case Artifact(id) => [(true, id)]
      case Status(_, Some(id)) => [(false, id)]
      case _ => []
  }

  function MarksOf(messages: seq<Message>): seq<(bool, nat)> {
    if messages == [] then []
    else
      var m := messages[|messages| - 1];
      MarksOf(messages[..|messages| - 1]) + (if m.artifact then [(true, m.id)] else []) + if m.text then [(false, m.id)] else []
  }

  lemma {:induction false} MarksConcat(a: seq<Item>, b: seq<Item>)
    ensures Marks(a + b) == Marks(a) + Marks(b)
  {
    if b == [] {
      assert a + b == a;
    } else {
      assert (a + b)[..|a + b| - 1] == a + b[..|b| - 1];
      MarksConcat(a, b[..|b| - 1]);
    }
  }

  lemma MarksOfOne(i: Item)
    ensures Marks([i]) ==
      match i
      case Artifact(id) => [(true, id)]
      case Status(_, Some(id)) => [(false, id)]
      case _ => []
  {
    assert [i][..0] == [];
  }

  lemma MarksOfMessage(m: Message, state: CrewState)
    ensures Marks(Render(m, state)) == (if m.artifact then [(true, m.id)] else []) + if m.text then [(false, m.id)] else []
  {
    var artifact := if m.artifact then [Artifact(m.id)] else [];
    var status := Status(if m.stateAfter == None then state else m.stateAfter.value, Some(m.id));
    MarksConcat(artifact, if m.text then [status] else []);
    MarksOfOne(Artifact(m.id));
    MarksOfOne(status);
  }

  lemma {:induction false} MarksOfRender(messages: seq<Message>, state: CrewState)
    ensures Marks(RenderAll(messages, state)) == MarksOf(messages)
  {
    if messages != [] {
      var m := messages[|messages| - 1];
      MarksOfRender(messages[..|messages| - 1], state);
      MarksConcat(RenderAll(messages[..|messages| - 1], state), Render(m, state));
      MarksOfMessage(m, state);
    }
  }

  lemma {:induction false} MarksOfConcat(a: seq<Message>, b: seq<Message>)
    ensures MarksOf(a + b) == MarksOf(a) + MarksOf(b)
  {
    if b == [] {
      assert a + b == a;
    } else {
      assert (a + b)[..|a + b| - 1] == a + b[..|b| - 1];
      MarksOfConcat(a, b[..|b| - 1]);
    }
  }

  lemma {:induction false} FreshIsSuffix(messages: seq<Message>, lastMsgId: nat, n: nat)
    requires n <= |messages|
    requires forall i | 0 <= i < |messages| :: messages[i].id > lastMsgId <==> i >= n
    ensures Fresh(messages, lastMsgId) == messages[n..]
  {
    if messages != [] {
      FreshIsSuffix(messages[1..], lastMsgId, if n == 0 then 0 else n - 1);
    }
  }

  /**
   * The cursor stands after `seen` messages, and what was sent since the snapshot at `from` is
   * exactly those messages, each once and in order.
   */
  ghost predicate Delivered(st: Stream, messages: seq<Message>, from: nat, seen: nat) {
    && from <= seen <= |messages|
    && st.cursor.lastMsgId == LastId(messages[..seen], 0)
    && Marks(st.sent) == MarksOf(messages[from..seen])
  }

  lemma IdsPastCursor(messages: seq<Message>, lastMsgId: nat, seen: nat, i: nat)
    requires Ordered(messages) && seen <= |messages| && i < |messages|
    requires lastMsgId == LastId(messages[..seen], 0)
    ensures messages[i].id > lastMsgId <==> i >= seen
  {
    if seen > 0 {
      assert lastMsgId == messages[seen - 1].id;
    }
  }

  function Skipped(total: nat): nat {
    if total <= MESSAGE_CAP then 0 else total - MESSAGE_CAP
  }

  /** Where the messages past the cursor start that the reader still keeps. */
  function FirstKept(total: nat, seen: nat): nat {
    if seen < Skipped(total) then Skipped(total) else seen
  }

  /** Of the messages from skip on, those past the cursor are a tail of them all. */
  lemma FreshOfTail(messages: seq<Message>, lastMsgId: nat, seen: nat, skip: nat, first: nat)
    requires skip <= |messages| && first == (if seen < skip then skip else seen) <= |messages|
    requires forall i | 0 <= i < |messages| :: messages[i].id > lastMsgId <==> i >= seen
    ensures Fresh(messages[skip..], lastMsgId) == messages[first..]
  {
    var tail := messages[skip..];
    forall i | 0 <= i < |tail| ensures tail[i].id > lastMsgId <==> i >= first - skip {
      assert tail[i] == messages[skip + i];
    }
    FreshIsSuffix(tail, lastMsgId, first - skip);
    TailOfTail(messages, skip, first);
  }

  lemma TailOfTail(messages: seq<Message>, skip: nat, first: nat)
    requires skip <= first <= |messages|
    ensures messages[skip..][first - skip..] == messages[first..]
  {
  }

  lemma FreshFromSeen(t: Task, lastMsgId: nat, seen: nat)
    requires Ordered(t.messages) && seen <= |t.messages| && t.state != Rejected
    requires lastMsgId == LastId(t.messages[..seen], 0)
    ensures Fresh(Visible(t), lastMsgId) == t.messages[FirstKept(|t.messages|, seen)..]
  {
    forall i | 0 <= i < |t.messages| ensures t.messages[i].id > lastMsgId <==> i >= seen {
      IdsPastCursor(t.messages, lastMsgId, seen, i);
    }
    var skip := Skipped(|t.messages|);
    assert skip == 0 ==> t.messages[0..] == t.messages;
    assert Visible(t) == t.messages[skip..];
    FreshOfTail(t.messages, lastMsgId, seen, skip, FirstKept(|t.messages|, seen));
  }

  lemma SentMarks(t: Task, c: Cursor)
    ensures Marks(EventsSince(t, c).0) == MarksOf(Fresh(Visible(t), c.lastMsgId))
  {
    var unseen := Fresh(Visible(t), c.lastMsgId);
    var items := RenderAll(unseen, t.state);
    var r := EventsSince(t, c).0;
    MarksOfRender(unseen, t.state);
    MarksConcat(items, r[|items|..]);
    assert items + r[|items|..] == r;
    MarksOfOne(Status(t.state, None));
  }

  lemma MarksAfterAnnouncement(st: Stream, t: Task)
    requires st.ended == None
    ensures Marks(OnAnnouncement(st, false, Some(t)).sent) == Marks(st.sent) + MarksOf(Fresh(Visible(t), st.cursor.lastMsgId))
  {
    SentMarks(t, st.cursor);
    MarksConcat(st.sent, EventsSince(t, st.cursor).0);
  }

  lemma MarksOfSplit(messages: seq<Message>, from: nat, mid: nat)
    requires from <= mid <= |messages|
    ensures MarksOf(messages[from..]) == MarksOf(messages[from..mid]) + MarksOf(messages[mid..])
  {
    assert messages[from..mid] + messages[mid..] == messages[from..];
    MarksOfConcat(messages[from..mid], messages[mid..]);
  }

  /** A message with neither artifact nor text becomes no event. */
  predicate Shows(m: Message) {
    m.artifact || m.text
  }

  lemma {:induction false} NoMarksIff(messages: seq<Message>)
    ensures MarksOf(messages) == [] <==> forall i | 0 <= i < |messages| :: !Shows(messages[i])
  {
    if messages != [] {
      var front, m := messages[..|messages| - 1], messages[|messages| - 1];
      NoMarksIff(front);
      assert forall i | 0 <= i < |front| :: front[i] == messages[i];
      assert MarksOf(messages) == [] <==> MarksOf(front) == [] && !Shows(m);
    }
  }

  /** Leaving out the messages between seen and first shows, unless they show nothing. */
  lemma MarksWithGap(messages: seq<Message>, from: nat, seen: nat, first: nat)
    requires from <= seen <= first <= |messages|
    ensures MarksOf(messages[from..seen]) + MarksOf(messages[first..]) == MarksOf(messages[from..])
       <==> MarksOf(messages[seen..first]) == []
  {
    MarksOfSplit(messages, from, seen);
    MarksOfSplit(messages, seen, first);
  }

  lemma DeliveredWithGap(st: Stream, after: Stream, all: seq<Message>, from: nat, seen: nat, first: nat)
    requires Delivered(st, all, from, seen) && seen <= first <= |all| && (first == |all| ==> seen == |all|)
    requires Marks(after.sent) == Marks(st.sent) + MarksOf(all[first..])
    requires after.cursor.lastMsgId == LastId(all[first..], st.cursor.lastMsgId)
    ensures Delivered(after, all, from, |all|) <==> MarksOf(all[seen..first]) == []
  {
    assert all[..|all|] == all && all[from..|all|] == all[from..];
    MarksWithGap(all, from, seen, first);
  }

  /** The messages that have arrived since and that the reader no longer keeps. */
  function Missed(messages: seq<Message>, seen: nat): seq<Message>
    requires seen <= |messages|
  {
    messages[seen..FirstKept(|messages|, seen)]
  }

  ghost predicate NothingMissed(messages: seq<Message>, seen: nat)
    requires seen <= |messages|
  {
    forall i | 0 <= i < |Missed(messages, seen)| :: !Shows(Missed(messages, seen)[i])
  }

  /**
   * An announcement, whenever it comes, delivers exactly the messages not yet sent, if and only if
   * the reader still keeps every one of them that has something to show: it keeps 200.
   */
  lemma AnnouncementDelivers(st: Stream, t: Task, from: nat, seen: nat)
    requires Ordered(t.messages) && Delivered(st, t.messages, from, seen) && st.ended == None && t.state != Rejected
    ensures Delivered(OnAnnouncement(st, false, Some(t)), t.messages, from, |t.messages|) <==> NothingMissed(t.messages, seen)
    ensures Missed(t.messages, seen) == if |t.messages| - seen <= 200 then [] else t.messages[seen..|t.messages| - 200]
  {
    FreshFromSeen(t, st.cursor.lastMsgId, seen);
    MarksAfterAnnouncement(st, t);
    DeliveredWithGap(st, OnAnnouncement(st, false, Some(t)), t.messages, from, seen, FirstKept(|t.messages|, seen));
    NoMarksIff(Missed(t.messages, seen));
  }

  lemma {:induction false} NoneFreshPast(messages: seq<Message>, lastMsgId: nat)
    requires forall i | 0 <= i < |messages| :: messages[i].id <= lastMsgId
    ensures Fresh(messages, lastMsgId) == []
  {
    if messages != [] { NoneFreshPast(messages[1..], lastMsgId); }
  }

  lemma {:induction false} FreshSnoc(messages: seq<Message>, m: Message, lastMsgId: nat)
    ensures Fresh(messages + [m], lastMsgId) == Fresh(messages, lastMsgId) + if m.id > lastMsgId then [m] else []
  {
    if messages == [] {
      assert messages + [m] == [m] && [m][1..] == [];
    } else {
      assert (messages + [m])[0] == messages[0] && (messages + [m])[1..] == messages[1..] + [m];
      FreshSnoc(messages[1..], m, lastMsgId);
    }
  }

  lemma LastFresh(messages: seq<Message>, lastMsgId: nat)
    requires Ordered(messages)
    ensures var last := LastId(Fresh(messages, lastMsgId), lastMsgId);
            forall i | 0 <= i < |messages| :: messages[i].id <= last
  {
    if messages != [] {
      var front, m := messages[..|messages| - 1], messages[|messages| - 1];
      assert messages == front + [m];
      if m.id > lastMsgId { FreshSnoc(front, m, lastMsgId); } else { NoneFreshPast(messages, lastMsgId); }
    }
  }

  /** The same announcement again, whatever the stream had seen before: the second one sends nothing. */
  lemma AnnouncedTwiceSendsOnce(st: Stream, t: Task)
    requires Ordered(t.messages)
    ensures var once := OnAnnouncement(st, false, Some(t)); OnAnnouncement(once, false, Some(t)).sent == once.sent
  {
    if st.ended == None && !Terminal(t.state) {
      var once := OnAnnouncement(st, false, Some(t));
      assert Ordered(Visible(t));
      LastFresh(Visible(t), st.cursor.lastMsgId);
      NoneFreshPast(Visible(t), once.cursor.lastMsgId);
      assert once.cursor.state == t.state;
    }
  }

  /** A repeated announcement sends nothing. */
  lemma RepeatSendsNothing(st: Stream, t: Task, from: nat)
    requires Ordered(t.messages) && Delivered(st, t.messages, from, |t.messages|) && st.ended == None && t.state != Rejected
    requires t.state == st.cursor.state
    ensures OnAnnouncement(st, false, Some(t)).sent == st.sent
  {
    FreshFromSeen(t, st.cursor.lastMsgId, |t.messages|);
  }

  // ---- whole streams ----------------------------------------------------------------------------------------

  /** The task with every message it ever had, the stream, and how many messages it has delivered. */
  datatype World = World(messages: seq<Message>, state: CrewState, visible: bool, stream: Stream, seen: nat)

  datatype Event =
    | Commit(added: seq<Message>, state: CrewState)
    | Vanish // removed, or no longer visible to this agent
    | Announce(deleted: bool)
    | Timeout
    | Disconnect

  function TaskOf(w: World): Option<Task> {
    if w.visible then Some(Task(w.state, w.messages)) else None
  }

  /** An announcement the stream sends messages on: it is open, and its agent still sees the task's messages. */
  predicate Acts(w: World, e: Event) {
    e.Announce? && w.stream.ended == None && !e.deleted && w.visible && w.state != Rejected
  }

  ghost function Next(w: World, e: Event): World {
    match e
    case Commit(added, state) =>
      if Ordered(w.messages + added) then w.(messages := w.messages + added, state := state) else w
    case Vanish => w.(visible := false)
    case Announce(deleted) =>
      w.(stream := OnAnnouncement(w.stream, deleted, TaskOf(w)), seen := if Acts(w, e) then |w.messages| else w.seen)
    case Timeout => if w.stream.ended == None then w.(stream := w.stream.(ended := Some(TimedOut))) else w
    case Disconnect => if w.stream.ended == None then w.(stream := w.stream.(ended := Some(Disconnected))) else w
  }

  ghost function Run(w: World, es: seq<Event>): World {
    if es == [] then w else Next(Run(w, es[..|es| - 1]), es[|es| - 1])
  }

  /** At no such announcement of the run was a message pushed out that has something to show. */
  ghost predicate KeepsUp(w: World, es: seq<Event>) {
    es == [] ||
    var before := Run(w, es[..|es| - 1]);
    KeepsUp(w, es[..|es| - 1]) &&
    (Acts(before, es[|es| - 1]) ==>
       before.seen <= |before.messages| && NothingMissed(before.messages, before.seen))
  }

  /** The first thing sent is a snapshot, and there is never a second one. */
  ghost predicate OneSnapshot(sent: seq<Item>) {
    sent != [] && sent[0].Snapshot? && NoSnapshot(sent[1..])
  }

  ghost predicate NoSnapshot(items: seq<Item>) {
    forall i | 0 <= i < |items| :: !items[i].Snapshot?
  }

  lemma {:induction false} RenderedHasNoSnapshot(messages: seq<Message>, state: CrewState)
    ensures NoSnapshot(RenderAll(messages, state))
  {
    if messages != [] { RenderedHasNoSnapshot(messages[..|messages| - 1], state); }
  }

  lemma AnnouncementKeepsOneSnapshot(st: Stream, deleted: bool, task: Option<Task>)
    requires OneSnapshot(st.sent)
    ensures OneSnapshot(OnAnnouncement(st, deleted, task).sent)
  {
    if st.ended == None && !deleted && task != None {
      var items := EventsSince(task.value, st.cursor).0;
      RenderedHasNoSnapshot(Fresh(Visible(task.value), st.cursor.lastMsgId), task.value.state);
      assert (st.sent + items)[1..] == st.sent[1..] + items;
    }
  }

  /** In order, each at most once, perhaps with gaps. */
  ghost predicate Subsequence<T>(a: seq<T>, b: seq<T>)
    decreases |b|
  {
    a == [] ||
    (b != [] && (Subsequence(a, b[..|b| - 1])
                 || (a[|a| - 1] == b[|b| - 1] && Subsequence(a[..|a| - 1], b[..|b| - 1]))))
  }

  lemma {:induction false} SubsequenceIsShorter<T>(a: seq<T>, b: seq<T>)
    requires Subsequence(a, b)
    ensures |a| <= |b| && (|a| == |b| ==> a == b)
    decreases |b|
  {
    if a != [] {
      var front := b[..|b| - 1];
      if Subsequence(a, front) {
        SubsequenceIsShorter(a, front);
      } else {
        SubsequenceIsShorter(a[..|a| - 1], front);
        assert a == a[..|a| - 1] + [a[|a| - 1]] && b == front + [b[|b| - 1]];
      }
    }
  }

  lemma {:induction false} SubsequenceSkips<T>(a: seq<T>, b: seq<T>, gap: seq<T>)
    requires Subsequence(a, b)
    ensures Subsequence(a, b + gap)
    decreases |gap|
  {
    if gap == [] {
      assert b + gap == b;
    } else {
      assert (b + gap)[..|b + gap| - 1] == b + gap[..|gap| - 1];
      SubsequenceSkips(a, b, gap[..|gap| - 1]);
    }
  }

  lemma {:induction false} SubsequenceGrows<T>(a: seq<T>, b: seq<T>, more: seq<T>)
    requires Subsequence(a, b)
    ensures Subsequence(a + more, b + more)
    decreases |more|
  {
    if more == [] {
      assert a + more == a && b + more == b;
    } else {
      assert (a + more)[..|a + more| - 1] == a + more[..|more| - 1];
      assert (b + more)[..|b + more| - 1] == b + more[..|more| - 1];
      SubsequenceGrows(a, b, more[..|more| - 1]);
    }
  }

  /** What every stream keeps: what it sent is in order and nothing twice, after one snapshot. */
  ghost predicate Inv(w: World, from: nat) {
    && OneSnapshot(w.stream.sent) && Ordered(w.messages)
    && from <= w.seen <= |w.messages|
    && Subsequence(Marks(w.stream.sent), MarksOf(w.messages[from..w.seen]))
    && (w.stream.ended == None ==>
          !Terminal(w.stream.cursor.state) && w.stream.cursor.lastMsgId == LastId(w.messages[..w.seen], 0))
    && (w.stream.ended == Some(TaskEnded) ==> TellsState(w.stream.sent) && Terminal(Told(w.stream.sent, Submitted)))
  }

  /** Nothing is left out either. */
  ghost predicate Complete(w: World, from: nat)
    requires from <= w.seen <= |w.messages|
  {
    Marks(w.stream.sent) == MarksOf(w.messages[from..w.seen])
  }

  lemma {:induction false} ToldConcat(a: seq<Item>, b: seq<Item>, otherwise: CrewState)
    ensures Told(a + b, otherwise) == Told(b, Told(a, otherwise))
  {
    if b == [] {
      assert a + b == a;
    } else {
      assert (a + b)[..|a + b| - 1] == a + b[..|b| - 1];
      ToldConcat(a, b[..|b| - 1], otherwise);
    }
  }

  lemma {:induction false} ToldBySome(items: seq<Item>, x: CrewState, y: CrewState)
    ensures if TellsState(items) then Told(items, x) == Told(items, y) else Told(items, x) == x
  {
    if items != [] {
      ToldBySome(items[..|items| - 1], x, y);
      assert forall i | 0 <= i < |items| - 1 :: items[..|items| - 1][i] == items[i];
      assert items[|items| - 1].Artifact? ==> (TellsState(items) <==> TellsState(items[..|items| - 1]));
    }
  }

  /**
   * After an announcement the viewer knows the task's state, unless the batch ends in a message
   * written under another state and the state is back to what the cursor had.
   */
  lemma AnnouncementTellsState(st: Stream, t: Task)
    requires st.ended == None && Told(st.sent, Submitted) == st.cursor.state
    ensures var items := RenderAll(Fresh(Visible(t), st.cursor.lastMsgId), t.state);
            (Told(OnAnnouncement(st, false, Some(t)).sent, Submitted) == t.state
             <==> t.state != st.cursor.state || !TellsState(items) || Told(items, t.state) == t.state)
    ensures t.state != st.cursor.state ==> TellsState(OnAnnouncement(st, false, Some(t)).sent)
    ensures OnAnnouncement(st, false, Some(t)).cursor.state == t.state
  {
    var items := RenderAll(Fresh(Visible(t), st.cursor.lastMsgId), t.state);
    var r := EventsSince(t, st.cursor).0;
    ToldConcat(st.sent, r, Submitted);
    ToldBySome(items, st.cursor.state, t.state);
    assert items + [] == items;
    if r != items {
      ToldConcat(items, [Status(t.state, None)], st.cursor.state);
      assert (st.sent + r)[|st.sent + r| - 1] == Status(t.state, None);
    } else if t.state != st.cursor.state {
      var i :| 0 <= i < |items| && !items[i].Artifact?;
      assert (st.sent + r)[|st.sent| + i] == items[i];
    }
  }

  /** Two changes merged into one announcement: the viewer is left at a state the task has left. */
  lemma MergedChangesMislead()
    ensures var t := Task(Working, [Message(1, false, true, Some(InputRequired)), Message(2, true, false, Some(Working))]);
            var st := Stream(0, Cursor(Working, 0), [Snapshot(Working)], None);
            Told(OnAnnouncement(st, false, Some(t)).sent, Submitted) == InputRequired != t.state
  {
    var question := Message(1, false, true, Some(InputRequired));
    var answer := Message(2, true, false, Some(Working));
    var t := Task(Working, [question, answer]);
    var st := Stream(0, Cursor(Working, 0), [Snapshot(Working)], None);
    FreshIsSuffix(t.messages, 0, 0);
    assert [question, answer][..1] == [question] && [question][..0] == [];
    assert t.messages[0..] == t.messages && Visible(t) == t.messages;
    assert RenderAll([], Working) == [];
    assert RenderAll([question], Working) == [Status(InputRequired, Some(1))];
    assert RenderAll(t.messages, Working) == [Status(InputRequired, Some(1))] + Render(answer, Working);
    var all := [Snapshot(Working), Status(InputRequired, Some(1)), Artifact(2)];
    assert OnAnnouncement(st, false, Some(t)).sent == all;
    assert all[..2] == [Snapshot(Working), Status(InputRequired, Some(1))];
  }

  lemma ToldByMessage(m: Message, state: CrewState)
    ensures Told(RenderAll([m], state), state) == if m.text && m.stateAfter != None then m.stateAfter.value else state
  {
    var items := RenderAll([m], state);
    assert [m][..|[m]| - 1] == [] && RenderAll([m][..|[m]| - 1], state) == [];
    assert items == Render(m, state);
    if m.text {
      assert items[|items| - 1] == Status(if m.stateAfter == None then state else m.stateAfter.value, Some(m.id));
    } else if m.artifact {
      assert items == [Artifact(m.id)] && items[..0] == [];
    } else {
      assert items == [];
    }
  }

  /** Announced one change at a time, as crew.js writes them, the viewer always knows the state. */
  lemma OneChangeAtATimeIsTold(st: Stream, t: Task)
    requires st.ended == None && Told(st.sent, Submitted) == st.cursor.state
    requires var unseen := Fresh(Visible(t), st.cursor.lastMsgId);
             |unseen| <= 1 && forall i | 0 <= i < |unseen| :: unseen[i].stateAfter in {None, Some(t.state)}
    ensures Told(OnAnnouncement(st, false, Some(t)).sent, Submitted) == t.state
  {
    AnnouncementTellsState(st, t);
    var unseen := Fresh(Visible(t), st.cursor.lastMsgId);
    if unseen != [] {
      assert unseen == [unseen[0]];
      ToldByMessage(unseen[0], t.state);
    }
  }

  lemma AllDue(all: seq<Message>, from: nat, seen: nat)
    requires from <= seen <= |all|
    ensures MarksOf(all[from..|all|]) ==
      MarksOf(all[from..seen]) + MarksOf(Missed(all, seen)) + MarksOf(all[FirstKept(|all|, seen)..])
  {
    var first := FirstKept(|all|, seen);
    MarksOfSplit(all, from, seen);
    MarksOfSplit(all, seen, first);
    ThreeParts(MarksOf(all[from..seen]), MarksOf(all[seen..first]), MarksOf(all[first..]));
    assert all[from..|all|] == all[from..];
  }

  lemma ThreeParts<T>(a: seq<T>, b: seq<T>, c: seq<T>)
    ensures a + (b + c) == a + b + c
  {
  }

  lemma CursorAtEnd(all: seq<Message>, seen: nat)
    requires seen <= |all|
    ensures LastId(all[FirstKept(|all|, seen)..], LastId(all[..seen], 0)) == LastId(all[..|all|], 0)
  {
    assert all[..|all|] == all;
  }

  /** What an acting announcement sends, and where it leaves the cursor. */
  lemma ActingAnnouncement(st: Stream, t: Task, seen: nat)
    requires Ordered(t.messages) && st.ended == None && t.state != Rejected && seen <= |t.messages|
    requires st.cursor.lastMsgId == LastId(t.messages[..seen], 0)
    ensures var after := OnAnnouncement(st, false, Some(t));
            && Marks(after.sent) == Marks(st.sent) + MarksOf(t.messages[FirstKept(|t.messages|, seen)..])
            && after.cursor.lastMsgId == LastId(t.messages[..|t.messages|], 0)
  {
    FreshFromSeen(t, st.cursor.lastMsgId, seen);
    MarksAfterAnnouncement(st, t);
    CursorAtEnd(t.messages, seen);
  }

  /** Sending the kept of what is due keeps the order, and leaves nothing out iff nothing was or is missed. */
  lemma SendingKept<T>(sent: seq<T>, due: seq<T>, missed: seq<T>, kept: seq<T>)
    requires Subsequence(sent, due)
    ensures Subsequence(sent + kept, due + missed + kept)
    ensures sent + kept == due + missed + kept <==> sent == due && missed == []
  {
    SubsequenceSkips(sent, due, missed);
    SubsequenceGrows(sent, due + missed, kept);
    SubsequenceIsShorter(sent, due);
    GapShows(sent, due, missed, kept);
  }

  /** What was due and what is, once everything the reader keeps is sent. */
  lemma DueAfter(all: seq<Message>, from: nat, seen: nat, sent: seq<(bool, nat)>)
    requires from <= seen <= |all| && Subsequence(sent, MarksOf(all[from..seen]))
    ensures var kept, due := MarksOf(all[FirstKept(|all|, seen)..]), MarksOf(all[from..|all|]);
            && Subsequence(sent + kept, due)
            && (sent + kept == due <==> sent == MarksOf(all[from..seen]) && NothingMissed(all, seen))
  {
    AllDue(all, from, seen);
    SendingKept(sent, MarksOf(all[from..seen]), MarksOf(Missed(all, seen)), MarksOf(all[FirstKept(|all|, seen)..]));
    NoMarksIff(Missed(all, seen));
  }

  lemma ActingSends(w: World, from: nat)
    requires Inv(w, from) && Acts(w, Announce(false))
    ensures var next := Next(w, Announce(false));
            && next.messages == w.messages && from <= next.seen == |next.messages|
            && next.stream.cursor.lastMsgId == LastId(next.messages[..next.seen], 0)
            && Subsequence(Marks(next.stream.sent), MarksOf(next.messages[from..next.seen]))
            && (Complete(next, from) <==> Complete(w, from) && NothingMissed(w.messages, w.seen))
  {
    ActingAnnouncement(w.stream, Task(w.state, w.messages), w.seen);
    DueAfter(w.messages, from, w.seen, Marks(w.stream.sent));
  }

  lemma ActingEnds(w: World, from: nat)
    requires Inv(w, from) && Acts(w, Announce(false))
    ensures var st := Next(w, Announce(false)).stream;
            && OneSnapshot(st.sent) && (st.ended == None ==> !Terminal(st.cursor.state))
            && (st.ended == Some(TaskEnded) ==> TellsState(st.sent) && Terminal(Told(st.sent, Submitted)))
  {
    AnnouncementKeepsOneSnapshot(w.stream, false, TaskOf(w));
    if Terminal(w.state) { EndTellsState(w.stream, Task(w.state, w.messages)); }
  }

  lemma ActingStep(w: World, from: nat)
    requires Inv(w, from) && Acts(w, Announce(false))
    ensures var next := Next(w, Announce(false));
            && Inv(next, from) && (Complete(next, from) <==> Complete(w, from) && NothingMissed(w.messages, w.seen))
  {
    ActingSends(w, from);
    ActingEnds(w, from);
  }

  lemma GapShows<T>(sent: seq<T>, due: seq<T>, missed: seq<T>, kept: seq<T>)
    requires |sent| <= |due| && (|sent| == |due| ==> sent == due)
    ensures sent + kept == due + missed + kept <==> sent == due && missed == []
  {
    if sent + kept == due + missed + kept {
      assert |sent| + |kept| == |due| + |missed| + |kept|;
    }
    if missed == [] { assert due + missed == due; }
  }

  lemma QuietStep(w: World, e: Event, from: nat)
    requires Inv(w, from) && !Acts(w, e)
    ensures Inv(Next(w, e), from) && (Complete(Next(w, e), from) <==> Complete(w, from))
  {
    match e
    case Commit(added, _) =>
      assert (w.messages + added)[..w.seen] == w.messages[..w.seen];
      assert (w.messages + added)[from..w.seen] == w.messages[from..w.seen];
    case Announce(deleted) =>
      AnnouncementKeepsOneSnapshot(w.stream, deleted, TaskOf(w));
      if w.stream.ended == None && !deleted && w.visible {
        RejectedSendsNoMessage(w.stream, Task(w.state, w.messages));
        EndTellsState(w.stream, Task(w.state, w.messages));
      }
    case Vanish =>
    case Timeout =>
    case Disconnect =>
  }

  lemma RejectedSendsNoMessage(st: Stream, t: Task)
    requires st.ended == None && t.state == Rejected
    ensures var after := OnAnnouncement(st, false, Some(t));
            Marks(after.sent) == Marks(st.sent) && after.cursor.lastMsgId == st.cursor.lastMsgId
  {
    MarksAfterAnnouncement(st, t);
  }

  lemma EndTellsState(st: Stream, t: Task)
    requires st.ended == None && !Terminal(st.cursor.state) && Terminal(t.state)
    ensures var sent := OnAnnouncement(st, false, Some(t)).sent; TellsState(sent) && Told(sent, Submitted) == t.state
  {
    var items := RenderAll(Fresh(Visible(t), st.cursor.lastMsgId), t.state);
    var r := EventsSince(t, st.cursor).0;
    ToldConcat(st.sent, r, Submitted);
    ToldBySome(items, st.cursor.state, Told(st.sent, Submitted));
    assert items + [] == items;
    if r != items {
      assert (st.sent + r)[|st.sent + r| - 1] == Status(t.state, None);
    } else {
      var i :| 0 <= i < |items| && !items[i].Artifact?;
      assert (st.sent + r)[|st.sent| + i] == items[i];
    }
  }

  /** The stream a viewer opens on the task as it is. */
  ghost function Opened(agent: nat, t: Task): World {
    World(t.messages, t.state, true, Open(agent, Some(t)), |t.messages|)
  }

  /**
   * Over every run of commits, announcements and endings the stream has sent, after one snapshot,
   * messages that came after it, in order and none twice, and one that ended with its task has told
   * its viewer a terminal state. It has left none of them out if and only if the run keeps up.
   */
  lemma {:induction false} StreamsDeliverExactlyOnceIff(agent: nat, t: Task, es: seq<Event>)
    requires Ordered(t.messages)
    ensures var w := Run(Opened(agent, t), es);
            Inv(w, |t.messages|) && (Complete(w, |t.messages|) <==> KeepsUp(Opened(agent, t), es))
  {
    var n := |t.messages|;
    if es == [] {
      assert t.messages[n..n] == [] && t.messages[..n] == t.messages;
      assert [Snapshot(t.state)][..0] == [];
      assert TellsState([Snapshot(t.state)]) by { assert !([Snapshot(t.state)][0]).Artifact?; }
    } else {
      var front, e := es[..|es| - 1], es[|es| - 1];
      var w := Run(Opened(agent, t), front);
      StreamsDeliverExactlyOnceIff(agent, t, front);
      if Acts(w, e) { ActingStep(w, n); } else { QuietStep(w, e, n); }
    }
  }

  // ---- when a stream ends ----------------------------------------------------------------------------------------

  /** A timeout, a disconnect, or an announcement that finds the task deleted, lost or finished. */
  predicate Ends(w: World, e: Event) {
    match e
    case Timeout => true
    case Disconnect => true
    case Announce(deleted) => deleted || !w.visible || Terminal(w.state)
    case Commit(_, _) => false
    case Vanish => false
  }

  ghost predicate HoldsAnEnd(w: World, es: seq<Event>) {
    es != [] && (HoldsAnEnd(w, es[..|es| - 1]) || Ends(Run(w, es[..|es| - 1]), es[|es| - 1]))
  }

  /** How many messages the task had at the last announcement up to and including the one that ended the stream. */
  ghost function LastAnnounced(w: World, es: seq<Event>): nat {
    if es == [] then |w.messages|
    else
      var front, e := es[..|es| - 1], es[|es| - 1];
      var before := Run(w, front);
      if e.Announce? && !e.deleted && before.visible && before.state != Rejected && !Terminal(w.state) && !HoldsAnEnd(w, front)
      then |before.messages|
      else LastAnnounced(w, front)
  }

  lemma StepEndsIff(w: World, e: Event)
    ensures Next(w, e).stream.ended != None <==> w.stream.ended != None || Ends(w, e)
    ensures w.stream.ended != None ==> Next(w, e).stream == w.stream && Next(w, e).seen == w.seen
    ensures w.stream.ended == None ==>
      && (e.Timeout? ==> Next(w, e).stream.ended == Some(TimedOut))
      && (e.Disconnect? ==> Next(w, e).stream.ended == Some(Disconnected))
  {
    if e.Announce? { AnnouncementEndsIff(w.stream, e.deleted, TaskOf(w)); }
  }

  /**
   * Over every run: the stream has ended if and only if it opened on a finished task or the run
   * holds an end; until then every announcement brings it up to all messages there are.
   */
  lemma {:induction false} StreamsStayOpenUntilAnEnd(agent: nat, t: Task, es: seq<Event>)
    ensures var w := Run(Opened(agent, t), es);
            && (w.stream.ended != None <==> Terminal(t.state) || HoldsAnEnd(Opened(agent, t), es))
            && w.seen == LastAnnounced(Opened(agent, t), es)
  {
    if es != [] {
      StreamsStayOpenUntilAnEnd(agent, t, es[..|es| - 1]);
      StepEndsIff(Run(Opened(agent, t), es[..|es| - 1]), es[|es| - 1]);
    }
  }

  // ---- the code -----------------------------------------------------------------------------------------------

  function OpenCount(streams: seq<Stream>, agent: nat): nat {
    if streams == [] then 0
    else
      (if streams[|streams| - 1].agent == agent && streams[|streams| - 1].ended == None then 1 else 0)
      + OpenCount(streams[..|streams| - 1], agent)
  }

  lemma {:induction false} CountAfterEnd(streams: seq<Stream>, i: nat, reason: Reason, agent: nat)
    requires i < |streams| && streams[i].ended == None
    ensures OpenCount(streams[i := streams[i].(ended := Some(reason))], agent)
         == OpenCount(streams, agent) - if streams[i].agent == agent then 1 else 0
  {
    var n := |streams| - 1;
    var after := streams[i := streams[i].(ended := Some(reason))];
    if i < n {
      assert after[..n] == streams[..n][i := streams[i].(ended := Some(reason))];
      CountAfterEnd(streams[..n], i, reason, agent);
    } else {
      assert after[..n] == streams[..n];
    }
  }

  lemma {:induction false} CountAfterUpdate(streams: seq<Stream>, i: nat, st: Stream, agent: nat)
    requires i < |streams| && st.agent == streams[i].agent && (st.ended == None <==> streams[i].ended == None)
    ensures OpenCount(streams[i := st], agent) == OpenCount(streams, agent)
  {
    var n := |streams| - 1;
    if i < n {
      assert streams[i := st][..n] == streams[..n][i := st];
      CountAfterUpdate(streams[..n], i, st, agent);
    } else {
      assert streams[i := st][..n] == streams[..n];
    }
  }

  class StreamServer {
    var streams: seq<Stream>
    var openStreams: map<nat, nat>

    /** Each agent's counter is its number of streams that have not ended. */
    ghost predicate Counted()
      reads this
    {
      forall agent: nat :: OpenCount(streams, agent) == if agent in openStreams then openStreams[agent] else 0
    }

    constructor ()
      ensures Counted() && streams == []
    {
      streams, openStreams := [], map[];
    }

    method Close(i: nat, reason: Reason)
      requires Counted() && i < |streams|
      modifies this
      ensures Counted()
      ensures var was := old(streams)[i];
              streams == old(streams)[i := if was.ended == None then was.(ended := Some(reason)) else was]
    {
      if streams[i].ended != None { return; }
      forall agent: nat ensures OpenCount(streams[i := streams[i].(ended := Some(reason))], agent)
        == OpenCount(streams, agent) - if streams[i].agent == agent then 1 else 0
      {
        CountAfterEnd(streams, i, reason, agent);
      }
      var agent := streams[i].agent;
      streams := streams[i := streams[i].(ended := Some(reason))];
      var count := if agent in openStreams && openStreams[agent] != 0 then openStreams[agent] else 1;
      openStreams := openStreams[agent := count - 1];
    }

    method Send(i: nat, items: seq<Item>)
      requires Counted() && i < |streams| && streams[i].ended == None
      modifies this`streams
      ensures Counted() && streams == old(streams)[i := old(streams)[i].(sent := old(streams)[i].sent + items)]
    {
      ghost var was := streams;
      var k := 0;
      while k < |items|
        invariant 0 <= k <= |items| && |streams| == |was|
        invariant streams == was[i := was[i].(sent := streams[i].sent)]
        invariant streams[i].sent == was[i].sent + items[..k]
      {
        assert items[..k + 1] == items[..k] + [items[k]];
        streams := streams[i := streams[i].(sent := streams[i].sent + [items[k]])];
        k := k + 1;
      }
      assert items[..|items|] == items;
      forall agent: nat ensures OpenCount(streams, agent) == OpenCount(old(streams), agent) {
        CountAfterUpdate(was, i, streams[i], agent);
      }
    }

    method Serve(agent: nat, task: Option<Task>) returns (i: nat)
      requires Counted()
      modifies this
      ensures Counted() && i == |old(streams)| && streams == old(streams) + [Open(agent, task)]
    {
      i := |streams|;
      var cursor := if task == None then Cursor(Submitted, 0) else CursorOf(task.value);
      openStreams := openStreams[agent := (if agent in openStreams then openStreams[agent] else 0) + 1];
      ghost var before := streams;
      streams := streams + [Stream(agent, cursor, [], None)];
      assert streams[..i] == before;
      if task == None {
        Close(i, TaskLost);
      } else {
        Send(i, [Snapshot(task.value.state)]);
        assert [] + [Snapshot(task.value.state)] == [Snapshot(task.value.state)];
        if Terminal(task.value.state) { Close(i, TaskEnded); }
      }
    }

    method OnEvent(i: nat, deleted: bool, task: Option<Task>)
      requires Counted() && i < |streams|
      modifies this
      ensures Counted() && streams == old(streams)[i := OnAnnouncement(old(streams)[i], deleted, task)]
    {
      if streams[i].ended != None { return; }
      if deleted {
        Close(i, Deleted);
      } else if task == None {
        Close(i, TaskLost);
      } else {
        var r := EventsSince(task.value, streams[i].cursor);
        forall agent: nat ensures OpenCount(streams[i := streams[i].(cursor := r.1)], agent) == OpenCount(streams, agent) {
          CountAfterUpdate(streams, i, streams[i].(cursor := r.1), agent);
        }
        streams := streams[i := streams[i].(cursor := r.1)];
        Send(i, r.0);
        if Terminal(task.value.state) { Close(i, TaskEnded); }
      }
    }
  }
}
