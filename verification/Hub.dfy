/**
  The event hub: numbered progress events per task, a bounded history for
  replay, and one bounded channel per subscriber.

  A subscriber sees a replay window and then whatever its channel delivers.
  What it sees in all is compared with the log of every event ever published,
  which the hub itself does not keep.
 */
module Hub {

  type TaskId = string

  const RETAINED: nat := 200
  const CHANNEL_CAPACITY: nat := 32

  datatype Event = Event(task: TaskId, sequence: nat, body: string)

  datatype Window = Window(events: seq<Event>, oldest: nat, latest: nat, gap: bool)

  /** One subscription as its client sees it: the window, then the events its channel accepted. */
  datatype Stream = Stream(task: TaskId, after: nat, window: Window, live: seq<Event>, dropped: bool)

  ghost predicate Numbered(log: seq<Event>, task: TaskId) {
    forall i | 0 <= i < |log| :: log[i].sequence == i + 1 && log[i].task == task
  }

  function Retained(log: seq<Event>): seq<Event> {
    if |log| > RETAINED then log[|log| - RETAINED..] else log
  }

  /** What is retained is the end of the log: all of it, or its last two hundred events. */
  lemma {:induction false} RetainedIsTheEnd(log: seq<Event>)
    ensures Retained(log) == log[|log| - |Retained(log)|..] && |Retained(log)| == if |log| < 200 then |log| else 200
  {
  }

  ghost predicate Increasing(events: seq<Event>) {
    forall i, j | 0 <= i < j < |events| :: events[i].sequence < events[j].sequence
  }

  /** An event after this one was published and is no longer there to replay. */
  ghost predicate Evicted(log: seq<Event>, after: nat) {
    exists e <- log :: e.sequence > after && e !in Retained(log)
  }

  /** The retained events after this one. */
  function Resumed(log: seq<Event>, after: nat): seq<Event> {
    var evicted := |log| - |Retained(log)|;
    if after <= evicted then Retained(log) else if after <= |log| then log[after..] else []
  }

  /** The window that resuming after an event promises. */
  ghost predicate Opens(log: seq<Event>, after: nat, w: Window) {
    && w.latest == |log|
    && w.oldest == (if log == [] then 0 else |log| - |Retained(log)| + 1)
    && w.events == Resumed(log, after)
    && (w.gap <==> after > 0 && (after > |log| || after + |Retained(log)| < |log|))
  }

  /** The stream opened with the window the log then promised. */
  ghost predicate Opened(log: seq<Event>, s: Stream) {
    s.window.latest <= |log| && Opens(log[..s.window.latest], s.after, s.window)
  }

  /** The events of one sequence, in order, with some left out. */
  predicate Subsequence(some: seq<Event>, all: seq<Event>)
    decreases |all|
  {
    || some == []
    || (all != [] && some[|some| - 1] == all[|all| - 1] && Subsequence(some[..|some| - 1], all[..|all| - 1]))
    || (all != [] && Subsequence(some, all[..|all| - 1]))
  }

  /** What was delivered live are later events of the log, in order. */
  ghost predicate Delivers(log: seq<Event>, latest: nat, live: seq<Event>) {
    latest <= |log| && Subsequence(live, log[latest..])
  }

  /** Nothing was lost on the way: the live events are the log's next ones, up to its end while the channel is open. */
  ghost predicate Unbroken(log: seq<Event>, latest: nat, live: seq<Event>, open: bool) {
    && latest + |live| <= |log| && live == log[latest..latest + |live|]
    && (open ==> latest + |live| == |log|)
  }

  /** The channel holds the newest of the events it accepted. */
  ghost predicate Buffers(live: seq<Event>, queue: seq<Event>) {
    |queue| <= |live| && |queue| <= CHANNEL_CAPACITY && queue == live[|live| - |queue|..]
  }

  ghost predicate StreamOk(log: seq<Event>, s: Stream, queue: seq<Event>, open: bool) {
    && Numbered(log, s.task)
    && Opened(log, s)
    && Delivers(log, s.window.latest, s.live)
    && (!s.dropped ==> Unbroken(log, s.window.latest, s.live, open))
    && Buffers(s.live, queue)
  }

  /** Everything the client has been given. */
  function Seen(s: Stream): seq<Event> {
    s.window.events + s.live
  }

  /** Later events of the log up to one of them, each as it was published, in order. */
  ghost predicate InOrder(log: seq<Event>, latest: nat, n: nat, live: seq<Event>)
    requires n <= |log|
  {
    && Increasing(live)
    && forall i | 0 <= i < |live| :: latest < live[i].sequence <= n && live[i] == log[live[i].sequence - 1]
  }

  /** A run of the log, whole unless the channel overflowed, from the event the client named unless there was a gap. */
  ghost predicate SeesRun(log: seq<Event>, s: Stream) {
    var first := s.window.latest - |s.window.events|;
    && InOrder(log, 0, |log|, Seen(s))
    && 0 <= first && (!s.dropped ==> first + |Seen(s)| <= |log| && Seen(s) == log[first..first + |Seen(s)|])
    && (s.after > 0 ==> (first == s.after <==> !s.window.gap))
  }

  /** Where in the retained events those after this one begin. */
  lemma {:induction false} ResumePoint(log: seq<Event>, task: TaskId, after: nat) returns (from: nat)
    requires Numbered(log, task)
    ensures var kept := Retained(log);
            && from <= |kept| && Resumed(log, after) == kept[from..]
            && (forall i | 0 <= i < |kept| :: kept[i].sequence > after <==> i >= from)
            && (kept != [] ==> kept[0].sequence == |log| - |kept| + 1)
  {
    var evicted := |log| - |Retained(log)|;
    RetainedIsNumbered(log, task);
    from := if after <= evicted then 0 else if after <= |log| then after - evicted else |Retained(log)|;
  }

  lemma {:induction false} RetainedIsNumbered(log: seq<Event>, task: TaskId)
    requires Numbered(log, task)
    ensures forall i | 0 <= i < |Retained(log)| :: Retained(log)[i].sequence == |log| - |Retained(log)| + i + 1
  {
  }

  lemma {:induction false} ResumedIsWhatIsLeft(log: seq<Event>, task: TaskId, after: nat)
    requires Numbered(log, task)
    ensures forall e :: e in Resumed(log, after) <==> e in Retained(log) && e.sequence > after
    ensures Evicted(log, after) <==> after + |Retained(log)| < |log|
  {
    EvictedIsNotRetained(log, task, after);
    var from := ResumePoint(log, task, after);
    var kept := Retained(log);
    forall e | e in kept && e.sequence > after
      ensures e in kept[from..]
    {
      var i :| 0 <= i < |kept| && kept[i] == e;
      assert kept[from..][i - from] == e;
    }
  }

  lemma {:induction false} EvictedIsNotRetained(log: seq<Event>, task: TaskId, after: nat)
    requires Numbered(log, task)
    ensures Evicted(log, after) <==> after + |Retained(log)| < |log|
  {
    var kept := Retained(log);
    var evicted := |log| - |kept|;
    assert forall i | 0 <= i < |kept| :: kept[i].sequence == evicted + i + 1;
    if after < evicted {
      assert log[after] in log && log[after].sequence == after + 1 && log[after] !in kept;
    }
    forall i | evicted <= i < |log|
      ensures log[i] in kept
    {
      assert kept[i - evicted] == log[i];
    }
  }

  /**
    Replay followed by live events never repeats or reorders an event. As long
    as the channel did not overflow it is one contiguous run of the log, and
    that run starts right after the event the client named exactly when the
    window reported no gap.
   */
  lemma {:induction false} ReplayThenLive(log: seq<Event>, s: Stream, queue: seq<Event>, open: bool)
    requires StreamOk(log, s, queue, open)
    ensures SeesRun(log, s)
    ensures s.after == 0 ==> !s.window.gap
  {
    WindowIsRun(log, s);
    SeesRunFrom(log, s, s.window.latest - |s.window.events|, open);
  }

  lemma {:induction false} SeesRunFrom(log: seq<Event>, s: Stream, first: nat, open: bool)
    requires Numbered(log, s.task)
    requires first == s.window.latest - |s.window.events| && s.window.latest <= |log| && s.window.events == log[first..s.window.latest]
    requires Delivers(log, s.window.latest, s.live)
    requires !s.dropped ==> Unbroken(log, s.window.latest, s.live, open)
    requires s.after > 0 ==> (first == s.after <==> !s.window.gap)
    ensures SeesRun(log, s)
  {
    RunThenLive(log, s.task, first, s.window.latest, s.live);
    if !s.dropped {
      UnbrokenRun(log, first, s.window.latest, s.live, open);
    }
  }

  lemma {:induction false} UnbrokenRun(log: seq<Event>, first: nat, latest: nat, live: seq<Event>, open: bool)
    requires first <= latest <= |log| && Unbroken(log, latest, live, open)
    ensures log[first..latest] + live == log[first..latest + |live|]
  {
    assert log[first..latest] + log[latest..latest + |live|] == log[first..latest + |live|];
  }

  /** The replayed events are the end of the log as it was, and start where the client left off or there is a gap. */
  lemma {:induction false} WindowIsRun(log: seq<Event>, s: Stream)
    requires Numbered(log, s.task) && Opened(log, s)
    ensures var first := s.window.latest - |s.window.events|;
            && 0 <= first && s.window.events == log[first..s.window.latest]
            && (s.after > 0 ==> (first == s.after <==> !s.window.gap))
    ensures s.after == 0 ==> !s.window.gap
  {
    var early := log[..s.window.latest];
    ResumedIsWhatIsLeft(early, s.task, s.after);
    var first := s.window.latest - |s.window.events|;
    assert s.window.events == early[first..];
    assert early[first..] == log[first..s.window.latest];
  }

  lemma {:induction false} RunThenLive(log: seq<Event>, task: TaskId, first: nat, latest: nat, live: seq<Event>)
    requires Numbered(log, task) && first <= latest <= |log| && Delivers(log, latest, live)
    ensures InOrder(log, 0, |log|, log[first..latest] + live)
  {
    assert log[latest..|log|] == log[latest..];
    SubsequenceInOrder(log, task, latest, |log|, live);
    RunInOrder(log, task, first, latest);
    AppendInOrder(log, latest, log[first..latest], live);
  }

  lemma {:induction false} RunInOrder(log: seq<Event>, task: TaskId, first: nat, latest: nat)
    requires Numbered(log, task) && first <= latest <= |log|
    ensures InOrder(log, 0, latest, log[first..latest])
  {
  }

  lemma {:induction false} AppendInOrder(log: seq<Event>, mid: nat, a: seq<Event>, b: seq<Event>)
    requires mid <= |log| && InOrder(log, 0, mid, a) && InOrder(log, mid, |log|, b)
    ensures InOrder(log, 0, |log|, a + b)
  {
  }

  lemma {:induction false} InOrderSnoc(log: seq<Event>, task: TaskId, latest: nat, n: nat, rest: seq<Event>)
    requires Numbered(log, task) && latest < n <= |log| && InOrder(log, latest, n - 1, rest)
    ensures InOrder(log, latest, n, rest + [log[n - 1]])
  {
  }

  lemma {:induction false} SubsequenceInOrder(log: seq<Event>, task: TaskId, latest: nat, n: nat, live: seq<Event>)
    requires Numbered(log, task) && latest <= n <= |log| && Subsequence(live, log[latest..n])
    ensures InOrder(log, latest, n, live)
    decreases n
  {
    if live != [] {
      var all := log[latest..n];
      assert all[..|all| - 1] == log[latest..n - 1] && all[|all| - 1] == log[n - 1];
      var rest := live[..|live| - 1];
      if live[|live| - 1] == log[n - 1] && Subsequence(rest, log[latest..n - 1]) {
        SubsequenceInOrder(log, task, latest, n - 1, rest);
        InOrderSnoc(log, task, latest, n, rest);
        assert live == rest + [log[n - 1]];
      } else {
        SubsequenceInOrder(log, task, latest, n - 1, live);
      }
    }
  }

  /** With an event number of zero a client is never told that the start of the log is gone. */
  lemma {:induction false} FreshClientsAreNotTold(log: seq<Event>, task: TaskId, w: Window)
    requires Numbered(log, task) && Opens(log, 0, w)
    ensures !w.gap
    ensures |log| > RETAINED <==> Evicted(log, 0)
    ensures |log| > RETAINED ==> |w.events| == RETAINED && w.events[0].sequence == |log| - RETAINED + 1
  {
    ResumedIsWhatIsLeft(log, task, 0);
  }

  // ----- one publication, seen from one channel

  function Offered(queue: seq<Event>, e: Event): seq<Event> {
    if |queue| < CHANNEL_CAPACITY then queue + [e] else queue
  }

  function Reached(s: Stream, queue: seq<Event>, e: Event): Stream {
    if |queue| < CHANNEL_CAPACITY then s.(live := s.live + [e]) else s.(dropped := true)
  }

  lemma {:induction false} OfferKeeps(log: seq<Event>, s: Stream, queue: seq<Event>, e: Event)
    requires StreamOk(log, s, queue, true) && Numbered(log + [e], s.task)
    ensures StreamOk(log + [e], Reached(s, queue, e), Offered(queue, e), true)
  {
    var more := log + [e];
    assert more[..s.window.latest] == log[..s.window.latest];
    DeliversOne(log, s.window.latest, s.live, e);
    if |queue| < CHANNEL_CAPACITY {
      BuffersOne(s.live, queue, e);
      if !s.dropped {
        UnbrokenOne(log, s.window.latest, s.live, e);
      }
    }
  }

  lemma {:induction false} BuffersOne(live: seq<Event>, queue: seq<Event>, e: Event)
    requires Buffers(live, queue) && |queue| < CHANNEL_CAPACITY
    ensures Buffers(live + [e], queue + [e])
  {
    assert (live + [e])[|live + [e]| - |queue + [e]|..] == queue + [e];
  }

  lemma {:induction false} UnbrokenOne(log: seq<Event>, latest: nat, live: seq<Event>, e: Event)
    requires Unbroken(log, latest, live, true)
    ensures Unbroken(log + [e], latest, live + [e], true)
  {
    assert live == log[latest..];
    assert (log + [e])[latest..] == log[latest..] + [e];
  }

  lemma {:induction false} DeliversOne(log: seq<Event>, latest: nat, live: seq<Event>, e: Event)
    requires Delivers(log, latest, live)
    ensures Delivers(log + [e], latest, live) && Delivers(log + [e], latest, live + [e])
  {
    var all := (log + [e])[latest..];
    assert all == log[latest..] + [e];
    assert all[..|all| - 1] == log[latest..];
    assert (live + [e])[..|live|] == live;
  }

  lemma {:induction false} GrowthKeeps(log: seq<Event>, s: Stream, queue: seq<Event>, e: Event)
    requires StreamOk(log, s, queue, false) && Numbered(log + [e], s.task)
    ensures StreamOk(log + [e], s, queue, false)
  {
    var more := log + [e];
    assert more[..s.window.latest] == log[..s.window.latest];
    DeliversOne(log, s.window.latest, s.live, e);
    assert !s.dropped ==> more[s.window.latest..s.window.latest + |s.live|] == log[s.window.latest..s.window.latest + |s.live|];
  }

  // ----- the hub as a state machine

  datatype HubState = HubState(
    history: map<TaskId, seq<Event>>,
    next: map<TaskId, nat>,
    subscribers: map<TaskId, set<nat>>,
    channels: map<nat, seq<Event>>,
    made: nat)

  const EMPTY := HubState(map[], map[], map[], map[], 0)

  datatype Op =
    | Publish(task: TaskId, body: string)
    | Subscribe(task: TaskId, after: nat)
    | Unsubscribe(task: TaskId, ch: nat)
    | Receive(ch: nat)

  function HistoryOf(h: HubState, task: TaskId): seq<Event> {
    if task in h.history then h.history[task] else []
  }

  function NextOf(h: HubState, task: TaskId): nat {
    if task in h.next then h.next[task] else 0
  }

  function SubscribersOf(h: HubState, task: TaskId): set<nat> {
    if task in h.subscribers then h.subscribers[task] else {}
  }

  function Capped(history: seq<Event>): seq<Event> {
    if |history| > RETAINED then history[|history| - RETAINED..] else history
  }

  function OfferedTo(channels: map<nat, seq<Event>>, reached: set<nat>, e: Event): map<nat, seq<Event>> {
    map ch <- channels :: if ch in reached then Offered(channels[ch], e) else channels[ch]
  }

  function AfterPublish(h: HubState, task: TaskId, body: string): HubState {
    var e := Event(task, NextOf(h, task) + 1, body);
    h.(next := h.next[task := e.sequence],
       history := h.history[task := Capped(HistoryOf(h, task) + [e])],
       channels := OfferedTo(h.channels, SubscribersOf(h, task), e))
  }

  function AfterSubscribe(h: HubState, task: TaskId): HubState {
    h.(channels := h.channels[h.made := []], subscribers := h.subscribers[task := SubscribersOf(h, task) + {h.made}], made := h.made + 1)
  }

  function AfterUnsubscribe(h: HubState, task: TaskId, ch: nat): HubState {
    if task in h.subscribers then h.(subscribers := h.subscribers[task := h.subscribers[task] - {ch}]) else h
  }

  function AfterReceive(h: HubState, ch: nat): HubState {
    if ch in h.channels && h.channels[ch] != [] then h.(channels := h.channels[ch := h.channels[ch][1..]]) else h
  }

  function After(h: HubState, op: Op): HubState {
    match op
    case Publish(task, body) => AfterPublish(h, task, body)
    case Subscribe(task, _) => AfterSubscribe(h, task)
    case Unsubscribe(task, ch) => AfterUnsubscribe(h, task, ch)
    case Receive(ch) => AfterReceive(h, ch)
  }

  function Run(h: HubState, ops: seq<Op>): HubState
    decreases |ops|
  {
    if ops == [] then h else Run(After(h, ops[0]), ops[1..])
  }

  /** Every event of a task, as it was published: what the hub would hold if it kept everything. */
  function Logged(log: seq<Event>, task: TaskId, op: Op): seq<Event> {
    if op.Publish? && op.task == task then log + [Event(task, |log| + 1, op.body)] else log
  }

  function LogAfter(log: seq<Event>, task: TaskId, ops: seq<Op>): seq<Event>
    decreases |ops|
  {
    if ops == [] then log else LogAfter(Logged(log, task, ops[0]), task, ops[1..])
  }

  /** The history is the end of the log, and the counter is its length. */
  ghost predicate Tracks(h: HubState, log: seq<Event>, task: TaskId) {
    Numbered(log, task) && HistoryOf(h, task) == Retained(log) && NextOf(h, task) == |log|
  }

  lemma {:induction false} StepTracks(h: HubState, log: seq<Event>, task: TaskId, op: Op)
    requires Tracks(h, log, task)
    ensures Tracks(After(h, op), Logged(log, task, op), task)
  {
    var h' := After(h, op);
    if op.Publish? && op.task == task {
      var e := Event(task, |log| + 1, op.body);
      CappedIsRetained(log, task, e);
      assert HistoryOf(h', task) == Capped(HistoryOf(h, task) + [e]) && NextOf(h', task) == |log| + 1;
    } else {
      assert HistoryOf(h', task) == HistoryOf(h, task) && NextOf(h', task) == NextOf(h, task);
    }
  }

  lemma {:induction false} CappedIsRetained(log: seq<Event>, task: TaskId, e: Event)
    requires Numbered(log, task) && e.sequence == |log| + 1 && e.task == task
    ensures Capped(Retained(log) + [e]) == Retained(log + [e]) && Numbered(log + [e], task)
  {
    if |log| >= RETAINED {
      assert Retained(log) == log[|log| - RETAINED..];
      assert (log + [e])[|log| + 1 - RETAINED..] == log[|log| + 1 - RETAINED..] + [e];
    }
  }

  /** After any run, what is retained of a task is exactly its last 200 events, numbered without a hole. */
  lemma {:induction false} RunTracks(h: HubState, log: seq<Event>, task: TaskId, ops: seq<Op>)
    requires Tracks(h, log, task)
    ensures Tracks(Run(h, ops), LogAfter(log, task, ops), task)
    decreases |ops|
  {
    if ops != [] {
      StepTracks(h, log, task, ops[0]);
      RunTracks(After(h, ops[0]), Logged(log, task, ops[0]), task, ops[1..]);
    }
  }

  // ----- what each operation touches

  /** A publication is the task's next event; it reaches the registered channels that have room, at their end, and nothing else changes. */
  lemma {:induction false} PublishTouches(h: HubState, task: TaskId, body: string, t: TaskId, ch: nat)
    ensures var h' := After(h, Publish(task, body));
            var e := Event(task, NextOf(h, task) + 1, body);
            && NextOf(h', t) == NextOf(h, t) + (if t == task then 1 else 0)
            && (t != task ==> HistoryOf(h', t) == HistoryOf(h, t))
            && (HistoryOf(h', task) != [] && HistoryOf(h', task)[|HistoryOf(h', task)| - 1] == e)
            && SubscribersOf(h', t) == SubscribersOf(h, t) && h'.made == h.made && h'.channels.Keys == h.channels.Keys
            && (ch in h.channels ==>
                  h'.channels[ch] == if ch in SubscribersOf(h, task) && |h.channels[ch]| < 32 then h.channels[ch] + [e] else h.channels[ch])
  {
  }

  /** A subscription adds one empty channel to its task; a cancellation takes one channel away from its task. */
  lemma {:induction false} RegistryTouches(h: HubState, task: TaskId, after: nat, ch: nat, t: TaskId, c: nat)
    ensures var h' := After(h, Subscribe(task, after));
            && h'.history == h.history && h'.next == h.next && h'.made == h.made + 1
            && (c in SubscribersOf(h', t) <==> c in SubscribersOf(h, t) || (t == task && c == h.made))
            && h'.channels == h.channels[h.made := []]
    ensures var h' := After(h, Unsubscribe(task, ch));
            && h'.history == h.history && h'.next == h.next && h'.made == h.made && h'.channels == h.channels
            && (c in SubscribersOf(h', t) <==> c in SubscribersOf(h, t) && !(t == task && c == ch))
  {
  }

  /** A reception takes the oldest event out of its channel. */
  lemma {:induction false} ReceptionTouches(h: HubState, ch: nat)
    requires ch in h.channels && h.channels[ch] != []
    ensures After(h, Receive(ch)).(channels := h.channels) == h
    ensures var channels := After(h, Receive(ch)).channels;
            channels.Keys == h.channels.Keys && channels - {ch} == h.channels - {ch} && [h.channels[ch][0]] + channels[ch] == h.channels[ch]
  {
  }

  /** Channel numbers are not used again. */
  lemma {:induction false} NotRegisteredAgain(h: HubState, task: TaskId, ch: nat, ops: seq<Op>)
    requires ch !in SubscribersOf(h, task) && ch < h.made
    ensures ch !in SubscribersOf(Run(h, ops), task)
    decreases |ops|
  {
    if ops != [] {
      NotRegisteredAgain(After(h, ops[0]), task, ch, ops[1..]);
    }
  }

  /** A registered channel stays registered exactly until its own cancellation, whatever the others do. */
  lemma {:induction false} RegisteredUntilCancelled(h: HubState, task: TaskId, ch: nat, ops: seq<Op>)
    requires ch in SubscribersOf(h, task) && ch < h.made
    ensures ch in SubscribersOf(Run(h, ops), task) <==> Unsubscribe(task, ch) !in ops
    decreases |ops|
  {
    if ops != [] {
      assert ops == [ops[0]] + ops[1..];
      if ops[0] == Unsubscribe(task, ch) {
        NotRegisteredAgain(After(h, ops[0]), task, ch, ops[1..]);
      } else {
        RegisteredUntilCancelled(After(h, ops[0]), task, ch, ops[1..]);
      }
    }
  }

  // ----- one subscription through a run

  predicate Listens(h: HubState, s: Stream, ch: nat) {
    ch in SubscribersOf(h, s.task)
  }

  /** No other task has this channel. */
  ghost predicate Owns(h: HubState, task: TaskId, ch: nat) {
    forall t | ch in SubscribersOf(h, t) :: t == task
  }

  lemma {:induction false} StepOwns(h: HubState, task: TaskId, ch: nat, op: Op)
    requires Owns(h, task, ch) && ch < h.made
    ensures Owns(After(h, op), task, ch)
  {
    forall t | ch in SubscribersOf(After(h, op), t)
      ensures t == task
    {
      assert ch in SubscribersOf(h, t);
    }
  }

  /** A channel belongs to one task, and later ones get other numbers. */
  ghost predicate Follows(h: HubState, log: seq<Event>, s: Stream, ch: nat) {
    && Tracks(h, log, s.task)
    && ch in h.channels && ch < h.made
    && Owns(h, s.task, ch)
    && StreamOk(log, s, h.channels[ch], Listens(h, s, ch))
  }

  function Moved(h: HubState, s: Stream, ch: nat, op: Op): Stream {
    if op.Publish? && op.task == s.task && ch in h.channels && Listens(h, s, ch) then
      Reached(s, h.channels[ch], Event(s.task, NextOf(h, s.task) + 1, op.body))
    else s
  }

  /** A publication changes the channel as offering the event does, and the registration not at all. */
  lemma {:induction false} PublishReaches(h: HubState, s: Stream, ch: nat, op: Op)
    requires op.Publish? && ch in h.channels && Owns(h, s.task, ch)
    ensures var e := Event(s.task, NextOf(h, s.task) + 1, op.body);
            var h' := After(h, op);
            && ch in h'.channels && h'.made == h.made && (Listens(h', s, ch) <==> Listens(h, s, ch))
            && h'.channels[ch] == if op.task == s.task && Listens(h, s, ch) then Offered(h.channels[ch], e) else h.channels[ch]
  {
    assert ch in SubscribersOf(h, op.task) ==> op.task == s.task;
  }

  /** An open channel of the task gets the event. */
  lemma {:induction false} PublishOffers(h: HubState, log: seq<Event>, s: Stream, ch: nat, op: Op)
    requires Follows(h, log, s, ch) && op.Publish? && op.task == s.task && Listens(h, s, ch)
    ensures ch in After(h, op).channels
    ensures StreamOk(Logged(log, s.task, op), Moved(h, s, ch, op), After(h, op).channels[ch], true)
  {
    PublishReaches(h, s, ch, op);
    assert Numbered(log + [Event(s.task, |log| + 1, op.body)], s.task);
    OfferKeeps(log, s, h.channels[ch], Event(s.task, |log| + 1, op.body));
  }

  /** Any other channel stays as it is, while the log may grow. */
  lemma {:induction false} PublishPasses(h: HubState, log: seq<Event>, s: Stream, ch: nat, op: Op)
    requires Follows(h, log, s, ch) && op.Publish? && !(op.task == s.task && Listens(h, s, ch))
    ensures ch in After(h, op).channels
    ensures StreamOk(Logged(log, s.task, op), Moved(h, s, ch, op), After(h, op).channels[ch], Listens(h, s, ch))
  {
    PublishReaches(h, s, ch, op);
    if op.task == s.task {
      GrowthKeeps(log, s, h.channels[ch], Event(s.task, |log| + 1, op.body));
    }
  }

  lemma {:induction false} PublishFollows(h: HubState, log: seq<Event>, s: Stream, ch: nat, op: Op)
    requires Follows(h, log, s, ch) && op.Publish?
    ensures Follows(After(h, op), Logged(log, s.task, op), Moved(h, s, ch, op), ch)
  {
    StepTracks(h, log, s.task, op);
    StepOwns(h, s.task, ch, op);
    PublishReaches(h, s, ch, op);
    if op.task == s.task && Listens(h, s, ch) {
      PublishOffers(h, log, s, ch, op);
    } else {
      PublishPasses(h, log, s, ch, op);
    }
  }

  lemma {:induction false} ReceiveKeeps(log: seq<Event>, s: Stream, queue: seq<Event>, open: bool)
    requires StreamOk(log, s, queue, open) && queue != []
    ensures StreamOk(log, s, queue[1..], open)
  {
    assert Buffers(s.live, queue[1..]);
  }

  lemma {:induction false} ClosingKeeps(log: seq<Event>, s: Stream, queue: seq<Event>, open: bool, still: bool)
    requires StreamOk(log, s, queue, open) && (still ==> open)
    ensures StreamOk(log, s, queue, still)
  {
  }

  lemma {:induction false} ReceiveFollows(h: HubState, log: seq<Event>, s: Stream, ch: nat, op: Op)
    requires Follows(h, log, s, ch) && op.Receive?
    ensures StreamOk(log, s, After(h, op).channels[ch], Listens(After(h, op), s, ch))
  {
    if op.ch == ch && h.channels[ch] != [] {
      ReceiveKeeps(log, s, h.channels[ch], Listens(h, s, ch));
    }
  }

  lemma {:induction false} RegistryFollows(h: HubState, log: seq<Event>, s: Stream, ch: nat, op: Op)
    requires Follows(h, log, s, ch) && (op.Subscribe? || op.Unsubscribe?)
    ensures ch in After(h, op).channels
    ensures StreamOk(log, s, After(h, op).channels[ch], Listens(After(h, op), s, ch))
  {
    ClosingKeeps(log, s, h.channels[ch], Listens(h, s, ch), Listens(After(h, op), s, ch));
  }

  lemma {:induction false} OtherStepFollows(h: HubState, log: seq<Event>, s: Stream, ch: nat, op: Op)
    requires Follows(h, log, s, ch) && !op.Publish?
    ensures Follows(After(h, op), log, s, ch)
  {
    StepTracks(h, log, s.task, op);
    StepOwns(h, s.task, ch, op);
    if op.Receive? {
      ReceiveFollows(h, log, s, ch, op);
    } else {
      RegistryFollows(h, log, s, ch, op);
    }
  }

  lemma {:induction false} StepFollows(h: HubState, log: seq<Event>, s: Stream, ch: nat, op: Op)
    requires Follows(h, log, s, ch)
    ensures Follows(After(h, op), Logged(log, s.task, op), Moved(h, s, ch, op), ch)
    ensures var next := Moved(h, s, ch, op); next.task == s.task && next.after == s.after && next.window == s.window
  {
    if op.Publish? {
      PublishFollows(h, log, s, ch, op);
    } else {
      OtherStepFollows(h, log, s, ch, op);
    }
  }

  /** The hub, the log of one task and one of its streams, watched together. */
  datatype Watch = Watch(hub: HubState, log: seq<Event>, stream: Stream)

  function Watched(w: Watch, ch: nat, op: Op): Watch {
    Watch(After(w.hub, op), Logged(w.log, w.stream.task, op), Moved(w.hub, w.stream, ch, op))
  }

  function WatchedRun(w: Watch, ch: nat, ops: seq<Op>): Watch
    decreases |ops|
  {
    if ops == [] then w else WatchedRun(Watched(w, ch, ops[0]), ch, ops[1..])
  }

  ghost predicate Good(w: Watch, ch: nat) {
    Follows(w.hub, w.log, w.stream, ch)
  }

  predicate SameSubscription(s: Stream, t: Stream) {
    s.task == t.task && s.after == t.after && s.window == t.window
  }

  lemma {:induction false} WatchedStep(w: Watch, ch: nat, op: Op)
    requires Good(w, ch)
    ensures Good(Watched(w, ch, op), ch) && SameSubscription(w.stream, Watched(w, ch, op).stream)
  {
    StepFollows(w.hub, w.log, w.stream, ch, op);
  }

  lemma {:induction false} RunFollows(w: Watch, ch: nat, ops: seq<Op>)
    requires Good(w, ch)
    ensures Good(WatchedRun(w, ch, ops), ch) && SameSubscription(w.stream, WatchedRun(w, ch, ops).stream)
    decreases |ops|
  {
    if ops != [] {
      WatchedStep(w, ch, ops[0]);
      RunFollows(Watched(w, ch, ops[0]), ch, ops[1..]);
    }
  }

  /** Watching changes nothing: the hub and the log are those of the run. */
  lemma {:induction false} WatchedIsRun(w: Watch, ch: nat, ops: seq<Op>)
    ensures WatchedRun(w, ch, ops).hub == Run(w.hub, ops)
    ensures WatchedRun(w, ch, ops).log == LogAfter(w.log, w.stream.task, ops)
    decreases |ops|
  {
    if ops != [] {
      WatchedIsRun(Watched(w, ch, ops[0]), ch, ops[1..]);
    }
  }

  // ----- exactly when events are lost

  /** At some point of the run an event of the task meets the channel registered and full. */
  predicate Overflows(w: Watch, ch: nat, ops: seq<Op>)
    decreases |ops|
  {
    ops != [] &&
    (|| (ops[0].Publish? && ops[0].task == w.stream.task && ch in SubscribersOf(w.hub, w.stream.task)
         && ch in w.hub.channels && |w.hub.channels[ch]| >= 32)
     || Overflows(Watched(w, ch, ops[0]), ch, ops[1..]))
  }

  /** A stream has a hole exactly when its channel overflowed: a client that keeps up loses nothing. */
  lemma {:induction false} DroppedIff(w: Watch, ch: nat, ops: seq<Op>)
    requires Good(w, ch)
    ensures WatchedRun(w, ch, ops).stream.dropped <==> w.stream.dropped || Overflows(w, ch, ops)
    decreases |ops|
  {
    if ops != [] {
      WatchedStep(w, ch, ops[0]);
      DroppedIff(Watched(w, ch, ops[0]), ch, ops[1..]);
    }
  }

  /** One publication more: the client gets it exactly when its channel is registered and has room. */
  lemma {:induction false} NextIsDelivered(w: Watch, ch: nat, body: string)
    requires Good(w, ch)
    ensures var next := Watched(w, ch, Publish(w.stream.task, body)).stream;
            && next.live == w.stream.live
                 + (if ch in SubscribersOf(w.hub, w.stream.task) && |w.hub.channels[ch]| < 32
                    then [Event(w.stream.task, |w.log| + 1, body)] else [])
            && (next.dropped <==> w.stream.dropped || (ch in SubscribersOf(w.hub, w.stream.task) && |w.hub.channels[ch]| >= 32))
  {
  }

  // ----- every subscription

  /** Every channel there is has a number below the next one. */
  ghost predicate Counted(h: HubState) {
    forall t, ch | ch in SubscribersOf(h, t) :: ch < h.made
  }

  lemma {:induction false} RunCounts(h: HubState, ops: seq<Op>)
    requires Counted(h)
    ensures Counted(Run(h, ops))
    decreases |ops|
  {
    if ops != [] {
      forall t, ch | ch in SubscribersOf(After(h, ops[0]), t)
        ensures ch < After(h, ops[0]).made
      {
        assert ch in SubscribersOf(h, t) || ch == h.made;
      }
      RunCounts(After(h, ops[0]), ops[1..]);
    }
  }

  lemma {:induction false} SubscriptionStarts(h: HubState, log: seq<Event>, task: TaskId, after: nat, w: Window)
    requires Tracks(h, log, task) && Counted(h) && Opens(log, after, w)
    ensures Follows(AfterSubscribe(h, task), log, Stream(task, after, w, [], false), h.made)
  {
    assert log[..|log|] == log && log[|log|..] == [];
    var s := Stream(task, after, w, [], false);
    assert StreamOk(log, s, [], true);
    var h' := AfterSubscribe(h, task);
    forall t | h.made in SubscribersOf(h', t)
      ensures t == task
    {
      assert h.made !in SubscribersOf(h, t);
    }
  }

  /**
    Any run, then a subscription, then any run: the client has seen a run of the
    task's log, in order and without repetition; without a hole as long as its
    channel did not overflow; and from the event it named exactly when it was
    told of no gap.
   */
  lemma {:induction false} SubscriptionSeesTheLog(before: seq<Op>, task: TaskId, after: nat, w: Window, later: seq<Op>)
    requires Opens(LogAfter([], task, before), after, w)
    ensures var h := Run(EMPTY, before);
            var end := WatchedRun(Watch(AfterSubscribe(h, task), LogAfter([], task, before), Stream(task, after, w, [], false)), h.made, later);
            && end.hub == Run(AfterSubscribe(h, task), later)
            && end.log == LogAfter(LogAfter([], task, before), task, later)
            && end.stream.after == after && end.stream.window == w && SeesRun(end.log, end.stream)
            && (end.stream.dropped <==>
                  Overflows(Watch(AfterSubscribe(h, task), LogAfter([], task, before), Stream(task, after, w, [], false)), h.made, later))
  {
    var h := Run(EMPTY, before);
    RunTracks(EMPTY, [], task, before);
    RunCounts(EMPTY, before);
    var start := Watch(AfterSubscribe(h, task), LogAfter([], task, before), Stream(task, after, w, [], false));
    SubscriptionStarts(h, start.log, task, after, w);
    WatchedIsRun(start, h.made, later);
    GoodSeesRun(start, h.made, later);
    DroppedIff(start, h.made, later);
  }

  lemma {:induction false} GoodSeesRun(start: Watch, ch: nat, later: seq<Op>)
    requires Good(start, ch)
    ensures var end := WatchedRun(start, ch, later); SeesRun(end.log, end.stream) && SameSubscription(start.stream, end.stream)
  {
    RunFollows(start, ch, later);
    var end := WatchedRun(start, ch, later);
    ReplayThenLive(end.log, end.stream, end.hub.channels[ch], Listens(end.hub, end.stream, ch));
  }

  // ----- the hub as it is written

  class EventHub {
    var history: map<TaskId, seq<Event>>
    var next: map<TaskId, nat>
    var subscribers: map<TaskId, set<nat>>
    var channels: map<nat, seq<Event>>
    var made: nat

    function State(): HubState
      reads this
    {
      HubState(history, next, subscribers, channels, made)
    }

    /** Every registered channel exists. */
    ghost predicate Valid()
      reads this
    {
      forall t <- subscribers :: subscribers[t] <= channels.Keys
    }

    constructor ()
      ensures Valid() && State() == EMPTY
    {
      history, next, subscribers, channels, made := map[], map[], map[], map[], 0;
    }

    method Publish(task: TaskId, body: string)
      requires Valid()
      modifies this
      ensures Valid() && State() == AfterPublish(old(State()), task, body)
    {
      var event := Event(task, (if task in next then next[task] else 0) + 1, body);
      next := next[task := event.sequence];
      var grown := (if task in history then history[task] else []) + [event];
      if |grown| > RETAINED {
        grown := grown[|grown| - RETAINED..];
      }
      history := history[task := grown];
      Deliver(if task in subscribers then subscribers[task] else {}, event);
    }

    /** The send that does not wait: a full channel loses the event. */
    method Deliver(reached: set<nat>, event: Event)
      requires reached <= channels.Keys
      modifies `channels
      ensures channels == OfferedTo(old(channels), reached, event)
    {
      var todo := reached;
      while todo != {}
        invariant todo <= reached
        invariant channels == OfferedTo(old(channels), reached - todo, event)
        decreases |todo|
      {
        var ch :| ch in todo;
        if |channels[ch]| < CHANNEL_CAPACITY {
          channels := channels[ch := channels[ch] + [event]];
        }
        todo := todo - {ch};
      }
    }

    /** The loop of subscribe over the retained events. */
    static method Later(retained: seq<Event>, after: nat, ghost from: nat) returns (events: seq<Event>)
      requires from <= |retained|
      requires forall i | 0 <= i < |retained| :: retained[i].sequence > after <==> i >= from
      ensures events == retained[from..]
    {
      events := [];
      var i := 0;
      while i < |retained|
        invariant 0 <= i <= |retained|
        invariant events == if i <= from then [] else retained[from..i]
      {
        if retained[i].sequence > after {
          events := events + [retained[i]];
        }
        i := i + 1;
      }
    }

    /** What the client is given at once, and the number of its channel. */
    method Subscribe(ghost log: seq<Event>, task: TaskId, after: nat) returns (window: Window, ch: nat)
      requires Valid() && Tracks(State(), log, task)
      modifies this
      ensures Valid() && State() == AfterSubscribe(old(State()), task) && ch == old(made)
      ensures Opens(log, after, window)
      ensures forall e :: e in window.events <==> e in Retained(log) && e.sequence > after
      ensures window.gap <==> after > 0 && (after > |log| || Evicted(log, after))
    {
      var retained := if task in history then history[task] else [];
      var latest := if task in next then next[task] else 0;
      var oldest := if |retained| > 0 then retained[0].sequence else 0;
      var gap := after > 0 && (after > latest || (|retained| == 0 && latest == 0) || (|retained| > 0 && after + 1 < oldest));
      ghost var from := ResumePoint(log, task, after);
      var events := Later(retained, after, from);
      ResumedIsWhatIsLeft(log, task, after);
      window := Window(events, oldest, latest, gap);
      ch := made;
      made := made + 1;
      channels := channels[ch := []];
      subscribers := subscribers[task := (if task in subscribers then subscribers[task] else {}) + {ch}];
    }

    /** The function subscribe hands back; what the channel holds can still be read. */
    method Unsubscribe(task: TaskId, ch: nat)
      requires Valid()
      modifies this
      ensures Valid() && State() == AfterUnsubscribe(old(State()), task, ch)
    {
      if task in subscribers {
        subscribers := subscribers[task := subscribers[task] - {ch}];
      }
    }

    method Receive(ch: nat) returns (event: Event)
      requires Valid() && ch in channels && channels[ch] != []
      modifies this
      ensures Valid() && event == old(channels[ch])[0] && State() == AfterReceive(old(State()), ch)
    {
      event := channels[ch][0];
      channels := channels[ch := channels[ch][1..]];
    }
  }
}
