/**
 * What the poll registry guarantees over any sequence of events: messages go
 * only to open sockets subscribed to the container, an unsubscribed socket
 * hears nothing more about the container until it subscribes again, and a
 * poll that has lost its entry never gets it back, so its result is never
 * published.
 */
module RegistryProperties {
  import opened Options
  import opened Registry

  /* ------------------------------------------------------------- messages */

  /** Every message appended by `r` over `s` was addressed to a socket that
      was open and subscribed to the message's container at the time. */
  ghost predicate SentOnlyToLive(s: Server, r: Server) {
    s.sent <= r.sent &&
    forall i :: |s.sent| <= i < |r.sent| ==> Live(s, r.sent[i].to, r.sent[i].container)
  }

  /** One event sends at most to live subscribers, and never retracts a
      message. */
  lemma StepSendsOnlyToLive(s: Server, e: Event)
    ensures SentOnlyToLive(s, Step(s, e))
  {
    var r := Step(s, e);
    match e
    case InspectClosed(p, output) =>
      if p in s.inspects {
        var c := s.inspects[p];
        assert Live(s, c.ws, c.container) <==> Live(s.(inspects := s.inspects - {p}), c.ws, c.container);
      }
    case StatsClosed(p, code, output) =>
    case _ =>
  }

  /** The socket `ws` subscribing to `id`. */
  predicate IsSubscribe(e: Event, ws: SocketId, id: ContainerId) {
    e.Receive? && e.ws == ws && e.msg.Subscribe? && e.msg.container == id
  }

  /** A socket that is not live for a container becomes live only through its
      own subscribe message for that container. */
  lemma StaysQuiet(s: Server, e: Event, ws: SocketId, id: ContainerId)
    requires !Live(s, ws, id) && !IsSubscribe(e, ws, id)
    ensures !Live(Step(s, e), ws, id)
  {
    match e
    case Connect =>
      assert Step(s, e) == Connected(s);
    case Receive(w, msg) =>
      assert Step(s, e) == Received(s, w, msg);
      if w in s.sockets && w == ws {
        var sock := s.sockets[w];
        match msg
        case Subscribe(x, rate) =>
          var s1 := s.(sockets := s.sockets[w := sock.(containerIds := sock.containerIds + {x})]);
          assert !Live(s1, ws, id);
        case Unsubscribe(x) =>
        case Unrecognised =>
      }
    case CloseStarted(w) =>
      assert Step(s, e) == Closing(s, w);
    case Disconnect(w) =>
      assert Step(s, e) == Disconnected(s, w);
    case InspectClosed(p, output) =>
      assert Step(s, e) == InspectDone(s, p, output);
    case StatsClosed(p, code, output) =>
      assert Step(s, e) == StatsDone(s, p, code, output);
    case StatsSpawnError(p) =>
      assert Step(s, e) == SpawnFailed(s, p);
    case TimerFired(t) =>
      assert Step(s, e) == TimerDone(s, t);
  }

  /** No event of `es` is a subscribe of `ws` to `id`. */
  predicate NoResubscribe(es: seq<Event>, ws: SocketId, id: ContainerId) {
    forall k :: 0 <= k < |es| ==> !IsSubscribe(es[k], ws, id)
  }

  /** Once a socket is not live for a container (it unsubscribed, or closed),
      no later message reaches it about that container until it subscribes
      to it again. */
  lemma {:induction false} QuietUntilResubscribed(s: Server, es: seq<Event>, ws: SocketId, id: ContainerId)
    requires !Live(s, ws, id) && NoResubscribe(es, ws, id)
    ensures var r := Run(s, es);
      s.sent <= r.sent && !Live(r, ws, id) &&
      forall i :: |s.sent| <= i < |r.sent| ==> !(r.sent[i].to == ws && r.sent[i].container == id)
    decreases |es|
  {
    if es != [] {
      var s1 := Step(s, es[0]);
      StepSendsOnlyToLive(s, es[0]);
      StaysQuiet(s, es[0], ws, id);
      assert NoResubscribe(es[1..], ws, id) by {
        forall k | 0 <= k < |es[1..]| ensures !IsSubscribe(es[1..][k], ws, id) {
          assert es[1..][k] == es[k + 1];
        }
      }
      QuietUntilResubscribed(s1, es[1..], ws, id);
      var r := Run(s1, es[1..]);
      assert r == Run(s, es);
      forall i | |s.sent| <= i < |r.sent|
        ensures !(r.sent[i].to == ws && r.sent[i].container == id)
      {
        if i < |s1.sent| {
          assert r.sent[i] == s1.sent[i];
        }
      }
    }
  }

  /** Unsubscribing silences the socket for that container until it
      subscribes again. */
  lemma SilentAfterUnsubscribe(s: Server, ws: SocketId, id: ContainerId, es: seq<Event>)
    requires ws in s.sockets && NoResubscribe(es, ws, id)
    ensures var u := Step(s, Receive(ws, Unsubscribe(id)));
      var r := Run(u, es);
      forall i :: |u.sent| <= i < |r.sent| ==> !(r.sent[i].to == ws && r.sent[i].container == id)
  {
    var u := Step(s, Receive(ws, Unsubscribe(id)));
    assert !Live(u, ws, id);
    QuietUntilResubscribed(u, es, ws, id);
  }

  /* --------------------------------------------------------------- closing */

  /** A socket that has left the OPEN state never returns to it: only
      `Connect` opens a socket, and it takes a fresh id. */
  lemma StepKeepsClosed(s: Server, e: Event, ws: SocketId)
    requires ws in s.sockets && !s.sockets[ws].open && ws < s.next
    ensures var r := Step(s, e); ws in r.sockets && !r.sockets[ws].open && ws < r.next
  {
    StepNextGrows(s, e);
    match e
    case Connect =>
      assert Step(s, e) == Connected(s);
    case Receive(w, msg) =>
      assert Step(s, e) == Received(s, w, msg);
    case CloseStarted(w) =>
      assert Step(s, e) == Closing(s, w);
    case Disconnect(w) =>
      assert Step(s, e) == Disconnected(s, w);
    case InspectClosed(p, output) =>
      assert Step(s, e) == InspectDone(s, p, output);
    case StatsClosed(p, code, output) =>
      assert Step(s, e) == StatsDone(s, p, code, output);
    case StatsSpawnError(p) =>
      assert Step(s, e) == SpawnFailed(s, p);
    case TimerFired(t) =>
      assert Step(s, e) == TimerDone(s, t);
  }

  /** Once its closing handshake has started, a socket is sent nothing more,
      whatever happens, although its `close` event, and with it the stop of
      its streams, may not have arrived. */
  lemma {:induction false} ClosedStaysSilent(s: Server, es: seq<Event>, ws: SocketId)
    requires ws in s.sockets && !s.sockets[ws].open && ws < s.next
    ensures s.sent <= Run(s, es).sent
    ensures forall i :: |s.sent| <= i < |Run(s, es).sent| ==> Run(s, es).sent[i].to != ws
    decreases |es|
  {
    if es != [] {
      var s1 := Step(s, es[0]);
      StepSendsOnlyToLive(s, es[0]);
      StepKeepsClosed(s, es[0], ws);
      ClosedStaysSilent(s1, es[1..], ws);
      var r := Run(s, es);
      assert r == Run(s1, es[1..]);
      forall i | |s.sent| <= i < |r.sent| ensures r.sent[i].to != ws {
        if i < |s1.sent| {
          assert r.sent[i] == s1.sent[i];
          assert Live(s, s1.sent[i].to, s1.sent[i].container);
        }
      }
    }
  }

  /** A socket whose handshake starts while it is still known is silent from
      then on. */
  lemma CloseStartedSilences(s: Server, ws: SocketId, es: seq<Event>)
    requires Valid(s) && ws in s.sockets
    ensures var r := Run(s, [CloseStarted(ws)] + es);
      s.sent <= r.sent && forall i :: |s.sent| <= i < |r.sent| ==> r.sent[i].to != ws
  {
    var s1 := Step(s, CloseStarted(ws));
    assert Run(s, [CloseStarted(ws)] + es) == Run(s1, es) by {
      assert ([CloseStarted(ws)] + es)[1..] == es;
    }
    ClosedStaysSilent(s1, es, ws);
  }

  /* ------------------------------------------------------------ freshness */

  /** Every id the server has handed out is below `next`. */
  ghost predicate Fresh(s: Server) {
    && (forall q :: q in s.inspects ==> q < s.next)
    && (forall q :: q in s.polls ==> q < s.next)
    && (forall t :: t in s.timers ==> t < s.next)
    && (forall w :: w in s.sockets ==> w < s.next)
    && (forall id :: id in s.entries && s.entries[id].process.Some? ==> s.entries[id].process.value < s.next)
  }

  /** The registry is consistent with the outstanding processes: an entry's
      process is an outstanding poll of that same container for that same
      socket. */
  ghost predicate Valid(s: Server) {
    && Fresh(s)
    && forall id :: id in s.entries && s.entries[id].process.Some? ==>
         var q := s.entries[id].process.value;
         q in s.polls && s.polls[q].container == id && s.polls[q].ws == s.entries[id].ws
  }

  lemma InitialValid()
    ensures Valid(Initial)
  {
  }

  /** Only entries are deleted or overwritten by fresh ids, so a stop keeps
      the registry consistent. */
  lemma StopValid(s: Server, id: ContainerId, ws: Option<SocketId>)
    requires Valid(s)
    ensures Valid(StopStatsStream(s, id, ws))
  {
  }

  lemma StartValid(s: Server, ws: SocketId, id: ContainerId, rate: int)
    requires Valid(s)
    ensures Valid(StartStatsStream(s, ws, id, rate))
  {
    StopValid(s, id, Some(ws));
  }

  lemma ReceivedValid(s: Server, ws: SocketId, msg: Message)
    requires Valid(s)
    ensures Valid(Received(s, ws, msg))
  {
    if ws in s.sockets {
      var sock := s.sockets[ws];
      match msg
      case Subscribe(id, rate) =>
        StartValid(s.(sockets := s.sockets[ws := sock.(containerIds := sock.containerIds + {id})]), ws, id,
          if rate == 0 then DefaultRate else rate);
      case Unsubscribe(id) =>
        StopValid(s.(sockets := s.sockets[ws := sock.(containerIds := sock.containerIds - {id})]), id, Some(ws));
      case Unrecognised =>
    }
  }

  lemma DisconnectedValid(s: Server, ws: SocketId)
    requires Valid(s)
    ensures Valid(Disconnected(s, ws))
  {
  }

  lemma InspectDoneValid(s: Server, p: ProcessId, output: string)
    requires Valid(s)
    ensures Valid(InspectDone(s, p, output))
  {
  }

  /** The closing poll is the process of at most one entry, its own
      container's, so removing it from the outstanding polls leaves no
      entry pointing at it. */
  lemma StatsDoneValid(s: Server, p: ProcessId, code: Option<int>, output: string)
    requires Valid(s)
    ensures Valid(StatsDone(s, p, code, output))
  {
    if p in s.polls {
      var c := s.polls[p];
      var r := StatsDone(s, p, code, output);
      forall id | id in r.entries && r.entries[id].process.Some?
        ensures r.entries[id].process.value in r.polls
      {
        assert id in s.entries && r.entries[id] == s.entries[id];
        assert r.entries[id].process.value != p;
      }
    }
  }

  lemma SpawnFailedValid(s: Server, p: ProcessId)
    requires Valid(s)
    ensures Valid(SpawnFailed(s, p))
  {
  }

  lemma TimerDoneValid(s: Server, t: TimerId)
    requires Valid(s)
    ensures Valid(TimerDone(s, t))
  {
    if t in s.timers {
      var c := s.timers[t];
      var s1 := s.(timers := s.timers - {t});
      if Live(s1, c.ws, c.container) {
        StartValid(s1, c.ws, c.container, c.rate);
      }
    }
  }

  /** Every event keeps the registry consistent. */
  lemma StepValid(s: Server, e: Event)
    requires Valid(s)
    ensures Valid(Step(s, e))
  {
    match e
    case Connect =>
    case Receive(ws, msg) => ReceivedValid(s, ws, msg);
    case CloseStarted(ws) =>
    case Disconnect(ws) => DisconnectedValid(s, ws);
    case InspectClosed(p, output) => InspectDoneValid(s, p, output);
    case StatsClosed(p, code, output) => StatsDoneValid(s, p, code, output);
    case StatsSpawnError(p) => SpawnFailedValid(s, p);
    case TimerFired(t) => TimerDoneValid(s, t);
  }

  /** Any run from a consistent server (in particular from the initial one)
      ends consistent. */
  lemma {:induction false} RunValid(s: Server, es: seq<Event>)
    requires Valid(s)
    ensures Valid(Run(s, es))
    decreases |es|
  {
    if es != [] {
      StepValid(s, es[0]);
      RunValid(Step(s, es[0]), es[1..]);
    }
  }

  /** Stopping or starting a stream never makes an entry hold a process it
      did not hold. */
  lemma StopHoldsOnlyOld(s: Server, c: ContainerId, ws: Option<SocketId>, id: ContainerId, p: ProcessId)
    requires Holds(StopStatsStream(s, c, ws), id, p)
    ensures Holds(s, id, p)
  {
  }

  lemma ReceivedHoldsOnlyOld(s: Server, ws: SocketId, msg: Message, id: ContainerId, p: ProcessId)
    requires Holds(Received(s, ws, msg), id, p)
    ensures Holds(s, id, p)
  {
    if ws in s.sockets {
      var sock := s.sockets[ws];
      match msg
      case Subscribe(x, rate) =>
        var s1 := s.(sockets := s.sockets[ws := sock.(containerIds := sock.containerIds + {x})]);
        var r1 := if rate == 0 then DefaultRate else rate;
        assert Received(s, ws, msg) == StartStatsStream(s1, ws, x, r1);
        assert StartStatsStream(s1, ws, x, r1).entries == StopStatsStream(s1, x, Some(ws)).entries;
        StopHoldsOnlyOld(s1, x, Some(ws), id, p);
      case Unsubscribe(x) =>
        var s1 := s.(sockets := s.sockets[ws := sock.(containerIds := sock.containerIds - {x})]);
        StopHoldsOnlyOld(s1, x, Some(ws), id, p);
      case Unrecognised =>
    }
  }

  lemma InspectDoneHoldsOnlyFresh(s: Server, q: ProcessId, output: string, id: ContainerId, p: ProcessId)
    requires Holds(InspectDone(s, q, output), id, p)
    ensures Holds(s, id, p) || p == s.next
  {
  }

  lemma TimerDoneHoldsOnlyOld(s: Server, t: TimerId, id: ContainerId, p: ProcessId)
    requires Holds(TimerDone(s, t), id, p)
    ensures Holds(s, id, p)
  {
    if t in s.timers {
      var c := s.timers[t];
      var s1 := s.(timers := s.timers - {t});
      if Live(s1, c.ws, c.container) {
        assert TimerDone(s, t) == StartStatsStream(s1, c.ws, c.container, c.rate);
        assert StartStatsStream(s1, c.ws, c.container, c.rate).entries ==
          StopStatsStream(s1, c.container, Some(c.ws)).entries;
        StopHoldsOnlyOld(s1, c.container, Some(c.ws), id, p);
      }
    }
  }

  /** No event puts a process into an entry unless it is the one it spawns
      right then: an entry holds `p` afterwards only if it held `p` before,
      or `p` is the fresh id. */
  lemma StepHoldsOnlyFresh(s: Server, e: Event, id: ContainerId, p: ProcessId)
    requires Holds(Step(s, e), id, p)
    ensures Holds(s, id, p) || p == s.next
  {
    match e
    case Connect =>
      assert Step(s, e) == Connected(s);
    case Receive(ws, msg) =>
      assert Step(s, e) == Received(s, ws, msg);
      ReceivedHoldsOnlyOld(s, ws, msg, id, p);
    case CloseStarted(ws) =>
      assert Step(s, e) == Closing(s, ws);
    case Disconnect(ws) =>
      assert Step(s, e) == Disconnected(s, ws);
    case InspectClosed(q, output) =>
      assert Step(s, e) == InspectDone(s, q, output);
      InspectDoneHoldsOnlyFresh(s, q, output, id, p);
    case StatsClosed(q, code, output) =>
      assert Step(s, e) == StatsDone(s, q, code, output);
    case StatsSpawnError(q) =>
      assert Step(s, e) == SpawnFailed(s, q);
    case TimerFired(t) =>
      assert Step(s, e) == TimerDone(s, t);
      TimerDoneHoldsOnlyOld(s, t, id, p);
  }

  lemma StepNextGrows(s: Server, e: Event)
    ensures Step(s, e).next >= s.next
  {
    match e
    case Connect =>
    case Receive(ws, msg) =>
    case CloseStarted(ws) =>
    case Disconnect(ws) => assert Step(s, e) == Disconnected(s, ws);
    case InspectClosed(q, output) => assert Step(s, e) == InspectDone(s, q, output);
    case StatsClosed(q, code, output) => assert Step(s, e) == StatsDone(s, q, code, output);
    case StatsSpawnError(q) =>
    case TimerFired(t) => assert Step(s, e) == TimerDone(s, t);
  }

  /** A poll whose entry has moved on (it was stopped, replaced by another
      cycle's poll, or deleted) is never current again, whatever happens. */
  lemma {:induction false} StaleStaysStale(s: Server, es: seq<Event>, id: ContainerId, p: ProcessId)
    requires p < s.next && !Holds(s, id, p)
    ensures !Holds(Run(s, es), id, p) && p < Run(s, es).next
    decreases |es|
  {
    if es != [] {
      var s1 := Step(s, es[0]);
      StepNextGrows(s, es[0]);
      if Holds(s1, id, p) {
        StepHoldsOnlyFresh(s, es[0], id, p);
      }
      StaleStaysStale(s1, es[1..], id, p);
    }
  }

  /** An outstanding poll keeps its cycle until it closes. */
  lemma {:induction false} PollKept(s: Server, es: seq<Event>, p: ProcessId)
    requires p in s.polls && p < s.next
    ensures var r := Run(s, es); p in r.polls ==> r.polls[p] == s.polls[p]
    decreases |es|
  {
    if es != [] {
      var s1 := Step(s, es[0]);
      StepNextGrows(s, es[0]);
      assert p in s1.polls ==> s1.polls[p] == s.polls[p] by {
        match es[0]
        case InspectClosed(q, output) =>
        case StatsClosed(q, code, output) =>
        case TimerFired(t) =>
        case _ =>
      }
      if p in s1.polls {
        PollKept(s1, es[1..], p);
      } else {
        PollGone(s1, es[1..], p);
      }
    }
  }

  /** A poll id that is not outstanding and already handed out never becomes
      outstanding again. */
  lemma {:induction false} PollGone(s: Server, es: seq<Event>, p: ProcessId)
    requires p !in s.polls && p < s.next
    ensures p !in Run(s, es).polls
    decreases |es|
  {
    if es != [] {
      var s1 := Step(s, es[0]);
      StepNextGrows(s, es[0]);
      assert p !in s1.polls by {
        match es[0]
        case InspectClosed(q, output) =>
        case StatsClosed(q, code, output) =>
        case TimerFired(t) =>
        case _ =>
      }
      PollGone(s1, es[1..], p);
    }
  }

  /** A poll replaced in the registry never publishes: whenever it finally
      closes, only its own bookkeeping changes; nothing is sent and nothing
      is rescheduled. */
  lemma ReplacedPollStaysSilent(s: Server, es: seq<Event>, p: ProcessId, code: Option<int>, output: string)
    requires p in s.polls && p < s.next && !Holds(s, s.polls[p].container, p)
    ensures var r := Run(s, es);
      StatsDone(r, p, code, output) == r.(polls := r.polls - {p})
  {
    var r := Run(s, es);
    PollKept(s, es, p);
    StaleStaysStale(s, es, s.polls[p].container, p);
  }

  /** At most one entry holds a given poll: its own container's. */
  lemma OneEntryPerPoll(s: Server, id1: ContainerId, id2: ContainerId, p: ProcessId)
    requires Valid(s) && Holds(s, id1, p) && Holds(s, id2, p)
    ensures id1 == id2 && p in s.polls && s.polls[p].container == id1
  {
  }

  /* --------------------------------------------------------------- dormancy */

  /** The cycle `c` belongs to socket `ws` and container `id`. */
  predicate Of(c: Cycle, ws: SocketId, id: ContainerId) {
    c.ws == ws && c.container == id
  }

  /** Socket `ws` has no polling loop for `id`: no inspect or timer of its
      own is outstanding and none of its polls is the registry's current
      one. Nothing can then send it anything about `id`. */
  ghost predicate Dormant(s: Server, ws: SocketId, id: ContainerId) {
    && (forall p :: p in s.inspects ==> !Of(s.inspects[p], ws, id))
    && (forall t :: t in s.timers ==> !Of(s.timers[t], ws, id))
    && (forall p :: p in s.polls && Of(s.polls[p], ws, id) ==> !Holds(s, id, p))
  }

  /** The messages `r` appended over `s` say nothing to `ws` about `id`. */
  ghost predicate NothingSentAbout(s: Server, r: Server, ws: SocketId, id: ContainerId) {
    s.sent <= r.sent &&
    forall i :: |s.sent| <= i < |r.sent| ==> !(r.sent[i].to == ws && r.sent[i].container == id)
  }

  lemma StopKeepsDormant(s: Server, x: ContainerId, w: Option<SocketId>, ws: SocketId, id: ContainerId)
    requires Dormant(s, ws, id)
    ensures Dormant(StopStatsStream(s, x, w), ws, id)
  {
  }

  lemma StartKeepsDormant(s: Server, w: SocketId, x: ContainerId, rate: int, ws: SocketId, id: ContainerId)
    requires Dormant(s, ws, id) && !(w == ws && x == id)
    ensures Dormant(StartStatsStream(s, w, x, rate), ws, id)
  {
    StopKeepsDormant(s, x, Some(w), ws, id);
  }

  lemma ReceivedKeepsDormant(s: Server, w: SocketId, msg: Message, ws: SocketId, id: ContainerId)
    requires Dormant(s, ws, id) && !IsSubscribe(Receive(w, msg), ws, id)
    ensures Dormant(Received(s, w, msg), ws, id)
  {
    if w in s.sockets {
      var sock := s.sockets[w];
      match msg
      case Subscribe(x, rate) =>
        StartKeepsDormant(s.(sockets := s.sockets[w := sock.(containerIds := sock.containerIds + {x})]), w, x,
          if rate == 0 then DefaultRate else rate, ws, id);
      case Unsubscribe(x) =>
        StopKeepsDormant(s.(sockets := s.sockets[w := sock.(containerIds := sock.containerIds - {x})]), x, Some(w), ws, id);
      case Unrecognised =>
    }
  }

  lemma InspectDoneKeepsDormant(s: Server, p: ProcessId, output: string, ws: SocketId, id: ContainerId)
    requires Dormant(s, ws, id)
    ensures Dormant(InspectDone(s, p, output), ws, id)
    ensures NothingSentAbout(s, InspectDone(s, p, output), ws, id)
  {
  }

  lemma StatsDoneKeepsDormant(s: Server, p: ProcessId, code: Option<int>, output: string, ws: SocketId, id: ContainerId)
    requires Dormant(s, ws, id)
    ensures Dormant(StatsDone(s, p, code, output), ws, id)
    ensures NothingSentAbout(s, StatsDone(s, p, code, output), ws, id)
  {
  }

  lemma TimerDoneKeepsDormant(s: Server, t: TimerId, ws: SocketId, id: ContainerId)
    requires Dormant(s, ws, id)
    ensures Dormant(TimerDone(s, t), ws, id)
  {
    if t in s.timers {
      var c := s.timers[t];
      var s1 := s.(timers := s.timers - {t});
      if Live(s1, c.ws, c.container) {
        StartKeepsDormant(s1, c.ws, c.container, c.rate, ws, id);
      }
    }
  }

  /** Without a subscribe of its own, a dormant socket stays dormant for the
      container and is sent nothing about it. */
  lemma StepKeepsDormant(s: Server, e: Event, ws: SocketId, id: ContainerId)
    requires Dormant(s, ws, id) && !IsSubscribe(e, ws, id)
    ensures Dormant(Step(s, e), ws, id)
    ensures NothingSentAbout(s, Step(s, e), ws, id)
  {
    match e
    case Connect =>
    case Receive(w, msg) => ReceivedKeepsDormant(s, w, msg, ws, id);
    case CloseStarted(w) =>
    case Disconnect(w) =>
    case InspectClosed(p, output) => InspectDoneKeepsDormant(s, p, output, ws, id);
    case StatsClosed(p, code, output) => StatsDoneKeepsDormant(s, p, code, output, ws, id);
    case StatsSpawnError(p) =>
    case TimerFired(t) => TimerDoneKeepsDormant(s, t, ws, id);
  }

  /** A socket whose loop for a container has died hears nothing more about
      that container, whatever else happens, until it subscribes again, even
      while it stays subscribed and open. */
  lemma {:induction false} DormantStaysSilent(s: Server, es: seq<Event>, ws: SocketId, id: ContainerId)
    requires Dormant(s, ws, id) && NoResubscribe(es, ws, id)
    ensures Dormant(Run(s, es), ws, id)
    ensures NothingSentAbout(s, Run(s, es), ws, id)
    decreases |es|
  {
    if es != [] {
      var s1 := Step(s, es[0]);
      StepKeepsDormant(s, es[0], ws, id);
      assert NoResubscribe(es[1..], ws, id) by {
        forall k | 0 <= k < |es[1..]| ensures !IsSubscribe(es[1..][k], ws, id) {
          assert es[1..][k] == es[k + 1];
        }
      }
      DormantStaysSilent(s1, es[1..], ws, id);
      var r := Run(s1, es[1..]);
      assert r == Run(s, es);
      forall i | |s.sent| <= i < |r.sent|
        ensures !(r.sent[i].to == ws && r.sent[i].container == id)
      {
        if i < |s1.sent| {
          assert r.sent[i] == s1.sent[i];
        }
      }
    }
  }
}
