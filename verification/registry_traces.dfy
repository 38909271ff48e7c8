/**
 * Concrete event sequences that show how the poll registry behaves when two
 * loops meet: a second socket takes over a container's entry and the first
 * socket's loop dies; an unsubscribe/subscribe pair (a refresh-rate change)
 * while a re-poll timer is pending leaves two loops running; a poll that
 * cannot be spawned ends its loop for good.
 */
module RegistryTraces {
  import opened Options
  import opened JsString
  import opened Registry
  import opened RegistryProperties

  const C: ContainerId := "c"
  const Open: Socket := Socket(true, {C})
  const Idle: Socket := Socket(true, {})

  lemma RunningIsTrimmed()
    ensures Trim("running") == "running"
  {
    TrimSpaceFree("running");
  }

  /** A current poll of a subscribed socket that fails (no data row) deletes
      its entry and arms a re-poll timer under the next id. */
  lemma FailedPollStep(s: Server, p: ProcessId, code: int)
    requires p in s.polls && code != 0
    requires var c := s.polls[p]; Holds(s, c.container, p) && Live(s, c.ws, c.container)
    ensures var c := s.polls[p];
      Step(s, StatsClosed(p, Some(code), "")) == s.(
        polls := s.polls - {p},
        entries := s.entries - {c.container},
        timers := s.timers[s.next := c],
        next := s.next + 1)
  {
    assert DataLine(Some(code), "").None?;
  }

  /** Removing or overwriting the only key of a one-entry map. */
  lemma OneEntry<K, V>(k: K, v: V, w: V)
    ensures map[k := v] - {k} == map[]
    ensures map[k := v][k := w] == map[k := w]
  {
  }

  /** An inspect that reports `running` becomes a poll under the next id. */
  lemma RunningStep(s: Server, p: ProcessId)
    requires p in s.inspects
    ensures var c := s.inspects[p];
      Step(s, InspectClosed(p, "running")) == s.(
        inspects := s.inspects - {p},
        polls := s.polls[s.next := c],
        entries := s.entries[c.container := Entry(Some(s.next), c.ws, None)],
        next := s.next + 1)
  {
    RunningIsTrimmed();
  }

  /* ------------------------------------------- a second subscriber takes over */

  const Loop0 := Cycle(0, C, DefaultRate)
  const Loop1 := Cycle(1, C, DefaultRate)

  const TwoSockets := Server(map[], map[0 := Idle, 1 := Idle], map[], map[], map[], {}, [], 2)
  const FirstInspecting := Server(map[], map[0 := Open, 1 := Idle], map[2 := Loop0], map[], map[], {}, [], 3)
  const FirstPolling := Server(map[C := Entry(Some(3), 0, None)], map[0 := Open, 1 := Idle],
    map[], map[3 := Loop0], map[], {}, [], 4)
  /** The first socket is being polled (poll 3) and the second has just
      subscribed (inspect 4); the first socket's entry is kept, because a
      stop only acts for the entry's own socket. */
  const Contended := Server(map[C := Entry(Some(3), 0, None)], map[0 := Open, 1 := Open],
    map[4 := Loop1], map[3 := Loop0], map[], {}, [], 5)
  /** The second socket's poll 5 has overwritten the entry. */
  const Overwritten := Server(map[C := Entry(Some(5), 1, None)], map[0 := Open, 1 := Open],
    map[], map[3 := Loop0, 5 := Loop1], map[], {}, [], 6)
  /** The first socket's poll has closed as stale. */
  const TakenOver := Server(map[C := Entry(Some(5), 1, None)], map[0 := Open, 1 := Open],
    map[], map[5 := Loop1], map[], {}, [], 6)

  lemma TwoConnections()
    ensures Step(Step(Initial, Connect), Connect) == TwoSockets
  {
  }

  lemma FirstSubscribes()
    ensures Step(TwoSockets, Receive(0, Subscribe(C, 0))) == FirstInspecting
  {
    var r := Received(TwoSockets, 0, Subscribe(C, 0));
    assert {} + {C} == {C};
    assert r.sockets == FirstInspecting.sockets;
    assert r.inspects == FirstInspecting.inspects;
  }

  lemma FirstRunning()
    ensures Step(FirstInspecting, InspectClosed(2, "running")) == FirstPolling
  {
    OneEntry(2, Loop0, Loop0);
    RunningStep(FirstInspecting, 2);
    var r := Step(FirstInspecting, InspectClosed(2, "running"));
    assert r.inspects == FirstPolling.inspects;
    assert r.entries == FirstPolling.entries;
    assert r.polls == FirstPolling.polls;
  }

  lemma SecondSubscribes()
    ensures Step(FirstPolling, Receive(1, Subscribe(C, 0))) == Contended
  {
    var r := Received(FirstPolling, 1, Subscribe(C, 0));
    assert {} + {C} == {C};
    assert !Stops(FirstPolling, C, Some(1));
    assert r.sockets == Contended.sockets;
    assert r.inspects == Contended.inspects;
    assert r.entries == Contended.entries;
  }

  lemma SecondRunning()
    ensures Step(Contended, InspectClosed(4, "running")) == Overwritten
  {
    OneEntry(4, Loop1, Loop1);
    OneEntry(C, Entry(Some(3), 0, None), Entry(Some(5), 1, None));
    RunningStep(Contended, 4);
    var r := Step(Contended, InspectClosed(4, "running"));
    assert r.inspects == Overwritten.inspects;
    assert r.entries == Overwritten.entries;
    assert r.polls == Overwritten.polls;
  }

  lemma FirstPollStale()
    ensures Step(Overwritten, StatsClosed(3, Some(0), "")) == TakenOver
  {
    var r := StatsDone(Overwritten, 3, Some(0), "");
    assert !Holds(Overwritten, C, 3);
    assert r.polls == TakenOver.polls;
  }

  /** Two sockets subscribe to the same container, one after the other, and
      the first socket's poll closes. */
  const Takeover: seq<Event> := [Connect, Connect,
    Receive(0, Subscribe(C, 0)), InspectClosed(2, "running"),
    Receive(1, Subscribe(C, 0)), InspectClosed(4, "running"),
    StatsClosed(3, Some(0), "")]

  lemma TakenOverReached()
    ensures Run(Initial, Takeover) == TakenOver
  {
    var es := Takeover;
    TwoConnections();
    FirstSubscribes();
    FirstRunning();
    SecondSubscribes();
    SecondRunning();
    FirstPollStale();
    assert Run(TakenOver, es[7..]) == TakenOver;
    assert Run(Overwritten, es[6..]) == TakenOver;
    assert Run(Contended, es[5..]) == TakenOver;
    assert Run(FirstPolling, es[4..]) == TakenOver;
    assert Run(FirstInspecting, es[3..]) == TakenOver;
    assert Run(TwoSockets, es[2..]) == TakenOver;
    assert Run(Step(Initial, Connect), es[1..]) == TakenOver;
  }

  /** A second socket subscribing to a container that another socket is
      polling takes over the registry entry; the first socket's poll then
      closes as stale, and its loop is dead although it is still open and
      subscribed: it hears nothing more about the container, whatever
      happens later, until it subscribes again. */
  lemma SecondSubscriberStarvesFirst(later: seq<Event>)
    requires NoResubscribe(later, 0, C)
    ensures var s := Run(Initial, Takeover);
      && Live(s, 0, C) && Live(s, 1, C)
      && Dormant(s, 0, C)
      && NothingSentAbout(s, Run(s, later), 0, C)
  {
    TakenOverReached();
    DormantStaysSilent(TakenOver, later, 0, C);
  }

  /* ------------------------------------ a rate change while a timer is pending */

  const Slow := Cycle(0, C, 1000)
  const Fast := Cycle(0, C, 500)

  const OneSocket := Server(map[], map[0 := Idle], map[], map[], map[], {}, [], 1)
  const SlowInspecting := Server(map[], map[0 := Open], map[1 := Slow], map[], map[], {}, [], 2)
  const SlowPolling := Server(map[C := Entry(Some(2), 0, None)], map[0 := Open],
    map[], map[2 := Slow], map[], {}, [], 3)
  /** The poll closed; the re-poll timer 3 is pending and not in the registry. */
  const SlowWaiting := Server(map[], map[0 := Open], map[], map[], map[3 := Slow], {}, [], 4)
  /** The unsubscribe found no entry, so timer 3 was not cleared. */
  const Unsubscribed := Server(map[], map[0 := Idle], map[], map[], map[3 := Slow], {}, [], 4)
  const FastInspecting := Server(map[], map[0 := Open], map[4 := Fast], map[], map[3 := Slow], {}, [], 5)
  const FastPolling := Server(map[C := Entry(Some(5), 0, None)], map[0 := Open],
    map[], map[5 := Fast], map[3 := Slow], {}, [], 6)
  /** Two re-poll timers for the same socket and container. */
  const BothWaiting := Server(map[], map[0 := Open], map[], map[], map[3 := Slow, 6 := Fast], {}, [], 7)

  lemma SlowSubscribe()
    ensures Step(Step(Initial, Connect), Receive(0, Subscribe(C, 1000))) == SlowInspecting
  {
    assert Step(Initial, Connect) == OneSocket;
    var r := Received(OneSocket, 0, Subscribe(C, 1000));
    assert {} + {C} == {C};
    assert r.sockets == SlowInspecting.sockets;
    assert r.inspects == SlowInspecting.inspects;
  }

  lemma SlowRunning()
    ensures Step(SlowInspecting, InspectClosed(1, "running")) == SlowPolling
  {
    OneEntry(1, Slow, Slow);
    RunningStep(SlowInspecting, 1);
    var r := Step(SlowInspecting, InspectClosed(1, "running"));
    assert r.inspects == SlowPolling.inspects;
    assert r.entries == SlowPolling.entries;
    assert r.polls == SlowPolling.polls;
  }

  lemma SlowPollFails()
    ensures Step(SlowPolling, StatsClosed(2, Some(1), "")) == SlowWaiting
  {
    OneEntry(2, Slow, Slow);
    OneEntry(C, Entry(Some(2), 0, None), Entry(Some(2), 0, None));
    FailedPollStep(SlowPolling, 2, 1);
    var r := Step(SlowPolling, StatsClosed(2, Some(1), ""));
    assert r.entries == SlowWaiting.entries;
    assert r.polls == SlowWaiting.polls;
    assert r.timers == SlowWaiting.timers;
  }

  lemma RateUnsubscribe()
    ensures Step(SlowWaiting, Receive(0, Unsubscribe(C))) == Unsubscribed
  {
    var r := Received(SlowWaiting, 0, Unsubscribe(C));
    assert {C} - {C} == {};
    assert r.sockets == Unsubscribed.sockets;
  }

  lemma RateSubscribe()
    ensures Step(Unsubscribed, Receive(0, Subscribe(C, 500))) == FastInspecting
  {
    var r := Received(Unsubscribed, 0, Subscribe(C, 500));
    assert {} + {C} == {C};
    assert r.sockets == FastInspecting.sockets;
    assert r.inspects == FastInspecting.inspects;
  }

  lemma FastRunning()
    ensures Step(FastInspecting, InspectClosed(4, "running")) == FastPolling
  {
    OneEntry(4, Fast, Fast);
    RunningStep(FastInspecting, 4);
    var r := Step(FastInspecting, InspectClosed(4, "running"));
    assert r.inspects == FastPolling.inspects;
    assert r.entries == FastPolling.entries;
    assert r.polls == FastPolling.polls;
  }

  lemma FastPollFails()
    ensures Step(FastPolling, StatsClosed(5, Some(1), "")) == BothWaiting
  {
    OneEntry(5, Fast, Fast);
    OneEntry(C, Entry(Some(5), 0, None), Entry(Some(5), 0, None));
    FailedPollStep(FastPolling, 5, 1);
    var r := Step(FastPolling, StatsClosed(5, Some(1), ""));
    assert r.entries == BothWaiting.entries;
    assert r.polls == BothWaiting.polls;
    assert r.timers == BothWaiting.timers;
  }

  const RateChange: seq<Event> := [Connect,
    Receive(0, Subscribe(C, 1000)), InspectClosed(1, "running"), StatsClosed(2, Some(1), ""),
    Receive(0, Unsubscribe(C)), Receive(0, Subscribe(C, 500)),
    InspectClosed(4, "running"), StatsClosed(5, Some(1), "")]

  lemma BothWaitingReached()
    ensures Run(Initial, RateChange) == BothWaiting
  {
    var es := RateChange;
    SlowSubscribe();
    SlowRunning();
    SlowPollFails();
    RateUnsubscribe();
    RateSubscribe();
    FastRunning();
    FastPollFails();
    assert Run(BothWaiting, es[8..]) == BothWaiting;
    assert Run(FastPolling, es[7..]) == BothWaiting;
    assert Run(FastInspecting, es[6..]) == BothWaiting;
    assert Run(Unsubscribed, es[5..]) == BothWaiting;
    assert Run(SlowWaiting, es[4..]) == BothWaiting;
    assert Run(SlowPolling, es[3..]) == BothWaiting;
    assert Run(SlowInspecting, es[2..]) == BothWaiting;
    assert Run(Step(Initial, Connect), es[1..]) == BothWaiting;
  }

  lemma OldTimerFires()
    ensures Step(BothWaiting, TimerFired(3)).inspects == map[7 := Slow]
    ensures Step(BothWaiting, TimerFired(3)).timers == map[6 := Fast]
  {
    var r := TimerDone(BothWaiting, 3);
    assert r.timers == map[6 := Fast];
    assert r.inspects == map[7 := Slow];
  }

  /** The client's refresh-rate change (an unsubscribe and a subscribe with the
      new rate) while the container's loop is waiting on its re-poll timer:
      the unsubscribe finds no entry and does not clear the timer, so after
      the new loop's first poll two timers are pending for the same socket
      and container, and when the old one fires it starts a poll at the old
      rate beside the new loop. */
  lemma RateChangeCanDuplicateCycle()
    ensures var s := Run(Initial, RateChange);
      && Live(s, 0, C)
      && s.timers == map[3 := Cycle(0, C, 1000), 6 := Cycle(0, C, 500)]
      && Step(s, TimerFired(3)).inspects == map[7 := Cycle(0, C, 1000)]
      && Step(s, TimerFired(3)).timers == map[6 := Cycle(0, C, 500)]
  {
    BothWaitingReached();
    OldTimerFires();
  }

  /* ------------------------------------------------- a poll that cannot spawn */

  const Polling := Server(map[C := Entry(Some(2), 0, None)], map[0 := Open],
    map[], map[2 := Loop0], map[], {}, [], 3)
  const Failed := Server(map[], map[0 := Open], map[], map[2 := Loop0], map[], {}, [], 3)

  lemma PollSpawned()
    ensures Run(Initial, [Connect, Receive(0, Subscribe(C, 0)), InspectClosed(1, "running")]) == Polling
  {
    var es := [Connect, Receive(0, Subscribe(C, 0)), InspectClosed(1, "running")];
    assert Step(Initial, Connect) == OneSocket;
    var s2 := Received(OneSocket, 0, Subscribe(C, 0));
    assert {} + {C} == {C};
    assert s2 == Server(map[], map[0 := Open], map[1 := Loop0], map[], map[], {}, [], 2) by {
      assert s2.sockets == map[0 := Open];
      assert s2.inspects == map[1 := Loop0];
    }
    RunningStep(s2, 1);
    var s3 := Step(s2, InspectClosed(1, "running"));
    assert s3.entries == Polling.entries && s3.polls == Polling.polls && s3.inspects == map[];
    assert Run(s3, es[3..]) == Polling;
    assert Run(s2, es[2..]) == Polling;
    assert Run(OneSocket, es[1..]) == Polling;
  }

  /** The first poll of a fresh subscription fails to spawn. */
  const SpawnFailure: seq<Event> :=
    [Connect, Receive(0, Subscribe(C, 0)), InspectClosed(1, "running"), StatsSpawnError(2)]

  lemma FailedReached()
    ensures Run(Initial, SpawnFailure) == Failed
  {
    var es := SpawnFailure;
    PollSpawned();
    RunAppend(Initial, es[..3], es[3..]);
    assert es[..3] + es[3..] == es;
    assert es[..3] == [Connect, Receive(0, Subscribe(C, 0)), InspectClosed(1, "running")];
    var f := SpawnFailed(Polling, 2);
    assert f.entries == Failed.entries;
    assert Run(Polling, es[3..]) == Failed by {
      assert Run(Failed, es[3..][1..]) == Failed;
    }
  }

  /** A poll that fails to spawn deletes its entry and schedules nothing: the
      loop ends for good while the socket stays open and subscribed, and the
      socket hears nothing more about the container until it subscribes
      again (a close of the failed process, if one follows, is stale). */
  lemma SpawnErrorEndsCycle(later: seq<Event>)
    requires NoResubscribe(later, 0, C)
    ensures var s := Run(Initial, SpawnFailure);
      && Live(s, 0, C)
      && Dormant(s, 0, C)
      && NothingSentAbout(s, Run(s, later), 0, C)
  {
    FailedReached();
    DormantStaysSilent(Failed, later, 0, C);
  }
}
