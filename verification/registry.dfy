/**
 * The server's poll registry (index.js): the `statsProcesses` map from a
 * container id to `{process, ws, timeoutId}`, the sockets that subscribe to
 * containers, and the events that move it: socket messages and disconnects,
 * the end of a `docker inspect`, the end or spawn failure of a
 * `docker stats --no-stream` poll, and a re-poll timer firing.
 *
 * Processes, timers and sockets are opaque numbers drawn from one counter
 * `next`, so every spawn, `setTimeout` and connection gets an id no earlier
 * one had. Events are applied one at a time.
 */
module Registry {
  import opened Options
  import opened JsString
  import opened JsNumber
  import opened StatsLine

  type ContainerId = string
  type SocketId = nat
  type ProcessId = nat
  type TimerId = nat

  /** The refresh rate used when a subscribe message carries none (or 0). */
  const DefaultRate := 2000

  /** One container's polling loop for one socket, as the closures of
      `startStatsStream` capture it. */
  datatype Cycle = Cycle(ws: SocketId, container: ContainerId, rate: int)

  /** A `statsProcesses` value. `process` is null while the container is not
      running and the entry only holds the re-check timer. */
  datatype Entry = Entry(process: Option<ProcessId>, ws: SocketId, timer: Option<TimerId>)

  /** A socket: whether it is open, and `ws.containerIds`. */
  datatype Socket = Socket(open: bool, containerIds: set<ContainerId>)

  /** What the server sends down a socket (timestamps are left out). */
  datatype Outbound =
    | StatusMsg(to: SocketId, container: ContainerId, status: string)
    | StatsMsg(to: SocketId, container: ContainerId, data: StatsRecord)

  /** The server: the registry proper (`entries`), the sockets, the child
      processes and timers still outstanding, the processes killed, the
      messages sent so far, and the next fresh id. */
  datatype Server = Server(
    entries: map<ContainerId, Entry>,
    sockets: map<SocketId, Socket>,
    inspects: map<ProcessId, Cycle>,
    polls: map<ProcessId, Cycle>,
    timers: map<TimerId, Cycle>,
    killed: set<ProcessId>,
    sent: seq<Outbound>,
    next: nat)

  const Initial := Server(map[], map[], map[], map[], map[], {}, [], 0)

  /** A parsed client message. `rate` 0 stands for a missing or falsy
      `refreshRate`; `Unrecognised` covers unparsable JSON and other types. */
  datatype Message =
    | Subscribe(container: ContainerId, rate: int)
    | Unsubscribe(container: ContainerId)
    | Unrecognised

  datatype Event =
    | Connect
    | Receive(ws: SocketId, msg: Message)
    | CloseStarted(ws: SocketId)
    | Disconnect(ws: SocketId)
    | InspectClosed(process: ProcessId, output: string)
    | StatsClosed(process: ProcessId, code: Option<int>, output: string)
    | StatsSpawnError(process: ProcessId)
    | TimerFired(timer: TimerId)

  /** `ws.readyState === OPEN && ws.containerIds.has(containerId)`: the guard
      in front of every send and every re-poll. `open` turns false when the
      closing handshake starts (`CloseStarted`), before the `close` event
      (`Disconnect`) stops the socket's streams. */
  predicate Live(s: Server, ws: SocketId, id: ContainerId) {
    ws in s.sockets && s.sockets[ws].open && id in s.sockets[ws].containerIds
  }

  /** The registry's entry for `id` holds process `p`. */
  predicate Holds(s: Server, id: ContainerId, p: ProcessId) {
    id in s.entries && s.entries[id].process == Some(p)
  }

  /** `stopStatsStream` would act: there is an entry and no socket was given
      or it is the entry's own. */
  predicate Stops(s: Server, id: ContainerId, ws: Option<SocketId>) {
    id in s.entries && (ws.None? || s.entries[id].ws == ws.value)
  }

  /** Entries other than `id` are the same in both servers. */
  ghost predicate OthersUnchanged(s: Server, r: Server, id: ContainerId) {
    forall other :: other != id ==>
      (other in r.entries <==> other in s.entries) &&
      (other in r.entries ==> r.entries[other] == s.entries[other])
  }

  /* ------------------------------------------------------------- stopping */

  /** `stopStatsStream(containerId, ws)`: when it acts, the entry's process is
      killed, its timer cleared and the entry deleted; otherwise nothing
      changes. Entries of other containers are never touched. */
  function StopStatsStream(s: Server, id: ContainerId, ws: Option<SocketId>): (r: Server)
    ensures !Stops(s, id, ws) ==> r == s
    ensures Stops(s, id, ws) ==> id !in r.entries
    ensures Stops(s, id, ws) && s.entries[id].process.Some? ==> s.entries[id].process.value in r.killed
    ensures Stops(s, id, ws) && s.entries[id].timer.Some? ==> s.entries[id].timer.value !in r.timers
    ensures OthersUnchanged(s, r, id)
    ensures r.sockets == s.sockets && r.inspects == s.inspects && r.polls == s.polls
    ensures r.sent == s.sent && r.next == s.next && s.killed <= r.killed
    ensures forall t :: t in r.timers ==> t in s.timers && r.timers[t] == s.timers[t]
  {
    if !Stops(s, id, ws) then s
    else
      var e := s.entries[id];
      var killed := if e.process.Some? then s.killed + {e.process.value} else s.killed;
      var timers := if e.timer.Some? then s.timers - {e.timer.value} else s.timers;
      s.(entries := s.entries - {id}, killed := killed, timers := timers)
  }

  /** `startStatsStream(ws, containerId, refreshRate)`: stop the socket's own
      entry, then spawn `docker inspect` for the container. */
  function StartStatsStream(s: Server, ws: SocketId, id: ContainerId, rate: int): (r: Server)
    ensures r.next == s.next + 1
    ensures r.inspects == s.inspects[s.next := Cycle(ws, id, rate)]
    ensures Stops(s, id, Some(ws)) ==> id !in r.entries
    ensures !Stops(s, id, Some(ws)) ==> r.entries == s.entries
    ensures OthersUnchanged(s, r, id)
    ensures r.sockets == s.sockets && r.polls == s.polls && r.sent == s.sent
    ensures r.timers.Keys <= s.timers.Keys && s.killed <= r.killed
  {
    var s1 := StopStatsStream(s, id, Some(ws));
    s1.(inspects := s1.inspects[s1.next := Cycle(ws, id, rate)], next := s1.next + 1)
  }

  /* ---------------------------------------------------------- socket events */

  /** A new connection: a fresh open socket with no subscriptions. */
  function Connected(s: Server): (r: Server)
    ensures r.sockets.Keys == s.sockets.Keys + {s.next} && r.sockets[s.next].open
    ensures forall id :: !Live(r, s.next, id)
    ensures r.next == s.next + 1 && r.entries == s.entries && r.sent == s.sent
  {
    s.(sockets := s.sockets[s.next := Socket(true, {})], next := s.next + 1)
  }

  /** The socket message handler: `subscribe` records the id and starts the
      stream at `refreshRate || 2000`; `unsubscribe` forgets the id and stops
      the socket's own entry; anything else is ignored. */
  function Received(s: Server, ws: SocketId, msg: Message): (r: Server)
    ensures ws !in s.sockets || msg.Unrecognised? ==> r == s
    ensures ws in s.sockets && msg.Subscribe? ==>
      ws in r.sockets && r.sockets[ws].containerIds == s.sockets[ws].containerIds + {msg.container} &&
      r.inspects == s.inspects[s.next := Cycle(ws, msg.container, if msg.rate == 0 then DefaultRate else msg.rate)]
    ensures ws in s.sockets && msg.Unsubscribe? ==>
      ws in r.sockets && r.sockets[ws].containerIds == s.sockets[ws].containerIds - {msg.container} &&
      !Live(r, ws, msg.container) &&
      r.inspects == s.inspects && r.next == s.next &&
      (Stops(s, msg.container, Some(ws)) ==> msg.container !in r.entries)
    ensures r.sent == s.sent
  {
    if ws !in s.sockets then s
    else
      var sock := s.sockets[ws];
      match msg
      case Subscribe(id, rate) =>
        var s1 := s.(sockets := s.sockets[ws := sock.(containerIds := sock.containerIds + {id})]);
        StartStatsStream(s1, ws, id, if rate == 0 then DefaultRate else rate)
      case Unsubscribe(id) =>
        var s1 := s.(sockets := s.sockets[ws := sock.(containerIds := sock.containerIds - {id})]);
        StopStatsStream(s1, id, Some(ws))
      case Unrecognised => s
  }

  /* ------------------------------------------------------------ disconnect */

  /** The closing handshake started: `readyState` leaves OPEN, so every guard
      on the socket fails from now on, but its entries, timers and processes
      stay until the `close` event arrives. */
  function Closing(s: Server, ws: SocketId): (r: Server)
    ensures forall w, id :: Live(r, w, id) <==> Live(s, w, id) && w != ws
    ensures r.sockets.Keys == s.sockets.Keys
    ensures ws in s.sockets ==> r.sockets[ws].containerIds == s.sockets[ws].containerIds
    ensures r.(sockets := s.sockets) == s
  {
    if ws !in s.sockets then s
    else s.(sockets := s.sockets[ws := s.sockets[ws].(open := false)])
  }

  /** The containers among `ids` whose entry belongs to `ws`. */
  function Owned(s: Server, ids: set<ContainerId>, ws: SocketId): set<ContainerId>
  {
    set id | id in ids && id in s.entries && s.entries[id].ws == ws
  }

  /** Stopping every container of `ids` for `ws`, in closed form: the owned
      entries are gone, their processes killed and their timers cleared. */
  function StopAll(s: Server, ids: set<ContainerId>, ws: SocketId): (r: Server)
    ensures forall id :: id in ids && id in s.entries && s.entries[id].ws == ws ==> id !in r.entries
    ensures forall id :: id in s.entries && (id !in ids || s.entries[id].ws != ws) ==>
      id in r.entries && r.entries[id] == s.entries[id]
    ensures r.entries.Keys <= s.entries.Keys && s.killed <= r.killed && r.timers.Keys <= s.timers.Keys
    ensures r.sockets == s.sockets && r.sent == s.sent && r.next == s.next
    ensures r.inspects == s.inspects && r.polls == s.polls
  {
    var owned := Owned(s, ids, ws);
    s.(entries := s.entries - owned,
       killed := s.killed + ProcessesOf(s, owned),
       timers := s.timers - TimersOf(s, owned))
  }

  /** The processes the entries of `ids` hold. */
  function ProcessesOf(s: Server, ids: set<ContainerId>): set<ProcessId>
  {
    set id | id in ids && id in s.entries && s.entries[id].process.Some? :: s.entries[id].process.value
  }

  /** The timers the entries of `ids` hold. */
  function TimersOf(s: Server, ids: set<ContainerId>): set<TimerId>
  {
    set id | id in ids && id in s.entries && s.entries[id].timer.Some? :: s.entries[id].timer.value
  }

  lemma ProcessesOfAdd(s: Server, ids: set<ContainerId>, id: ContainerId)
    requires id in s.entries
    ensures var e := s.entries[id];
      ProcessesOf(s, ids + {id}) == ProcessesOf(s, ids) + if e.process.Some? then {e.process.value} else {}
  {
  }

  lemma TimersOfAdd(s: Server, ids: set<ContainerId>, id: ContainerId)
    requires id in s.entries
    ensures var e := s.entries[id];
      TimersOf(s, ids + {id}) == TimersOf(s, ids) + if e.timer.Some? then {e.timer.value} else {}
  {
  }

  /** The `close` handler: the socket is no longer open, and every entry of
      one of its containers that it owns is stopped. Entries owned by other
      sockets survive. */
  function Disconnected(s: Server, ws: SocketId): (r: Server)
    ensures ws in s.sockets ==> ws in r.sockets && !r.sockets[ws].open
    ensures forall id :: !Live(r, ws, id)
    ensures ws in s.sockets ==> forall id :: id in s.entries ==>
      (id in r.entries <==> !(id in s.sockets[ws].containerIds && s.entries[id].ws == ws))
    ensures forall id :: id in r.entries ==> id in s.entries && r.entries[id] == s.entries[id]
    ensures r.sent == s.sent && r.next == s.next
  {
    if ws !in s.sockets then s
    else
      var sock := s.sockets[ws];
      var s1 := s.(sockets := s.sockets[ws := sock.(open := false)]);
      StopAll(s1, sock.containerIds, ws)
  }

  /** Stopping one more owned-or-not container after a set of them is the
      closed form over the larger set. */
  lemma StopAllStep(s: Server, done: set<ContainerId>, id: ContainerId, ws: SocketId)
    requires id !in done
    ensures StopStatsStream(StopAll(s, done, ws), id, Some(ws)) == StopAll(s, done + {id}, ws)
  {
    if id in s.entries && s.entries[id].ws == ws {
      StopOwnedStep(s, done, id, ws);
    } else {
      assert Owned(s, done + {id}, ws) == Owned(s, done, ws);
      assert !Stops(StopAll(s, done, ws), id, Some(ws));
    }
  }

  lemma StopOwnedStep(s: Server, done: set<ContainerId>, id: ContainerId, ws: SocketId)
    requires id !in done && id in s.entries && s.entries[id].ws == ws
    ensures StopStatsStream(StopAll(s, done, ws), id, Some(ws)) == StopAll(s, done + {id}, ws)
  {
    var a := StopAll(s, done, ws);
    var b := StopAll(s, done + {id}, ws);
    var c := StopStatsStream(a, id, Some(ws));
    StopOwnedFields(s, done, id, ws);
    assert c.entries == b.entries && c.killed == b.killed && c.timers == b.timers;
  }

  lemma StopOwnedFields(s: Server, done: set<ContainerId>, id: ContainerId, ws: SocketId)
    requires id !in done && id in s.entries && s.entries[id].ws == ws
    ensures var a, b := StopAll(s, done, ws), StopAll(s, done + {id}, ws);
      var c := StopStatsStream(a, id, Some(ws));
      c.entries == b.entries && c.killed == b.killed && c.timers == b.timers
  {
    var a := StopAll(s, done, ws);
    var owned := Owned(s, done, ws);
    assert Owned(s, done + {id}, ws) == owned + {id};
    assert id in a.entries && a.entries[id] == s.entries[id];
    ProcessesOfAdd(s, owned, id);
    TimersOfAdd(s, owned, id);
  }

  /** One pass of the stop loop keeps the loop's bookkeeping. */
  lemma StopEachStep(s: Server, ids: set<ContainerId>, ws: SocketId, todo: set<ContainerId>,
                     done: set<ContainerId>, id: ContainerId)
    requires todo + done == ids && todo !! done && id in todo
    ensures StopStatsStream(StopAll(s, done, ws), id, Some(ws)) == StopAll(s, done + {id}, ws)
    ensures (todo - {id}) + (done + {id}) == ids && (todo - {id}) !! (done + {id})
    ensures |todo - {id}| < |todo|
  {
    StopAllStep(s, done, id, ws);
  }

  /** `ids.forEach(id => stopStatsStream(id, ws))`, one container at a time
      in whatever order the set yields them; the result does not depend on
      the order. */
  method StopEach(s: Server, ids: set<ContainerId>, ws: SocketId) returns (r: Server)
    ensures r == StopAll(s, ids, ws)
  {
    var todo := ids;
    var done: set<ContainerId> := {};
    r := s;
    assert Owned(s, done, ws) == {};
    while todo != {}
      invariant todo + done == ids && todo !! done
      invariant r == StopAll(s, done, ws)
      decreases |todo|
    {
      var id :| id in todo;
      StopEachStep(s, ids, ws, todo, done, id);
      r := StopStatsStream(r, id, Some(ws));
      done, todo := done + {id}, todo - {id};
    }
  }

  /** The `close` handler as the source runs it: mark the socket closed, then
      stop each of its containers. */
  method Disconnect(s: Server, ws: SocketId) returns (r: Server)
    ensures r == Disconnected(s, ws)
  {
    if ws !in s.sockets {
      return s;
    }
    var sock := s.sockets[ws];
    var s1 := s.(sockets := s.sockets[ws := sock.(open := false)]);
    r := StopEach(s1, sock.containerIds, ws);
  }

  /* ------------------------------------------------------- process events */

  /** The `docker inspect` process of a cycle closed with `output`. A status
      other than `running` is reported and re-checked after the refresh rate,
      both only while the socket is still subscribed; a running container
      gets a `docker stats` poll whose entry replaces whatever was there. */
  function InspectDone(s: Server, p: ProcessId, output: string): (r: Server)
    ensures r.sockets == s.sockets
    ensures p !in s.inspects ==> r == s
    ensures p in s.inspects ==> p !in r.inspects
    ensures p in s.inspects ==> r.inspects == s.inspects - {p} && r.killed == s.killed
    ensures p in s.inspects && Trim(output) == "running" ==>
      var c := s.inspects[p];
      r.entries == s.entries[c.container := Entry(Some(s.next), c.ws, None)] &&
      r.polls == s.polls[s.next := c] && r.sent == s.sent
    ensures p in s.inspects && Trim(output) != "running" ==>
      var c := s.inspects[p];
      r.polls == s.polls &&
      (Live(s, c.ws, c.container) ==>
        r.sent == s.sent + [StatusMsg(c.ws, c.container, Trim(output))] &&
        r.timers == s.timers[s.next := c] &&
        r.entries == s.entries[c.container := Entry(None, c.ws, Some(s.next))]) &&
      (!Live(s, c.ws, c.container) ==> r.sent == s.sent && r.entries == s.entries && r.timers == s.timers)
  {
    if p !in s.inspects then s
    else
      var c := s.inspects[p];
      var s1 := s.(inspects := s.inspects - {p});
      var status := Trim(output);
      if status != "running" then
        if Live(s1, c.ws, c.container) then
          s1.(sent := s1.sent + [StatusMsg(c.ws, c.container, status)],
              timers := s1.timers[s1.next := c],
              entries := s1.entries[c.container := Entry(None, c.ws, Some(s1.next))],
              next := s1.next + 1)
        else s1
      else
        s1.(polls := s1.polls[s1.next := c],
            entries := s1.entries[c.container := Entry(Some(s1.next), c.ws, None)],
            next := s1.next + 1)
  }

  /** The data row of a successful poll: line 1 of the trimmed output, if the
      exit code is 0 and there is such a line. */
  function DataLine(code: Option<int>, output: string): (line: Option<string>)
    ensures line.Some? ==> code == Some(0) && Trim(output) != ""
  {
    var out := Trim(output);
    if code == Some(0) && out != "" then
      var lines := Split(out, "\n");
      if |lines| > 1 then Some(lines[1]) else None
    else None
  }

  /** The poll process `p` closed. A poll whose entry no longer holds it is
      stale and changes nothing. Otherwise the parsed row is sent while the
      socket is subscribed, the entry is deleted, and a re-poll timer is armed
      while the socket is subscribed; the timer is not recorded in the
      registry, because its entry is already gone. */
  function StatsDone(s: Server, p: ProcessId, code: Option<int>, output: string): (r: Server)
    ensures r.sockets == s.sockets
    ensures p !in s.polls ==> r == s
    ensures p in s.polls && !Holds(s, s.polls[p].container, p) ==>
      r == s.(polls := s.polls - {p})
    ensures p in s.polls && Holds(s, s.polls[p].container, p) ==>
      var c := s.polls[p];
      r.entries == s.entries - {c.container} && r.polls == s.polls - {p} &&
      r.inspects == s.inspects && r.killed == s.killed &&
      (Live(s, c.ws, c.container) ==> r.timers == s.timers[s.next := c] && r.next == s.next + 1) &&
      (!Live(s, c.ws, c.container) ==> r.timers == s.timers && r.sent == s.sent) &&
      (Live(s, c.ws, c.container) && DataLine(code, output).Some? ==>
        r.sent == s.sent + [StatsMsg(c.ws, c.container, ParseStatsLine(DataLine(code, output).value))]) &&
      (DataLine(code, output).None? ==> r.sent == s.sent)
  {
    if p !in s.polls then s
    else
      var c := s.polls[p];
      var s1 := s.(polls := s.polls - {p});
      if !Holds(s1, c.container, p) then s1
      else
        var line := DataLine(code, output);
        var live := Live(s1, c.ws, c.container);
        var s2 := if line.Some? && live
          then s1.(sent := s1.sent + [StatsMsg(c.ws, c.container, ParseStatsLine(line.value))])
          else s1;
        var s3 := s2.(entries := s2.entries - {c.container});
        if live then s3.(timers := s3.timers[s3.next := c], next := s3.next + 1) else s3
  }

  /** The poll process `p` could not be spawned: its entry is deleted if it
      is still the current one, and no re-poll is scheduled. */
  function SpawnFailed(s: Server, p: ProcessId): (r: Server)
    ensures r.sockets == s.sockets
    ensures p in s.polls && Holds(s, s.polls[p].container, p) ==> s.polls[p].container !in r.entries
    ensures p !in s.polls || !Holds(s, s.polls[p].container, p) ==> r.entries == s.entries
    ensures r.sent == s.sent && r.timers == s.timers && r.inspects == s.inspects && r.polls == s.polls
  {
    if p in s.polls && Holds(s, s.polls[p].container, p) then
      s.(entries := s.entries - {s.polls[p].container})
    else s
  }

  /** A re-poll timer fired. While the socket is still open and subscribed
      the stream restarts: the socket's own entry for the container is
      stopped and a fresh `docker inspect` spawned. Otherwise only the timer
      is gone. */
  function TimerDone(s: Server, t: TimerId): (r: Server)
    ensures r.sockets == s.sockets
    ensures t !in s.timers ==> r == s
    ensures t in s.timers && !Live(s, s.timers[t].ws, s.timers[t].container) ==>
      r == s.(timers := s.timers - {t})
    ensures t in s.timers && Live(s, s.timers[t].ws, s.timers[t].container) ==>
      var c := s.timers[t];
      && r.inspects == s.inspects[s.next := c]
      && r.next == s.next + 1
      && t !in r.timers && r.timers.Keys <= s.timers.Keys
      && (Stops(s, c.container, Some(c.ws)) ==> c.container !in r.entries)
      && (!Stops(s, c.container, Some(c.ws)) ==> r.entries == s.entries)
      && OthersUnchanged(s, r, c.container)
      && r.polls == s.polls && s.killed <= r.killed
    ensures r.sent == s.sent
  {
    if t !in s.timers then s
    else
      var c := s.timers[t];
      var s1 := s.(timers := s.timers - {t});
      if Live(s1, c.ws, c.container) then StartStatsStream(s1, c.ws, c.container, c.rate) else s1
  }

  /** One event. */
  function Step(s: Server, e: Event): (r: Server)
    ensures s.sent <= r.sent && s.killed <= r.killed
  {
    match e
    case Connect => Connected(s)
    case Receive(ws, msg) => Received(s, ws, msg)
    case CloseStarted(ws) => Closing(s, ws)
    case Disconnect(ws) => Disconnected(s, ws)
    case InspectClosed(p, output) => InspectDone(s, p, output)
    case StatsClosed(p, code, output) => StatsDone(s, p, code, output)
    case StatsSpawnError(p) => SpawnFailed(s, p)
    case TimerFired(t) => TimerDone(s, t)
  }

  /** A sequence of events, applied left to right. */
  function Run(s: Server, es: seq<Event>): (r: Server)
    ensures s.sent <= r.sent && s.killed <= r.killed
    decreases |es|
  {
    if es == [] then s else Run(Step(s, es[0]), es[1..])
  }

  /** Running two event sequences one after the other is running their
      concatenation. */
  lemma {:induction false} RunAppend(s: Server, es1: seq<Event>, es2: seq<Event>)
    ensures Run(s, es1 + es2) == Run(Run(s, es1), es2)
    decreases |es1|
  {
    if es1 != [] {
      assert (es1 + es2)[0] == es1[0];
      assert (es1 + es2)[1..] == es1[1..] + es2;
      RunAppend(Step(s, es1[0]), es1[1..], es2);
    } else {
      assert es1 + es2 == es2;
    }
  }
}
