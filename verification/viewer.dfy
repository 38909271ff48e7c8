/**
 * The browser client of public/app.js as bookkeeping: the ordered map of
 * known containers, the set of visible ones, which cards are on the page,
 * the per-container chart history, the refresh rate, and the messages
 * written to the WebSocket. The DOM, Chart.js and timers are left out; a
 * card is recorded by its container id.
 */
module Viewer {
  import opened Options
  import opened JsNumber
  import opened StatsLine
  import opened History
  import Registry

  type ContainerId = string

  /** One element of the `/api/containers` answer. */
  datatype ContainerInfo = ContainerInfo(id: ContainerId, name: string, state: string, status: string)

  /** No id occurs twice: the entries of a JavaScript `Map` keyed by id. */
  predicate DistinctIds(cs: seq<ContainerInfo>) {
    forall i, j :: 0 <= i < j < |cs| ==> cs[i].id != cs[j].id
  }

  /** `this.containers`: a `Map` from id to container, in insertion order. */
  type Known = cs: seq<ContainerInfo> | DistinctIds(cs) witness []

  /** The ids of a list of containers. */
  function Ids(cs: seq<ContainerInfo>): set<ContainerId> {
    set c | c in cs :: c.id
  }

  /** The ids of a list of containers, in order, duplicates kept. */
  function IdList(cs: seq<ContainerInfo>): seq<ContainerId> {
    seq(|cs|, i requires 0 <= i < |cs| => cs[i].id)
  }

  function Init<T>(xs: seq<T>): seq<T>
    requires xs != []
  {
    xs[..|xs| - 1]
  }

  function Last<T>(xs: seq<T>): T
    requires xs != []
  {
    xs[|xs| - 1]
  }

  lemma IdsSnoc(cs: seq<ContainerInfo>)
    requires cs != []
    ensures Ids(cs) == Ids(Init(cs)) + {Last(cs).id}
  {
    assert cs == Init(cs) + [Last(cs)];
    forall x | x in Ids(cs) ensures x in Ids(Init(cs)) + {Last(cs).id} {
      var c :| c in cs && c.id == x;
      var i :| 0 <= i < |cs| && cs[i] == c;
      if i < |cs| - 1 {
        assert Init(cs)[i] == c;
      }
    }
  }

  /** Where `id` sits in `cs`, or `|cs|` when it is absent. */
  function IndexOf(cs: seq<ContainerInfo>, id: ContainerId): (i: nat)
    ensures i <= |cs|
    ensures i < |cs| ==> cs[i].id == id
    ensures forall j :: 0 <= j < i ==> cs[j].id != id
    ensures i == |cs| <==> id !in Ids(cs)
    decreases |cs|
  {
    if cs == [] then 0
    else if cs[0].id == id then 0
    else
      var i := IndexOf(cs[1..], id);
      assert i == |cs[1..]| ==> forall c :: c in cs ==> c == cs[0] || c in cs[1..];
      1 + i
  }

  /** `Map.get`. */
  function Get(cs: Known, id: ContainerId): (c: ContainerInfo)
    requires id in Ids(cs)
    ensures c in cs && c.id == id
  {
    cs[IndexOf(cs, id)]
  }

  /** `Map.set(c.id, c)`: an id already present keeps its place and takes
      the new value; a new id goes to the end. */
  function Put(cs: Known, c: ContainerInfo): (r: Known)
    ensures Ids(r) == Ids(cs) + {c.id}
    ensures c in r && r != []
    ensures c.id in Ids(cs) ==>
      |r| == |cs| && forall i :: 0 <= i < |cs| ==> r[i] == if cs[i].id == c.id then c else cs[i]
    ensures c.id !in Ids(cs) ==> r == cs + [c]
  {
    var i := IndexOf(cs, c.id);
    if i < |cs| then
      var r := cs[i := c];
      assert forall j :: 0 <= j < |cs| && j != i ==> cs[j].id != c.id;
      assert Ids(r) == Ids(cs) by {
        forall x | x in Ids(r) ensures x in Ids(cs) {
          var d :| d in r && d.id == x;
          var k :| 0 <= k < |r| && r[k] == d;
          assert cs[k].id == x;
        }
        forall x | x in Ids(cs) ensures x in Ids(r) {
          var d :| d in cs && d.id == x;
          var k :| 0 <= k < |cs| && cs[k] == d;
          assert r[k].id == x;
        }
      }
      r
    else
      var r := cs + [c];
      IdsSnoc(r);
      assert Init(r) == cs;
      r
  }

  /** Setting the entries of `list` one after another on an empty map. */
  function Build(list: seq<ContainerInfo>): (r: Known)
    ensures Ids(r) == Ids(list)
    decreases |list|
  {
    if list == [] then []
    else
      IdsSnoc(list);
      Put(Build(Init(list)), Last(list))
  }

  /** In a list without repeated ids, the last id is new to the rest. */
  lemma FreshLast(list: seq<ContainerInfo>)
    requires list != [] && DistinctIds(list)
    ensures DistinctIds(Init(list))
    ensures Last(list).id !in Ids(Init(list))
  {
    var front := Init(list);
    forall d | d in front ensures d.id != Last(list).id {
      var k :| 0 <= k < |front| && front[k] == d;
      assert list[k] == d;
    }
  }

  /** A list without repeated ids becomes a map holding it in its own order. */
  lemma {:induction false} BuildDistinct(list: seq<ContainerInfo>)
    requires DistinctIds(list)
    ensures Build(list) == list
    decreases |list|
  {
    if list != [] {
      var front, c := Init(list), Last(list);
      FreshLast(list);
      BuildDistinct(front);
      assert Build(list) == Put(front, c);
      assert front + [c] == list;
    }
  }

  /** A message the client writes to the socket. The refresh rate is `None`
      when `parseInt` gave NaN, which `JSON.stringify` sends as `null`. */
  datatype Request =
    | Subscribe(id: ContainerId, rate: Option<int>)
    | Unsubscribe(id: ContainerId)

  /** The fields of a `DockerStatsViewer` this model keeps. `cards` are the
      ids with a `container-<id>` element on the page; `history` is
      `statsData` (set together with `charts`); `sent` is everything written
      to the socket so far. `socketOpen` is `readyState === OPEN`: it holds
      from `onopen` until the socket leaves OPEN, which happens when the
      closing handshake starts, before `onclose` runs. */
  datatype Viewer = Viewer(
    containers: Known,
    visible: set<ContainerId>,
    cards: set<ContainerId>,
    history: map<ContainerId, Series>,
    rate: Option<int>,
    socketOpen: bool,
    sent: seq<Request>)

  /** The state the constructor sets up. */
  const Initial := Viewer([], {}, {}, map[], Some(2000), false, [])

  /** Every known container has a card and a chart history, only known
      containers have cards or are visible, and every history is a proper
      window. */
  predicate Valid(v: Viewer) {
    && v.cards == Ids(v.containers)
    && v.visible <= v.cards
    && Ids(v.containers) <= v.history.Keys
    && forall x :: x in v.history ==> WellFormed(v.history[x])
  }

  lemma InitialValid()
    ensures Valid(Initial)
  {
  }

  /** The subscribe messages for `ids`, in order. */
  function Subscriptions(ids: seq<ContainerId>, rate: Option<int>): seq<Request> {
    seq(|ids|, i requires 0 <= i < |ids| => Subscribe(ids[i], rate))
  }

  lemma SubscriptionsSnoc(ids: seq<ContainerId>, x: ContainerId, rate: Option<int>)
    ensures Subscriptions(ids + [x], rate) == Subscriptions(ids, rate) + [Subscribe(x, rate)]
  {
  }

  /** The ids of `cs`, in map order, whose visibility is `shown`. */
  function Shown(cs: seq<ContainerInfo>, visible: set<ContainerId>, shown: bool): (ids: seq<ContainerId>)
    ensures forall x :: x in ids <==> x in Ids(cs) && (x in visible) == shown
    ensures DistinctIds(cs) ==> forall i, j :: 0 <= i < j < |ids| ==> ids[i] != ids[j]
    decreases |cs|
  {
    if cs == [] then []
    else
      IdsSnoc(cs);
      var c := Last(cs);
      var ids := Shown(Init(cs), visible, shown) + if (c.id in visible) == shown then [c.id] else [];
      assert DistinctIds(cs) ==> forall i, j :: 0 <= i < j < |ids| ==> ids[i] != ids[j] by {
        if DistinctIds(cs) {
          FreshLast(cs);
        }
      }
      ids
  }

  /** `toggleContainerVisibility`: nothing happens to a container without a
      card; otherwise its visibility flips and, while the socket is open,
      the server is told to stop or start its stream. */
  function Toggle(v: Viewer, id: ContainerId): (r: Viewer)
    ensures id !in v.cards ==> r == v
    ensures id in v.cards ==> (id in r.visible <==> id !in v.visible)
    ensures r.visible - {id} == v.visible - {id}
    ensures r.(visible := v.visible, sent := v.sent) == v
    ensures id in v.cards && v.socketOpen ==>
      r.sent == v.sent + [if id in v.visible then Unsubscribe(id) else Subscribe(id, v.rate)]
    ensures !v.socketOpen ==> r.sent == v.sent
    ensures Valid(v) ==> Valid(r)
  {
    if id !in v.cards then v
    else if id in v.visible then
      var r := v.(visible := v.visible - {id});
      if v.socketOpen then r.(sent := r.sent + [Unsubscribe(id)]) else r
    else
      var r := v.(visible := v.visible + {id});
      if v.socketOpen then r.(sent := r.sent + [Subscribe(id, v.rate)]) else r
  }

  /** Toggling twice restores the visible set, and with the socket open the
      server receives one unsubscribe and one subscribe for the container. */
  lemma ToggleTwice(v: Viewer, id: ContainerId)
    requires id in v.cards
    ensures var r := Toggle(Toggle(v, id), id);
      && r.visible == v.visible
      && r.(sent := v.sent) == v
      && (!v.socketOpen ==> r.sent == v.sent)
    ensures var r := Toggle(Toggle(v, id), id);
      v.socketOpen ==>
        && |r.sent| == |v.sent| + 2
        && r.sent[..|v.sent|] == v.sent
        && multiset(r.sent[|v.sent|..]) == multiset{Unsubscribe(id), Subscribe(id, v.rate)}
  {
    var r1 := Toggle(v, id);
    var r := Toggle(r1, id);
    if v.socketOpen {
      if id in v.visible {
        assert r.sent[|v.sent|..] == [Unsubscribe(id), Subscribe(id, v.rate)];
      } else {
        assert r.sent[|v.sent|..] == [Subscribe(id, v.rate), Unsubscribe(id)];
      }
    }
  }

  /** One more container of the map, seen from the front. */
  lemma PrefixStep(cs: Known, i: nat, visible: set<ContainerId>)
    requires i < |cs|
    ensures Ids(cs[..i + 1]) == Ids(cs[..i]) + {cs[i].id}
    ensures cs[i].id !in Ids(cs[..i])
    ensures Shown(cs[..i + 1], visible, false) ==
      Shown(cs[..i], visible, false) + if cs[i].id in visible then [] else [cs[i].id]
  {
    var p: Known := cs[..i + 1];
    FreshLast(p);
    IdsSnoc(p);
    assert Init(p) == cs[..i];
  }

  /** One turn of the `selectAllContainers` loop: the container at `i` was
      visible before exactly when it was visible at the start, and it adds a
      subscribe message exactly when it was hidden. */
  lemma ShowStep(cs: Known, i: nat, visible0: set<ContainerId>, rate: Option<int>)
    requires i < |cs|
    ensures Ids(cs[..i + 1]) == Ids(cs[..i]) + {cs[i].id}
    ensures cs[i].id in visible0 + Ids(cs[..i]) <==> cs[i].id in visible0
    ensures cs[i].id in visible0 ==>
      Subscriptions(Shown(cs[..i + 1], visible0, false), rate) ==
      Subscriptions(Shown(cs[..i], visible0, false), rate)
    ensures cs[i].id !in visible0 ==>
      Subscriptions(Shown(cs[..i + 1], visible0, false), rate) ==
      Subscriptions(Shown(cs[..i], visible0, false), rate) + [Subscribe(cs[i].id, rate)]
  {
    var h := Shown(cs[..i], visible0, false);
    PrefixStep(cs, i, visible0);
    if cs[i].id in visible0 {
      assert h + [] == h;
    } else {
      SubscriptionsSnoc(h, cs[i].id, rate);
    }
  }

  /** The loop of `selectAllContainers` over the map `cs`: every container
      becomes visible, and while `open` each one that was hidden gets a
      subscribe message, in map order. */
  method ShowAll(cs: Known, visible0: set<ContainerId>, open: bool, rate: Option<int>)
    returns (visible: set<ContainerId>, u: seq<Request>)
    ensures visible == visible0 + Ids(cs)
    ensures u == if open then Subscriptions(Shown(cs, visible0, false), rate) else []
  {
    visible, u := visible0, [];
    var i := 0;
    while i < |cs|
      invariant 0 <= i <= |cs|
      invariant visible == visible0 + Ids(cs[..i])
      invariant u == if open then Subscriptions(Shown(cs[..i], visible0, false), rate) else []
    {
      var id := cs[i].id;
      ShowStep(cs, i, visible0, rate);
      if id !in visible && open {
        u := u + [Subscribe(id, rate)];
      }
      visible := visible + {id};
      i := i + 1;
    }
    assert cs[..i] == cs;
  }

  /** `selectAllContainers`: every known container becomes visible, and while
      the socket is open the server is asked, in map order, for exactly the
      ones that were hidden. */
  method SelectAll(v: Viewer) returns (r: Viewer)
    ensures r.visible == v.visible + Ids(v.containers)
    ensures r.sent == v.sent + if v.socketOpen then Subscriptions(Shown(v.containers, v.visible, false), v.rate) else []
    ensures r.(visible := v.visible, sent := v.sent) == v
    ensures Valid(v) ==> Valid(r)
  {
    var visible, u := ShowAll(v.containers, v.visible, v.socketOpen, v.rate);
    r := v.(visible := visible, sent := v.sent + u);
  }

  /** The messages of `u` are one unsubscribe for each id of `ids`. */
  predicate UnsubscribesEach(u: seq<Request>, ids: set<ContainerId>) {
    && |u| == |ids|
    && (forall k :: 0 <= k < |u| ==> u[k].Unsubscribe? && u[k].id in ids)
    && forall x :: x in ids ==> Unsubscribe(x) in u
  }

  /** `selectNoneContainers`: while the socket is open the server is told to
      stop every visible container's stream, once each; then nothing is
      visible. */
  method SelectNone(v: Viewer) returns (r: Viewer)
    ensures r.visible == {}
    ensures v.socketOpen ==>
      |r.sent| >= |v.sent| && r.sent[..|v.sent|] == v.sent && UnsubscribesEach(r.sent[|v.sent|..], v.visible)
    ensures !v.socketOpen ==> r.sent == v.sent
    ensures r.(visible := v.visible, sent := v.sent) == v
    ensures Valid(v) ==> Valid(r)
  {
    var u: seq<Request> := [];
    if v.socketOpen {
      var todo, done := v.visible, {};
      while todo != {}
        invariant todo + done == v.visible && todo !! done
        invariant |u| == |done|
        invariant forall k :: 0 <= k < |u| ==> u[k].Unsubscribe? && u[k].id in done
        invariant forall x :: x in done ==> Unsubscribe(x) in u
        decreases |todo|
      {
        var x :| x in todo;
        u := u + [Unsubscribe(x)];
        todo, done := todo - {x}, done + {x};
      }
    }
    r := v.(visible := {}, sent := v.sent + u);
    assert r.sent[..|v.sent|] == v.sent && r.sent[|v.sent|..] == u;
  }

  lemma IdListSnoc(cs: seq<ContainerInfo>)
    requires cs != []
    ensures IdList(cs) == IdList(Init(cs)) + [Last(cs).id]
  {
  }

  /** What one pass of the `addNewContainers` loop does for `c`: store it,
      show it, give it a card and an empty chart history, and subscribe to it
      while the socket is open. */
  function AddOne(v: Viewer, c: ContainerInfo): (r: Viewer)
    ensures Ids(r.containers) == Ids(v.containers) + {c.id} && r.containers != []
    ensures r.visible == v.visible + {c.id} && r.cards == v.cards + {c.id}
    ensures r.history == v.history[c.id := Empty]
    ensures r.sent == v.sent + if v.socketOpen then [Subscribe(c.id, v.rate)] else []
    ensures r.rate == v.rate && r.socketOpen == v.socketOpen
    ensures |r.containers| >= |v.containers|
    ensures forall i :: 0 <= i < |v.containers| && v.containers[i].id != c.id ==>
      r.containers[i] == v.containers[i]
    ensures Valid(v) ==> Valid(r)
  {
    var r := v.(
      containers := Put(v.containers, c),
      visible := v.visible + {c.id},
      cards := v.cards + {c.id},
      history := v.history[c.id := Empty]);
    if v.socketOpen then r.(sent := r.sent + [Subscribe(c.id, v.rate)]) else r
  }

  /** `addNewContainers`: every listed container is stored, visible, on the
      page with an empty history, and subscribed to in list order while the
      socket is open; the containers already known keep their places. */
  function AddNewContainers(v: Viewer, news: seq<ContainerInfo>): (r: Viewer)
    ensures Ids(r.containers) == Ids(v.containers) + Ids(news)
    ensures r.visible == v.visible + Ids(news)
    ensures r.cards == v.cards + Ids(news)
    ensures r.rate == v.rate && r.socketOpen == v.socketOpen
    decreases |news|
  {
    if news == [] then v
    else
      IdsSnoc(news);
      AddOne(AddNewContainers(v, Init(news)), Last(news))
  }

  /** The containers already known keep their places: the map only grows,
      and an entry whose id is not among the new ones is unchanged. */
  lemma {:induction false} AddNewContainersKeepsKnown(v: Viewer, news: seq<ContainerInfo>)
    ensures var r := AddNewContainers(v, news);
      && |r.containers| >= |v.containers|
      && forall i :: 0 <= i < |v.containers| && v.containers[i].id !in Ids(news) ==>
           r.containers[i] == v.containers[i]
    decreases |news|
  {
    if news != [] {
      IdsSnoc(news);
      AddNewContainersKeepsKnown(v, Init(news));
      assert AddNewContainers(v, news) == AddOne(AddNewContainers(v, Init(news)), Last(news));
    }
  }

  /** While the socket is open the added containers are subscribed to in
      list order, at the current rate; otherwise nothing is sent. */
  lemma {:induction false} AddNewContainersSent(v: Viewer, news: seq<ContainerInfo>)
    ensures AddNewContainers(v, news).sent == v.sent + if v.socketOpen then Subscriptions(IdList(news), v.rate) else []
    decreases |news|
  {
    if news != [] {
      IdListSnoc(news);
      AddNewContainersSent(v, Init(news));
      SubscriptionsSnoc(IdList(Init(news)), Last(news).id, v.rate);
      assert AddNewContainers(v, news) == AddOne(AddNewContainers(v, Init(news)), Last(news));
    }
  }

  /** The added containers get a history; no other history appears or
      disappears. */
  lemma {:induction false} AddNewContainersKeys(v: Viewer, news: seq<ContainerInfo>)
    ensures AddNewContainers(v, news).history.Keys == v.history.Keys + Ids(news)
    decreases |news|
  {
    if news != [] {
      IdsSnoc(news);
      AddNewContainersKeys(v, Init(news));
      assert AddNewContainers(v, news) == AddOne(AddNewContainers(v, Init(news)), Last(news));
    }
  }

  /** Every added container starts with an empty history and the others
      keep theirs. */
  lemma {:induction false} AddNewContainersHistory(v: Viewer, news: seq<ContainerInfo>)
    ensures var r := AddNewContainers(v, news);
      forall x :: x in r.history ==>
        if x in Ids(news) then r.history[x] == Empty
        else x in v.history && r.history[x] == v.history[x]
    decreases |news|
  {
    if news != [] {
      IdsSnoc(news);
      var front, c := Init(news), Last(news);
      AddNewContainersHistory(v, front);
      var before := AddNewContainers(v, front);
      var r := AddNewContainers(v, news);
      assert r == AddOne(before, c);
      assert r.history == before.history[c.id := Empty];
      forall x | x in r.history
        ensures if x in Ids(news) then r.history[x] == Empty
          else x in v.history && r.history[x] == v.history[x]
      {
        if x != c.id {
          assert x in before.history;
        }
      }
    }
  }

  /** Adding containers keeps the viewer consistent. */
  lemma AddNewContainersValid(v: Viewer, news: seq<ContainerInfo>)
    requires Valid(v)
    ensures Valid(AddNewContainers(v, news))
  {
    AddNewContainersKeys(v, news);
    AddNewContainersHistory(v, news);
  }

  /** One row `c` of the answer: a known container whose state changed takes
      the row's state and status in place; every other container is kept. */
  function RefreshOne(cs: Known, c: ContainerInfo): (r: Known)
    ensures |r| == |cs| && Ids(r) == Ids(cs)
    ensures forall i :: 0 <= i < |cs| ==> r[i].id == cs[i].id && r[i].name == cs[i].name
    ensures forall i :: 0 <= i < |cs| && cs[i].id != c.id ==> r[i] == cs[i]
  {
    if c.id in Ids(cs) && Get(cs, c.id).state != c.state then
      Put(cs, Get(cs, c.id).(state := c.state, status := c.status))
    else cs
  }

  /** The state-update loop of `checkForContainerChanges` over the answer
      `current`: the map keeps its ids, order and names; a container absent
      from the answer is untouched. */
  function Refresh(cs: Known, current: seq<ContainerInfo>): (r: Known)
    ensures |r| == |cs| && Ids(r) == Ids(cs)
    ensures forall i :: 0 <= i < |cs| ==> r[i].id == cs[i].id && r[i].name == cs[i].name
    ensures forall i :: 0 <= i < |cs| && cs[i].id !in Ids(current) ==> r[i] == cs[i]
    decreases |current|
  {
    if current == [] then cs
    else
      IdsSnoc(current);
      RefreshOne(Refresh(cs, Init(current)), Last(current))
  }

  /** When the answer lists a known container once, that container ends with
      the answer's state and status if its state changed, and as it was
      otherwise. */
  lemma {:induction false} RefreshMeaning(cs: Known, current: seq<ContainerInfo>, i: nat, j: nat)
    requires DistinctIds(current)
    requires i < |cs| && j < |current| && current[j].id == cs[i].id
    ensures Refresh(cs, current)[i] ==
      if cs[i].state != current[j].state
      then cs[i].(state := current[j].state, status := current[j].status)
      else cs[i]
    decreases |current|
  {
    FreshLast(current);
    var front, c := Init(current), Last(current);
    var before := Refresh(cs, front);
    assert Refresh(cs, current) == RefreshOne(before, c);
    if j == |current| - 1 {
      assert before[i] == cs[i];
      assert Get(before, c.id) == before[i] by {
        assert before[IndexOf(before, c.id)].id == before[i].id;
      }
    } else {
      assert current[j] == front[j];
      RefreshMeaning(cs, front, i, j);
      assert c.id != cs[i].id;
    }
  }

  /** The rows of `current` whose id is not in `known`, in order. */
  function NewContainers(current: seq<ContainerInfo>, known: set<ContainerId>): (r: seq<ContainerInfo>)
    ensures forall c :: c in r <==> c in current && c.id !in known
    ensures Ids(r) == Ids(current) - known
    decreases |current|
  {
    if current == [] then []
    else
      IdsSnoc(current);
      var c := Last(current);
      var r := NewContainers(Init(current), known) + if c.id in known then [] else [c];
      assert current == Init(current) + [c];
      if c.id !in known then IdsSnoc(r); assert Init(r) == NewContainers(Init(current), known); r
      else r
  }

  /** `checkForContainerChanges` up to its final test: state updates for
      known containers, then `addNewContainers` for the rows whose id was
      not known. It never forgets a container, shows exactly the new ones in
      addition, and leaves a non-empty map whenever the answer was
      non-empty. */
  function Merge(v: Viewer, current: seq<ContainerInfo>): (r: Viewer)
    ensures Ids(r.containers) == Ids(v.containers) + Ids(current)
    ensures r.visible == v.visible + (Ids(current) - Ids(v.containers))
    ensures r.cards == v.cards + (Ids(current) - Ids(v.containers))
    ensures r.rate == v.rate && r.socketOpen == v.socketOpen
  {
    var news := NewContainers(current, Ids(v.containers));
    var v1 := v.(containers := Refresh(v.containers, current));
    if |news| > 0 then AddNewContainers(v1, news) else v1
  }

  /** After a non-empty answer the map is not empty: either a listed
      container was already known, or it is new and has been added. So the
      final `renderContainers` branch of `checkForContainerChanges` never
      runs. */
  lemma MergeNonEmpty(v: Viewer, current: seq<ContainerInfo>)
    requires current != []
    ensures Merge(v, current).containers != []
  {
    var c := current[0];
    assert c in current;
    if c.id in Ids(v.containers) {
      MergeKeepsKnown(v, current);
      assert v.containers != [];
    } else {
      assert c.id in Ids(Merge(v, current).containers);
    }
  }

  /** A map that extends `a` without touching ids outside `ids` starts
      with `a`. */
  lemma PrefixUntouched(a: seq<ContainerInfo>, b: seq<ContainerInfo>, ids: set<ContainerId>)
    requires |b| >= |a| && Ids(a) !! ids
    requires forall i :: 0 <= i < |a| && a[i].id !in ids ==> b[i] == a[i]
    ensures b[..|a|] == a
  {
    forall i | 0 <= i < |a| ensures b[i] == a[i] {
      assert a[i] in a;
    }
  }

  /** Containers that are all new are appended after the known ones. */
  lemma AddNewContainersPrefix(v: Viewer, news: seq<ContainerInfo>)
    requires Ids(v.containers) !! Ids(news)
    ensures var r := AddNewContainers(v, news);
      |r.containers| >= |v.containers| && r.containers[..|v.containers|] == v.containers
  {
    AddNewContainersKeepsKnown(v, news);
    PrefixUntouched(v.containers, AddNewContainers(v, news).containers, Ids(news));
  }

  /** The known containers keep their places at the front of the map and
      change only as `Refresh` says. */
  lemma MergeKeepsKnown(v: Viewer, current: seq<ContainerInfo>)
    ensures |Merge(v, current).containers| >= |v.containers|
    ensures Merge(v, current).containers[..|v.containers|] == Refresh(v.containers, current)
  {
    var news := NewContainers(current, Ids(v.containers));
    var cs := Refresh(v.containers, current);
    var v1 := v.(containers := cs);
    if |news| > 0 {
      assert Merge(v, current) == AddNewContainers(v1, news);
      AddNewContainersPrefix(v1, news);
    } else {
      assert Merge(v, current) == v1;
    }
  }

  /** While the socket is open the new containers are subscribed to in
      answer order; otherwise nothing is sent. */
  lemma MergeSent(v: Viewer, current: seq<ContainerInfo>)
    ensures Merge(v, current).sent == v.sent +
      if v.socketOpen then Subscriptions(IdList(NewContainers(current, Ids(v.containers))), v.rate) else []
  {
    var news := NewContainers(current, Ids(v.containers));
    AddNewContainersSent(v.(containers := Refresh(v.containers, current)), news);
  }

  lemma MergeValid(v: Viewer, current: seq<ContainerInfo>)
    ensures Valid(v) ==> Valid(Merge(v, current))
  {
    var news := NewContainers(current, Ids(v.containers));
    if Valid(v) && |news| > 0 {
      AddNewContainersValid(v.(containers := Refresh(v.containers, current)), news);
    }
  }

  /** `checkForContainerChanges`: a failed request (`None`) changes nothing;
      otherwise `Merge`, and `renderContainers` if the map is still empty
      although the answer was not, which `Merge` rules out. */
  function CheckForChanges(v: Viewer, response: Option<seq<ContainerInfo>>): (r: Viewer)
    ensures response.None? ==> r == v
    ensures response.Some? ==> r == Merge(v, response.value)
    ensures Valid(v) ==> Valid(r)
  {
    match response
    case None => v
    case Some(current) =>
      MergeValid(v, current);
      var merged := Merge(v, current);
      assert current != [] ==> merged.containers != [] by {
        if current != [] { MergeNonEmpty(v, current); }
      }
      if |merged.containers| == 0 && |current| > 0 then RenderContainers(merged, current) else merged
  }

  /** `renderContainers`: the map becomes the list (in list order when no id
      repeats), every listed container is visible with a card and a fresh
      history, cards of other containers are gone, their histories stay. */
  function RenderContainers(v: Viewer, list: seq<ContainerInfo>): (r: Viewer)
    ensures Ids(r.containers) == Ids(list) && r.visible == Ids(list) && r.cards == Ids(list)
    ensures DistinctIds(list) ==> r.containers == list
    ensures r.history.Keys == v.history.Keys + Ids(list)
    ensures r.sent == v.sent && r.rate == v.rate && r.socketOpen == v.socketOpen
  {
    var r := v.(
      containers := Build(list),
      visible := Ids(list),
      cards := Ids(list),
      history := map x | x in v.history.Keys + Ids(list) :: if x in Ids(list) then Empty else v.history[x]);
    if DistinctIds(list) then BuildDistinct(list); r else r
  }

  /** Every listed container gets a fresh chart history; a container that is
      no longer listed keeps its old one; the viewer stays consistent. */
  lemma RenderHistory(v: Viewer, list: seq<ContainerInfo>)
    ensures var r := RenderContainers(v, list);
      && (forall x :: x in Ids(list) ==> r.history[x] == Empty)
      && (forall x :: x in v.history && x !in Ids(list) ==> r.history[x] == v.history[x])
    ensures Valid(v) ==> Valid(RenderContainers(v, list))
  {
  }

  /** The unsubscribe-then-subscribe pairs `changeRefreshRate` sends. */
  function Resubscriptions(ids: seq<ContainerId>, rate: Option<int>): (u: seq<Request>)
    ensures forall k :: 0 <= k < |u| ==> u[k].id in ids
    decreases |ids|
  {
    if ids == [] then []
    else Resubscriptions(Init(ids), rate) + [Unsubscribe(Last(ids)), Subscribe(Last(ids), rate)]
  }

  /** Pair `k` of the resubscriptions stops and restarts the `k`-th id. */
  lemma {:induction false} ResubscriptionPairs(ids: seq<ContainerId>, rate: Option<int>)
    ensures |Resubscriptions(ids, rate)| == 2 * |ids|
    ensures forall k :: 0 <= k < |ids| ==>
      && Resubscriptions(ids, rate)[2 * k] == Unsubscribe(ids[k])
      && Resubscriptions(ids, rate)[2 * k + 1] == Subscribe(ids[k], rate)
    decreases |ids|
  {
    if ids != [] {
      ResubscriptionPairs(Init(ids), rate);
      var front := Resubscriptions(Init(ids), rate);
      assert Resubscriptions(ids, rate) == front + [Unsubscribe(Last(ids)), Subscribe(Last(ids), rate)];
      forall k | 0 <= k < |ids|
        ensures Resubscriptions(ids, rate)[2 * k] == Unsubscribe(ids[k])
        ensures Resubscriptions(ids, rate)[2 * k + 1] == Subscribe(ids[k], rate)
      {
        if k < |ids| - 1 {
          assert ids[k] == Init(ids)[k];
        }
      }
    }
  }

  /** `changeRefreshRate`: the rate becomes `parseInt` of the choice, and
      while the socket is open every visible container is unsubscribed and
      subscribed again at the new rate, in map order. */
  function ChangeRefreshRate(v: Viewer, newRate: string): (r: Viewer)
    ensures r.rate == ParseInt(newRate)
    ensures r.sent == v.sent + if v.socketOpen then Resubscriptions(Shown(v.containers, v.visible, true), r.rate) else []
    ensures r.(rate := v.rate, sent := v.sent) == v
    ensures Valid(v) ==> Valid(r)
  {
    var rate := ParseInt(newRate);
    var r := v.(rate := rate);
    if v.socketOpen then r.(sent := v.sent + Resubscriptions(Shown(v.containers, v.visible, true), rate)) else r
  }

  /** With the socket open, a rate change sends two messages per visible
      container: pair `k` unsubscribes and resubscribes the `k`-th visible
      container at the new rate, and every visible container gets a pair. */
  lemma RateChangeMessages(v: Viewer, newRate: string)
    requires Valid(v) && v.socketOpen
    ensures var r, ids := ChangeRefreshRate(v, newRate), Shown(v.containers, v.visible, true);
      && |r.sent| == |v.sent| + 2 * |ids|
      && (forall x :: x in ids <==> x in v.visible)
      && forall k :: 0 <= k < |ids| ==>
        && r.sent[|v.sent| + 2 * k] == Unsubscribe(ids[k])
        && r.sent[|v.sent| + 2 * k + 1] == Subscribe(ids[k], ParseInt(newRate))
  {
    ResubscriptionPairs(Shown(v.containers, v.visible, true), ParseInt(newRate));
  }

  /** `onopen`: the socket is open and every visible container is
      subscribed to, in map order, at the current rate. */
  function SocketOpened(v: Viewer): (r: Viewer)
    ensures r.socketOpen
    ensures r.sent == v.sent + Subscriptions(Shown(v.containers, v.visible, true), v.rate)
    ensures r.(socketOpen := v.socketOpen, sent := v.sent) == v
    ensures Valid(v) ==> Valid(r)
  {
    v.(socketOpen := true, sent := v.sent + Subscriptions(Shown(v.containers, v.visible, true), v.rate))
  }

  /** On a fresh connection each visible container is subscribed exactly
      once and nothing else is. */
  lemma OpenSubscribesVisible(v: Viewer)
    requires Valid(v)
    ensures var u := SocketOpened(v).sent[|v.sent|..];
      && (forall k :: 0 <= k < |u| ==> u[k].Subscribe? && u[k].id in v.visible && u[k].rate == v.rate)
      && (forall x :: x in v.visible ==> Subscribe(x, v.rate) in u)
      && forall i, j :: 0 <= i < j < |u| ==> u[i] != u[j]
  {
    var ids := Shown(v.containers, v.visible, true);
    var u := SocketOpened(v).sent[|v.sent|..];
    assert u == Subscriptions(ids, v.rate);
    forall x | x in v.visible ensures Subscribe(x, v.rate) in u {
      var k :| 0 <= k < |ids| && ids[k] == x;
      assert u[k] == Subscribe(x, v.rate);
    }
  }

  /** The socket left the OPEN state (its closing handshake started, or the
      connection dropped): nothing more is sent until a new socket opens.
      The `onclose` handler that follows only arms the reconnect timer. */
  function SocketClosed(v: Viewer): (r: Viewer)
    ensures !r.socketOpen
    ensures r.(socketOpen := v.socketOpen) == v
    ensures Valid(v) ==> Valid(r)
  {
    v.(socketOpen := false)
  }

  /** The chart sample `updateStats` takes from a stats message: its four
      charted numbers, with the time label. */
  function SampleOf(stats: StatsRecord, time: string): Sample {
    Sample(time, stats.cpuPercent, stats.memPercent, stats.memUsed, stats.memTotal)
  }

  /** `JSON.stringify` sends NaN and ±Infinity as `null`, and `toFixed` on
      `null` throws. With the container's card on the page, `updateStats`
      calls `toFixed` on both percentages before it touches the chart, so a
      record whose CPU or memory percentage is not finite is dropped: the
      message handler catches the error. */
  predicate Renders(stats: StatsRecord) {
    stats.cpuPercent.Finite? && stats.memPercent.Finite?
  }

  /** `updateStats`: a container with a chart history gets the sample pushed
      onto every series, unless the card's text update throws first; any
      other id changes nothing. */
  function UpdateStats(v: Viewer, id: ContainerId, stats: StatsRecord, time: string): (r: Viewer)
    ensures id !in v.history ==> r == v
    ensures id in v.cards && !Renders(stats) ==> r == v
    ensures r.history.Keys == v.history.Keys
    ensures forall x :: x in v.history && x != id ==> r.history[x] == v.history[x]
    ensures id in v.history && (id !in v.cards || Renders(stats)) && WellFormed(v.history[id]) ==>
      var h, h' := v.history[id], r.history[id];
      && |h'.timestamps| == (if |h.timestamps| < Window then |h.timestamps| + 1 else Window)
      && EndsWith(h', SampleOf(stats, time))
      && h'.cpu[|h'.cpu| - 1] == stats.cpuPercent && h'.memory[|h'.memory| - 1] == stats.memPercent
      && h'.memUsed[|h'.memUsed| - 1] == stats.memUsed && h'.memTotal[|h'.memTotal| - 1] == stats.memTotal
    ensures r.(history := v.history) == v
    ensures Valid(v) ==> Valid(r)
  {
    if id in v.history && (id !in v.cards || Renders(stats)) then
      v.(history := v.history[id := Push(v.history[id], SampleOf(stats, time))])
    else v
  }

  /** A run of stats messages for one container, each with its time label:
      only that container's history changes. */
  function Updates(v: Viewer, id: ContainerId, us: seq<(StatsRecord, string)>): (r: Viewer)
    ensures r.(history := v.history) == v
    ensures r.history.Keys == v.history.Keys
    ensures forall x :: x in v.history && x != id ==> r.history[x] == v.history[x]
    decreases |us|
  {
    if us == [] then v else Updates(UpdateStats(v, id, us[0].0, us[0].1), id, us[1..])
  }

  /** The messages of a run that reach the chart: all of them without a card,
      only those that render with one. */
  function Charted(us: seq<(StatsRecord, string)>, carded: bool): (c: seq<(StatsRecord, string)>)
    ensures |c| <= |us|
    ensures forall k :: 0 <= k < |c| ==> c[k] in us && (carded ==> Renders(c[k].0))
    ensures (!carded || forall k :: 0 <= k < |us| ==> Renders(us[k].0)) ==> c == us
    decreases |us|
  {
    if us == [] then []
    else (if carded && !Renders(us[0].0) then [] else [us[0]]) + Charted(us[1..], carded)
  }

  function Samples(us: seq<(StatsRecord, string)>): seq<Sample> {
    seq(|us|, i requires 0 <= i < |us| => SampleOf(us[i].0, us[i].1))
  }

  /** The samples a run charts: the first message's, when it reaches the
      chart, then the rest's. */
  lemma ChartedSamples(us: seq<(StatsRecord, string)>, carded: bool)
    requires us != []
    ensures Samples(Charted(us, carded)) ==
      (if carded && !Renders(us[0].0) then [] else [SampleOf(us[0].0, us[0].1)])
      + Samples(Charted(us[1..], carded))
  {
    var head := if carded && !Renders(us[0].0) then [] else [us[0]];
    var rest := Charted(us[1..], carded);
    assert Charted(us, carded) == head + rest;
    SamplesAppend(head, rest);
  }

  lemma SamplesAppend(a: seq<(StatsRecord, string)>, b: seq<(StatsRecord, string)>)
    ensures Samples(a + b) == Samples(a) + Samples(b)
  {
    var l, r := Samples(a + b), Samples(a) + Samples(b);
    assert |l| == |r|;
    forall k | 0 <= k < |l| ensures l[k] == r[k] {
      if k < |a| { assert (a + b)[k] == a[k]; } else { assert (a + b)[k] == b[k - |a|]; }
    }
  }

  /** A run of updates replays, onto the container's history, the samples of
      the messages that reach its chart. */
  lemma {:induction false} UpdatesReplay(v: Viewer, id: ContainerId, us: seq<(StatsRecord, string)>)
    requires id in v.history
    ensures id in Updates(v, id, us).history
    ensures Updates(v, id, us).history[id] == Replay(v.history[id], Samples(Charted(us, id in v.cards)))
    decreases |us|
  {
    if us != [] {
      var carded := id in v.cards;
      var v' := UpdateStats(v, id, us[0].0, us[0].1);
      assert v'.cards == v.cards;
      UpdatesReplay(v', id, us[1..]);
      ChartedSamples(us, carded);
      var rest := Samples(Charted(us[1..], carded));
      if carded && !Renders(us[0].0) {
        assert v' == v;
        assert [] + rest == rest;
      } else {
        var x := SampleOf(us[0].0, us[0].1);
        assert v'.history[id] == Push(v.history[id], x);
        ReplayCons(v.history[id], x, rest);
      }
    }
  }

  /** A container whose chart was just set up shows, after any run of stats
      messages, exactly the last thirty of those that reached it, in order. */
  lemma ChartShowsLastThirty(v: Viewer, id: ContainerId, us: seq<(StatsRecord, string)>)
    requires id in v.history && v.history[id] == Empty
    ensures id in Updates(v, id, us).history
    ensures Updates(v, id, us).history[id] == Of(Recent(Samples(Charted(us, id in v.cards))))
  {
    UpdatesReplay(v, id, us);
    FromEmpty(Samples(Charted(us, id in v.cards)));
  }

  /** A record parsed by the server never has a NaN percentage, so it fails to
      render exactly when a percentage is ±Infinity (an `Infinity%` token). */
  lemma ParsedRendersUnlessInfinite(line: string)
    ensures var r := ParseStatsLine(line);
      !Renders(r) <==> r.cpuPercent.Infinity? || r.memPercent.Infinity?
  {
  }

  /** The server message a request becomes: `null` and `0` both reach the
      server as a falsy rate. */
  function Wire(q: Request): (m: Registry.Message)
    ensures q.Unsubscribe? ==> m == Registry.Unsubscribe(q.id)
    ensures q.Subscribe? ==> m.Subscribe? && m.container == q.id
  {
    match q
    case Subscribe(id, Some(n)) => Registry.Subscribe(id, n)
    case Subscribe(id, None) => Registry.Subscribe(id, 0)
    case Unsubscribe(id) => Registry.Unsubscribe(id)
  }

  /** The polling rate the server starts for a client subscription: the
      client's rate when it is a non-zero number, the server default when it
      is NaN or zero. */
  lemma SubscriptionRate(s: Registry.Server, ws: Registry.SocketId, id: ContainerId, rate: Option<int>)
    requires ws in s.sockets
    ensures var r := Registry.Received(s, ws, Wire(Subscribe(id, rate)));
      && s.next in r.inspects
      && r.inspects[s.next].rate == if rate.Some? && rate.value != 0 then rate.value else Registry.DefaultRate
  {
  }
}
