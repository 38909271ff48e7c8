/**
 * The per-container chart history of the viewer (`updateStats` in
 * public/app.js): five parallel series (time labels, CPU %, memory %, memory
 * used, memory limit) that keep the most recent thirty samples.
 */
module History {
  import opened JsNumber

  /** The number of samples a chart keeps. */
  const Window := 30

  /** One stats update as the chart sees it. */
  datatype Sample = Sample(time: string, cpu: Number, memory: Number, memUsed: Number, memTotal: Number)

  /** The five arrays of a `statsData` value. */
  datatype Series = Series(
    timestamps: seq<string>,
    cpu: seq<Number>,
    memory: seq<Number>,
    memUsed: seq<Number>,
    memTotal: seq<Number>)

  /** What `initializeChart` stores: five empty arrays. */
  const Empty := Series([], [], [], [], [])

  /** The five series have one entry per sample and no more than the window. */
  predicate WellFormed(h: Series) {
    && |h.cpu| == |h.timestamps|
    && |h.memory| == |h.timestamps|
    && |h.memUsed| == |h.timestamps|
    && |h.memTotal| == |h.timestamps|
    && |h.timestamps| <= Window
  }

  /** The series of exactly the samples `ss`, oldest first. */
  function Of(ss: seq<Sample>): (h: Series)
    ensures WellFormed(h) <==> |ss| <= Window
    ensures |h.timestamps| == |ss|
  {
    Series(
      seq(|ss|, i requires 0 <= i < |ss| => ss[i].time),
      seq(|ss|, i requires 0 <= i < |ss| => ss[i].cpu),
      seq(|ss|, i requires 0 <= i < |ss| => ss[i].memory),
      seq(|ss|, i requires 0 <= i < |ss| => ss[i].memUsed),
      seq(|ss|, i requires 0 <= i < |ss| => ss[i].memTotal))
  }

  /** The last `Window` samples of `ss` (all of them when there are fewer). */
  function Recent(ss: seq<Sample>): (w: seq<Sample>)
    ensures |w| == if |ss| <= Window then |ss| else Window
    ensures w == ss[|ss| - |w|..]
  {
    if |ss| <= Window then ss else ss[|ss| - Window..]
  }

  /** `shift()` on an array: drop the first element; an empty array stays
      empty. */
  function Shift<T>(xs: seq<T>): (r: seq<T>)
    ensures xs != [] ==> [xs[0]] + r == xs
    ensures xs == [] ==> r == []
  {
    if xs == [] then [] else xs[1..]
  }

  /** The newest entry of every series is the sample `x`. */
  predicate EndsWith(h: Series, x: Sample) {
    && h.timestamps != [] && h.timestamps[|h.timestamps| - 1] == x.time
    && h.cpu != [] && h.cpu[|h.cpu| - 1] == x.cpu
    && h.memory != [] && h.memory[|h.memory| - 1] == x.memory
    && h.memUsed != [] && h.memUsed[|h.memUsed| - 1] == x.memUsed
    && h.memTotal != [] && h.memTotal[|h.memTotal| - 1] == x.memTotal
  }

  /** The history part of `updateStats`: push the sample onto every series,
      then shift every series once if the time labels number more than the
      window. A full window drops exactly its oldest sample. */
  function Push(h: Series, x: Sample): (r: Series)
    ensures WellFormed(h) ==> WellFormed(r)
    ensures WellFormed(h) && |h.timestamps| < Window ==> |r.timestamps| == |h.timestamps| + 1
    ensures WellFormed(h) && |h.timestamps| == Window ==> |r.timestamps| == Window
    ensures r.timestamps != [] && r.timestamps[|r.timestamps| - 1] == x.time
    ensures WellFormed(h) ==> EndsWith(r, x)
  {
    var pushed := Series(
      h.timestamps + [x.time], h.cpu + [x.cpu], h.memory + [x.memory],
      h.memUsed + [x.memUsed], h.memTotal + [x.memTotal]);
    if |pushed.timestamps| > Window then
      Series(Shift(pushed.timestamps), Shift(pushed.cpu), Shift(pushed.memory),
        Shift(pushed.memUsed), Shift(pushed.memTotal))
    else pushed
  }

  /** An update on a full window appends the sample to every series and
      drops exactly the oldest entry of every series. */
  lemma FullWindowDropsOldest(h: Series, x: Sample)
    requires WellFormed(h) && |h.timestamps| == Window
    ensures var r := Push(h, x);
      && r.timestamps == h.timestamps[1..] + [x.time]
      && r.cpu == h.cpu[1..] + [x.cpu]
      && r.memory == h.memory[1..] + [x.memory]
      && r.memUsed == h.memUsed[1..] + [x.memUsed]
      && r.memTotal == h.memTotal[1..] + [x.memTotal]
  {
  }

  /** An update on a window that is not full only appends. */
  lemma PartialWindowAppends(h: Series, x: Sample)
    requires WellFormed(h) && |h.timestamps| < Window
    ensures var r := Push(h, x);
      && r.timestamps == h.timestamps + [x.time]
      && r.cpu == h.cpu + [x.cpu]
      && r.memory == h.memory + [x.memory]
      && r.memUsed == h.memUsed + [x.memUsed]
      && r.memTotal == h.memTotal + [x.memTotal]
  {
  }

  /** Pushing onto the series of a window's samples gives the series of the
      window with the new sample appended and, when it was full, its oldest
      sample gone. */
  lemma PushOf(ss: seq<Sample>, x: Sample)
    requires |ss| <= Window
    ensures Push(Of(ss), x) == Of(if |ss| == Window then ss[1..] + [x] else ss + [x])
  {
    var h := Of(ss);
    var t := ss + [x];
    assert h.timestamps + [x.time] == Of(t).timestamps;
    assert h.cpu + [x.cpu] == Of(t).cpu;
    assert h.memory + [x.memory] == Of(t).memory;
    assert h.memUsed + [x.memUsed] == Of(t).memUsed;
    assert h.memTotal + [x.memTotal] == Of(t).memTotal;
    if |ss| == Window {
      assert ss[1..] + [x] == t[1..];
      assert Of(t).timestamps[1..] == Of(t[1..]).timestamps;
      assert Of(t).cpu[1..] == Of(t[1..]).cpu;
      assert Of(t).memory[1..] == Of(t[1..]).memory;
      assert Of(t).memUsed[1..] == Of(t[1..]).memUsed;
      assert Of(t).memTotal[1..] == Of(t[1..]).memTotal;
    }
  }

  /** The history after a sequence of updates, starting from `h`. */
  function Replay(h: Series, ss: seq<Sample>): (r: Series)
    ensures WellFormed(h) ==> WellFormed(r)
    ensures WellFormed(h) ==>
      |r.timestamps| == if |h.timestamps| + |ss| <= Window then |h.timestamps| + |ss| else Window
    ensures WellFormed(h) && ss != [] ==> EndsWith(r, ss[|ss| - 1])
    decreases |ss|
  {
    if ss == [] then h else Replay(Push(h, ss[0]), ss[1..])
  }

  /** Replaying a sample and then a run is pushing it and then replaying. */
  lemma ReplayCons(h: Series, x: Sample, ss: seq<Sample>)
    ensures Replay(h, [x] + ss) == Replay(Push(h, x), ss)
  {
    assert ([x] + ss)[1..] == ss;
  }

  /** Taking the recent window of a window's worth of samples plus one more. */
  lemma RecentSnoc(ss: seq<Sample>, x: Sample)
    ensures Recent(ss + [x]) ==
      if |Recent(ss)| == Window then Recent(ss)[1..] + [x] else Recent(ss) + [x]
  {
    if |ss| + 1 > Window && |ss| > Window {
      assert (ss + [x])[|ss| + 1 - Window..] == ss[|ss| - Window..][1..] + [x];
    } else if |ss| + 1 > Window {
      assert (ss + [x])[|ss| + 1 - Window..] == ss[1..] + [x];
    }
  }

  /** One update on the window of `done` gives the window of `done` plus the
      new sample. */
  lemma PushRecent(done: seq<Sample>, x: Sample)
    ensures Push(Of(Recent(done)), x) == Of(Recent(done + [x]))
  {
    PushOf(Recent(done), x);
    RecentSnoc(done, x);
  }

  /** Moving the first of the pending samples to the done ones. */
  lemma MoveFirst(done: seq<Sample>, ss: seq<Sample>)
    requires ss != []
    ensures (done + [ss[0]]) + ss[1..] == done + ss
  {
    assert ss == [ss[0]] + ss[1..];
  }

  /** The chart history after any number of updates on a fresh chart holds
      exactly the most recent thirty samples, in order, in all five series. */
  lemma {:induction false} ReplayKeepsRecent(done: seq<Sample>, ss: seq<Sample>)
    ensures Replay(Of(Recent(done)), ss) == Of(Recent(done + ss))
    decreases |ss|
  {
    if ss != [] {
      var x, rest := ss[0], ss[1..];
      var done' := done + [x];
      assert Replay(Of(Recent(done)), ss) == Replay(Push(Of(Recent(done)), x), rest);
      PushRecent(done, x);
      ReplayKeepsRecent(done', rest);
      MoveFirst(done, ss);
    } else {
      assert done + ss == done;
    }
  }

  /** A fresh chart after the updates `ss` shows their last thirty. */
  lemma FromEmpty(ss: seq<Sample>)
    ensures Replay(Empty, ss) == Of(Recent(ss))
  {
    assert Of(Recent([])) == Empty;
    ReplayKeepsRecent([], ss);
    assert [] + ss == ss;
  }
}
