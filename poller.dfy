/** backend/app/websocket/poller.py: the background poller that reads
    readings newer than a watermark, at most one page per cycle, and pushes
    each non-empty page through the connection registry as a single
    "vitals_update" message; and the module-level `_poller` singleton.
    The asyncio task, its sleeps and its cancellation are not modelled:
    each cycle is one step, and the loop runs over a finite sequence of
    ticks. The SQL query's ORDER BY is modelled by reading the table as a
    sequence listed in ascending `ts` order. */
module Poller {
  import opened Wrappers
  import opened Messages
  import opened Connections

  /** `timedelta(minutes=1)` in seconds: the look-back on start. */
  const Lookback: int := 60
  /** `LIMIT 100`. */
  const PageSize: nat := 100

  /** `_task`: none yet, created by `start`, or cancelled by `stop`. */
  datatype TaskState = NoTask | Active | Cancelled

  /** What one cycle sees: the vitals table (`None` when the query raises),
      the clock, and the sockets whose send fails. */
  datatype Tick = Tick(table: Option<seq<PollRow>>, now: int, dead: set<Conn>)

  predicate Ascending(rows: seq<PollRow>)
  {
    forall i, j :: 0 <= i < j < |rows| ==> rows[i].ts <= rows[j].ts
  }

  /** `WHERE v.ts > :last_check`, keeping table order. */
  function Newer(rows: seq<PollRow>, watermark: int): (r: seq<PollRow>)
    ensures |r| <= |rows|
  {
    if rows == [] then []
    else if rows[0].ts > watermark then [rows[0]] + Newer(rows[1..], watermark)
    else Newer(rows[1..], watermark)
  }

  /** The rows one cycle fetches: `... ORDER BY v.ts ASC LIMIT 100`. */
  function Page(rows: seq<PollRow>, watermark: int): (r: seq<PollRow>)
    ensures |r| <= PageSize
  {
    var n := Newer(rows, watermark);
    if |n| <= PageSize then n else n[..PageSize]
  }

  /** `max(v["ts"] for v in new_vitals)`. */
  function MaxTs(rows: seq<PollRow>): (m: int)
    requires rows != []
    ensures exists i :: 0 <= i < |rows| && rows[i].ts == m
    ensures forall i :: 0 <= i < |rows| ==> rows[i].ts <= m
  {
    if |rows| == 1 then rows[0].ts
    else
      var rest := MaxTs(rows[1..]);
      assert forall i :: 1 <= i < |rows| ==> rows[i] == rows[1..][i - 1];
      if rows[0].ts >= rest then rows[0].ts else rest
  }

  /** The watermark a cycle uses: `last_check`, or now minus the look-back if unset. */
  function Watermark(lastCheck: Option<int>, now: int): int
  {
    match lastCheck
    case Some(w) => w
    case None => now - Lookback
  }

  /** The selection is exactly the rows strictly newer than the watermark, in table order. */
  lemma {:induction false} NewerMembers(rows: seq<PollRow>, watermark: int)
    ensures forall x :: x in Newer(rows, watermark) <==> x in rows && x.ts > watermark
    ensures Ascending(rows) ==> Ascending(Newer(rows, watermark))
  {
    if rows != [] {
      NewerMembers(rows[1..], watermark);
      assert forall x :: x in rows <==> x == rows[0] || x in rows[1..];
      if Ascending(rows) {
        assert Ascending(rows[1..]);
        var n := Newer(rows[1..], watermark);
        if rows[0].ts > watermark {
          forall i, j | 0 <= i < j < |[rows[0]] + n|
            ensures ([rows[0]] + n)[i].ts <= ([rows[0]] + n)[j].ts
          {
            if i == 0 {
              assert ([rows[0]] + n)[j] in rows[1..];
            }
          }
        }
      }
    }
  }

  /** A page is ascending, strictly newer than the watermark and at most 100 rows;
      when it is not empty its maximum is its last row and lies strictly above the watermark. */
  lemma {:induction false} PageFacts(rows: seq<PollRow>, watermark: int)
    requires Ascending(rows)
    ensures var p := Page(rows, watermark);
            && Ascending(p)
            && (forall i :: 0 <= i < |p| ==> p[i].ts > watermark)
            && (p != [] ==> MaxTs(p) == p[|p| - 1].ts && MaxTs(p) > watermark)
  {
    NewerMembers(rows, watermark);
    var n := Newer(rows, watermark);
    var p := Page(rows, watermark);
    assert forall i :: 0 <= i < |p| ==> p[i] == n[i];
    assert forall i :: 0 <= i < |p| ==> p[i] in n;
  }

  /** Rows that the page left out have a timestamp at or above the new
      watermark; the ones tied with it are never selected again, the rest
      are still strictly newer than it. */
  lemma {:induction false} RowsAfterPage(rows: seq<PollRow>, watermark: int, k: nat)
    requires Ascending(rows)
    requires Page(rows, watermark) != []
    requires |Page(rows, watermark)| <= k < |Newer(rows, watermark)|
    ensures var n := Newer(rows, watermark);
            var m := MaxTs(Page(rows, watermark));
            && n[k].ts >= m
            && (n[k] in Newer(rows, m) <==> n[k].ts > m)
  {
    NewerMembers(rows, watermark);
    PageFacts(rows, watermark);
    var n := Newer(rows, watermark);
    var p := Page(rows, watermark);
    assert p == n[..PageSize];
    assert p[|p| - 1] == n[|p| - 1];
    NewerMembers(rows, MaxTs(p));
    assert n[k] in rows by { assert n[k] in n; }
  }

  /** Two readings at T+1 and T+3 past watermark T: one page with both, and
      the watermark becomes T+3. */
  lemma PollExample(t: int, a: PollRow, b: PollRow)
    requires a.ts == t + 1 && b.ts == t + 3
    ensures Page([a, b], t) == [a, b]
    ensures MaxTs(Page([a, b], t)) == t + 3
  {
    assert [a, b][1..] == [b];
    assert [b][1..] == [];
    assert Newer([b], t) == [b] + Newer([], t) == [b];
    assert Newer([a, b], t) == [a] + Newer([b], t) == [a, b];
  }

  /** What polling changes: the poller's watermark and the registry's
      connections, accepted frames and broadcast messages. */
  datatype PollState = PollState(lastCheck: Option<int>, conns: seq<Conn>, outbox: seq<Delivery>, broadcasts: seq<Message>)

  /** One `_check_and_broadcast` cycle: a failed query or an empty page only
      fixes the watermark; a non-empty page moves it to the page's maximum
      and is broadcast once to the registry. */
  function Cycle(s: PollState, tick: Tick): PollState
  {
    var wm := Watermark(s.lastCheck, tick.now);
    if tick.table.None? || Page(tick.table.value, wm) == [] then s.(lastCheck := Some(wm))
    else
      var page := Page(tick.table.value, wm);
      var msg := VitalsBatch(|page|, page, tick.now);
      var live := Passing(s.conns, tick.dead);
      PollState(Some(MaxTs(page)), live, s.outbox + FanOut(live, msg), s.broadcasts + [msg])
  }

  /** The cycles a running poller performs over `ticks`, one per tick, in order. */
  function Cycles(s: PollState, ticks: seq<Tick>): PollState
    decreases |ticks|
  {
    if ticks == [] then s else Cycle(Cycles(s, ticks[..|ticks| - 1]), ticks[|ticks| - 1])
  }

  lemma CyclesStep(s: PollState, ticks: seq<Tick>, k: nat)
    requires k < |ticks|
    ensures Cycles(s, ticks[..k + 1]) == Cycle(Cycles(s, ticks[..k]), ticks[k])
  {
    var next := ticks[..k + 1];
    assert next[..k] == ticks[..k] && next[k] == ticks[k];
  }

  /** Polling over `a` and then over `b` is polling over `a + b`: a failed
      or empty cycle does not end the run. */
  lemma {:induction false} CyclesAppend(s: PollState, a: seq<Tick>, b: seq<Tick>)
    ensures Cycles(s, a + b) == Cycles(Cycles(s, a), b)
    decreases |b|
  {
    if b == [] {
      assert a + b == a;
    } else {
      var b' := b[..|b| - 1];
      CyclesAppend(s, a, b');
      assert (a + b)[..|a + b| - 1] == a + b';
      assert (a + b)[|a + b| - 1] == b[|b| - 1];
    }
  }

  /** Over ascending tables, a run never moves a set watermark back, keeps
      the earlier broadcasts and adds at most one message per tick, each a
      `vitals_update` of a non-empty page. */
  lemma {:induction false} CyclesFacts(s: PollState, ticks: seq<Tick>)
    requires forall k :: 0 <= k < |ticks| && ticks[k].table.Some? ==> Ascending(ticks[k].table.value)
    ensures var r := Cycles(s, ticks);
            && (s.lastCheck.Some? ==> r.lastCheck.Some? && r.lastCheck.value >= s.lastCheck.value)
            && |s.broadcasts| <= |r.broadcasts| <= |s.broadcasts| + |ticks|
            && r.broadcasts[..|s.broadcasts|] == s.broadcasts
            && (forall i :: |s.broadcasts| <= i < |r.broadcasts| ==> r.broadcasts[i].VitalsBatch? && r.broadcasts[i].count > 0)
    decreases |ticks|
  {
    if ticks != [] {
      var init := ticks[..|ticks| - 1];
      var t := ticks[|ticks| - 1];
      CyclesFacts(s, init);
      var m := Cycles(s, init);
      var wm := Watermark(m.lastCheck, t.now);
      if t.table.Some? {
        PageFacts(t.table.value, wm);
      }
      var r := Cycle(m, t);
      assert r.broadcasts[..|m.broadcasts|] == m.broadcasts;
      assert r.broadcasts[..|s.broadcasts|] == m.broadcasts[..|s.broadcasts|];
    }
  }

  class VitalsPoller {
    const manager: ConnectionManager
    const pollInterval: real
    var lastCheck: Option<int>
    var running: bool
    var task: TaskState

    /** The state a poll cycle changes. */
    ghost function State(): PollState
      reads this, manager
    {
      PollState(lastCheck, manager.activeConnections, manager.outbox, manager.broadcasts)
    }

    constructor (manager: ConnectionManager, pollInterval: real)
      ensures this.manager == manager && this.pollInterval == pollInterval
      ensures lastCheck == None && !running && task == NoTask
    {
      this.manager := manager;
      this.pollInterval := pollInterval;
      lastCheck := None;
      running := false;
      task := NoTask;
    }

    /** `start`: a no-op while running; otherwise running, with the watermark
        one minute before now and a new task. */
    method Start(now: int)
      modifies this
      ensures old(running) ==> running && lastCheck == old(lastCheck) && task == old(task)
      ensures !old(running) ==> running && lastCheck == Some(now - Lookback) && task == Active
    {
      if running {
        return;
      }
      running := true;
      lastCheck := Some(now - Lookback);
      task := Active;
    }

    /** `stop`: clears `running` and cancels the task if there is one. */
    method Stop()
      modifies this
      ensures !running && lastCheck == old(lastCheck)
      ensures task == if old(task) == NoTask then NoTask else Cancelled
    {
      running := false;
      if task != NoTask {
        task := Cancelled;
      }
    }

    /** `_check_and_broadcast`: one cycle. A failed query or an empty page
        changes nothing but an unset watermark; a non-empty page moves the
        watermark to its maximum timestamp and is broadcast once. */
    method CheckAndBroadcast(table: Option<seq<PollRow>>, now: int, dead: set<Conn>)
      requires table.Some? ==> Ascending(table.value)
      modifies this, manager
      ensures running == old(running) && task == old(task)
      ensures State() == Cycle(old(State()), Tick(table, now, dead))
      ensures var wm := Watermark(old(lastCheck), now);
              if table.None? || Page(table.value, wm) == [] then
                lastCheck == Some(wm) && unchanged(manager)
              else
                var page := Page(table.value, wm);
                var msg := VitalsBatch(|page|, page, now);
                && lastCheck == Some(MaxTs(page))
                && manager.broadcasts == old(manager.broadcasts) + [msg]
                && manager.activeConnections == Passing(old(manager.activeConnections), dead)
                && manager.outbox == old(manager.outbox) + FanOut(Passing(old(manager.activeConnections), dead), msg)
    {
      if lastCheck.None? {
        lastCheck := Some(now - Lookback);
      }
      if table.None? {
        return;
      }
      var newVitals := Page(table.value, lastCheck.value);
      if newVitals != [] {
        var latestTs := MaxTs(newVitals);
        lastCheck := Some(latestTs);
        manager.Broadcast(VitalsBatch(|newVitals|, newVitals, now), dead);
      }
    }

    /** `_poll_loop`: cycles while running, one cycle per tick; a failed cycle
        does not end the loop. The watermark never moves back and each cycle
        broadcasts at most once. */
    method PollLoop(ticks: seq<Tick>)
      requires forall k :: 0 <= k < |ticks| && ticks[k].table.Some? ==> Ascending(ticks[k].table.value)
      modifies this, manager
      ensures running == old(running) && task == old(task)
      ensures old(lastCheck).Some? ==> lastCheck.Some? && lastCheck.value >= old(lastCheck).value
      ensures !old(running) ==> unchanged(this) && unchanged(manager)
      ensures |old(manager.broadcasts)| <= |manager.broadcasts| <= |old(manager.broadcasts)| + |ticks|
      ensures manager.broadcasts[..|old(manager.broadcasts)|] == old(manager.broadcasts)
      ensures old(running) ==> State() == Cycles(old(State()), ticks)
    {
      var k := 0;
      while running && k < |ticks|
        invariant 0 <= k <= |ticks|
        invariant running == old(running) && task == old(task)
        invariant old(lastCheck).Some? ==> lastCheck.Some? && lastCheck.value >= old(lastCheck).value
        invariant !old(running) ==> unchanged(this) && unchanged(manager)
        invariant |old(manager.broadcasts)| <= |manager.broadcasts| <= |old(manager.broadcasts)| + k
        invariant manager.broadcasts[..|old(manager.broadcasts)|] == old(manager.broadcasts)
        invariant old(running) ==> State() == Cycles(old(State()), ticks[..k])
      {
        var tick := ticks[k];
        if tick.table.Some? {
          PageFacts(tick.table.value, Watermark(lastCheck, tick.now));
        }
        CyclesStep(old(State()), ticks, k);
        CheckAndBroadcast(tick.table, tick.now, tick.dead);
        k := k + 1;
      }
      assert ticks[..|ticks|] == ticks;
    }
  }

  /** The module-level `_poller` and `get_poller` / `start_poller` / `stop_poller`. */
  class PollerRegistry {
    var current: VitalsPoller?

    constructor ()
      ensures current == null
    {
      current := null;
    }

    /** `get_poller`: the existing instance, whatever manager is passed;
        otherwise a new one over `manager`. */
    method GetPoller(manager: ConnectionManager) returns (p: VitalsPoller)
      modifies this
      ensures current == p
      ensures old(current) != null ==> p == old(current)
      ensures old(current) == null ==>
                fresh(p) && p.manager == manager && p.pollInterval == 1.0
                && p.lastCheck == None && !p.running && p.task == NoTask
    {
      if current == null {
        current := new VitalsPoller(manager, 1.0);
      }
      p := current;
    }

    /** `start_poller`. */
    method StartPoller(manager: ConnectionManager, now: int)
      modifies this, current
      ensures current != null && current.running
      ensures old(current) != null ==> current == old(current)
      ensures old(current) != null && !old(current.running) ==> current.lastCheck == Some(now - Lookback)
      ensures old(current) == null ==> fresh(current) && current.manager == manager && current.lastCheck == Some(now - Lookback)
      ensures old(current) != null && old(current.running) ==>
                current.lastCheck == old(current.lastCheck) && current.task == old(current.task)
      ensures old(current) == null || !old(current.running) ==> current.task == Active
    {
      var p := GetPoller(manager);
      p.Start(now);
    }

    /** `stop_poller`: stops the instance, if any, and forgets it. */
    method StopPoller()
      modifies this, current
      ensures current == null
      ensures old(current) != null ==> !old(current).running
      ensures old(current) != null ==>
                old(current).lastCheck == old(current.lastCheck)
                && old(current).task == (if old(current.task) == NoTask then NoTask else Cancelled)
    {
      if current != null {
        current.Stop();
        current := null;
      }
    }
  }
}
