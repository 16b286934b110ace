/** The file-event debouncer of config.go (`OnFileDeDupChangeFn`): a map
    from file path to a timer that each event for the path re-arms to fire
    200ms later. The timer of a path is made, stopped, by the first event
    for it; its function calls the callback with THAT event (the closure
    captures it), however many events re-arm it later.

    Time is a logical clock in nanoseconds. A timer is a value, written
    back into the map when it is reset or fires; only the map refers to
    it. A timer due at the instant an event arrives fires before the event
    is handled. The callback is an input that either returns or panics; a
    panic is recovered and logged inside the timer's function. */
module FileDebounce {
  import opened Common

  /** `waitFor`: how long a path must stay quiet before its callback runs. */
  const WaitFor: int := 200 * Millisecond

  /** An `fsnotify.Event`: the file's path and the operation bits. */
  datatype Event = Event(name: string, op: nat)

  /** A `time.Timer` made by `AfterFunc` around the callback: the event the
      closure captured, and when it fires (`None` while stopped). */
  datatype Timer = Timer(evt: Event, deadline: Option<int>)

  /** One run of the callback: when, for which path, with which event. */
  datatype Firing = Firing(at: int, path: string, evt: Event)

  /** A file event delivered at a given instant. */
  datatype Input = Input(at: int, evt: Event)

  /** What the callback does: return, or panic with a message. */
  datatype CallbackResult = Returned | Panicked(err: string)

  /** The timer stored under `p`, if any. */
  function TimerAt(m: map<string, Timer>, p: string): Option<Timer> {
    if p in m then Some(m[p]) else None
  }

  predicate Due(t: Timer, until: int) {
    t.deadline.Some? && t.deadline.value <= until
  }

  /** The firings of path `p` in a record of firings, in order. */
  function FiredFor(s: seq<Firing>, p: string): (r: seq<Firing>)
    ensures forall i :: 0 <= i < |r| ==> r[i].path == p
    decreases |s|
  {
    if s == [] then []
    else FiredFor(s[..|s| - 1], p) + (if s[|s| - 1].path == p then [s[|s| - 1]] else [])
  }

  lemma FiredForSnoc(s: seq<Firing>, f: Firing, p: string)
    ensures FiredFor(s + [f], p) == FiredFor(s, p) + (if f.path == p then [f] else [])
  {
    assert (s + [f])[..|s|] == s;
  }

  /** The messages of the panics the callback raises on these firings. */
  function PanicLogs(fn: Event -> CallbackResult, s: seq<Firing>): seq<string>
    decreases |s|
  {
    if s == [] then []
    else
      var r := fn(s[|s| - 1].evt);
      PanicLogs(fn, s[..|s| - 1]) + (if r.Panicked? then [r.err] else [])
  }

  predicate InTimeOrder(s: seq<Firing>) {
    forall i, j :: 0 <= i < j < |s| ==> s[i].at <= s[j].at
  }

  // ---------------------------------------------------------------------
  // One path, as a function of its timer

  /** The timer of one path, and the firings it produced. */
  datatype PathState = PathState(timer: Option<Timer>, firings: seq<Firing>)

  /** Letting the clock run up to `until`: a timer due by then fires once,
      at its deadline, with its captured event, and is stopped. */
  function Expire(p: string, t: Option<Timer>, until: int): PathState {
    if t.Some? && Due(t.value, until) then
      PathState(Some(t.value.(deadline := None)), [Firing(t.value.deadline.value, p, t.value.evt)])
    else PathState(t, [])
  }

  /** An event for the path at `now`: a new stopped timer capturing `evt`
      unless one exists, then `Reset(waitFor)`. */
  function Arm(t: Option<Timer>, evt: Event, now: int): Timer {
    Timer(if t.Some? then t.value.evt else evt, Some(now + WaitFor))
  }

  /** What path `p` goes through when the inputs arrive in order and the
      clock then runs to `horizon`; events for other paths only let time
      pass. */
  function PathRun(p: string, t: Option<Timer>, inputs: seq<Input>, horizon: int): PathState
    decreases |inputs|
  {
    if inputs == [] then Expire(p, t, horizon)
    else
      var e := Expire(p, t, inputs[0].at);
      var armed := if inputs[0].evt.name == p then Some(Arm(e.timer, inputs[0].evt, inputs[0].at)) else e.timer;
      var rest := PathRun(p, armed, inputs[1..], horizon);
      PathState(rest.timer, e.firings + rest.firings)
  }

  /** Inputs arrive in time order, none after the horizon. */
  ghost predicate Chronological(inputs: seq<Input>, horizon: int) {
    (forall i, j :: 0 <= i < j < |inputs| ==> inputs[i].at <= inputs[j].at) &&
    (forall i :: 0 <= i < |inputs| ==> inputs[i].at <= horizon)
  }

  /** The inputs for path `p`, in order. */
  function OnlyPath(inputs: seq<Input>, p: string): (r: seq<Input>)
    ensures forall i :: 0 <= i < |r| ==> r[i] in inputs && r[i].evt.name == p
    decreases |inputs|
  {
    if inputs == [] then []
    else if inputs[0].evt.name == p then [inputs[0]] + OnlyPath(inputs[1..], p)
    else OnlyPath(inputs[1..], p)
  }

  /** Letting the clock run to `a`, then on to `b`, is letting it run to
      `b`. */
  lemma ExpireTwice(p: string, t: Option<Timer>, a: int, b: int)
    requires a <= b
    ensures var e := Expire(p, t, a);
      Expire(p, e.timer, b).timer == Expire(p, t, b).timer &&
      e.firings + Expire(p, e.timer, b).firings == Expire(p, t, b).firings
  {
  }

  /** Running the clock to `a` first changes nothing when no input comes
      before `a`. */
  lemma ExpireEarly(p: string, t: Option<Timer>, inputs: seq<Input>, horizon: int, a: int)
    requires a <= horizon && forall i :: 0 <= i < |inputs| ==> a <= inputs[i].at
    ensures var e := Expire(p, t, a);
      var r := PathRun(p, e.timer, inputs, horizon);
      PathRun(p, t, inputs, horizon) == PathState(r.timer, e.firings + r.firings)
  {
    var e := Expire(p, t, a);
    if inputs == [] {
      ExpireTwice(p, t, a, horizon);
    } else {
      var x := inputs[0];
      var direct := Expire(p, t, x.at);
      var later := Expire(p, e.timer, x.at);
      ExpireTwice(p, t, a, x.at);
      var armed := if x.evt.name == p then Some(Arm(direct.timer, x.evt, x.at)) else direct.timer;
      var rest := PathRun(p, armed, inputs[1..], horizon);
      assert PathRun(p, t, inputs, horizon) == PathState(rest.timer, direct.firings + rest.firings);
      assert PathRun(p, e.timer, inputs, horizon) == PathState(rest.timer, later.firings + rest.firings);
      AppendAssoc(e.firings, later.firings, rest.firings);
    }
  }

  /** Paths never interact: what happens to path `p` depends only on the
      events for `p`. */
  lemma {:induction false} OtherPathsIrrelevant(p: string, t: Option<Timer>, inputs: seq<Input>, horizon: int)
    requires Chronological(inputs, horizon)
    ensures PathRun(p, t, inputs, horizon) == PathRun(p, t, OnlyPath(inputs, p), horizon)
    decreases |inputs|
  {
    if inputs != [] {
      var a := inputs[0].at;
      var e := Expire(p, t, a);
      var tail := inputs[1..];
      assert Chronological(tail, horizon) by {
        forall i, j | 0 <= i < j < |tail| ensures tail[i].at <= tail[j].at {
          assert tail[i] == inputs[i + 1] && tail[j] == inputs[j + 1];
        }
        forall i | 0 <= i < |tail| ensures tail[i].at <= horizon {
          assert tail[i] == inputs[i + 1];
        }
      }
      var armed := if inputs[0].evt.name == p then Some(Arm(e.timer, inputs[0].evt, a)) else e.timer;
      OtherPathsIrrelevant(p, armed, tail, horizon);
      if inputs[0].evt.name != p {
        var o := OnlyPath(tail, p);
        assert OnlyPath(inputs, p) == o;
        forall i | 0 <= i < |o| ensures a <= o[i].at {
          assert o[i] in tail;
          var k :| 0 <= k < |tail| && tail[k] == o[i];
          assert inputs[k + 1] == o[i];
        }
        ExpireEarly(p, t, o, horizon, a);
      } else {
        var o := [inputs[0]] + OnlyPath(tail, p);
        assert OnlyPath(inputs, p) == o;
        assert o[0] == inputs[0] && o[1..] == OnlyPath(tail, p);
      }
    }
  }

  /** A burst of events for one path that already has a timer, not due
      before the first event, with each event less than `WaitFor` after
      the one before: exactly one firing, `WaitFor` after the LAST event,
      carrying the event the timer captured when it was made. This is also
      the case of a path whose timer already fired (deadline `None`): it
      fires again with its original event. */
  lemma {:induction false} PendingBurst(p: string, e: Event, deadline: Option<int>, inputs: seq<Input>, horizon: int)
    requires |inputs| > 0
    requires forall i :: 0 <= i < |inputs| ==> inputs[i].evt.name == p
    requires deadline.None? || inputs[0].at < deadline.value
    requires forall i :: 0 < i < |inputs| ==> inputs[i - 1].at <= inputs[i].at < inputs[i - 1].at + WaitFor
    requires inputs[|inputs| - 1].at + WaitFor <= horizon
    ensures PathRun(p, Some(Timer(e, deadline)), inputs, horizon) ==
      PathState(Some(Timer(e, None)), [Firing(inputs[|inputs| - 1].at + WaitFor, p, e)])
    decreases |inputs|
  {
    var armed := Some(Timer(e, Some(inputs[0].at + WaitFor)));
    assert Expire(p, Some(Timer(e, deadline)), inputs[0].at) == PathState(Some(Timer(e, deadline)), []);
    if |inputs| == 1 {
      assert inputs[1..] == [];
    } else {
      var tail := inputs[1..];
      forall i | 0 < i < |tail| ensures tail[i - 1].at <= tail[i].at < tail[i - 1].at + WaitFor {
        assert tail[i - 1] == inputs[i] && tail[i] == inputs[i + 1];
      }
      assert tail[|tail| - 1] == inputs[|inputs| - 1];
      PendingBurst(p, e, Some(inputs[0].at + WaitFor), tail, horizon);
    }
  }

  /** A burst for a path seen for the first time: one timer is made, and it
      fires once, `WaitFor` after the last event, with the FIRST event. */
  lemma BurstFromFresh(p: string, inputs: seq<Input>, horizon: int)
    requires |inputs| > 0
    requires forall i :: 0 <= i < |inputs| ==> inputs[i].evt.name == p
    requires forall i :: 0 < i < |inputs| ==> inputs[i - 1].at <= inputs[i].at < inputs[i - 1].at + WaitFor
    requires inputs[|inputs| - 1].at + WaitFor <= horizon
    ensures PathRun(p, None, inputs, horizon) ==
      PathState(Some(Timer(inputs[0].evt, None)), [Firing(inputs[|inputs| - 1].at + WaitFor, p, inputs[0].evt)])
  {
    var e0 := inputs[0].evt;
    if |inputs| == 1 {
      assert inputs[1..] == [];
    } else {
      var tail := inputs[1..];
      forall i | 0 < i < |tail| ensures tail[i - 1].at <= tail[i].at < tail[i - 1].at + WaitFor {
        assert tail[i - 1] == inputs[i] && tail[i] == inputs[i + 1];
      }
      assert tail[|tail| - 1] == inputs[|inputs| - 1];
      PendingBurst(p, e0, Some(inputs[0].at + WaitFor), tail, horizon);
    }
  }

  /** Once a path has a timer it keeps one: timers are never removed. */
  lemma {:induction false} PathRunKeepsTimer(p: string, t: Option<Timer>, inputs: seq<Input>, horizon: int)
    requires t.Some? || exists i :: 0 <= i < |inputs| && inputs[i].evt.name == p
    ensures PathRun(p, t, inputs, horizon).timer.Some?
    decreases |inputs|
  {
    if inputs != [] {
      var e := Expire(p, t, inputs[0].at);
      var armed := if inputs[0].evt.name == p then Some(Arm(e.timer, inputs[0].evt, inputs[0].at)) else e.timer;
      if armed.None? {
        var i :| 0 <= i < |inputs| && inputs[i].evt.name == p;
        assert inputs[1..][i - 1] == inputs[i];
      }
      PathRunKeepsTimer(p, armed, inputs[1..], horizon);
    }
  }

  /** Five events for "/a", 10ms apart: one callback, 200ms after the last
      event, with the first event. */
  lemma ScenarioBurst()
    ensures var ins := seq(5, i requires 0 <= i < 5 => Input(10 * i * Millisecond, Event("/a", i)));
      PathRun("/a", None, ins, Second).firings == [Firing(240 * Millisecond, "/a", Event("/a", 0))]
  {
    var ins := seq(5, i requires 0 <= i < 5 => Input(10 * i * Millisecond, Event("/a", i)));
    BurstFromFresh("/a", ins, Second);
  }

  /** An event for "/a" and one for "/b" 10ms later: each path gets its own
      callback, with its own event. */
  lemma ScenarioTwoPaths()
    ensures var ins := [Input(0, Event("/a", 1)), Input(10 * Millisecond, Event("/b", 1))];
      PathRun("/a", None, ins, Second).firings == [Firing(WaitFor, "/a", Event("/a", 1))] &&
      PathRun("/b", None, ins, Second).firings == [Firing(10 * Millisecond + WaitFor, "/b", Event("/b", 1))]
  {
    var ins := [Input(0, Event("/a", 1)), Input(10 * Millisecond, Event("/b", 1))];
    OtherPathsIrrelevant("/a", None, ins, Second);
    OtherPathsIrrelevant("/b", None, ins, Second);
    assert OnlyPath(ins, "/a") == [ins[0]];
    assert OnlyPath(ins, "/b") == [ins[1]];
    BurstFromFresh("/a", [ins[0]], Second);
    BurstFromFresh("/b", [ins[1]], Second);
  }

  /** While the clock runs to `until`, path `p` (timers `ts`, firings
      `fs`) is either untouched since `t0`/`f0` or has fired as `Expire`
      says. */
  ghost predicate Progress(ts: map<string, Timer>, fs: seq<Firing>, p: string,
                           t0: map<string, Timer>, f0: seq<Firing>, until: int)
  {
    (TimerAt(ts, p) == TimerAt(t0, p) && FiredFor(fs, p) == FiredFor(f0, p)) ||
    (TimerAt(ts, p) == Expire(p, TimerAt(t0, p), until).timer &&
     FiredFor(fs, p) == FiredFor(f0, p) + Expire(p, TimerAt(t0, p), until).firings &&
     TimerAt(ts, p).Some? && TimerAt(ts, p).value.deadline.None?)
  }

  /** Firing the due timer of `p` keeps every path in progress. */
  lemma FireKeepsProgress(ts: map<string, Timer>, fs: seq<Firing>, p: string,
                          t0: map<string, Timer>, f0: seq<Firing>, until: int,
                          ts': map<string, Timer>, fs': seq<Firing>)
    requires forall q :: Progress(ts, fs, q, t0, f0, until)
    requires p in ts && Due(ts[p], until)
    requires ts' == ts[p := ts[p].(deadline := None)]
    requires fs' == fs + [Firing(ts[p].deadline.value, p, ts[p].evt)]
    ensures forall q :: Progress(ts', fs', q, t0, f0, until)
  {
    var f := Firing(ts[p].deadline.value, p, ts[p].evt);
    assert Progress(ts, fs, p, t0, f0, until);
    forall q ensures Progress(ts', fs', q, t0, f0, until) {
      FiredForSnoc(fs, f, q);
      assert Progress(ts, fs, q, t0, f0, until);
      if q != p {
        assert TimerAt(ts', q) == TimerAt(ts, q);
      }
    }
  }

  /** The firings since `f0` (and the panics they logged since `l0`) are in
      time order and lie in `(n0, now]`. */
  ghost predicate Recorded(fs: seq<Firing>, logs: seq<string>, fn: Event -> CallbackResult,
                           f0: seq<Firing>, l0: seq<string>, n0: int, now: int)
  {
    f0 <= fs && InTimeOrder(fs[|f0|..]) &&
    (forall i :: |f0| <= i < |fs| ==> n0 < fs[i].at <= now) &&
    logs == l0 + PanicLogs(fn, fs[|f0|..])
  }

  /** Appending a firing no earlier than the others keeps the order. */
  lemma InTimeOrderSnoc(d: seq<Firing>, f: Firing)
    requires InTimeOrder(d) && forall i :: 0 <= i < |d| ==> d[i].at <= f.at
    ensures InTimeOrder(d + [f])
  {
    var d' := d + [f];
    forall i, j | 0 <= i < j < |d'| ensures d'[i].at <= d'[j].at {
      assert d'[i] == d[i];
      if j < |d| {
        assert d'[j] == d[j];
      }
    }
  }

  /** One more firing adds the callback's panic, if any, to the logs. */
  lemma PanicLogsSnoc(fn: Event -> CallbackResult, d: seq<Firing>, f: Firing)
    ensures var r := fn(f.evt);
      PanicLogs(fn, d + [f]) == PanicLogs(fn, d) + (if r.Panicked? then [r.err] else [])
  {
    assert (d + [f])[..|d|] == d;
  }

  /** A firing after `n0` and no earlier than `now` extends the record. */
  lemma RecordedSnoc(fs: seq<Firing>, logs: seq<string>, fn: Event -> CallbackResult,
                     f0: seq<Firing>, l0: seq<string>, n0: int, now: int, f: Firing)
    requires Recorded(fs, logs, fn, f0, l0, n0, now)
    requires n0 < f.at && now <= f.at
    ensures var r := fn(f.evt);
      Recorded(fs + [f], logs + (if r.Panicked? then [r.err] else []), fn, f0, l0, n0, f.at)
  {
    var fs' := fs + [f];
    var d := fs[|f0|..];
    assert fs'[|f0|..] == d + [f];
    forall i | 0 <= i < |d| ensures d[i].at <= f.at {
      assert d[i] == fs[|f0| + i];
    }
    InTimeOrderSnoc(d, f);
    forall i | |f0| <= i < |fs'| ensures n0 < fs'[i].at <= f.at {
      if i < |fs| {
        assert fs'[i] == fs[i];
      }
    }
    var r := fn(f.evt);
    PanicLogsSnoc(fn, d, f);
    AppendAssoc(l0, PanicLogs(fn, d), if r.Panicked? then [r.err] else []);
  }

  /** When no timer is due any more, every path has gone through `Expire`. */
  lemma ProgressComplete(ts: map<string, Timer>, fs: seq<Firing>,
                         t0: map<string, Timer>, f0: seq<Firing>, until: int)
    requires forall q :: Progress(ts, fs, q, t0, f0, until)
    requires forall q :: q in ts ==> !Due(ts[q], until)
    ensures forall p :: TimerAt(ts, p) == Expire(p, TimerAt(t0, p), until).timer
    ensures forall p :: FiredFor(fs, p) == FiredFor(f0, p) + Expire(p, TimerAt(t0, p), until).firings
  {
    forall p ensures TimerAt(ts, p) == Expire(p, TimerAt(t0, p), until).timer &&
      FiredFor(fs, p) == FiredFor(f0, p) + Expire(p, TimerAt(t0, p), until).firings
    {
      assert Progress(ts, fs, p, t0, f0, until);
    }
  }

  /** The panics of two runs of firings, one after the other. */
  lemma {:induction false} PanicLogsAppend(fn: Event -> CallbackResult, a: seq<Firing>, b: seq<Firing>)
    ensures PanicLogs(fn, a + b) == PanicLogs(fn, a) + PanicLogs(fn, b)
    decreases |b|
  {
    if b == [] {
      assert a + b == a;
    } else {
      var b' := b[..|b| - 1];
      var x := b[|b| - 1];
      assert b == b' + [x];
      assert a + b == (a + b') + [x];
      PanicLogsAppend(fn, a, b');
      PanicLogsSnoc(fn, a + b', x);
      PanicLogsSnoc(fn, b', x);
      var r := fn(x.evt);
      AppendAssoc(PanicLogs(fn, a), PanicLogs(fn, b'), if r.Panicked? then [r.err] else []);
    }
  }

  /** A record up to `m`, continued by a record from `m` to `n`, is a
      record up to `n`. */
  lemma RecordedAppend(fs: seq<Firing>, logs: seq<string>, fs': seq<Firing>, logs': seq<string>,
                       fn: Event -> CallbackResult, f0: seq<Firing>, l0: seq<string>, n0: int, m: int, n: int)
    requires n0 <= m <= n
    requires Recorded(fs, logs, fn, f0, l0, n0, m)
    requires Recorded(fs', logs', fn, fs, logs, m, n)
    ensures Recorded(fs', logs', fn, f0, l0, n0, n)
  {
    var a := fs[|f0|..];
    var b := fs'[|fs|..];
    assert fs'[|f0|..] == a + b;
    assert InTimeOrder(a + b) by {
      forall i, j | 0 <= i < j < |a + b| ensures (a + b)[i].at <= (a + b)[j].at {
        if j < |a| {
          assert (a + b)[i] == a[i] && (a + b)[j] == a[j];
        } else if i >= |a| {
          assert (a + b)[i] == b[i - |a|] && (a + b)[j] == b[j - |a|];
        } else {
          assert (a + b)[i] == fs[|f0| + i];
          assert (a + b)[j] == fs'[|fs| + j - |a|];
        }
      }
    }
    forall i | |f0| <= i < |fs'| ensures n0 < fs'[i].at <= n {
      if i < |fs| {
        assert fs'[i] == fs[i];
      }
    }
    PanicLogsAppend(fn, a, b);
    AppendAssoc(l0, PanicLogs(fn, a), PanicLogs(fn, b));
  }

  /** Path `p` partway through the inputs: what is left of the run from
      timers `ts` and record `fs` completes the run from `t0` and `f0`. */
  ghost predicate RunProgress(ts: map<string, Timer>, fs: seq<Firing>, p: string,
                              t0: map<string, Timer>, f0: seq<Firing>,
                              inputs: seq<Input>, i: nat, horizon: int)
    requires i <= |inputs|
  {
    var whole := PathRun(p, TimerAt(t0, p), inputs, horizon);
    var rest := PathRun(p, TimerAt(ts, p), inputs[i..], horizon);
    whole.timer == rest.timer && FiredFor(f0, p) + whole.firings == FiredFor(fs, p) + rest.firings
  }

  /** Letting the clock run to the next input's instant and then handling
      it keeps every path in step with `PathRun`. */
  lemma RunProgressStep(ts: map<string, Timer>, fs: seq<Firing>, ts1: map<string, Timer>, fs1: seq<Firing>,
                        ts2: map<string, Timer>, t0: map<string, Timer>, f0: seq<Firing>,
                        inputs: seq<Input>, i: nat, next: nat, horizon: int)
    requires i < |inputs| && next == i + 1
    requires forall p :: RunProgress(ts, fs, p, t0, f0, inputs, i, horizon)
    requires forall p :: TimerAt(ts1, p) == Expire(p, TimerAt(ts, p), inputs[i].at).timer
    requires forall p :: FiredFor(fs1, p) == FiredFor(fs, p) + Expire(p, TimerAt(ts, p), inputs[i].at).firings
    requires var x := inputs[i]; ts2 == ts1[x.evt.name := Arm(TimerAt(ts1, x.evt.name), x.evt, x.at)]
    ensures forall p :: RunProgress(ts2, fs1, p, t0, f0, inputs, next, horizon)
  {
    var x := inputs[i];
    assert inputs[i..][0] == x && inputs[i..][1..] == inputs[i + 1..];
    forall p ensures RunProgress(ts2, fs1, p, t0, f0, inputs, next, horizon) {
      assert RunProgress(ts, fs, p, t0, f0, inputs, i, horizon);
      var e := Expire(p, TimerAt(ts, p), x.at);
      var armed := if x.evt.name == p then Some(Arm(e.timer, x.evt, x.at)) else e.timer;
      assert TimerAt(ts2, p) == armed;
      var rest := PathRun(p, armed, inputs[i + 1..], horizon);
      assert PathRun(p, TimerAt(ts, p), inputs[i..], horizon) == PathState(rest.timer, e.firings + rest.firings);
      AppendAssoc(FiredFor(fs, p), e.firings, rest.firings);
    }
  }

  // ---------------------------------------------------------------------
  // The debouncer

  class Debouncer {
    /** The logical clock. */
    var now: int
    /** `timers`: path -> timer. */
    var timers: map<string, Timer>
    /** Every callback run so far, in order. */
    var fired: seq<Firing>
    /** The recovered panics logged so far. */
    var logs: seq<string>
    /** The user's callback. */
    const fn: Event -> CallbackResult

    /** No armed timer is overdue. */
    ghost predicate Valid()
      reads this
    {
      forall q :: q in timers && timers[q].deadline.Some? ==> timers[q].deadline.value > now
    }

    /** `OnFileDeDupChangeFn(fn)`: the handler with an empty timer map. */
    constructor (fn: Event -> CallbackResult, start: int)
      ensures Valid() && this.fn == fn && now == start
      ensures timers == map[] && fired == [] && logs == []
    {
      this.fn := fn;
      now := start;
      timers := map[];
      fired := [];
      logs := [];
    }

    /** The handler, called with one event: look the path's timer up; make
        a stopped one capturing this event if there is none; reset it to
        fire `WaitFor` from now. */
    method OnEvent(evt: Event)
      requires Valid()
      modifies this`timers
      ensures Valid()
      ensures timers == old(timers)[evt.name := Arm(TimerAt(old(timers), evt.name), evt, now)]
      ensures evt.name in old(timers) ==> timers[evt.name].evt == old(timers)[evt.name].evt
      ensures evt.name !in old(timers) ==> timers[evt.name].evt == evt
      ensures timers[evt.name].deadline == Some(now + WaitFor)
    {
      var t: Timer;
      var ok := evt.name in timers;
      if ok {
        t := timers[evt.name];
      } else {
        // time.AfterFunc(math.MaxInt64, ...) followed by t.Stop()
        t := Timer(evt, None);
        timers := timers[evt.name := t];
      }
      // t.Reset(waitFor)
      t := t.(deadline := Some(now + WaitFor));
      timers := timers[evt.name := t];
    }

    /** The path whose armed timer is due first by `until`, if any. */
    method Earliest(until: int) returns (p: Option<string>)
      ensures p.None? ==> forall q :: q in timers ==> !Due(timers[q], until)
      ensures p.Some? ==> p.value in timers && Due(timers[p.value], until)
      ensures p.Some? ==> forall q :: q in timers && Due(timers[q], until) ==>
        timers[p.value].deadline.value <= timers[q].deadline.value
    {
      p := None;
      var todo := timers.Keys;
      while todo != {}
        invariant todo <= timers.Keys
        invariant p.None? ==> forall q :: q in timers && q !in todo ==> !Due(timers[q], until)
        invariant p.Some? ==> p.value in timers && Due(timers[p.value], until)
        invariant p.Some? ==> forall q :: q in timers && q !in todo && Due(timers[q], until) ==>
          timers[p.value].deadline.value <= timers[q].deadline.value
        decreases todo
      {
        var k :| k in todo;
        if Due(timers[k], until) && (p.None? || timers[k].deadline.value < timers[p.value].deadline.value) {
          p := Some(k);
        }
        todo := todo - {k};
      }
    }

    /** The paths whose timers are due by `until`. */
    ghost function DueSet(until: int): set<string>
      reads this
    {
      set q | q in timers && Due(timers[q], until)
    }

    /** The function a timer runs when it fires (the closure given to
        `AfterFunc`): the clock stands at the deadline, the timer is spent,
        and the callback runs with the event captured when the timer was
        made; a panic in it is recovered and logged. */
    method FireOne(p: string)
      requires p in timers && timers[p].deadline.Some?
      modifies this`now, this`timers, this`fired, this`logs
      ensures now == old(timers)[p].deadline.value
      ensures timers == old(timers)[p := old(timers)[p].(deadline := None)]
      ensures fired == old(fired) + [Firing(now, p, old(timers)[p].evt)]
      ensures var r := fn(old(timers)[p].evt);
        logs == old(logs) + (if r.Panicked? then [r.err] else [])
    {
      var tm := timers[p];
      now := tm.deadline.value;
      timers := timers[p := tm.(deadline := None)];
      fired := fired + [Firing(now, p, tm.evt)];
      var res := fn(tm.evt);
      if res.Panicked? {
        // recover() in the deferred function, then the error is logged
        logs := logs + [res.err];
      }
    }

    /** The clock runs to `until`: every timer due by then fires, earliest
        first, at its deadline; the others are left as they are. */
    method AdvanceTo(until: int)
      requires Valid() && now <= until
      modifies this`now, this`timers, this`fired, this`logs
      ensures Valid() && now == until
      ensures timers.Keys == old(timers).Keys
      ensures forall p :: TimerAt(timers, p) == Expire(p, TimerAt(old(timers), p), until).timer
      ensures forall p :: FiredFor(fired, p) == FiredFor(old(fired), p) + Expire(p, TimerAt(old(timers), p), until).firings
      ensures Recorded(fired, logs, fn, old(fired), old(logs), old(now), until)
    {
      ghost var t0, f0, l0, n0 := timers, fired, logs, now;
      while true
        invariant timers.Keys == t0.Keys
        invariant n0 <= now <= until
        invariant forall q :: q in timers && timers[q].deadline.Some? ==> timers[q].deadline.value >= now
        invariant forall q :: q in timers && timers[q].deadline.Some? ==> timers[q].deadline.value > n0
        invariant forall p :: Progress(timers, fired, p, t0, f0, until)
        invariant Recorded(fired, logs, fn, f0, l0, n0, now)
        decreases DueSet(until)
      {
        ghost var dueBefore := DueSet(until);
        var next := Earliest(until);
        if next.None? {
          break;
        }
        var p := next.value;
        ghost var ts, fs, ls, n := timers, fired, logs, now;
        FireOne(p);
        FireKeepsProgress(ts, fs, p, t0, f0, until, timers, fired);
        RecordedSnoc(fs, ls, fn, f0, l0, n0, n, Firing(now, p, ts[p].evt));
        assert DueSet(until) < dueBefore by {
          assert p in dueBefore && p !in DueSet(until);
        }
      }
      ProgressComplete(timers, fired, t0, f0, until);
      now := until;
    }

    /** Events delivered one by one at their instants, and the clock then
        run to `horizon`: each path goes through `PathRun`, the callbacks
        run in time order, and their panics are logged. */
    method Run(inputs: seq<Input>, horizon: int)
      requires Valid() && now <= horizon
      requires Chronological(inputs, horizon)
      requires forall i :: 0 <= i < |inputs| ==> now <= inputs[i].at
      modifies this`now, this`timers, this`fired, this`logs
      ensures Valid() && now == horizon
      ensures forall p :: TimerAt(timers, p) == PathRun(p, TimerAt(old(timers), p), inputs, horizon).timer
      ensures forall p :: FiredFor(fired, p) == FiredFor(old(fired), p) + PathRun(p, TimerAt(old(timers), p), inputs, horizon).firings
      ensures Recorded(fired, logs, fn, old(fired), old(logs), old(now), horizon)
      ensures old(timers).Keys <= timers.Keys
      ensures forall i :: 0 <= i < |inputs| ==> inputs[i].evt.name in timers
    {
      ghost var t0, f0, l0, n0 := timers, fired, logs, now;
      assert Recorded(fired, logs, fn, f0, l0, n0, now) by {
        assert fired[|f0|..] == [];
      }
      forall p ensures RunProgress(timers, fired, p, t0, f0, inputs, 0, horizon) {
        assert inputs[0..] == inputs;
      }
      for i := 0 to |inputs|
        invariant Valid() && n0 <= now <= horizon
        invariant forall j :: i <= j < |inputs| ==> now <= inputs[j].at
        invariant forall p :: RunProgress(timers, fired, p, t0, f0, inputs, i, horizon)
        invariant Recorded(fired, logs, fn, f0, l0, n0, now)
      {
        var x := inputs[i];
        ghost var ts, fs, ls, n := timers, fired, logs, now;
        AdvanceTo(x.at);
        ghost var ts1 := timers;
        OnEvent(x.evt);
        RunProgressStep(ts, fs, ts1, fired, timers, t0, f0, inputs, i, i + 1, horizon);
        RecordedAppend(fs, ls, fired, logs, fn, f0, l0, n0, n, x.at);
        forall j | i + 1 <= j < |inputs| ensures now <= inputs[j].at {
          assert inputs[i].at <= inputs[j].at;
        }
      }
      ghost var ts, fs, ls, n := timers, fired, logs, now;
      AdvanceTo(horizon);
      RecordedAppend(fs, ls, fired, logs, fn, f0, l0, n0, n, horizon);
      forall p ensures TimerAt(timers, p) == PathRun(p, TimerAt(t0, p), inputs, horizon).timer &&
        FiredFor(fired, p) == FiredFor(f0, p) + PathRun(p, TimerAt(t0, p), inputs, horizon).firings
      {
        assert RunProgress(ts, fs, p, t0, f0, inputs, |inputs|, horizon);
        assert inputs[|inputs|..] == [];
        AppendAssoc(FiredFor(fs, p), Expire(p, TimerAt(ts, p), horizon).firings, []);
      }
      forall p | p in t0 || exists i :: 0 <= i < |inputs| && inputs[i].evt.name == p
        ensures p in timers
      {
        PathRunKeepsTimer(p, TimerAt(t0, p), inputs, horizon);
      }
    }
  }
}
