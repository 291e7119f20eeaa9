/**
 * The preview scheduler of the editor session, as a state machine on values:
 * a debounce timer that every edit replaces, and a single-flight guard that
 * drops (does not queue) a render request while one is in flight.
 * The session class in module App keeps these two pieces of state in its
 * fields and its methods are proved to follow these transition functions.
 */
module Scheduler {
  import opened Common

  /** Delay of the preview debounce timer, in milliseconds. */
  const DebounceMs: nat := 500

  /** `deadline` is the due time of the pending debounce timer, if any;
      `rendering` is the in-flight flag. */
  datatype State = State(deadline: Option<nat>, rendering: bool)

  /** What one call of the preview render does. */
  datatype Attempt =
    | Dropped      // a render is already in flight: return at once
    | NoContainer  // the preview container is missing: notify, flag untouched
    | Started      // the flag is raised and the render request is sent

  /** An input to the scheduler: an editor change, the event loop reaching
      time `at`, or the in-flight render settling (on success or failure). */
  datatype Event = Edit(at: nat) | Tick(at: nat, containerPresent: bool) | Settle

  /** The debounce timer ran the render entry point, logically at time `at`. */
  datatype Fired = Fired(at: nat, attempt: Attempt)

  /** Every edit clears the pending timer and sets a new one. */
  function Schedule(s: State, now: nat): (t: State)
    ensures t.deadline == Some(now + DebounceMs) && t.deadline.value > now
    ensures t.rendering == s.rendering
  {
    s.(deadline := Some(now + DebounceMs))
  }

  function AttemptOf(s: State, containerPresent: bool): (a: Attempt)
    ensures a == Started <==> !s.rendering && containerPresent
    ensures a == Dropped <==> s.rendering
  {
    if s.rendering then Dropped
    else if !containerPresent then NoContainer
    else Started
  }

  /** The state after one call of the render entry point. */
  function AfterAttempt(s: State, containerPresent: bool): (t: State)
    ensures t.deadline == s.deadline
    ensures t.rendering <==> s.rendering || AttemptOf(s, containerPresent) == Started
  {
    if AttemptOf(s, containerPresent) == Started then s.(rendering := true) else s
  }

  predicate Due(s: State, now: nat) {
    s.deadline.Some? && s.deadline.value <= now
  }

  /** The event loop at time `now`: a due timer is consumed and runs the render entry point. */
  function AfterTick(s: State, now: nat, containerPresent: bool): (t: State)
    ensures !Due(s, now) ==> t == s
    ensures Due(s, now) ==> t.deadline.None? && (t.rendering <==> s.rendering || containerPresent)
  {
    if Due(s, now) then AfterAttempt(s.(deadline := None), containerPresent) else s
  }

  /** The `finally` of the render: the flag drops whatever the outcome. */
  function AfterSettle(s: State): (t: State)
    ensures !t.rendering && t.deadline == s.deadline
  {
    s.(rendering := false)
  }

  /** One event: only a tick can fire the timer, at most once, and it does so
      exactly when the timer is due. */
  function Step(s: State, e: Event): (r: (State, seq<Fired>))
    ensures |r.1| <= 1
    ensures !e.Tick? ==> r.1 == []
    ensures e.Tick? ==> (|r.1| == 1 <==> Due(s, e.at))
    ensures |r.1| == 1 ==> r.1[0].at == s.deadline.value && (r.1[0].attempt == Dropped <==> s.rendering)
    ensures e.Edit? ==> r.0.deadline == Some(e.at + DebounceMs) && r.0.rendering == s.rendering
  {
    match e
    case Edit(t) => (Schedule(s, t), [])
    case Tick(t, c) =>
      if Due(s, t) then (AfterTick(s, t, c), [Fired(s.deadline.value, AttemptOf(s.(deadline := None), c))])
      else (s, [])
    case Settle => (AfterSettle(s), [])
  }

  /** Runs a sequence of events; the second component lists every timer that fired. */
  function Run(s: State, evs: seq<Event>): (r: (State, seq<Fired>))
    ensures |r.1| <= |evs|
    decreases |evs|
  {
    if evs == [] then (s, [])
    else
      var (s1, f1) := Step(s, evs[0]);
      var (s2, f2) := Run(s1, evs[1..]);
      (s2, f1 + f2)
  }

  /** Running `[e] + rest` is one step, then the rest. */
  lemma RunCons(s: State, e: Event, rest: seq<Event>)
    ensures Run(s, [e] + rest)
            == (Run(Step(s, e).0, rest).0, Step(s, e).1 + Run(Step(s, e).0, rest).1)
  {
    assert ([e] + rest)[0] == e;
    assert ([e] + rest)[1..] == rest;
  }

  /** Running `a + b` is running `a`, then `b` from where `a` ended. */
  lemma {:induction false} RunAppend(s: State, a: seq<Event>, b: seq<Event>)
    ensures Run(s, a + b).0 == Run(Run(s, a).0, b).0
    ensures Run(s, a + b).1 == Run(s, a).1 + Run(Run(s, a).0, b).1
    decreases |a|
  {
    if a == [] {
      assert a + b == b;
    } else {
      assert a == [a[0]] + a[1..];
      assert a + b == [a[0]] + (a[1..] + b);
      RunCons(s, a[0], a[1..] + b);
      RunCons(s, a[0], a[1..]);
      RunAppend(Step(s, a[0]).0, a[1..], b);
    }
  }

  /** After any sequence of events ending in an edit at `t`, exactly one timer
      is pending and it is due at `t + 500`; nothing fires at the edit itself. */
  lemma LastEditSetsDeadline(s: State, evs: seq<Event>, t: nat)
    ensures Run(s, evs + [Edit(t)]).0.deadline == Some(t + DebounceMs)
    ensures Run(s, evs + [Edit(t)]).0.rendering == Run(s, evs).0.rendering
    ensures Run(s, evs + [Edit(t)]).1 == Run(s, evs).1
  {
    RunAppend(s, evs, [Edit(t)]);
  }

  /** A burst of edits at the times `ts`; before each edit the event loop runs
      whatever is due by then (with the preview container present or not, `c`). */
  function EditsAt(ts: seq<nat>, c: bool): seq<Event>
    decreases |ts|
  {
    if ts == [] then [] else [Tick(ts[0], c), Edit(ts[0])] + EditsAt(ts[1..], c)
  }

  /** Consecutive edits of the burst are less than the debounce delay apart. */
  predicate CloseTogether(ts: seq<nat>) {
    forall i :: 0 <= i < |ts| - 1 ==> ts[i] <= ts[i + 1] < ts[i] + DebounceMs
  }

  function Last(ts: seq<nat>): nat
    requires ts != []
  {
    ts[|ts| - 1]
  }

  /** During a burst of close-together edits no timer fires, and afterwards the
      single pending timer is due 500 after the last edit. */
  lemma {:induction false} BurstIsQuiet(s: State, ts: seq<nat>, c: bool)
    requires ts != [] && CloseTogether(ts)
    requires s.deadline.None? || ts[0] < s.deadline.value
    ensures Run(s, EditsAt(ts, c)) == (State(Some(Last(ts) + DebounceMs), s.rendering), [])
    decreases |ts|
  {
    var s1 := Schedule(s, ts[0]);
    assert Run(s, EditsAt(ts, c)) == Run(s1, EditsAt(ts[1..], c)) by {
      var rest := EditsAt(ts[1..], c);
      assert EditsAt(ts, c) == [Tick(ts[0], c)] + ([Edit(ts[0])] + rest);
      assert Step(s, Tick(ts[0], c)) == (s, []);
      RunCons(s, Tick(ts[0], c), [Edit(ts[0])] + rest);
      var r1 := Run(s, [Edit(ts[0])] + rest);
      assert [] + r1.1 == r1.1;
      RunCons(s, Edit(ts[0]), rest);
      var r2 := Run(s1, rest);
      assert [] + r2.1 == r2.1;
    }
    if |ts| > 1 {
      assert s1.deadline.value == ts[0] + DebounceMs > ts[1..][0];
      assert CloseTogether(ts[1..]) by {
        forall i | 0 <= i < |ts[1..]| - 1
          ensures ts[1..][i] <= ts[1..][i + 1] < ts[1..][i] + DebounceMs
        {
          assert ts[1..][i] == ts[i + 1] && ts[1..][i + 1] == ts[i + 2];
        }
      }
      BurstIsQuiet(s1, ts[1..], c);
      assert Last(ts[1..]) == Last(ts);
    } else {
      assert EditsAt(ts[1..], c) == [];
    }
  }

  /** N close-together edits make the render entry point run exactly once,
      500 after the last edit, and no timer is left pending. */
  lemma BurstFiresOnce(s: State, ts: seq<nat>, c: bool, c': bool)
    requires ts != [] && CloseTogether(ts)
    requires s.deadline.None? || ts[0] < s.deadline.value
    ensures Run(s, EditsAt(ts, c) + [Tick(Last(ts) + DebounceMs, c')]).1
            == [Fired(Last(ts) + DebounceMs, AttemptOf(s, c'))]
    ensures Run(s, EditsAt(ts, c) + [Tick(Last(ts) + DebounceMs, c')]).0
            == AfterAttempt(State(None, s.rendering), c')
  {
    BurstIsQuiet(s, ts, c);
    RunAppend(s, EditsAt(ts, c), [Tick(Last(ts) + DebounceMs, c')]);
  }

  /** A burst whose gap reaches the debounce delay is not one render: the timer
      of the earlier edit fires before the later edit arrives. */
  lemma SlowEditsFireTwice(s: State, t: nat, c': bool)
    requires !s.rendering
    requires s.deadline.None? || t < s.deadline.value
    ensures Run(s, EditsAt([t, t + DebounceMs], true) + [Tick(t + 2 * DebounceMs, c')]).1
            == [Fired(t + DebounceMs, Started), Fired(t + 2 * DebounceMs, Dropped)]
  {
    var t1, t2 := t + DebounceMs, t + 2 * DebounceMs;
    assert EditsAt([t, t1], true) + [Tick(t2, c')]
        == [Tick(t, true)] + ([Edit(t)] + ([Tick(t1, true)] + ([Edit(t1)] + ([Tick(t2, c')] + [])))) by {
      assert [t, t1][1..] == [t1];
      assert [t1][1..] == [];
      assert EditsAt([t1], true) == [Tick(t1, true), Edit(t1)] + EditsAt([], true);
      assert EditsAt([t, t1], true) == [Tick(t, true), Edit(t)] + EditsAt([t1], true);
    }
    var s1 := State(Some(t1), false);
    var s2 := State(None, true);
    var s3 := State(Some(t2), true);
    RunCons(s, Tick(t, true), [Edit(t)] + ([Tick(t1, true)] + ([Edit(t1)] + ([Tick(t2, c')] + []))));
    RunCons(s, Edit(t), [Tick(t1, true)] + ([Edit(t1)] + ([Tick(t2, c')] + [])));
    RunCons(s1, Tick(t1, true), [Edit(t1)] + ([Tick(t2, c')] + []));
    RunCons(s2, Edit(t1), [Tick(t2, c')] + []);
    RunCons(s3, Tick(t2, c'), []);
  }

  function IsEdit(e: Event): bool { e.Edit? }

  /** Without edits at most the already-pending timer can fire: a render request
      dropped by the in-flight guard is not queued and never runs later. */
  lemma {:induction false} NoEditsFireAtMostOnce(s: State, evs: seq<Event>)
    requires forall i :: 0 <= i < |evs| ==> !IsEdit(evs[i])
    ensures |Run(s, evs).1| <= if s.deadline.Some? then 1 else 0
    ensures s.deadline.None? ==> Run(s, evs).0.deadline.None?
    decreases |evs|
  {
    if evs != [] {
      var (s1, f1) := Step(s, evs[0]);
      assert !IsEdit(evs[0]);
      assert forall i :: 0 <= i < |evs[1..]| ==> !IsEdit(evs[1..][i]) by {
        forall i | 0 <= i < |evs[1..]| ensures !IsEdit(evs[1..][i]) {
          assert evs[1..][i] == evs[i + 1];
        }
      }
      NoEditsFireAtMostOnce(s1, evs[1..]);
      assert f1 != [] ==> s.deadline.Some? && s1.deadline.None?;
    }
  }

  /** A timer firing while a render is in flight starts nothing, sends nothing,
      and leaves the flag raised and no timer pending. */
  lemma FireWhileRendering(s: State, now: nat, c: bool)
    requires s.rendering && Due(s, now)
    ensures Step(s, Tick(now, c)) == (State(None, true), [Fired(s.deadline.value, Dropped)])
  {
  }

  /** Once a render settles the scheduler is ready again: the next edit followed
      by 500 quiet milliseconds starts a new render when the container exists. */
  lemma SettleThenEditStarts(s: State, t: nat)
    ensures Run(s, [Settle, Edit(t), Tick(t + DebounceMs, true)])
            == (State(None, true), [Fired(t + DebounceMs, Started)])
  {
    var tick := Tick(t + DebounceMs, true);
    var f := [Fired(t + DebounceMs, Started)];
    var s1 := State(Some(t + DebounceMs), false);
    var s2 := State(None, true);
    assert [Settle, Edit(t), tick] == [Settle] + ([Edit(t)] + ([tick] + []));
    RunCons(s2, tick, []);
    assert Run(s1, [tick] + []) == (s2, f) by {
      RunCons(s1, tick, []);
      assert Run(s2, []) == (s2, []);
      assert f + [] == f;
    }
    assert Run(AfterSettle(s), [Edit(t)] + ([tick] + [])) == (s2, f) by {
      RunCons(AfterSettle(s), Edit(t), [tick] + []);
      assert [] + f == f;
    }
    RunCons(s, Settle, [Edit(t)] + ([tick] + []));
    assert [] + f == f;
  }

  /** With the preview container missing the flag is never raised, so an
      attempt neither blocks later renders nor needs a settle. */
  lemma MissingContainerKeepsIdle(s: State, now: nat)
    requires !s.rendering && Due(s, now)
    ensures Step(s, Tick(now, false)) == (State(None, false), [Fired(s.deadline.value, NoContainer)])
  {
  }
}
