/**
 * The trailing-edge debouncer: a wrapper that, on every call, cancels the
 * pending timeout and schedules a new one `ms` later with the latest
 * arguments. Time is a discrete clock that advances one unit per tick.
 */
module Debounce {
  import opened Wrappers

  /** The one pending timeout: the arguments of the call that set it and the time of that call. */
  datatype Job<A> = Job(args: A, calledAt: nat)

  /** The clock and the pending timeout, if any (`tId` in the closure). */
  datatype Timer<A> = Timer(now: nat, pending: Option<Job<A>>)

  /** What can happen to the debouncer: the wrapper is called, or one unit of time passes. */
  datatype Event<A> = Called(args: A) | Ticked

  /** A pending job was never scheduled in the future. */
  predicate Consistent<A>(s: Timer<A>) {
    s.pending.Some? ==> s.pending.value.calledAt <= s.now
  }

  /**
   * One event. A call replaces whatever is pending and fires nothing; a tick
   * fires the pending job, once, when `ms` units have passed since its call.
   */
  function Step<A>(s: Timer<A>, e: Event<A>, ms: nat): (r: (Timer<A>, Option<A>))
    ensures e.Called? ==> r.1 == None && r.0 == Timer(s.now, Some(Job(e.args, s.now)))
    ensures e.Ticked? ==> r.0.now == s.now + 1
    ensures e.Ticked? ==> (r.1.Some? <==> s.pending.Some? && s.now + 1 >= s.pending.value.calledAt + ms)
    ensures r.1.Some? ==> r.1.value == s.pending.value.args && r.0.pending == None
    ensures r.1.None? && e.Ticked? ==> r.0.pending == s.pending
    ensures Consistent(s) ==> Consistent(r.0)
  {
    match e
    case Called(a) => (Timer(s.now, Some(Job(a, s.now))), None)
    case Ticked =>
      var now := s.now + 1;
      if s.pending.Some? && now >= s.pending.value.calledAt + ms then (Timer(now, None), Some(s.pending.value.args))
      else (Timer(now, s.pending), None)
  }

  /** A run of events: the final timer and the arguments of every firing, in order. */
  function Run<A>(s: Timer<A>, evs: seq<Event<A>>, ms: nat): (Timer<A>, seq<A>)
    decreases |evs|
  {
    if evs == [] then (s, [])
    else
      var first := Step(s, evs[0], ms);
      var rest := Run(first.0, evs[1..], ms);
      (rest.0, (if first.1.Some? then [first.1.value] else []) + rest.1)
  }

  /** However the events go, a consistent timer stays consistent: no job is ever scheduled ahead of the clock. */
  lemma {:induction false} RunKeepsConsistent<A>(s: Timer<A>, evs: seq<Event<A>>, ms: nat)
    requires Consistent(s)
    ensures Consistent(Run(s, evs, ms).0)
    decreases |evs|
  {
    if evs != [] {
      RunKeepsConsistent(Step(s, evs[0], ms).0, evs[1..], ms);
    }
  }

  function Ticks<A>(n: nat): (r: seq<Event<A>>)
    ensures |r| == n && forall k :: 0 <= k < n ==> r[k] == Ticked
  {
    seq(n, _ => Ticked)
  }

  /**
   * No gap between consecutive calls reaches `ms` ticks; `elapsed` is the
   * number of ticks already passed since the latest call.
   */
  predicate Quiet<A>(evs: seq<Event<A>>, elapsed: nat, ms: nat)
    decreases |evs|
  {
    evs == [] ||
    match evs[0]
    case Called(_) => Quiet(evs[1..], 0, ms)
    case Ticked => elapsed + 1 < ms && Quiet(evs[1..], elapsed + 1, ms)
  }

  /** The arguments of the latest call in evs, or `a` when there is none. */
  function LastArgs<A>(evs: seq<Event<A>>, a: A): A
    decreases |evs|
  {
    if evs == [] then a else LastArgs(evs[1..], if evs[0].Called? then evs[0].args else a)
  }

  /** The ticks since the latest call, starting from `elapsed`. */
  function Elapsed<A>(evs: seq<Event<A>>, elapsed: nat): nat
    decreases |evs|
  {
    if evs == [] then elapsed else Elapsed(evs[1..], if evs[0].Called? then 0 else elapsed + 1)
  }

  lemma {:induction false} RunAppend<A>(s: Timer<A>, x: seq<Event<A>>, y: seq<Event<A>>, ms: nat)
    ensures Run(s, x + y, ms).0 == Run(Run(s, x, ms).0, y, ms).0
    ensures Run(s, x + y, ms).1 == Run(s, x, ms).1 + Run(Run(s, x, ms).0, y, ms).1
    decreases |x|
  {
    if x == [] {
      assert x + y == y;
    } else {
      assert (x + y)[1..] == x[1..] + y;
      RunAppend(Step(s, x[0], ms).0, x[1..], y, ms);
    }
  }

  /**
   * While calls keep coming less than `ms` apart nothing fires, and the
   * pending job always holds the arguments of the latest call.
   */
  lemma {:induction false} QuietRunFiresNothing<A>(s: Timer<A>, evs: seq<Event<A>>, elapsed: nat, ms: nat)
    requires s.pending.Some? && s.now == s.pending.value.calledAt + elapsed && elapsed < ms
    requires Quiet(evs, elapsed, ms)
    ensures var r := Run(s, evs, ms);
      r.1 == [] && r.0.pending.Some?
      && r.0.pending.value.args == LastArgs(evs, s.pending.value.args)
      && r.0.now == r.0.pending.value.calledAt + Elapsed(evs, elapsed)
      && Elapsed(evs, elapsed) < ms
    decreases |evs|
  {
    if evs != [] {
      var s1 := Step(s, evs[0], ms).0;
      if evs[0].Called? {
        QuietRunFiresNothing(s1, evs[1..], 0, ms);
      } else {
        QuietRunFiresNothing(s1, evs[1..], elapsed + 1, ms);
      }
    }
  }

  /** With nothing pending, time passing fires nothing. */
  lemma {:induction false} IdleTicks<A>(s: Timer<A>, n: nat, ms: nat)
    requires s.pending.None?
    ensures Run(s, Ticks<A>(n), ms) == (Timer(s.now + n, None), [])
    decreases n
  {
    if n == 0 {
      assert Ticks<A>(n) == [];
    } else {
      var s1 := Step(s, Ticked, ms).0;
      assert Ticks<A>(n)[1..] == Ticks<A>(n - 1);
      IdleTicks(s1, n - 1, ms);
      var t := Ticks<A>(n);
      assert t[0] == Ticked;
      assert Run(s, t, ms).1 == [];
      assert Run(s, t, ms).0 == Timer(s.now + n, None);
    }
  }

  /** A pending job fires exactly once, with its own arguments, once its `ms` units have passed. */
  lemma {:induction false} PendingFiresOnce<A>(s: Timer<A>, n: nat, elapsed: nat, ms: nat)
    requires s.pending.Some? && s.now == s.pending.value.calledAt + elapsed
    requires elapsed < ms <= elapsed + n
    ensures Run(s, Ticks<A>(n), ms).1 == [s.pending.value.args]
    ensures Run(s, Ticks<A>(n), ms).0.pending.None?
    decreases n
  {
    assert Ticks<A>(n)[1..] == Ticks<A>(n - 1);
    var s1 := Step(s, Ticked, ms).0;
    if elapsed + 1 >= ms {
      IdleTicks(s1, n - 1, ms);
    } else {
      PendingFiresOnce(s1, n - 1, elapsed + 1, ms);
    }
  }

  /**
   * In a consistent timer a pending job fires, exactly once, within `ms`
   * ticks (one tick at least), however long ago its call was made.
   */
  lemma PendingFiresWithinDelay<A>(s: Timer<A>, n: nat, ms: nat)
    requires Consistent(s) && s.pending.Some?
    requires n >= ms && n >= 1
    ensures Run(s, Ticks<A>(n), ms).1 == [s.pending.value.args]
    ensures Run(s, Ticks<A>(n), ms).0.pending.None?
  {
    var elapsed := s.now - s.pending.value.calledAt;
    if elapsed < ms {
      PendingFiresOnce(s, n, elapsed, ms);
    } else {
      assert Ticks<A>(n)[1..] == Ticks<A>(n - 1);
      IdleTicks(Step(s, Ticked, ms).0, n - 1, ms);
    }
  }

  /**
   * A burst of calls, each less than `ms` after the one before, followed by a
   * pause of `ms` units, fires exactly once, with the arguments of the last
   * call of the burst.
   */
  lemma BurstFiresOnceWithLastArgs<A>(s: Timer<A>, a: A, rest: seq<Event<A>>, ms: nat)
    requires ms >= 1
    requires Quiet(rest, 0, ms)
    ensures Run(s, [Called(a)] + rest + Ticks<A>(ms), ms).1 == [LastArgs(rest, a)]
  {
    var burst := [Called(a)] + rest;
    RunAppend(s, burst, Ticks<A>(ms), ms);
    var s1 := Step(s, Called(a), ms).0;
    assert burst[1..] == rest;
    QuietRunFiresNothing(s1, rest, 0, ms);
    var r := Run(s1, rest, ms);
    PendingFiresOnce(r.0, ms, Elapsed(rest, 0), ms);
  }

  /** The closure returned by debounce(fn, ms), with its timeout `tId`. */
  class Debouncer<A> {
    const ms: nat
    var now: nat
    var pending: Option<Job<A>>

    function State(): Timer<A>
      reads this
    {
      Timer(now, pending)
    }

    constructor (ms: nat)
      ensures this.ms == ms && State() == Timer(0, None) && Consistent(State())
    {
      this.ms := ms;
      now := 0;
      pending := None;
    }

    /** clearTimeout(tId); tId = setTimeout(() => fn(...args), ms) */
    method Call(args: A)
      modifies this
      ensures State() == Step(old(State()), Called(args), ms).0
      ensures Consistent(State())
    {
      pending := Some(Job(args, now));
    }

    /** One unit of time passes; the callback's arguments are returned when the timeout fires. */
    method Tick() returns (fired: Option<A>)
      modifies this
      ensures (State(), fired) == Step(old(State()), Ticked, ms)
      ensures Consistent(old(State())) ==> Consistent(State())
    {
      now := now + 1;
      fired := None;
      if pending.Some? && now >= pending.value.calledAt + ms {
        fired := Some(pending.value.args);
        pending := None;
      }
    }
  }
}
