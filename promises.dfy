/**
 * Lifting plain functions over promises (src/fava/promise/Promises.java).
 *
 * `fmap(f)` lifts over one promise and is the same wiring as `Promise.fmap`.
 * `fmap2(f)` lifts over two promises. Its callbacks share four fields,
 * `state1`, `state2`, `value1` and `value2`, which belong to the lifted
 * function object, not to each `apply`. This module models that bookkeeping
 * twice:
 *   - `AsWrittenStep` follows the code as written, on values, with a flag
 *     that records a failed `assert state == PENDING` in `notifySuccess` or
 *     `notifyFailure` of the result promise;
 *   - `Step` is the evidently intended combinator: bookkeeping fresh for each
 *     `apply`, a failing input recorded as FAILED, and the result rejected
 *     only by the first failure. `PairCombiner` implements it on a real
 *     result promise and is proved against `Step`.
 * Callbacks arrive one at a time (the `synchronized` blocks are not modelled).
 */
module PromiseCombinators {
  import opened PromiseCore

  /** `Promises.fmap(f).apply(promiseT)`: the same as `promiseT.fmap(f)`. */
  method FmapApply<T(0), R(0)>(f: T -> R, promiseT: Promise<T>, id: ListenerId) returns (promiseR: Promise<R>)
    requires promiseT.Valid()
    modifies promiseT
    ensures fresh(promiseR) && promiseR.Valid() && promiseT.Valid()
    ensures promiseR.listeners == [] && promiseR.served == []
    ensures promiseT.Outcome() == old(promiseT.Outcome())
    ensures promiseR.Outcome() == FmapOutcome(old(promiseT.Outcome()), f)
    ensures old(promiseT.state) != PENDING ==> promiseR.state != PENDING
    ensures old(promiseT.state) == PENDING ==> promiseT.listeners == old(promiseT.listeners) + [id] && promiseT.calls == old(promiseT.calls)
    ensures old(promiseT.state) != PENDING ==> promiseT.listeners == old(promiseT.listeners) && promiseT.calls == old(promiseT.calls) + [Deliver(id, promiseT.Outcome())]
  {
    promiseR := promiseT.Fmap(f, id);
  }

  // ------------------------------------------------------------ fmap2 events

  /** A callback reaching the combinator: from the listener on the first or the second input. */
  datatype Event<T1, T2> =
    | Success1(value1: T1)
    | Failure1(exception1: Exception)
    | Success2(value2: T2)
    | Failure2(exception2: Exception)

  /** The fields `state1`, `state2`, `value1`, `value2`. */
  datatype Bookkeeping<T1, T2> = Bookkeeping(state1: State, state2: State, value1: T1, value2: T2)

  /**
   * The result promise as the callbacks see it: its outcome, how many times
   * `notifySuccess`/`notifyFailure` was called on it, and whether one of
   * those calls found it already resolved (an `AssertionError`).
   */
  datatype Resolution<R> = Resolution(outcome: Outcome<R>, notifications: nat, broken: bool)

  /** Bookkeeping and result together. */
  datatype Snapshot<T1, T2, R> = Snapshot(book: Bookkeeping<T1, T2>, res: Resolution<R>)

  /** The bookkeeping of a new lifted function; `null1` and `null2` stand for Java's null. */
  function Fresh<T1, T2>(null1: T1, null2: T2): Bookkeeping<T1, T2>
  {
    Bookkeeping(PENDING, PENDING, null1, null2)
  }

  /** A new result promise: pending, never notified. */
  function Unresolved<R>(): Resolution<R>
  {
    Resolution(Pending, 0, false)
  }

  /**
   * One `notifySuccess`/`notifyFailure` on the result: the assertion fails
   * on a resolved promise, which then keeps its outcome.
   */
  function Notify<R>(res: Resolution<R>, o: Outcome<R>): Resolution<R>
  {
    if res.outcome.Pending? then Resolution(o, res.notifications + 1, res.broken)
    else Resolution(res.outcome, res.notifications + 1, true)
  }

  /**
   * What any sequence of callbacks does to the result promise: notifications
   * only accumulate, a broken promise stays broken, and a resolved promise
   * keeps its outcome.
   */
  ghost predicate Advances<R>(before: Resolution<R>, after: Resolution<R>)
  {
    && before.notifications <= after.notifications
    && (before.broken ==> after.broken)
    && (!before.outcome.Pending? ==> after.outcome == before.outcome)
  }

  // ------------------------------------------------------------ as written

  /**
   * One callback of `fmap2(f)` as written. A failure leaves the bookkeeping
   * alone and, unless the other input is recorded as FAILED (which never
   * happens as written), notifies the result twice, so the second
   * `notifyFailure` breaks it. Once `broken` is set Java has thrown an
   * `AssertionError`; the steps after that are not meaningful and only
   * keep `broken` set.
   */
  function AsWrittenStep<T1, T2, R>(f: (T1, T2) -> R, s: Snapshot<T1, T2, R>, ev: Event<T1, T2>): (r: Snapshot<T1, T2, R>)
    ensures Advances(s.res, r.res)
    ensures (ev.Failure1? || ev.Failure2?) ==> r.book == s.book
    ensures ev.Failure1? && s.book.state2 != FAILED ==> r.res.notifications == s.res.notifications + 2 && r.res.broken
    ensures ev.Failure2? && s.book.state1 != FAILED ==> r.res.notifications == s.res.notifications + 2 && r.res.broken
    ensures ev.Success1? ==> r.book.state1 == SUCCEEDED && r.book.value1 == ev.value1 && r.book.state2 == s.book.state2
    ensures ev.Success2? ==> r.book.state2 == SUCCEEDED && r.book.value2 == ev.value2 && r.book.state1 == s.book.state1
    ensures ev.Success1? && s.book.state2 == SUCCEEDED && s.res.outcome.Pending? ==>
      r.res.outcome == Succeeded(f(ev.value1, s.book.value2))
    ensures ev.Success2? && s.book.state1 == SUCCEEDED && s.res.outcome.Pending? ==>
      r.res.outcome == Succeeded(f(s.book.value1, ev.value2))
  {
    var b := s.book;
    match ev
    case Success1(v) =>
      var b' := b.(value1 := v, state1 := SUCCEEDED);
      Snapshot(b', if b'.state2 == SUCCEEDED then Notify(s.res, Succeeded(f(b'.value1, b'.value2))) else s.res)
    case Failure1(e) =>
      var r := Notify(s.res, Failed(e));
      Snapshot(b, if b.state2 != FAILED then Notify(r, Failed(e)) else r)
    case Success2(v) =>
      var b' := b.(value2 := v, state2 := SUCCEEDED);
      Snapshot(b', if b'.state1 == SUCCEEDED then Notify(s.res, Succeeded(f(b'.value1, b'.value2))) else s.res)
    case Failure2(e) =>
      var r := Notify(s.res, Failed(e));
      Snapshot(b, if b.state1 != FAILED then Notify(r, Failed(e)) else r)
  }

  /** A sequence of callbacks of `fmap2(f)` as written, in arrival order. */
  function AsWrittenRun<T1, T2, R>(f: (T1, T2) -> R, s: Snapshot<T1, T2, R>, trace: seq<Event<T1, T2>>): (r: Snapshot<T1, T2, R>)
    ensures Advances(s.res, r.res)
    decreases |trace|
  {
    if trace == [] then s else AsWrittenRun(f, AsWrittenStep(f, s, trace[0]), trace[1..])
  }

  /** Two callbacks as written, one after the other. */
  lemma AsWrittenRunTwo<T1, T2, R>(f: (T1, T2) -> R, s: Snapshot<T1, T2, R>, e1: Event<T1, T2>, e2: Event<T1, T2>)
    ensures AsWrittenRun(f, s, [e1]) == AsWrittenStep(f, s, e1)
    ensures AsWrittenRun(f, s, [e1, e2]) == AsWrittenStep(f, AsWrittenStep(f, s, e1), e2)
  {
    assert [e2][1..] == [] && [e1][1..] == [];
    assert AsWrittenRun(f, AsWrittenStep(f, s, e1), [e2]) == AsWrittenStep(f, AsWrittenStep(f, s, e1), e2);
    assert [e1, e2][1..] == [e2];
  }

  /** As written, no callback ever sets `state1` or `state2` to FAILED. */
  lemma {:induction false} AsWrittenNeverMarksFailed<T1, T2, R>(f: (T1, T2) -> R, s: Snapshot<T1, T2, R>, trace: seq<Event<T1, T2>>)
    requires s.book.state1 != FAILED && s.book.state2 != FAILED
    ensures AsWrittenRun(f, s, trace).book.state1 != FAILED
    ensures AsWrittenRun(f, s, trace).book.state2 != FAILED
    decreases |trace|
  {
    if trace != [] {
      AsWrittenNeverMarksFailed(f, AsWrittenStep(f, s, trace[0]), trace[1..]);
    }
  }

  /**
   * As written, any failure of an input breaks the result promise: its first
   * `notifyFailure` rejects it, and the guarded second one fails the assertion.
   */
  lemma AsWrittenFailureBreaks<T1, T2, R>(f: (T1, T2) -> R, s: Snapshot<T1, T2, R>, trace: seq<Event<T1, T2>>, e: Exception)
    requires s.book.state1 != FAILED && s.book.state2 != FAILED && s.res.outcome.Pending?
    ensures AsWrittenStep(f, AsWrittenRun(f, s, trace), Failure1(e)).res.broken
    ensures AsWrittenStep(f, AsWrittenRun(f, s, trace), Failure2(e)).res.broken
  {
    AsWrittenNeverMarksFailed(f, s, trace);
  }

  /** The smallest case: one failure on a fresh `apply` notifies twice. */
  lemma AsWrittenFailureNotifiesTwice(e: Exception)
    ensures var s := AsWrittenRun((x: int, y: int) => x + y, Snapshot(Fresh(0, 0), Unresolved()), [Failure1(e)]);
      s.res == Resolution(Failed(e), 2, true)
  {
  }

  /** As written, the result stays pending while only the first input has succeeded. */
  lemma {:induction false} AsWrittenPendingWhileFirstOnly<T1, T2, R>(f: (T1, T2) -> R, s: Snapshot<T1, T2, R>, trace: seq<Event<T1, T2>>)
    requires s.book.state2 != SUCCEEDED
    requires forall i :: 0 <= i < |trace| ==> trace[i].Success1?
    ensures AsWrittenRun(f, s, trace).res == s.res
    ensures AsWrittenRun(f, s, trace).book.state2 == s.book.state2
    decreases |trace|
  {
    if trace != [] {
      AsWrittenPendingWhileFirstOnly(f, AsWrittenStep(f, s, trace[0]), trace[1..]);
    }
  }

  /** As written, the result stays pending while only the second input has succeeded. */
  lemma {:induction false} AsWrittenPendingWhileSecondOnly<T1, T2, R>(f: (T1, T2) -> R, s: Snapshot<T1, T2, R>, trace: seq<Event<T1, T2>>)
    requires s.book.state1 != SUCCEEDED
    requires forall i :: 0 <= i < |trace| ==> trace[i].Success2?
    ensures AsWrittenRun(f, s, trace).res == s.res
    ensures AsWrittenRun(f, s, trace).book.state1 == s.book.state1
    decreases |trace|
  {
    if trace != [] {
      AsWrittenPendingWhileSecondOnly(f, AsWrittenStep(f, s, trace[0]), trace[1..]);
    }
  }

  /**
   * On the first `apply` of a lifted function, two successes in either order
   * notify once, with `f(v1, v2)`.
   */
  lemma AsWrittenBothSucceed<T1, T2, R>(f: (T1, T2) -> R, null1: T1, null2: T2, v1: T1, v2: T2)
    ensures AsWrittenRun(f, Snapshot(Fresh(null1, null2), Unresolved()), [Success1(v1), Success2(v2)]).res
      == Resolution(Succeeded(f(v1, v2)), 1, false)
    ensures AsWrittenRun(f, Snapshot(Fresh(null1, null2), Unresolved()), [Success2(v2), Success1(v1)]).res
      == Resolution(Succeeded(f(v1, v2)), 1, false)
  {
    AsWrittenRunTwo(f, Snapshot(Fresh(null1, null2), Unresolved()), Success1(v1), Success2(v2));
    AsWrittenRunTwo(f, Snapshot(Fresh(null1, null2), Unresolved()), Success2(v2), Success1(v1));
  }

  /**
   * The bookkeeping outlives an `apply`. After a first `apply` has seen
   * `a` and `b`, a second `apply` fulfils its result with `f(c, b)` as soon
   * as its first input gives `c`, with the old `b`; when its second input
   * then gives `d`, a second `notifySuccess` fails the assertion.
   */
  lemma AsWrittenStaleSecondApply(a: int, b: int, c: int, d: int)
    ensures var first := AsWrittenRun((x: int, y: int) => x - y, Snapshot(Fresh(0, 0), Unresolved()), [Success1(a), Success2(b)]);
      var second := AsWrittenRun((x: int, y: int) => x - y, Snapshot(first.book, Unresolved()), [Success1(c)]);
      var third := AsWrittenStep((x: int, y: int) => x - y, second, Success2(d));
      && second.res == Resolution(Succeeded(c - b), 1, false)
      && third.res == Resolution(Succeeded(c - b), 2, true)
  {
    var g := (x: int, y: int) => x - y;
    AsWrittenRunTwo(g, Snapshot(Fresh(0, 0), Unresolved()), Success1(a), Success2(b));
    var first := AsWrittenRun(g, Snapshot(Fresh(0, 0), Unresolved()), [Success1(a), Success2(b)]);
    assert first.book == Bookkeeping(SUCCEEDED, SUCCEEDED, a, b);
    AsWrittenRunTwo(g, Snapshot(first.book, Unresolved()), Success1(c), Success2(d));
  }

  // ------------------------------------------------------------ corrected

  /**
   * One callback of the corrected `fmap2(f)`: a success fulfils the result
   * when the other input has already succeeded; a failure is recorded as
   * FAILED and rejects the result unless the other input failed first.
   */
  function Step<T1, T2, R>(f: (T1, T2) -> R, s: Snapshot<T1, T2, R>, ev: Event<T1, T2>): (r: Snapshot<T1, T2, R>)
    ensures Advances(s.res, r.res)
    ensures ev.Failure1? ==> r.book == s.book.(state1 := FAILED)
    ensures ev.Failure2? ==> r.book == s.book.(state2 := FAILED)
    ensures ev.Failure1? && s.book.state2 != FAILED && s.res.outcome.Pending? ==> r.res == Resolution(Failed(ev.exception1), s.res.notifications + 1, s.res.broken)
    ensures ev.Failure2? && s.book.state1 != FAILED && s.res.outcome.Pending? ==> r.res == Resolution(Failed(ev.exception2), s.res.notifications + 1, s.res.broken)
    ensures ev.Failure1? && s.book.state2 == FAILED ==> r.res == s.res
    ensures ev.Failure2? && s.book.state1 == FAILED ==> r.res == s.res
    ensures ev.Success1? ==> r.book.state1 == SUCCEEDED && r.book.value1 == ev.value1 && r.book.state2 == s.book.state2
    ensures ev.Success2? ==> r.book.state2 == SUCCEEDED && r.book.value2 == ev.value2 && r.book.state1 == s.book.state1
    ensures ev.Success1? && s.book.state2 == SUCCEEDED && s.res.outcome.Pending? ==>
      r.res == Resolution(Succeeded(f(ev.value1, s.book.value2)), s.res.notifications + 1, s.res.broken)
    ensures ev.Success2? && s.book.state1 == SUCCEEDED && s.res.outcome.Pending? ==>
      r.res == Resolution(Succeeded(f(s.book.value1, ev.value2)), s.res.notifications + 1, s.res.broken)
    ensures ev.Success1? && s.book.state2 != SUCCEEDED ==> r.res == s.res
    ensures ev.Success2? && s.book.state1 != SUCCEEDED ==> r.res == s.res
  {
    var b := s.book;
    match ev
    case Success1(v) =>
      Snapshot(b.(value1 := v, state1 := SUCCEEDED),
               if b.state2 == SUCCEEDED then Notify(s.res, Succeeded(f(v, b.value2))) else s.res)
    case Failure1(e) =>
      Snapshot(b.(state1 := FAILED), if b.state2 != FAILED then Notify(s.res, Failed(e)) else s.res)
    case Success2(v) =>
      Snapshot(b.(value2 := v, state2 := SUCCEEDED),
               if b.state1 == SUCCEEDED then Notify(s.res, Succeeded(f(b.value1, v))) else s.res)
    case Failure2(e) =>
      Snapshot(b.(state2 := FAILED), if b.state1 != FAILED then Notify(s.res, Failed(e)) else s.res)
  }

  /** A sequence of callbacks of the corrected `fmap2(f)`, in arrival order. */
  function Run<T1, T2, R>(f: (T1, T2) -> R, s: Snapshot<T1, T2, R>, trace: seq<Event<T1, T2>>): (r: Snapshot<T1, T2, R>)
    ensures Advances(s.res, r.res)
    decreases |trace|
  {
    if trace == [] then s else Run(f, Step(f, s, trace[0]), trace[1..])
  }

  /** Two callbacks of the corrected combinator, one after the other. */
  lemma RunTwo<T1, T2, R>(f: (T1, T2) -> R, s: Snapshot<T1, T2, R>, e1: Event<T1, T2>, e2: Event<T1, T2>)
    ensures Run(f, s, [e1]) == Step(f, s, e1)
    ensures Run(f, s, [e1, e2]) == Step(f, Step(f, s, e1), e2)
  {
    assert [e2][1..] == [] && [e1][1..] == [];
    assert Run(f, Step(f, s, e1), [e2]) == Step(f, Step(f, s, e1), e2);
    assert [e1, e2][1..] == [e2];
  }

  /** The event comes from the listener on the first input. */
  predicate FromFirst<T1, T2>(ev: Event<T1, T2>)
  {
    ev.Success1? || ev.Failure1?
  }

  /**
   * Each input promise resolves at most once, so its listener calls back at
   * most once: at most two events, and two only when one comes from each input.
   */
  predicate ResolvesOnce<T1, T2>(trace: seq<Event<T1, T2>>)
  {
    |trace| <= 2 && (|trace| == 2 ==> FromFirst(trace[0]) != FromFirst(trace[1]))
  }

  /** The exception of the first failure in the trace, if any. */
  function FirstFailure<T1, T2>(trace: seq<Event<T1, T2>>): Outcome<T1>
  {
    if trace == [] then Pending
    else match trace[0]
      case Failure1(e) => Failed(e)
      case Failure2(e) => Failed(e)
      case _ => FirstFailure(trace[1..])
  }

  /** The value the first input succeeded with, if it did. */
  function FirstValue<T1, T2>(trace: seq<Event<T1, T2>>): Outcome<T1>
  {
    if trace == [] then Pending
    else if trace[0].Success1? then Succeeded(trace[0].value1)
    else FirstValue(trace[1..])
  }

  /** The value the second input succeeded with, if it did. */
  function SecondValue<T1, T2>(trace: seq<Event<T1, T2>>): Outcome<T2>
  {
    if trace == [] then Pending
    else if trace[0].Success2? then Succeeded(trace[0].value2)
    else SecondValue(trace[1..])
  }

  /**
   * What the combined promise should end as: rejected by the first failure,
   * else fulfilled with `f(v1, v2)` once both inputs succeeded, else pending.
   */
  function Expected<T1, T2, R>(f: (T1, T2) -> R, trace: seq<Event<T1, T2>>): Outcome<R>
  {
    if FirstFailure(trace).Failed? then Failed(FirstFailure(trace).exception)
    else if FirstValue(trace).Succeeded? && SecondValue(trace).Succeeded? then
      Succeeded(f(FirstValue(trace).value, SecondValue(trace).value))
    else Pending
  }

  /**
   * The corrected combinator resolves its result once, never breaks an
   * assertion, and ends with the expected outcome, for every order of the
   * callbacks of the two inputs.
   */
  lemma StepResolvesOnce<T1, T2, R>(f: (T1, T2) -> R, null1: T1, null2: T2, trace: seq<Event<T1, T2>>)
    requires ResolvesOnce(trace)
    ensures var s := Run(f, Snapshot(Fresh(null1, null2), Unresolved()), trace);
      && !s.res.broken
      && s.res.outcome == Expected(f, trace)
      && s.res.notifications == (if Expected(f, trace).Pending? then 0 else 1)
  {
    var s0 := Snapshot(Fresh(null1, null2), Unresolved());
    if |trace| == 1 {
      assert trace == [trace[0]];
      RunTwo(f, s0, trace[0], trace[0]);
      assert trace[1..] == [];
      assert FirstFailure(trace[1..]) == Pending && FirstValue(trace[1..]) == Pending && SecondValue(trace[1..]) == Pending;
    } else if |trace| == 2 {
      assert trace == [trace[0], trace[1]];
      RunTwo(f, s0, trace[0], trace[1]);
      assert trace[1..] == [trace[1]];
      var rest := trace[1..];
      assert rest[1..] == [];
      assert FirstFailure(rest) == (if rest[0].Failure1? || rest[0].Failure2? then FirstFailure([rest[0]]) else Pending);
      assert FirstValue(rest) == (if rest[0].Success1? then Succeeded(rest[0].value1) else Pending);
      assert SecondValue(rest) == (if rest[0].Success2? then Succeeded(rest[0].value2) else Pending);
    }
  }

  /** On the first `apply`, the corrected and the as-written combinators agree when both inputs succeed. */
  lemma StepAgreesOnSuccess<T1, T2, R>(f: (T1, T2) -> R, null1: T1, null2: T2, v1: T1, v2: T2)
    ensures Run(f, Snapshot(Fresh(null1, null2), Unresolved()), [Success1(v1), Success2(v2)]).res
      == AsWrittenRun(f, Snapshot(Fresh(null1, null2), Unresolved()), [Success1(v1), Success2(v2)]).res
    ensures Run(f, Snapshot(Fresh(null1, null2), Unresolved()), [Success2(v2), Success1(v1)]).res
      == AsWrittenRun(f, Snapshot(Fresh(null1, null2), Unresolved()), [Success2(v2), Success1(v1)]).res
  {
    var s0 := Snapshot(Fresh(null1, null2), Unresolved());
    AsWrittenBothSucceed(f, null1, null2, v1, v2);
    RunTwo(f, s0, Success1(v1), Success2(v2));
    RunTwo(f, s0, Success2(v2), Success1(v1));
  }

  /**
   * The outcome of one `apply` on two inputs that are already resolved:
   * the first input's listener runs first, so its failure wins.
   */
  function Combine<T1, T2, R>(f: (T1, T2) -> R, o1: Outcome<T1>, o2: Outcome<T2>): Outcome<R>
  {
    if o1.Failed? then Failed(o1.exception)
    else if o2.Failed? then Failed(o2.exception)
    else if o1.Succeeded? && o2.Succeeded? then Succeeded(f(o1.value, o2.value))
    else Pending
  }

  // ------------------------------------------------------------ per-apply combiner

  /**
   * The state of one `apply` of the corrected `fmap2(f)`: the bookkeeping
   * fields and the result promise. A callback for an input arrives only
   * while that input is recorded as PENDING, since an input promise is
   * resolved once.
   */
  class PairCombiner<T1(0), T2(0), R(0)> {
    const f: (T1, T2) -> R
    const promiseR: Promise<R>
    var state1: State
    var state2: State
    var value1: T1
    var value2: T2
    /** How many times the result promise was notified. */
    ghost var notifications: nat

    ghost function Current(): Snapshot<T1, T2, R>
      reads this, promiseR
    {
      Snapshot(Bookkeeping(state1, state2, value1, value2), Resolution(promiseR.Outcome(), notifications, false))
    }

    /**
     * The result is pending exactly while neither input failed and not both
     * succeeded, has been notified once when it is not, and holds `f` of
     * the two values once both succeeded.
     */
    ghost predicate Valid()
      reads this, promiseR
    {
      && promiseR.Valid()
      && (promiseR.state == PENDING <==> state1 != FAILED && state2 != FAILED && !(state1 == SUCCEEDED && state2 == SUCCEEDED))
      && notifications == (if promiseR.state == PENDING then 0 else 1)
      && (state1 == SUCCEEDED && state2 == SUCCEEDED ==> promiseR.Outcome() == Succeeded(f(value1, value2)))
    }

    constructor(f: (T1, T2) -> R)
      ensures Valid() && fresh(promiseR) && this.f == f && promiseR.listeners == []
      ensures Current() == Snapshot(Fresh(value1, value2), Unresolved())
    {
      this.f := f;
      promiseR := new Promise<R>();
      state1 := PENDING;
      state2 := PENDING;
      notifications := 0;
    }

    /** `onSuccess(value)` of the listener on the first input. */
    method OnSuccess1(v: T1)
      requires Valid() && state1 == PENDING
      modifies this, promiseR
      ensures Valid() && Current() == Step(f, old(Current()), Success1(v))
      ensures promiseR.listeners == old(promiseR.listeners) && promiseR.served == old(promiseR.served)
    {
      value1 := v;
      state1 := SUCCEEDED;
      if state2 == SUCCEEDED {
        promiseR.NotifySuccess(f(value1, value2));
        notifications := notifications + 1;
      }
    }

    /** `onFailure(exception)` of the listener on the first input. */
    method OnFailure1(e: Exception)
      requires Valid() && state1 == PENDING
      modifies this, promiseR
      ensures Valid() && Current() == Step(f, old(Current()), Failure1(e))
      ensures promiseR.listeners == old(promiseR.listeners) && promiseR.served == old(promiseR.served)
    {
      state1 := FAILED;
      if state2 != FAILED {
        promiseR.NotifyFailure(e);
        notifications := notifications + 1;
      }
    }

    /** `onSuccess(value)` of the listener on the second input. */
    method OnSuccess2(v: T2)
      requires Valid() && state2 == PENDING
      modifies this, promiseR
      ensures Valid() && Current() == Step(f, old(Current()), Success2(v))
      ensures promiseR.listeners == old(promiseR.listeners) && promiseR.served == old(promiseR.served)
    {
      value2 := v;
      state2 := SUCCEEDED;
      if state1 == SUCCEEDED {
        promiseR.NotifySuccess(f(value1, value2));
        notifications := notifications + 1;
      }
    }

    /** `onFailure(exception)` of the listener on the second input. */
    method OnFailure2(e: Exception)
      requires Valid() && state2 == PENDING
      modifies this, promiseR
      ensures Valid() && Current() == Step(f, old(Current()), Failure2(e))
      ensures promiseR.listeners == old(promiseR.listeners) && promiseR.served == old(promiseR.served)
    {
      state2 := FAILED;
      if state1 != FAILED {
        promiseR.NotifyFailure(e);
        notifications := notifications + 1;
      }
    }
  }

  /**
   * `fmap2(f).apply(promiseT1, promiseT2)`, corrected: a new combiner,
   * listeners `id1` and `id2` on the inputs, and the callbacks of inputs
   * that are already resolved run on the spot, the first input's first.
   */
  method Fmap2Apply<T1(0), T2(0), R(0)>(f: (T1, T2) -> R, promiseT1: Promise<T1>, promiseT2: Promise<T2>,
                                         id1: ListenerId, id2: ListenerId)
    returns (c: PairCombiner<T1, T2, R>)
    requires promiseT1.Valid() && promiseT2.Valid()
    modifies promiseT1, promiseT2
    ensures fresh(c) && fresh(c.promiseR) && c.Valid() && c.f == f
    ensures c.state1 == old(promiseT1.state) && c.state2 == old(promiseT2.state)
    ensures c.promiseR.Outcome() == Combine(f, old(promiseT1.Outcome()), old(promiseT2.Outcome()))
    ensures c.promiseR.listeners == [] && c.promiseR.served == []
    ensures promiseT1.Valid() && promiseT1.Outcome() == old(promiseT1.Outcome())
    ensures promiseT2.Valid() && promiseT2.Outcome() == old(promiseT2.Outcome())
    ensures promiseT1 as object != promiseT2 ==>
      && (old(promiseT1.state) == PENDING ==> promiseT1.listeners == old(promiseT1.listeners) + [id1] && promiseT1.calls == old(promiseT1.calls))
      && (old(promiseT1.state) != PENDING ==> promiseT1.listeners == old(promiseT1.listeners) && promiseT1.calls == old(promiseT1.calls) + [Deliver(id1, promiseT1.Outcome())])
      && (old(promiseT2.state) == PENDING ==> promiseT2.listeners == old(promiseT2.listeners) + [id2] && promiseT2.calls == old(promiseT2.calls))
      && (old(promiseT2.state) != PENDING ==> promiseT2.listeners == old(promiseT2.listeners) && promiseT2.calls == old(promiseT2.calls) + [Deliver(id2, promiseT2.Outcome())])
    ensures promiseT1 as object == promiseT2 ==>
      && (old(promiseT1.state) == PENDING ==> promiseT1.listeners == old(promiseT1.listeners) + [id1, id2] && promiseT1.calls == old(promiseT1.calls))
      && (old(promiseT1.state) != PENDING ==> promiseT1.listeners == old(promiseT1.listeners) && promiseT1.calls == old(promiseT1.calls) + [Deliver(id1, promiseT1.Outcome()), Deliver(id2, promiseT1.Outcome())])
  {
    var o1, o2 := promiseT1.state, promiseT2.state;
    ghost var out1, out2 := promiseT1.Outcome(), promiseT2.Outcome();
    c := new PairCombiner(f);
    promiseT1.AddListener(id1);
    if promiseT1.state == SUCCEEDED {
      c.OnSuccess1(promiseT1.value);
    } else if promiseT1.state == FAILED {
      c.OnFailure1(promiseT1.exception);
    }
    assert c.state1 == o1;
    assert promiseT2.Valid() && promiseT2.state == o2 && promiseT2.Outcome() == out2;
    promiseT2.AddListener(id2);
    if promiseT2.state == SUCCEEDED {
      c.OnSuccess2(promiseT2.value);
    } else if promiseT2.state == FAILED {
      c.OnFailure2(promiseT2.exception);
    }
  }

  /**
   * A listener `id` added to the result of a corrected `apply` while both
   * inputs are pending is called once, with `f(v1, v2)`, when the second and
   * then the first input succeed.
   */
  method CombinedListenerReceivesResult<T1(0), T2(0), R(0)>(c: PairCombiner<T1, T2, R>, id: ListenerId, v1: T1, v2: T2)
    requires c.Valid() && c.state1 == PENDING && c.state2 == PENDING
    requires c.promiseR.listeners == [] && c.promiseR.served == []
    modifies c, c.promiseR
    ensures c.Valid() && c.promiseR.Outcome() == Succeeded(c.f(v1, v2))
    ensures c.promiseR.listeners == [id] && c.promiseR.calls == [OnSuccess(id, c.f(v1, v2))]
  {
    c.promiseR.AddListener(id);
    c.OnSuccess2(v2);
    c.OnSuccess1(v1);
  }
}
