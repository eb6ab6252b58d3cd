/**
 * The promise of src/fava/promise/Promise.java: a single-assignment cell
 * that moves once from PENDING to SUCCEEDED or FAILED and calls back its
 * listeners.
 *
 * Listener code is not executed: a listener is an opaque `ListenerId`, and
 * the ghost field `calls` logs every callback a promise makes, in order.
 * The one listener whose code is known, the one `fmap` registers, is run by
 * its caller through `ForwardMapped`.
 */
module PromiseCore {

  /** `Promise.State`. */
  datatype State = PENDING | SUCCEEDED | FAILED

  /** A Java exception, known by its message only. */
  datatype Exception = Exception(message: string)

  /** A registered `Listener`, by identity. */
  type ListenerId = nat

  /** What a promise holds: nothing yet, a value, or an exception. */
  datatype Outcome<T> = Pending | Succeeded(value: T) | Failed(exception: Exception)

  /** One callback: `onSuccess(value)` or `onFailure(exception)` on a listener. */
  datatype Callback<T> = OnSuccess(listener: ListenerId, value: T) | OnFailure(listener: ListenerId, exception: Exception)

  /** What `await()` ends with once the promise is resolved: a returned value or a thrown exception. */
  datatype AwaitResult<T> = Returned(value: T) | Threw(exception: Exception)

  /** The outcome a callback reports. */
  function CallbackOutcome<T>(cb: Callback<T>): Outcome<T>
  {
    match cb
    case OnSuccess(_, v) => Succeeded(v)
    case OnFailure(_, e) => Failed(e)
  }

  /** The callback of the matching kind that a resolved promise makes on listener `id`. */
  function Deliver<T>(id: ListenerId, o: Outcome<T>): (cb: Callback<T>)
    requires !o.Pending?
    ensures cb.listener == id && CallbackOutcome(cb) == o
  {
    if o.Succeeded? then OnSuccess(id, o.value) else OnFailure(id, o.exception)
  }

  /** One callback per listener, in the order of the listeners, all reporting `o`. */
  function Deliveries<T>(ids: seq<ListenerId>, o: Outcome<T>): (cbs: seq<Callback<T>>)
    requires !o.Pending?
    ensures |cbs| == |ids|
    ensures forall i :: 0 <= i < |ids| ==> cbs[i].listener == ids[i] && CallbackOutcome(cbs[i]) == o
  {
    seq(|ids|, i requires 0 <= i < |ids| => Deliver(ids[i], o))
  }

  /** Serving one more listener adds its callback at the end. */
  lemma DeliveriesSnoc<T>(ids: seq<ListenerId>, id: ListenerId, o: Outcome<T>)
    requires !o.Pending?
    ensures Deliveries(ids + [id], o) == Deliveries(ids, o) + [Deliver(id, o)]
  {
    var l, r := Deliveries(ids + [id], o), Deliveries(ids, o) + [Deliver(id, o)];
    forall i | 0 <= i < |l| ensures l[i] == r[i] {
      if i < |ids| {
        assert (ids + [id])[i] == ids[i];
      }
    }
  }

  /** The outcome of a derived promise of `fmap(f)`, given the source outcome. */
  function FmapOutcome<T, R>(o: Outcome<T>, f: T -> R): (r: Outcome<R>)
    ensures r.Pending? <==> o.Pending?
    ensures o.Succeeded? ==> r == Succeeded(f(o.value))
    ensures o.Failed? ==> r == Failed(o.exception)
  {
    match o
    case Pending => Pending
    case Succeeded(v) => Succeeded(f(v))
    case Failed(e) => Failed(e)
  }

  /** Functor law: mapping the identity keeps the outcome. */
  lemma FmapIdentity<T>(o: Outcome<T>)
    ensures FmapOutcome(o, x => x) == o
  {
  }

  /** Functor law: mapping `q` after `p` is mapping `p` then mapping `q`. */
  lemma FmapComposition<T, U, R>(o: Outcome<T>, p: T -> U, q: U -> R)
    ensures FmapOutcome(o, x => q(p(x))) == FmapOutcome(FmapOutcome(o, p), q)
  {
  }

  class Promise<T(0)> {
    var state: State
    var value: T
    var exception: Exception
    /** Listeners added while pending, in the order they were added. */
    var listeners: seq<ListenerId>
    /** Listeners added after resolution, each served on the spot. */
    ghost var served: seq<ListenerId>
    /** Every callback made so far, in order. */
    ghost var calls: seq<Callback<T>>

    /** The outcome the fields stand for. */
    ghost function Outcome(): Outcome<T>
      reads this
    {
      match state
      case PENDING => Pending
      case SUCCEEDED => Succeeded(value)
      case FAILED => Failed(exception)
    }

    /**
     * No callback before resolution; afterwards every listener, first the
     * queued ones and then those added later, has had exactly one callback
     * of the kind that matches the outcome, in registration order.
     */
    ghost predicate Valid()
      reads this
    {
      if state == PENDING then served == [] && calls == []
      else calls == Deliveries(listeners + served, Outcome())
    }

    /** A new promise is pending and has no listener. */
    constructor()
      ensures Valid() && state == PENDING && Outcome() == Pending
      ensures listeners == [] && served == [] && calls == []
    {
      state := PENDING;
      listeners := [];
      served := [];
      calls := [];
    }

    /** `successOf(value)`: an already fulfilled promise. */
    static method SuccessOf(v: T) returns (p: Promise<T>)
      ensures fresh(p) && p.Valid()
      ensures p.Outcome() == Succeeded(v) && p.listeners == [] && p.calls == []
    {
      p := new Promise<T>();
      p.state := SUCCEEDED;
      p.value := v;
    }

    /** `failureOf(exception)`: an already rejected promise. */
    static method FailureOf(e: Exception) returns (p: Promise<T>)
      ensures fresh(p) && p.Valid()
      ensures p.Outcome() == Failed(e) && p.listeners == [] && p.calls == []
    {
      p := new Promise<T>();
      p.state := FAILED;
      p.exception := e;
    }

    /** `state()`. */
    function CurrentState(): (s: State)
      reads this
      ensures s == PENDING <==> Outcome().Pending?
      ensures s == SUCCEEDED <==> Outcome().Succeeded?
      ensures s == FAILED <==> Outcome().Failed?
    {
      state
    }

    /** `getValue()`: asserts the promise succeeded. */
    function GetValue(): (v: T)
      reads this
      requires state == SUCCEEDED
      ensures Outcome() == Succeeded(v)
    {
      value
    }

    /** `getException()`: asserts the promise failed. */
    function GetException(): (e: Exception)
      reads this
      requires state == FAILED
      ensures Outcome() == Failed(e)
    {
      exception
    }

    /** What `await()` returns or throws once the promise is no longer pending. */
    function Await(): (r: AwaitResult<T>)
      reads this
      requires state != PENDING
      ensures r.Returned? ==> Outcome() == Succeeded(r.value)
      ensures r.Threw? ==> Outcome() == Failed(r.exception)
    {
      if state == SUCCEEDED then Returned(value) else Threw(exception)
    }

    /**
     * `addListener(listener)`: a pending promise queues the listener at the
     * end and calls nothing; a resolved one calls it once, on the spot, with
     * the stored value or exception, and keeps its queue.
     */
    method AddListener(id: ListenerId)
      requires Valid()
      modifies this
      ensures Valid()
      ensures state == old(state) && value == old(value) && exception == old(exception)
      ensures old(state) == PENDING ==> listeners == old(listeners) + [id] && calls == old(calls)
      ensures old(state) != PENDING ==> listeners == old(listeners) && calls == old(calls) + [Deliver(id, Outcome())]
    {
      if state == SUCCEEDED {
        DeliveriesSnoc(listeners + served, id, Outcome());
        assert listeners + (served + [id]) == listeners + served + [id];
        calls := calls + [OnSuccess(id, value)];
        served := served + [id];
      } else if state == FAILED {
        DeliveriesSnoc(listeners + served, id, Outcome());
        assert listeners + (served + [id]) == listeners + served + [id];
        calls := calls + [OnFailure(id, exception)];
        served := served + [id];
      } else if state == PENDING {
        listeners := listeners + [id];
      }
    }

    /**
     * `notifySuccess(value)`: asserts the promise is pending, stores the
     * value, moves to SUCCEEDED, then calls `onSuccess` on each queued
     * listener in order. The state is terminal before the first callback.
     */
    method NotifySuccess(v: T)
      requires Valid() && state == PENDING
      modifies this
      ensures Valid() && Outcome() == Succeeded(v)
      ensures listeners == old(listeners) && served == []
      ensures calls == Deliveries(listeners, Outcome())
    {
      value := v;
      state := SUCCEEDED;
      var i := 0;
      while i < |listeners|
        invariant 0 <= i <= |listeners|
        invariant state == SUCCEEDED && value == v
        invariant listeners == old(listeners) && served == []
        invariant calls == Deliveries(listeners[..i], Succeeded(v))
      {
        DeliveriesSnoc(listeners[..i], listeners[i], Succeeded(v));
        assert listeners[..i + 1] == listeners[..i] + [listeners[i]];
        calls := calls + [OnSuccess(listeners[i], v)];
        i := i + 1;
      }
      assert listeners[..i] == listeners + served;
    }

    /**
     * `notifyFailure(exception)`: asserts the promise is pending, stores
     * the exception, moves to FAILED, then calls `onFailure` on each queued
     * listener in order.
     */
    method NotifyFailure(e: Exception)
      requires Valid() && state == PENDING
      modifies this
      ensures Valid() && Outcome() == Failed(e)
      ensures listeners == old(listeners) && served == []
      ensures calls == Deliveries(listeners, Outcome())
    {
      exception := e;
      state := FAILED;
      var i := 0;
      while i < |listeners|
        invariant 0 <= i <= |listeners|
        invariant state == FAILED && exception == e
        invariant listeners == old(listeners) && served == []
        invariant calls == Deliveries<T>(listeners[..i], Failed(e))
      {
        DeliveriesSnoc<T>(listeners[..i], listeners[i], Failed(e));
        assert listeners[..i + 1] == listeners[..i] + [listeners[i]];
        calls := calls + [OnFailure(listeners[i], e)];
        i := i + 1;
      }
      assert listeners[..i] == listeners + served;
    }

    /**
     * `fmap(f)`: a new promise, and a listener `id` on this one that
     * forwards `f(value)` or the exception to it. On a resolved promise the
     * listener runs at once, so the new promise is already resolved.
     */
    method Fmap<R(0)>(f: T -> R, id: ListenerId) returns (promiseR: Promise<R>)
      requires Valid()
      modifies this
      ensures fresh(promiseR) && promiseR.Valid() && promiseR.listeners == [] && promiseR.served == []
      ensures Valid() && Outcome() == old(Outcome())
      ensures promiseR.Outcome() == FmapOutcome(Outcome(), f)
      ensures old(state) == PENDING ==> listeners == old(listeners) + [id] && calls == old(calls)
      ensures old(state) != PENDING ==> listeners == old(listeners) && calls == old(calls) + [Deliver(id, Outcome())]
    {
      promiseR := new Promise<R>();
      AddListener(id);
      if state == SUCCEEDED {
        ForwardMapped(promiseR, f, OnSuccess(id, value));
      } else if state == FAILED {
        ForwardMapped(promiseR, f, OnFailure(id, exception));
      }
    }
  }

  /**
   * The body of the listener that `fmap` registers: `onSuccess(v)` fulfils
   * the derived promise with `f(v)`, `onFailure(e)` rejects it with `e`.
   */
  method ForwardMapped<T, R(0)>(promiseR: Promise<R>, f: T -> R, cb: Callback<T>)
    requires promiseR.Valid() && promiseR.state == PENDING
    modifies promiseR
    ensures promiseR.Valid() && promiseR.Outcome() == FmapOutcome(CallbackOutcome(cb), f)
    ensures promiseR.listeners == old(promiseR.listeners) && promiseR.served == []
    ensures promiseR.calls == Deliveries(promiseR.listeners, promiseR.Outcome())
  {
    match cb
    case OnSuccess(_, v) =>
      promiseR.NotifySuccess(f(v));
    case OnFailure(_, e) =>
      promiseR.NotifyFailure(e);
  }

  /**
   * `fmap` on a pending promise that succeeds later: the queued listener
   * receives the value, and running it fulfils the derived promise with `f(v)`.
   */
  method FmapThenSucceed<T(0), R(0)>(p: Promise<T>, f: T -> R, id: ListenerId, v: T) returns (promiseR: Promise<R>)
    requires p.Valid() && p.state == PENDING
    modifies p
    ensures fresh(promiseR) && promiseR.Valid() && p.Valid()
    ensures p.Outcome() == Succeeded(v)
    ensures promiseR.Outcome() == Succeeded(f(v)) && promiseR.listeners == [] && promiseR.calls == []
    ensures p.listeners == old(p.listeners) + [id] && p.served == []
    ensures p.calls == Deliveries(old(p.listeners), Succeeded(v)) + [OnSuccess(id, v)]
  {
    promiseR := p.Fmap(f, id);
    assert promiseR.Outcome() == Pending;
    p.NotifySuccess(v);
    var k := |p.listeners| - 1;
    assert p.listeners[k] == id;
    var cb := OnSuccess(id, v);
    assert CallbackOutcome(p.calls[k]) == CallbackOutcome(cb);
    ForwardMapped(promiseR, f, cb);
  }
}
