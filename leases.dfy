// The lease protocol: lease functions and their combinators, the default
// lease (execute any number of times, release on close), and lease
// factories (acquire, and the acquire-use-release shortcut).
// The resource a lease guards lives in a heap `H` that every step threads.

module Leases {
  import opened Outcomes

  /** `LeaseFunction<T, R>`: a computation on a leased value that may throw. */
  type LeaseFunction<!T, R, !H> = (T, H) -> Ran<R, H>

  /** `f.compose(g)`: run `g` on the argument, then `f` on what `g` returned. */
  function Compose<V, T, R, H>(f: LeaseFunction<T, R, H>, g: LeaseFunction<V, T, H>): LeaseFunction<V, R, H>
  {
    (v: V, h: H) =>
      var r := g(v, h);
      if r.outcome.Ok? then f(r.outcome.value, r.heap) else Ran(Thrown(r.outcome.exn), r.heap)
  }

  /** `f.andThen(g)`: run `f` on the argument, then `g` on what `f` returned. */
  function AndThen<T, R, V, H>(f: LeaseFunction<T, R, H>, g: LeaseFunction<R, V, H>): LeaseFunction<T, V, H>
  {
    (t: T, h: H) =>
      var r := f(t, h);
      if r.outcome.Ok? then g(r.outcome.value, r.heap) else Ran(Thrown(r.outcome.exn), r.heap)
  }

  /** `f.chainable()`: run `f` for its effect and hand back the leased argument. */
  function Chainable<T, R, H>(f: LeaseFunction<T, R, H>): LeaseFunction<T, T, H>
  {
    (t: T, h: H) =>
      var r := f(t, h);
      if r.outcome.Ok? then Ran(Ok(t), r.heap) else Ran(Thrown(r.outcome.exn), r.heap)
  }

  /** `value -> value`. */
  function Identity<T, H>(): LeaseFunction<T, T, H>
  {
    (t: T, h: H) => Ran(Ok(t), h)
  }

  /** A constant-result function that does nothing else, such as `ignored -> values.size()`. */
  function Constant<T, R, H>(x: R): LeaseFunction<T, R, H>
  {
    (t: T, h: H) => Ran(Ok(x), h)
  }

  /** compose: the outer function sees the inner one's result and heap; if the inner throws, the outer never runs. */
  lemma ComposeSemantics<V, T, R, H>(f: LeaseFunction<T, R, H>, g: LeaseFunction<V, T, H>, v: V, h: H)
    ensures g(v, h).outcome.Ok? ==> Compose(f, g)(v, h) == f(g(v, h).outcome.value, g(v, h).heap)
    ensures g(v, h).outcome.Thrown? ==> Compose(f, g)(v, h) == Ran(Thrown(g(v, h).outcome.exn), g(v, h).heap)
  {
  }

  /** andThen is compose with the arguments swapped. */
  lemma AndThenIsFlippedCompose<T, R, V, H>(f: LeaseFunction<T, R, H>, g: LeaseFunction<R, V, H>, t: T, h: H)
    ensures AndThen(f, g)(t, h) == Compose(g, f)(t, h)
  {
  }

  /** compose is associative, so how a chain was bracketed does not matter. */
  lemma ComposeAssociative<A, B, C, D, H>(f: LeaseFunction<C, D, H>, g: LeaseFunction<B, C, H>,
                                          k: LeaseFunction<A, B, H>, a: A, h: H)
    ensures Compose(f, Compose(g, k))(a, h) == Compose(Compose(f, g), k)(a, h)
  {
  }

  /** The identity is neutral on both sides of compose. */
  lemma ComposeIdentity<T, R, H>(f: LeaseFunction<T, R, H>, t: T, h: H)
    ensures Compose(f, Identity<T, H>())(t, h) == f(t, h)
    ensures Compose(Identity<R, H>(), f)(t, h) == f(t, h)
  {
  }

  /** chainable keeps the function's effect and exception but returns its argument unchanged. */
  lemma ChainableSemantics<T, R, H>(f: LeaseFunction<T, R, H>, t: T, h: H)
    ensures Chainable(f)(t, h).heap == f(t, h).heap
    ensures Chainable(f)(t, h).outcome.Ok? <==> f(t, h).outcome.Ok?
    ensures f(t, h).outcome.Ok? ==> Chainable(f)(t, h).outcome == Ok(t)
    ensures f(t, h).outcome.Thrown? ==> Chainable(f)(t, h).outcome == Thrown(f(t, h).outcome.exn)
  {
  }

  // ---------------------------------------------------------------- leases

  /** `lease.execute(fn)` on the leased value: the function's result, or its exception wrapped. */
  function ExecuteOn<T, R, H>(value: T, fn: LeaseFunction<T, R, H>, h: H): Ran<R, H>
  {
    var r := fn(value, h);
    if r.outcome.Ok? then r
    else Ran(Thrown(LeaseError("Failed to execute function with lease", r.outcome.exn)), r.heap)
  }

  /** `lease.close()`: run the releaser; its exception is swallowed, its effect kept. */
  function ReleaseOn<T, H>(releaser: (T, H) -> Ran<(), H>, value: T, h: H): H
  {
    releaser(value, h).heap
  }

  /**
   * DefaultLease: a leased value and its releaser. `releases` logs every value
   * handed to the releaser, `warnings` every release failure logged at WARN.
   * No closed state is kept: execute still runs after close, and every close
   * releases again.
   */
  class DefaultLease<T, H> {
    const value: T
    const releaser: (T, H) -> Ran<(), H>
    var releases: seq<T>
    var warnings: seq<string>

    constructor (value: T, releaser: (T, H) -> Ran<(), H>)
      ensures this.value == value && this.releaser == releaser
      ensures releases == [] && warnings == []
    {
      this.value := value;
      this.releaser := releaser;
      releases := [];
      warnings := [];
    }

    /** execute(fn): fn applied to the leased value; an exception comes back wrapped, with fn's as cause. */
    method Execute<R>(fn: LeaseFunction<T, R, H>, h: H) returns (r: Ran<R, H>)
      ensures r.heap == fn(value, h).heap
      ensures fn(value, h).outcome.Ok? ==> r.outcome == fn(value, h).outcome
      ensures fn(value, h).outcome.Thrown? ==>
        r.outcome == Thrown(LeaseError("Failed to execute function with lease", fn(value, h).outcome.exn))
    {
      r := ExecuteOn(value, fn, h);
    }

    /** close(): hands the leased value to the releaser once more; a failure is logged and swallowed. */
    method Close(h: H) returns (h': H)
      modifies this
      ensures releases == old(releases) + [value]
      ensures h' == releaser(value, h).heap
      ensures var out := releaser(value, h).outcome;
        warnings == old(warnings) + (if out.Thrown? then ["Release failed: " + out.exn.message] else [])
    {
      var r := releaser(value, h);
      releases := releases + [value];
      if r.outcome.Thrown? {
        warnings := warnings + ["Release failed: " + r.outcome.exn.message];
      }
      h' := r.heap;
    }
  }

  /** `LeaseFactory.create(supplier, releaser)`. */
  datatype LeaseFactory<!T, !H> = LeaseFactory(supplier: H -> Ran<T, H>, releaser: (T, H) -> Ran<(), H>)
  {
    /** The outcome of lease(): the supplier's value, or its exception wrapped; the releaser is not involved. */
    function Acquire(h: H): Ran<T, H>
    {
      var s := supplier(h);
      if s.outcome.Ok? then s else Ran(Thrown(LeaseError("Failed to acquire lease", s.outcome.exn)), s.heap)
    }

    /**
     * `try (var lease = lease()) { return lease.execute(fn); }` with no catch, as
     * LuceneBackend's shortcuts do: without a lease nothing runs and nothing is
     * released; with one, fn runs on the leased value and the releaser runs once
     * afterwards, whether fn returned or threw.
     */
    function WithLease<R>(fn: LeaseFunction<T, R, H>, h: H): (r: Ran<R, H>)
      ensures var s := supplier(h);
        s.outcome.Thrown? ==> r == Ran(Thrown(LeaseError("Failed to acquire lease", s.outcome.exn)), s.heap)
      ensures var s := supplier(h);
        s.outcome.Ok? ==>
          var x := fn(s.outcome.value, s.heap);
          && r.heap == releaser(s.outcome.value, x.heap).heap
          && (x.outcome.Ok? ==> r.outcome == x.outcome)
          && (x.outcome.Thrown? ==>
                r.outcome == Thrown(LeaseError("Failed to execute function with lease", x.outcome.exn)))
    {
      var a := Acquire(h);
      if a.outcome.Thrown? then Ran(Thrown(a.outcome.exn), a.heap)
      else
        var r := ExecuteOn(a.outcome.value, fn, a.heap);
        Ran(r.outcome, ReleaseOn(releaser, a.outcome.value, r.heap))
    }

    /**
     * The default execute(fn): every failure, of acquisition or of fn, comes out
     * as one more LeaseException("Failed to execute lease"); on success fn's
     * result comes back unchanged.
     */
    function Run<R>(fn: LeaseFunction<T, R, H>, h: H): (r: Ran<R, H>)
      ensures var s := supplier(h);
        s.outcome.Thrown? ==>
          r == Ran(Thrown(LeaseError("Failed to execute lease",
                                     LeaseError("Failed to acquire lease", s.outcome.exn))), s.heap)
      ensures var s := supplier(h);
        s.outcome.Ok? ==>
          var x := fn(s.outcome.value, s.heap);
          && r.heap == releaser(s.outcome.value, x.heap).heap
          && (x.outcome.Ok? ==> r.outcome == x.outcome)
          && (x.outcome.Thrown? ==>
                r.outcome == Thrown(LeaseError("Failed to execute lease",
                                               LeaseError("Failed to execute function with lease", x.outcome.exn))))
    {
      var w := WithLease(fn, h);
      if w.outcome.Ok? then w else Ran(Thrown(LeaseError("Failed to execute lease", w.outcome.exn)), w.heap)
    }

    /** lease(): calls the supplier once and wraps its value in a fresh lease that has not been released. */
    method Lease(h: H) returns (r: Outcome<DefaultLease<T, H>>, h': H)
      ensures h' == supplier(h).heap
      ensures r.Ok? <==> supplier(h).outcome.Ok?
      ensures r.Ok? ==>
        && fresh(r.value) && r.value.value == supplier(h).outcome.value
        && r.value.releaser == releaser && r.value.releases == [] && r.value.warnings == []
      ensures r.Thrown? ==> r.exn == LeaseError("Failed to acquire lease", supplier(h).outcome.exn)
    {
      var s := supplier(h);
      h' := s.heap;
      if s.outcome.Ok? {
        var lease := new DefaultLease(s.outcome.value, releaser);
        r := Ok(lease);
      } else {
        r := Thrown(LeaseError("Failed to acquire lease", s.outcome.exn));
      }
    }

    /**
     * The default execute(fn): acquire, execute, close, and wrap any failure.
     * The lease it acquired is returned so that its release log can be read:
     * it exists exactly when acquisition succeeded, and it was released once,
     * whether fn returned or threw.
     */
    method Execute<R>(fn: LeaseFunction<T, R, H>, h: H) returns (r: Ran<R, H>, lease: DefaultLease?<T, H>)
      ensures r == Run(fn, h)
      ensures lease == null <==> supplier(h).outcome.Thrown?
      ensures lease != null ==> lease.value == supplier(h).outcome.value && lease.releases == [lease.value]
      ensures supplier(h).outcome.Thrown? ==>
        r == Ran(Thrown(LeaseError("Failed to execute lease",
                                   LeaseError("Failed to acquire lease", supplier(h).outcome.exn))), supplier(h).heap)
      ensures supplier(h).outcome.Ok? && fn(supplier(h).outcome.value, supplier(h).heap).outcome.Ok? ==>
        r.outcome == fn(supplier(h).outcome.value, supplier(h).heap).outcome
    {
      var acquired, h1 := Lease(h);
      if acquired.Thrown? {
        lease := null;
        r := Ran(Thrown(LeaseError("Failed to execute lease", acquired.exn)), h1);
        return;
      }
      lease := acquired.value;
      var executed := lease.Execute(fn, h1);
      var h2 := lease.Close(executed.heap);
      if executed.outcome.Ok? {
        r := Ran(executed.outcome, h2);
      } else {
        r := Ran(Thrown(LeaseError("Failed to execute lease", executed.outcome.exn)), h2);
      }
    }
  }
}
