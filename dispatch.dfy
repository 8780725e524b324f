/**
 * The dispatch loop shared by `EventBus::fire` and `IsObservable::notifyObservers`:
 * for each selected handler in order, obtain the receiver (lazily creating and
 * caching a listener instance for a non-static handler), call it, and stop early
 * when the response handler rejects the response, when a cancellable subject is
 * now cancelled, or when the handler threw.
 *
 * `Run` is the specification of one loop; both methods are proved equal to it.
 */
module Dispatch {
  import opened Results
  import opened Errors
  import opened Cancellation
  import opened Handlers

  /** Why the loop stopped; Running when it went through every handler. */
  datatype Halt = Running | Rejected | Cancelled | Aborted(exception: Exception)

  /**
   * What a dispatch is given: the subject passed to every handler, whether it is
   * Cancellable, the optional response handler, the instance creator in force,
   * and `world(k, call)`, what the k-th call of this dispatch does.
   */
  datatype Env<!S> = Env(
    subject: S,
    cancellable: bool,
    responseHandler: Option<Value -> Value>,
    creator: Creator,
    world: (nat, Call<S>) -> Effect)

  /**
   * The state a dispatch threads through: the instance cache, the listener of each
   * creator call so far, the subject's cancellation state, and per call made: the
   * call, what it did and the cancellation state right after it.
   */
  datatype State<S> = State(
    instances: map<string, Instance>,
    creatorCalls: seq<string>,
    flag: CancelState,
    trace: seq<Call<S>>,
    effects: seq<Effect>,
    flags: seq<CancelState>,
    halt: Halt)

  function Start<S>(instances: map<string, Instance>, creatorCalls: seq<string>, flag: CancelState): State<S> {
    State(instances, creatorCalls, flag, [], [], [], Running)
  }

  /**
   * `getListenerInstance`: the cached instance of `listener`, or else the creator's
   * result, which is cached from then on.
   */
  function AcquireInstance(listener: string, instances: map<string, Instance>, creatorCalls: seq<string>, creator: Creator)
    : (r: (Instance, map<string, Instance>, seq<string>))
    ensures listener in r.1 && r.1[listener] == r.0
    ensures r.1.Keys == instances.Keys + {listener}
    ensures forall l :: l in instances ==> r.1[l] == instances[l]
    ensures listener in instances ==> r.2 == creatorCalls
    ensures listener !in instances ==> r.2 == creatorCalls + [listener] && r.0 == Created(creator, listener, |creatorCalls|)
  {
    if listener in instances then (instances[listener], instances, creatorCalls)
    else
      var created := Created(creator, listener, |creatorCalls|);
      (created, instances[listener := created], creatorCalls + [listener])
  }

  /** The subject's cancellation state once a call had `effect` (only a Cancellable subject has one to change). */
  function FlagAfter(flag: CancelState, effect: Effect, cancellable: bool): CancelState {
    if cancellable && effect.setCancelled.Some? then effect.setCancelled.value else flag
  }

  /** The checks after a call, in the loop's order: exception, response handler, cancellation. */
  function Verdict<S>(env: Env<S>, effect: Effect, flag: CancelState): Halt {
    match effect
    case Threw(e, _) => Aborted(e)
    case Returned(response, _) =>
      if env.responseHandler.Some? && !Truthy(env.responseHandler.value(response)) then Rejected
      else if env.cancellable && flag.canceled then Cancelled
      else Running
  }

  /** The call made for `h` given the instances cached once it has been made. */
  function CallFor<S(==)>(h: Handler, instances: map<string, Instance>, subject: S): (c: Call<S>)
    requires !h.isStatic ==> h.listener in instances
    ensures c.methodName == h.methodName && c.argument == subject
    ensures h.isStatic ==> c.receiver == OnClass(h.listener)
    ensures !h.isStatic ==> c.receiver == OnInstance(instances[h.listener])
  {
    if h.isStatic then StaticCall(h, subject) else h.Handle(Some(instances[h.listener]), subject)
  }

  /** One iteration of the loop. */
  function Step<S(==)>(h: Handler, s: State<S>, env: Env<S>): State<S> {
    var (instances, calls) :=
      if h.isStatic then (s.instances, s.creatorCalls)
      else var a := AcquireInstance(h.listener, s.instances, s.creatorCalls, env.creator); (a.1, a.2);
    var call := CallFor(h, instances, env.subject);
    var effect := env.world(|s.trace|, call);
    var flag := FlagAfter(s.flag, effect, env.cancellable);
    State(instances, calls, flag, s.trace + [call], s.effects + [effect], s.flags + [flag], Verdict(env, effect, flag))
  }

  /** The loop over `hs`, leaving it at the first call whose verdict is not Running. */
  function Run<S(==)>(hs: seq<Handler>, s: State<S>, env: Env<S>): (r: State<S>)
    ensures |s.trace| <= |r.trace| <= |s.trace| + |hs|
    ensures hs != [] ==> |r.trace| > |s.trace|
    ensures |r.trace| - |s.trace| == |r.effects| - |s.effects| == |r.flags| - |s.flags|
    ensures |s.creatorCalls| <= |r.creatorCalls|
    ensures |r.creatorCalls| - |s.creatorCalls| <= |r.trace| - |s.trace|
    decreases |hs|
  {
    if hs == [] then s
    else
      var next := Step(hs[0], s, env);
      if next.halt.Running? then Run(hs[1..], next, env) else next
  }

  /**
   * The same loop, reached at handler `i`: how a loop over an index, as the methods
   * run it, proceeds from there.
   */
  ghost function RunFrom<S>(hs: seq<Handler>, i: nat, s: State<S>, env: Env<S>): State<S>
    requires i <= |hs|
    decreases |hs| - i
  {
    if i == |hs| then s
    else
      var next := Step(hs[i], s, env);
      if next.halt.Running? then RunFrom(hs, i + 1, next, env) else next
  }

  /** Running on from handler `i` is running the handlers that remain. */
  lemma {:induction false} RunFromIsRun<S>(hs: seq<Handler>, i: nat, s: State<S>, env: Env<S>)
    requires i <= |hs|
    ensures RunFrom(hs, i, s, env) == Run(hs[i..], s, env)
    decreases |hs| - i
  {
    if i < |hs| {
      assert hs[i..][0] == hs[i] && hs[i..][1..] == hs[i + 1..];
      var next := Step(hs[i], s, env);
      if next.halt.Running? {
        RunFromIsRun(hs, i + 1, next, env);
      }
    }
  }

  ghost predicate Aligned<S>(s: State<S>) {
    |s.trace| == |s.effects| == |s.flags|
  }

  /** A sequence extending one that extends `c` extends `c` too. */
  lemma PrefixOfPrefix<T>(a: seq<T>, b: seq<T>, c: seq<T>)
    requires |c| <= |b| <= |a| && a[..|b|] == b && b[..|c|] == c
    ensures a[..|c|] == c
  {
    assert a[..|c|] == a[..|b|][..|c|];
  }

  /** One iteration only appends to the records and to the creator's call log. */
  lemma StepAppends<S>(h: Handler, s: State<S>, env: Env<S>)
    ensures var n := Step(h, s, env);
      && n.trace[..|s.trace|] == s.trace && n.effects[..|s.effects|] == s.effects
      && n.flags[..|s.flags|] == s.flags && n.creatorCalls[..|s.creatorCalls|] == s.creatorCalls
  {
    StepCreation(h, s, env);
  }

  /** A loop only appends to the records and to the creator's call log. */
  lemma {:induction false} RunKeepsPrefix<S>(hs: seq<Handler>, s: State<S>, env: Env<S>)
    ensures var r := Run(hs, s, env);
      && r.trace[..|s.trace|] == s.trace && r.effects[..|s.effects|] == s.effects
      && r.flags[..|s.flags|] == s.flags && r.creatorCalls[..|s.creatorCalls|] == s.creatorCalls
    decreases |hs|
  {
    if hs != [] {
      var next := Step(hs[0], s, env);
      StepAppends(hs[0], s, env);
      if next.halt.Running? {
        RunKeepsPrefix(hs[1..], next, env);
        var r := Run(hs[1..], next, env);
        PrefixOfPrefix(r.trace, next.trace, s.trace);
        PrefixOfPrefix(r.effects, next.effects, s.effects);
        PrefixOfPrefix(r.flags, next.flags, s.flags);
        PrefixOfPrefix(r.creatorCalls, next.creatorCalls, s.creatorCalls);
      }
    }
  }

  /** A loop goes through every handler unless its verdict is not Running. */
  lemma {:induction false} RunStopsOnlyOnVerdict<S>(hs: seq<Handler>, s: State<S>, env: Env<S>)
    requires s.halt.Running?
    ensures |Run(hs, s, env).trace| < |s.trace| + |hs| ==> !Run(hs, s, env).halt.Running?
    decreases |hs|
  {
    if hs != [] {
      var next := Step(hs[0], s, env);
      if next.halt.Running? {
        RunStopsOnlyOnVerdict(hs[1..], next, env);
      }
    }
  }

  /** The verdict and the cancellation state of `r` are those its last call left. */
  ghost predicate EndsOnLastCall<S>(env: Env<S>, r: State<S>) {
    && |r.effects| > 0 && |r.flags| > 0
    && r.halt == Verdict(env, r.effects[|r.effects| - 1], r.flags[|r.flags| - 1])
    && r.flag == r.flags[|r.flags| - 1]
  }

  /** After one call, the verdict and the cancellation state are those of that call. */
  lemma StepEndsOnVerdict<S>(h: Handler, s: State<S>, env: Env<S>)
    ensures EndsOnLastCall(env, Step(h, s, env))
  {
  }

  /** After a loop that made a call, the verdict and the cancellation state are those of its last call. */
  lemma {:induction false} RunEndsOnLastVerdict<S>(hs: seq<Handler>, s: State<S>, env: Env<S>)
    requires hs != []
    ensures EndsOnLastCall(env, Run(hs, s, env))
    decreases |hs|
  {
    var next := Step(hs[0], s, env);
    if next.halt.Running? && |hs| > 1 {
      RunEndsOnLastVerdict(hs[1..], next, env);
    } else {
      StepEndsOnVerdict(hs[0], s, env);
    }
  }

  /** From position `from` on, each cancellation state is the one the effect at that position leaves behind. */
  ghost predicate FlagsFollow(initial: CancelState, effects: seq<Effect>, flags: seq<CancelState>, from: nat, cancellable: bool) {
    |effects| == |flags| &&
    forall i :: from <= i < |flags| ==>
      flags[i] == FlagAfter(if i == from then initial else flags[i - 1], effects[i], cancellable)
  }

  /** Each call of a loop is answered by the world at its position. */
  lemma {:induction false} RunEffects<S>(hs: seq<Handler>, s: State<S>, env: Env<S>)
    requires Aligned(s)
    ensures var r := Run(hs, s, env);
      forall i :: |s.trace| <= i < |r.trace| ==> r.effects[i] == env.world(i, r.trace[i])
    decreases |hs|
  {
    if hs != [] {
      var b := |s.trace|;
      var next := Step(hs[0], s, env);
      if next.halt.Running? {
        RunEffects(hs[1..], next, env);
        RunKeepsPrefix(hs[1..], next, env);
        var r := Run(hs[1..], next, env);
        assert r.trace[b] == r.trace[..b + 1][b] == next.trace[b];
        assert r.effects[b] == r.effects[..b + 1][b] == next.effects[b];
      }
    }
  }

  /** The cancellation state after each call of a loop follows from the effects. */
  lemma {:induction false} RunFlags<S>(hs: seq<Handler>, s: State<S>, env: Env<S>)
    requires Aligned(s)
    ensures FlagsFollow(s.flag, Run(hs, s, env).effects, Run(hs, s, env).flags, |s.trace|, env.cancellable)
    decreases |hs|
  {
    if hs != [] {
      var b := |s.trace|;
      var next := Step(hs[0], s, env);
      if next.halt.Running? {
        RunFlags(hs[1..], next, env);
        RunKeepsPrefix(hs[1..], next, env);
        var r := Run(hs[1..], next, env);
        assert r.effects[b] == r.effects[..b + 1][b] == next.effects[b];
        assert r.flags[b] == r.flags[..b + 1][b] == next.flags[b];
      }
    }
  }

  /** Every call of `r` from position `from` on, but the last, had a Running verdict. */
  ghost predicate RunningUntilLast<S>(env: Env<S>, r: State<S>, from: nat) {
    && Aligned(r)
    && forall i :: from <= i < |r.trace| - 1 ==> Verdict(env, r.effects[i], r.flags[i]).Running?
  }

  /** Every call of a loop but the last had a Running verdict. */
  lemma {:induction false} RunVerdicts<S>(hs: seq<Handler>, s: State<S>, env: Env<S>)
    requires Aligned(s)
    ensures RunningUntilLast(env, Run(hs, s, env), |s.trace|)
    decreases |hs|
  {
    if hs != [] {
      var b := |s.trace|;
      var next := Step(hs[0], s, env);
      if next.halt.Running? {
        RunVerdicts(hs[1..], next, env);
        RunKeepsPrefix(hs[1..], next, env);
        StepEndsOnVerdict(hs[0], s, env);
        var r := Run(hs[1..], next, env);
        assert Run(hs, s, env) == r;
        forall i | b <= i < |r.trace| - 1
          ensures Verdict(env, r.effects[i], r.flags[i]).Running?
        {
          if i == b {
            assert r.effects[b] == r.effects[..b + 1][b] == next.effects[b];
            assert r.flags[b] == r.flags[..b + 1][b] == next.flags[b];
          }
        }
      }
    }
  }

  /** A loop keeps every cached instance as it was. */
  lemma {:induction false} RunKeepsInstances<S>(hs: seq<Handler>, s: State<S>, env: Env<S>)
    ensures var r := Run(hs, s, env);
      forall l :: l in s.instances ==> l in r.instances && r.instances[l] == s.instances[l]
    decreases |hs|
  {
    if hs != [] {
      var next := Step(hs[0], s, env);
      if next.halt.Running? {
        RunKeepsInstances(hs[1..], next, env);
      }
    }
  }

  /** One iteration calls the creator at most once, for a listener with no cached instance, whose instance it becomes. */
  lemma StepCreation<S>(h: Handler, s: State<S>, env: Env<S>)
    ensures var n := Step(h, s, env);
      && s.instances.Keys <= n.instances.Keys
      && (|n.creatorCalls| == |s.creatorCalls| ==> n.creatorCalls == s.creatorCalls && n.instances.Keys == s.instances.Keys)
      && (|n.creatorCalls| > |s.creatorCalls| ==>
            && n.creatorCalls == s.creatorCalls + [h.listener]
            && h.listener !in s.instances && h.listener in n.instances
            && n.instances[h.listener] == Created(env.creator, h.listener, |s.creatorCalls|))
  {
  }

  /** The i-th creator call of a loop was for a listener with no cached instance, whose instance it became. */
  lemma {:induction false} RunCreations<S>(hs: seq<Handler>, s: State<S>, env: Env<S>)
    ensures var r := Run(hs, s, env);
      forall i :: |s.creatorCalls| <= i < |r.creatorCalls| ==>
        && r.creatorCalls[i] !in s.instances
        && r.creatorCalls[i] in r.instances
        && r.instances[r.creatorCalls[i]] == Created(env.creator, r.creatorCalls[i], i)
    decreases |hs|
  {
    if hs != [] {
      var c := |s.creatorCalls|;
      var next := Step(hs[0], s, env);
      StepCreation(hs[0], s, env);
      if next.halt.Running? {
        RunCreations(hs[1..], next, env);
        RunKeepsInstances(hs[1..], next, env);
        RunKeepsPrefix(hs[1..], next, env);
        var r := Run(hs[1..], next, env);
        assert Run(hs, s, env) == r;
        forall i | c <= i < |r.creatorCalls|
          ensures r.creatorCalls[i] !in s.instances && r.creatorCalls[i] in r.instances
          ensures r.instances[r.creatorCalls[i]] == Created(env.creator, r.creatorCalls[i], i)
        {
          if i < |next.creatorCalls| {
            assert r.creatorCalls[i] == r.creatorCalls[..i + 1][i] == next.creatorCalls[i] == hs[0].listener;
          }
        }
      }
    }
  }

  /** What a later suffix of `a` holds, an earlier one holds too. */
  lemma SuffixHolds(a: seq<string>, c: nat, n: nat)
    requires c <= n <= |a|
    ensures forall x :: x in a[n..] ==> x in a[c..]
    ensures n > c ==> a[c] in a[c..]
  {
    assert a[c..] == a[c..n] + a[n..];
    if n > c {
      assert a[c..][0] == a[c];
    }
  }

  /** Every instance after a loop was cached before it or made by one of its creator calls. */
  lemma {:induction false} RunInstancesComeFromCreations<S>(hs: seq<Handler>, s: State<S>, env: Env<S>)
    ensures var r := Run(hs, s, env);
      forall l :: l in r.instances ==> l in s.instances || l in r.creatorCalls[|s.creatorCalls|..]
    decreases |hs|
  {
    if hs != [] {
      var c := |s.creatorCalls|;
      var next := Step(hs[0], s, env);
      StepCreation(hs[0], s, env);
      if next.halt.Running? {
        RunInstancesComeFromCreations(hs[1..], next, env);
        RunKeepsPrefix(hs[1..], next, env);
        var r := Run(hs[1..], next, env);
        var n := |next.creatorCalls|;
        if n > c {
          assert r.creatorCalls[c] == r.creatorCalls[..n][c] == next.creatorCalls[c];
        }
        SuffixHolds(r.creatorCalls, c, n);
      } else {
        SuffixHolds(next.creatorCalls, c, |next.creatorCalls|);
      }
    }
  }

  /** The creator calls of a loop are for distinct listeners. */
  lemma {:induction false} RunCreationsDistinct<S>(hs: seq<Handler>, s: State<S>, env: Env<S>)
    ensures var r := Run(hs, s, env);
      forall i, j :: |s.creatorCalls| <= i < j < |r.creatorCalls| ==> r.creatorCalls[i] != r.creatorCalls[j]
    decreases |hs|
  {
    if hs != [] {
      var c := |s.creatorCalls|;
      var next := Step(hs[0], s, env);
      if next.halt.Running? {
        RunCreationsDistinct(hs[1..], next, env);
        RunCreations(hs[1..], next, env);
        RunKeepsPrefix(hs[1..], next, env);
        var r := Run(hs[1..], next, env);
        if |next.creatorCalls| > c {
          assert r.creatorCalls[c] == r.creatorCalls[..c + 1][c] == next.creatorCalls[c];
          assert next.creatorCalls[c] in next.instances;
        }
      }
    }
  }

  /** Every listener a loop called a non-static handler of has an instance cached when it ends. */
  lemma {:induction false} RunCachesListeners<S>(hs: seq<Handler>, s: State<S>, env: Env<S>)
    ensures var r := Run(hs, s, env);
      forall i :: 0 <= i < |r.trace| - |s.trace| && !hs[i].isStatic ==> hs[i].listener in r.instances
    decreases |hs|
  {
    if hs != [] {
      var next := Step(hs[0], s, env);
      if next.halt.Running? {
        RunCachesListeners(hs[1..], next, env);
        RunKeepsInstances(hs[1..], next, env);
        var r := Run(hs[1..], next, env);
        forall i | 1 <= i < |r.trace| - |s.trace| && !hs[i].isStatic
          ensures hs[i].listener in r.instances
        {
          assert hs[1..][i - 1] == hs[i];
        }
      }
    }
  }

  /** The i-th call of one loop is the call for the i-th handler. */
  lemma {:induction false} RunCallAt<S>(hs: seq<Handler>, s: State<S>, env: Env<S>, i: nat)
    requires i < |Run(hs, s, env).trace| - |s.trace|
    ensures var r := Run(hs, s, env);
      && (!hs[i].isStatic ==> hs[i].listener in r.instances)
      && r.trace[|s.trace| + i] == CallFor(hs[i], r.instances, env.subject)
    decreases i
  {
    var b := |s.trace|;
    var next := Step(hs[0], s, env);
    RunCachesListeners(hs, s, env);
    if next.halt.Running? {
      var r := Run(hs[1..], next, env);
      if i == 0 {
        RunKeepsPrefix(hs[1..], next, env);
        RunKeepsInstances(hs[1..], next, env);
        assert r.trace[b] == r.trace[..b + 1][b] == next.trace[b];
        assert !hs[0].isStatic ==> r.instances[hs[0].listener] == next.instances[hs[0].listener];
      } else {
        RunCallAt(hs[1..], next, env, i - 1);
        assert hs[1..][i - 1] == hs[i];
      }
    }
  }

  // ----- Properties of a whole dispatch, started with no call made -----

  /**
   * Handlers run in the order given, each at most once: the k-th call is the call
   * for the k-th handler, on its cached instance or statically on its class, and
   * what it did is what the world answers to it.
   */
  lemma DispatchFollowsOrder<S>(hs: seq<Handler>, s: State<S>, env: Env<S>)
    requires s == Start(s.instances, s.creatorCalls, s.flag)
    ensures var r := Run(hs, s, env);
      && |r.trace| == |r.effects| <= |hs|
      && (hs != [] <==> |r.trace| > 0)
      && (forall k :: 0 <= k < |r.trace| ==>
            && (!hs[k].isStatic ==> hs[k].listener in r.instances)
            && r.trace[k] == CallFor(hs[k], r.instances, env.subject)
            && r.effects[k] == env.world(k, r.trace[k]))
  {
    var r := Run(hs, s, env);
    RunEffects(hs, s, env);
    forall k | 0 <= k < |r.trace|
      ensures !hs[k].isStatic ==> hs[k].listener in r.instances
      ensures r.trace[k] == CallFor(hs[k], r.instances, env.subject)
      ensures r.effects[k] == env.world(k, r.trace[k])
    {
      RunCallAt(hs, s, env, k);
    }
  }

  /** The k-th cancellation state is the one left by the k-th call's effect on the state before it. */
  lemma DispatchTracksCancellation<S>(hs: seq<Handler>, s: State<S>, env: Env<S>)
    requires s == Start(s.instances, s.creatorCalls, s.flag)
    ensures FlagsFollow(s.flag, Run(hs, s, env).effects, Run(hs, s, env).flags, 0, env.cancellable)
  {
    RunFlags(hs, s, env);
  }

  /**
   * The loop stops early only when told to: a call before the last one neither threw,
   * nor was rejected, nor left a Cancellable subject cancelled; if handlers were
   * skipped, the last call's verdict is why.
   */
  lemma DispatchStopsOnlyWhenTold<S>(hs: seq<Handler>, s: State<S>, env: Env<S>)
    requires s == Start(s.instances, s.creatorCalls, s.flag)
    ensures var r := Run(hs, s, env); |r.effects| == |r.flags| == |r.trace|
    ensures var r := Run(hs, s, env);
      forall k :: 0 <= k < |r.trace| - 1 ==> Verdict(env, r.effects[k], r.flags[k]).Running?
    ensures var r := Run(hs, s, env); var n := |r.trace|;
      n > 0 ==> r.halt == Verdict(env, r.effects[n - 1], r.flags[n - 1]) && r.flag == r.flags[n - 1]
    ensures |Run(hs, s, env).trace| == 0 <==> hs == []
    ensures |Run(hs, s, env).trace| < |hs| ==> !Run(hs, s, env).halt.Running?
  {
    var r := Run(hs, s, env);
    RunStopsOnlyOnVerdict(hs, s, env);
    RunVerdicts(hs, s, env);
    assert RunningUntilLast(env, r, 0);
    if hs != [] {
      RunEndsOnLastVerdict(hs, s, env);
      assert EndsOnLastCall(env, r);
      assert |r.trace| == |r.effects| == |r.flags|;
    }
  }

  /**
   * A falsy response-handler result for call k ends the dispatch right there,
   * whatever the cancellation state (the response handler is consulted first).
   */
  lemma RejectionEndsDispatch<S>(hs: seq<Handler>, s: State<S>, env: Env<S>, k: nat)
    requires s == Start(s.instances, s.creatorCalls, s.flag)
    requires k < |Run(hs, s, env).trace|
    requires Run(hs, s, env).effects[k].Returned? && env.responseHandler.Some?
    requires !Truthy(env.responseHandler.value(Run(hs, s, env).effects[k].response))
    ensures |Run(hs, s, env).trace| == k + 1 && Run(hs, s, env).halt == Rejected
  {
    DispatchStopsOnlyWhenTold(hs, s, env);
  }

  /** A Cancellable subject that is cancelled after call k ends the dispatch right there, unless the response was rejected first. */
  lemma CancellationEndsDispatch<S>(hs: seq<Handler>, s: State<S>, env: Env<S>, k: nat)
    requires s == Start(s.instances, s.creatorCalls, s.flag)
    requires k < |Run(hs, s, env).trace|
    requires env.cancellable && Run(hs, s, env).effects[k].Returned? && Run(hs, s, env).flags[k].canceled
    requires env.responseHandler.Some? ==> Truthy(env.responseHandler.value(Run(hs, s, env).effects[k].response))
    ensures |Run(hs, s, env).trace| == k + 1 && Run(hs, s, env).halt == Cancelled
  {
    DispatchStopsOnlyWhenTold(hs, s, env);
  }

  /** A handler that throws ends the dispatch, and the exception is what the dispatch reports. */
  lemma ExceptionEndsDispatch<S>(hs: seq<Handler>, s: State<S>, env: Env<S>, k: nat)
    requires s == Start(s.instances, s.creatorCalls, s.flag)
    requires k < |Run(hs, s, env).trace| && Run(hs, s, env).effects[k].Threw?
    ensures |Run(hs, s, env).trace| == k + 1
    ensures Run(hs, s, env).halt == Aborted(Run(hs, s, env).effects[k].exception)
  {
    DispatchStopsOnlyWhenTold(hs, s, env);
  }

  /**
   * A handler that calls `setCancelled` on a Cancellable subject and then throws
   * still leaves the subject in the state it set: the write is not undone.
   */
  lemma {:induction false} ThrowKeepsCancellation<S>(hs: seq<Handler>, s: State<S>, env: Env<S>, k: nat)
    requires s == Start(s.instances, s.creatorCalls, s.flag)
    requires k < |Run(hs, s, env).trace| && Run(hs, s, env).effects[k].Threw?
    requires env.cancellable && Run(hs, s, env).effects[k].setCancelled.Some?
    ensures Run(hs, s, env).halt.Aborted?
    ensures Run(hs, s, env).flag == Run(hs, s, env).effects[k].setCancelled.value
  {
    var r := Run(hs, s, env);
    DispatchStopsOnlyWhenTold(hs, s, env);
    RunFlags(hs, s, env);
    assert |r.trace| == k + 1;
    assert r.flags[k] == FlagAfter(if k == 0 then s.flag else r.flags[k - 1], r.effects[k], env.cancellable);
  }

  /**
   * Even a subject that was cancelled before the dispatch reaches its first handler:
   * the cancellation check only follows a call.
   */
  lemma FirstHandlerAlwaysRuns<S>(hs: seq<Handler>, s: State<S>, env: Env<S>)
    requires s == Start(s.instances, s.creatorCalls, s.flag)
    requires hs != []
    ensures |Run(hs, s, env).trace| >= 1
    ensures !hs[0].isStatic ==> hs[0].listener in Run(hs, s, env).instances
    ensures Run(hs, s, env).trace[0] == CallFor(hs[0], Run(hs, s, env).instances, env.subject)
  {
    DispatchFollowsOrder(hs, s, env);
  }

  /** Without a response handler and a Cancellable subject, every handler runs unless one throws. */
  lemma WithoutChecksEveryHandlerRuns<S>(hs: seq<Handler>, s: State<S>, env: Env<S>)
    requires s == Start(s.instances, s.creatorCalls, s.flag)
    requires env.responseHandler.None? && !env.cancellable
    ensures Run(hs, s, env).halt.Running? || Run(hs, s, env).halt.Aborted?
    ensures Run(hs, s, env).halt.Running? ==> |Run(hs, s, env).trace| == |hs|
    ensures (forall k :: 0 <= k < |Run(hs, s, env).effects| ==> Run(hs, s, env).effects[k].Returned?)
            ==> |Run(hs, s, env).trace| == |hs|
  {
    DispatchStopsOnlyWhenTold(hs, s, env);
    var r := Run(hs, s, env);
    if |r.trace| > 0 {
      var e := r.effects[|r.trace| - 1];
      assert r.halt == Verdict(env, e, r.flags[|r.trace| - 1]);
      assert e.Returned? ==> r.halt.Running?;
    }
  }
}
