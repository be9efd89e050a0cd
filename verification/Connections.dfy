/** Active-connection counting by the proxy: every request selects a target, increments its
    counter, and its round trip decrements it, as separate steps of unboundedly many
    concurrent requests (app/proxy/proxy.go:154, 271-274, 370-381). */
module Connections {

  /** Where one request is.  `Abandoned` is a request whose reverse proxy finished without
      calling the transport, so the deferred decrement never runs; httputil.ReverseProxy does so when
      the client's Upgrade header names a protocol with unprintable characters. */
  datatype Phase =
    | Selected(target: nat)
    | Forwarding(target: nat)
    | Returned
    | Abandoned(target: nat)

  /** Requests are numbered by arrival; counters[t] is target t's activeConnections. */
  datatype State = State(counters: seq<int>, requests: seq<Phase>)

  /** A step that is not enabled changes nothing. */
  datatype Event =
    | Select(target: nat)
    | Increment(request: nat)
    | RoundTrip(request: nat)
    | Abandon(request: nat)

  function Init(targets: nat): State {
    State(seq(targets, _ => 0), [])
  }

  function Bump(counters: seq<int>, t: nat, delta: int): (c: seq<int>)
    ensures |c| == |counters|
  {
    if t < |counters| then counters[t := counters[t] + delta] else counters
  }

  function Step(s: State, e: Event): State {
    match e
    case Select(t) =>
      if t < |s.counters| then s.(requests := s.requests + [Selected(t)]) else s
    case Increment(r) =>
      if r < |s.requests| && s.requests[r].Selected? then
        var t := s.requests[r].target;
        State(Bump(s.counters, t, 1), s.requests[r := Forwarding(t)])
      else s
    case RoundTrip(r) =>
      if r < |s.requests| && s.requests[r].Forwarding? then
        State(Bump(s.counters, s.requests[r].target, -1), s.requests[r := Returned])
      else s
    case Abandon(r) =>
      if r < |s.requests| && s.requests[r].Forwarding? then
        s.(requests := s.requests[r := Abandoned(s.requests[r].target)])
      else s
  }

  function Run(s: State, es: seq<Event>): State {
    if es == [] then s else Step(Run(s, es[..|es| - 1]), es[|es| - 1])
  }

  /** Incremented but not decremented. */
  predicate Open(p: Phase, t: nat) {
    (p.Forwarding? || p.Abandoned?) && p.target == t
  }

  /** How many requests hold a connection of target t. */
  function OpenCount(requests: seq<Phase>, t: nat): nat {
    if requests == [] then 0
    else OpenCount(requests[..|requests| - 1], t) + if Open(requests[|requests| - 1], t) then 1 else 0
  }

  lemma {:induction false} OpenCountUpdate(requests: seq<Phase>, r: nat, p: Phase, t: nat)
    requires r < |requests|
    ensures OpenCount(requests[r := p], t) + (if Open(requests[r], t) then 1 else 0)
         == OpenCount(requests, t) + (if Open(p, t) then 1 else 0)
  {
    var n := |requests| - 1;
    if r == n {
      assert requests[r := p][..n] == requests[..n];
    } else {
      assert requests[r := p][..n] == requests[..n][r := p];
      OpenCountUpdate(requests[..n], r, p, t);
    }
  }

  ghost predicate Conserved(s: State) {
    && (forall t :: 0 <= t < |s.counters| ==> s.counters[t] == OpenCount(s.requests, t))
    && (forall r :: 0 <= r < |s.requests| ==> s.requests[r].Returned? || s.requests[r].target < |s.counters|)
  }

  lemma {:induction false} StepConserves(s: State, e: Event)
    requires Conserved(s)
    ensures Conserved(Step(s, e))
  {
    var s' := Step(s, e);
    forall t | 0 <= t < |s.counters|
      ensures s'.counters[t] == OpenCount(s'.requests, t)
    {
      match e
      case Select(u) => assert (s.requests + [Selected(u)])[..|s.requests|] == s.requests;
      case Increment(r) =>
        if r < |s.requests| && s.requests[r].Selected? { OpenCountUpdate(s.requests, r, s'.requests[r], t); }
      case RoundTrip(r) =>
        if r < |s.requests| && s.requests[r].Forwarding? { OpenCountUpdate(s.requests, r, s'.requests[r], t); }
      case Abandon(r) =>
        if r < |s.requests| && s.requests[r].Forwarding? { OpenCountUpdate(s.requests, r, s'.requests[r], t); }
    }
  }

  lemma {:induction false} NoneOpen(requests: seq<Phase>, t: nat)
    ensures OpenCount(requests, t) == 0 <==> forall r :: 0 <= r < |requests| ==> !Open(requests[r], t)
  {
    if requests != [] {
      var n := |requests| - 1;
      NoneOpen(requests[..n], t);
      assert forall r :: 0 <= r < n ==> requests[..n][r] == requests[r];
      if OpenCount(requests, t) == 0 {
        forall r | 0 <= r < |requests| ensures !Open(requests[r], t) {
          if r < n { assert !Open(requests[..n][r], t); }
        }
      }
    }
  }

  /** Conservation over every interleaving: each counter is the number of its requests that
      were incremented and have not had their round trip; hence it is never negative, and the
      counters are all zero exactly when every forwarded request has returned. */
  lemma {:induction false} ConnectionsConserved(targets: nat, es: seq<Event>)
    ensures var s := Run(Init(targets), es);
            && Conserved(s) && |s.counters| == targets
            && (forall t :: 0 <= t < targets ==> s.counters[t] >= 0)
            && ((forall t :: 0 <= t < targets ==> s.counters[t] == 0) <==>
                (forall r :: 0 <= r < |s.requests| ==> !s.requests[r].Forwarding? && !s.requests[r].Abandoned?))
  {
    var s := Run(Init(targets), es);
    if es != [] {
      ConnectionsConserved(targets, es[..|es| - 1]);
      StepConserves(Run(Init(targets), es[..|es| - 1]), es[|es| - 1]);
    }
    forall t ensures OpenCount(s.requests, t) == 0 <==> forall r :: 0 <= r < |s.requests| ==> !Open(s.requests[r], t) {
      NoneOpen(s.requests, t);
    }
    forall r | 0 <= r < |s.requests| && (s.requests[r].Forwarding? || s.requests[r].Abandoned?)
      ensures s.counters[s.requests[r].target] != 0
    {
      assert Open(s.requests[r], s.requests[r].target);
    }
  }

  /** An abandoned request is never given back: whatever happens next, its target's counter
      stays at least 1. */
  lemma {:induction false} AbandonedLeaks(targets: nat, es: seq<Event>, more: seq<Event>, r: nat)
    requires r < |Run(Init(targets), es).requests| && Run(Init(targets), es).requests[r].Abandoned?
    ensures var s := Run(Run(Init(targets), es), more);
            var t := Run(Init(targets), es).requests[r].target;
            t < |s.counters| && s.counters[t] >= 1
  {
    var s0 := Run(Init(targets), es);
    ConnectionsConserved(targets, es);
    LeakPersists(s0, more, r);
    NoneOpen(Run(s0, more).requests, s0.requests[r].target);
    assert Open(Run(s0, more).requests[r], s0.requests[r].target);
  }

  /** Such a request is reachable: it has been counted, and the reverse proxy then refuses to
      forward it, as net/http/httputil does for an Upgrade header with unprintable characters. */
  lemma {:induction false} AbandonIsReachable()
    ensures Run(Init(1), [Select(0), Increment(0), Abandon(0)]) == State([1], [Abandoned(0)])
  {
    var es := [Select(0), Increment(0), Abandon(0)];
    assert es[..2] == [Select(0), Increment(0)] && es[..2][..1] == [Select(0)] && [Select(0)][..0] == [];
    assert Run(Init(1), []) == State([0], []);
    assert Run(Init(1), [Select(0)]) == State([0], [Selected(0)]);
    assert Run(Init(1), [Select(0), Increment(0)]) == State([1], [Forwarding(0)]);
  }

  lemma {:induction false} LeakPersists(s: State, more: seq<Event>, r: nat)
    requires Conserved(s) && r < |s.requests| && s.requests[r].Abandoned?
    ensures Conserved(Run(s, more)) && |Run(s, more).counters| == |s.counters|
    ensures r < |Run(s, more).requests| && Run(s, more).requests[r] == s.requests[r]
  {
    if more != [] {
      LeakPersists(s, more[..|more| - 1], r);
      StepConserves(Run(s, more[..|more| - 1]), more[|more| - 1]);
    }
  }

  // ---------- requests come to an end ----------

  lemma {:induction false} RunConcat(s: State, a: seq<Event>, b: seq<Event>)
    ensures Run(s, a + b) == Run(Run(s, a), b)
  {
    if b == [] {
      assert a + b == a;
    } else {
      RunConcat(s, a, b[..|b| - 1]);
      assert (a + b)[..|a + b| - 1] == a + b[..|b| - 1];
    }
  }

  /** The steps of request r alone: it raises its target's counter by one while it is forwarded, and
      leaves every counter as it found it. */
  lemma {:induction false} OneRequest(s: State, t: nat)
    requires t < |s.counters|
    ensures var r := |s.requests|;
            var s1 := Run(s, [Select(t), Increment(r)]);
            && s1.counters == s.counters[t := s.counters[t] + 1] && s1.requests == s.requests + [Forwarding(t)]
            && Run(s1, [RoundTrip(r)]) == State(s.counters, s.requests + [Returned])
  {
    var r := |s.requests|;
    assert [Select(t), Increment(r)][..1] == [Select(t)] && [Select(t)][..0] == [];
    assert Run(s, [Select(t)]) == State(s.counters, s.requests + [Selected(t)]);
    var s1 := Run(s, [Select(t), Increment(r)]);
    assert [RoundTrip(r)][..0] == [] && Run(s1, [RoundTrip(r)]) == Step(s1, RoundTrip(r));
    assert s1.counters[t := s1.counters[t] - 1] == s.counters;
  }

  /** Let the first n requests go on to their end. */
  function Finish(n: nat): seq<Event> {
    if n == 0 then [] else Finish(n - 1) + [Increment(n - 1)] + [RoundTrip(n - 1)]
  }

  predicate Ended(p: Phase) {
    p.Returned? || p.Abandoned?
  }

  lemma {:induction false} FinishRuns(s: State, n: nat)
    requires n <= |s.requests|
    ensures var s' := Run(s, Finish(n));
            && |s'.counters| == |s.counters| && |s'.requests| == |s.requests|
            && (forall r :: 0 <= r < n ==>
                  s'.requests[r] == if s.requests[r].Abandoned? then s.requests[r] else Returned)
            && (forall r :: n <= r < |s.requests| ==> s'.requests[r] == s.requests[r])
  {
    if n > 0 {
      FinishRuns(s, n - 1);
      var f := Finish(n - 1);
      assert (f + [Increment(n - 1)])[..|f|] == f;
      assert Finish(n)[..|f| + 1] == f + [Increment(n - 1)];
    }
  }

  /** How many requests to target t were abandoned. */
  function Leaks(requests: seq<Phase>, t: nat): nat {
    if requests == [] then 0
    else Leaks(requests[..|requests| - 1], t) + if requests[|requests| - 1] == Abandoned(t) then 1 else 0
  }

  lemma {:induction false} EndedLeaks(requests: seq<Phase>, ended: seq<Phase>, t: nat)
    requires |ended| == |requests|
    requires forall r :: 0 <= r < |requests| ==>
               ended[r] == if requests[r].Abandoned? then requests[r] else Returned
    ensures OpenCount(ended, t) == Leaks(requests, t)
  {
    if requests != [] {
      var n := |requests| - 1;
      EndedLeaks(requests[..n], ended[..n], t);
    }
  }

  /** Every reachable state can be brought to rest, and then each counter is exactly the number of its
      requests that were abandoned. */
  lemma {:induction false} AtRestOnlyLeaksRemain(targets: nat, es: seq<Event>, t: nat)
    requires t < targets
    ensures var s := Run(Init(targets), es);
            var s' := Run(s, Finish(|s.requests|));
            && (forall r :: 0 <= r < |s'.requests| ==> Ended(s'.requests[r]))
            && |s'.counters| == targets && s'.counters[t] == Leaks(s.requests, t)
  {
    var s := Run(Init(targets), es);
    var more := Finish(|s.requests|);
    FinishRuns(s, |s.requests|);
    RunConcat(Init(targets), es, more);
    ConnectionsConserved(targets, es + more);
    EndedLeaks(s.requests, Run(s, more).requests, t);
  }
}
