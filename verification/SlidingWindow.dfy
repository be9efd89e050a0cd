/** Sliding-window admission over a history that is never pruned.

    Time is an integer clock.  A history is the sequence of admission stamps of one
    client, oldest first.  `Greedy` is the reference policy: it remembers every admission
    and admits an arrival when fewer than `limit` admissions lie in the closed window
    ending at that arrival. */
module SlidingWindow {

  ghost predicate Sorted(h: seq<int>) {
    forall i, j :: 0 <= i < j < |h| ==> h[i] <= h[j]
  }

  ghost predicate UpTo(h: seq<int>, now: int) {
    forall i :: 0 <= i < |h| ==> h[i] <= now
  }

  /** Stamps whose age at `now` does not exceed `window`, in order. */
  function Prune(h: seq<int>, now: int, window: int): seq<int> {
    if h == [] then []
    else
      var last := h[|h| - 1];
      var front := Prune(h[..|h| - 1], now, window);
      if now - last <= window then front + [last] else front
  }

  /** How many stamps lie in the closed interval [lo, lo + window]. */
  function CountFrom(h: seq<int>, lo: int, window: int): nat {
    if h == [] then 0
    else
      var last := h[|h| - 1];
      CountFrom(h[..|h| - 1], lo, window) + if lo <= last <= lo + window then 1 else 0
  }

  /** At most `limit` stamps in every closed interval of length `window`. */
  ghost predicate WithinLimit(h: seq<int>, limit: nat, window: int) {
    forall lo: int :: CountFrom(h, lo, window) <= limit
  }

  predicate Admits(h: seq<int>, now: int, limit: nat, window: int) {
    |Prune(h, now, window)| < limit
  }

  /** The stamps admitted by the reference policy. */
  function Greedy(arrivals: seq<int>, limit: nat, window: int): seq<int> {
    if arrivals == [] then []
    else
      var now := arrivals[|arrivals| - 1];
      var h := Greedy(arrivals[..|arrivals| - 1], limit, window);
      if Admits(h, now, limit, window) then h + [now] else h
  }

  /** The subsequence of arrivals that an arbitrary policy lets through. */
  function Picked(arrivals: seq<int>, picks: seq<bool>): seq<int>
    requires |arrivals| == |picks|
  {
    if arrivals == [] then []
    else
      var n := |arrivals| - 1;
      var front := Picked(arrivals[..n], picks[..n]);
      if picks[n] then front + [arrivals[n]] else front
  }

  // ---------- pruning ----------

  lemma {:induction false} PruneAppend(h: seq<int>, x: int, now: int, window: int)
    ensures Prune(h + [x], now, window)
         == if now - x <= window then Prune(h, now, window) + [x] else Prune(h, now, window)
    ensures CountFrom(h + [x], now, window)
         == CountFrom(h, now, window) + if now <= x <= now + window then 1 else 0
  {
    assert (h + [x])[..|h|] == h;
  }

  lemma {:induction false} PruneAll(h: seq<int>, now: int, window: int)
    requires forall i :: 0 <= i < |h| ==> now - h[i] > window
    ensures Prune(h, now, window) == []
  {
    if h != [] { PruneAll(h[..|h| - 1], now, window); }
  }

  /** Pruning a sorted history keeps a suffix of it, so the age of the stamp `limit` places
      from the end decides admission. */
  lemma {:induction false} PruneSuffix(h: seq<int>, now: int, window: int)
    requires Sorted(h)
    ensures |Prune(h, now, window)| <= |h|
    ensures Prune(h, now, window) == h[|h| - |Prune(h, now, window)|..]
    ensures forall i :: 0 <= i < |h| ==>
              (|h| - |Prune(h, now, window)| <= i <==> now - h[i] <= window)
  {
    if h != [] {
      var last := h[|h| - 1];
      var front := h[..|h| - 1];
      if now - last <= window {
        PruneSuffix(front, now, window);
        var k := |front| - |Prune(front, now, window)|;
        assert h[k..] == front[k..] + [last];
        forall i | 0 <= i < |h|
          ensures k <= i <==> now - h[i] <= window
        {
          if i < |front| { assert front[i] == h[i]; }
        }
      } else {
        PruneAll(h, now, window);
      }
    }
  }

  lemma {:induction false} PruneIsShorter(h: seq<int>, now: int, window: int)
    ensures |Prune(h, now, window)| <= |h|
  {
    if h != [] { PruneIsShorter(h[..|h| - 1], now, window); }
  }

  /** Pruning early and again later is pruning once, later. */
  lemma {:induction false} PruneTwice(h: seq<int>, early: int, late: int, window: int)
    requires early <= late
    ensures Prune(Prune(h, early, window), late, window) == Prune(h, late, window)
  {
    if h != [] {
      var last := h[|h| - 1];
      var front := h[..|h| - 1];
      PruneTwice(front, early, late, window);
      if early - last <= window {
        PruneAppend(Prune(front, early, window), last, late, window);
      }
    }
  }

  lemma {:induction false} PruneCounts(h: seq<int>, now: int, window: int)
    requires UpTo(h, now)
    ensures |Prune(h, now, window)| == CountFrom(h, now - window, window)
  {
    if h != [] { PruneCounts(h[..|h| - 1], now, window); }
  }

  /** Stamps not after `now` that lie in a window starting late enough survive pruning. */
  lemma {:induction false} LateWindowsAreLive(h: seq<int>, now: int, lo: int, window: int)
    requires now - window <= lo
    ensures CountFrom(h, lo, window) <= |Prune(h, now, window)|
  {
    if h != [] { LateWindowsAreLive(h[..|h| - 1], now, lo, window); }
  }

  // ---------- the reference policy keeps the bound ----------

  lemma {:induction false} AdmissionKeepsLimit(h: seq<int>, now: int, limit: nat, window: int)
    requires WithinLimit(h, limit, window)
    requires Admits(h, now, limit, window)
    ensures WithinLimit(h + [now], limit, window)
  {
    forall lo: int
      ensures CountFrom(h + [now], lo, window) <= limit
    {
      PruneAppend(h, now, lo, window);
      if lo <= now <= lo + window { LateWindowsAreLive(h, now, lo, window); }
    }
  }

  lemma {:induction false} GreedyKeepsLimit(arrivals: seq<int>, limit: nat, window: int)
    requires Sorted(arrivals)
    ensures Sorted(Greedy(arrivals, limit, window))
    ensures WithinLimit(Greedy(arrivals, limit, window), limit, window)
    ensures arrivals == [] ==> Greedy(arrivals, limit, window) == []
    ensures arrivals != [] ==> UpTo(Greedy(arrivals, limit, window), arrivals[|arrivals| - 1])
  {
    if arrivals != [] {
      var n := |arrivals| - 1;
      GreedyKeepsLimit(arrivals[..n], limit, window);
      var h := Greedy(arrivals[..n], limit, window);
      if Admits(h, arrivals[n], limit, window) {
        AdmissionKeepsLimit(h, arrivals[n], limit, window);
      }
    } else {
      forall lo: int ensures CountFrom([], lo, window) <= limit {}
    }
  }

  // ---------- optimality ----------

  /** `a` is at least as long as `b` and its i-th stamp is never later than b's. */
  ghost predicate Dominates(a: seq<int>, b: seq<int>) {
    |b| <= |a| && forall i :: 0 <= i < |b| ==> a[i] <= b[i]
  }

  lemma {:induction false} PickedIsSorted(arrivals: seq<int>, picks: seq<bool>)
    requires |arrivals| == |picks| && Sorted(arrivals)
    ensures Sorted(Picked(arrivals, picks))
    ensures arrivals == [] ==> Picked(arrivals, picks) == []
    ensures arrivals != [] ==> UpTo(Picked(arrivals, picks), arrivals[|arrivals| - 1])
  {
    if arrivals != [] {
      PickedIsSorted(arrivals[..|arrivals| - 1], picks[..|arrivals| - 1]);
    }
  }

  lemma {:induction false} LegalNeedsGap(b: seq<int>, now: int, limit: nat, window: int)
    requires Sorted(b) && UpTo(b, now) && limit >= 1 && window >= 0
    requires WithinLimit(b + [now], limit, window)
    requires |b| >= limit
    ensures now - b[|b| - limit] > window
  {
    PruneCounts(b + [now], now, window);
    PruneAppend(b, now, now, window);
    assert CountFrom(b + [now], now - window, window) <= limit;
    PruneSuffix(b, now, window);
  }

  lemma {:induction false} DominanceStep(a: seq<int>, b: seq<int>, now: int, limit: nat, window: int)
    requires limit >= 1 && window >= 0
    requires Sorted(a) && Sorted(b) && UpTo(a, now) && UpTo(b, now)
    requires Dominates(a, b) && WithinLimit(b + [now], limit, window)
    ensures Dominates(if Admits(a, now, limit, window) then a + [now] else a, b + [now])
  {
    if !Admits(a, now, limit, window) {
      PruneSuffix(a, now, window);
      if |a| == |b| {
        var k := |a| - limit;
        assert a[k] <= b[k];
        LegalNeedsGap(b, now, limit, window);
        assert false;
      }
    }
  }

  /** No policy that respects the window bound admits more requests, or any of them sooner. */
  lemma {:induction false} GreedyIsOptimal(arrivals: seq<int>, picks: seq<bool>, limit: nat, window: int)
    requires limit >= 1 && window >= 0
    requires Sorted(arrivals) && |picks| == |arrivals|
    requires WithinLimit(Picked(arrivals, picks), limit, window)
    ensures Dominates(Greedy(arrivals, limit, window), Picked(arrivals, picks))
  {
    if arrivals != [] {
      var n := |arrivals| - 1;
      var a := Greedy(arrivals[..n], limit, window);
      var b := Picked(arrivals[..n], picks[..n]);
      var now := arrivals[n];
      forall lo: int ensures CountFrom(b, lo, window) <= limit {
        assert CountFrom(Picked(arrivals, picks), lo, window) <= limit;
        PruneAppend(b, now, lo, window);
      }
      GreedyIsOptimal(arrivals[..n], picks[..n], limit, window);
      GreedyKeepsLimit(arrivals[..n], limit, window);
      PickedIsSorted(arrivals[..n], picks[..n]);
      if picks[n] {
        DominanceStep(a, b, now, limit, window);
      } else {
        assert Picked(arrivals, picks) == b;
      }
    }
  }

  // ---------- erasing rejected arrivals ----------

  lemma {:induction false} GreedyAppend(arrivals: seq<int>, now: int, limit: nat, window: int)
    ensures Greedy(arrivals + [now], limit, window)
         == var h := Greedy(arrivals, limit, window);
            if Admits(h, now, limit, window) then h + [now] else h
  {
    assert (arrivals + [now])[..|arrivals|] == arrivals;
  }

  /** A rejected arrival can be left out without changing what happens to the others. */
  lemma {:induction false} GreedyErase(before: seq<int>, now: int, after: seq<int>, limit: nat, window: int)
    requires !Admits(Greedy(before, limit, window), now, limit, window)
    ensures Greedy(before + [now] + after, limit, window) == Greedy(before + after, limit, window)
  {
    if after == [] {
      GreedyAppend(before, now, limit, window);
      assert before + [now] + [] == before + [now] && before + [] == before;
    } else {
      var n := |after| - 1;
      var front, x := after[..n], after[n];
      GreedyErase(before, now, front, limit, window);
      var a, b := before + [now] + front, before + front;
      assert before + [now] + after == a + [x] && before + after == b + [x];
      GreedyAppend(a, x, limit, window);
      GreedyAppend(b, x, limit, window);
    }
  }

  // ---------- a pruned log standing in for the history ----------

  /** From `now` on, `log` answers every pruning query exactly as `history` does. */
  ghost predicate Tracks(log: seq<int>, history: seq<int>, now: int, window: int) {
    && Sorted(log) && UpTo(log, now)
    && forall t :: t >= now ==> Prune(log, t, window) == Prune(history, t, window)
  }

  lemma {:induction false} TracksLater(log: seq<int>, history: seq<int>, now: int, later: int, window: int)
    requires Tracks(log, history, now, window) && now <= later
    ensures Tracks(log, history, later, window)
  {}

  /** One decision on the log: prune, then append the new stamp if it is admitted. */
  function Decide(log: seq<int>, now: int, limit: nat, window: int): seq<int> {
    var live := Prune(log, now, window);
    if |live| < limit then live + [now] else live
  }

  lemma {:induction false} DecideTracks(log: seq<int>, history: seq<int>, before: int, now: int, limit: nat,
      window: int)
    requires Tracks(log, history, before, window) && before <= now
    ensures Admits(log, now, limit, window) == Admits(history, now, limit, window)
    ensures Tracks(Decide(log, now, limit, window),
                   if Admits(history, now, limit, window) then history + [now] else history, now, window)
  {
    assert Prune(log, now, window) == Prune(history, now, window);
    DecideIsSorted(log, before, now, limit, window);
    var history' := if Admits(history, now, limit, window) then history + [now] else history;
    forall t | t >= now ensures Prune(Decide(log, now, limit, window), t, window) == Prune(history', t, window) {
      DecidePoint(log, history, now, t, limit, window);
    }
  }

  lemma {:induction false} DecideIsSorted(log: seq<int>, before: int, now: int, limit: nat, window: int)
    requires Sorted(log) && UpTo(log, before) && before <= now
    ensures Sorted(Decide(log, now, limit, window)) && UpTo(Decide(log, now, limit, window), now)
  {
    PruneSuffix(log, now, window);
    var live := Prune(log, now, window);
    var k := |log| - |live|;
    assert forall i :: 0 <= i < |live| ==> live[i] == log[k + i];
    assert Sorted(live) && UpTo(live, now);
  }

  lemma {:induction false} DecidePoint(log: seq<int>, history: seq<int>, now: int, t: int, limit: nat, window: int)
    requires Prune(log, now, window) == Prune(history, now, window) && now <= t
    ensures Prune(Decide(log, now, limit, window), t, window) ==
            Prune(if Admits(history, now, limit, window) then history + [now] else history, t, window)
  {
    PruneTwice(history, now, t, window);
    PruneAppend(Prune(history, now, window), now, t, window);
    PruneAppend(history, now, t, window);
  }

  /** A log whose newest stamp has left the window may be thrown away. */
  lemma {:induction false} ForgetTracks(log: seq<int>, history: seq<int>, now: int, window: int)
    requires Tracks(log, history, now, window)
    requires log != [] && now - log[|log| - 1] > window
    ensures Tracks([], history, now, window)
  {
    forall t | t >= now
      ensures Prune(history, t, window) == []
    {
      PruneAll(log, t, window);
      assert Prune(log, t, window) == Prune(history, t, window);
    }
  }
}
