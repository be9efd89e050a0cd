/** The health checker and the proxy as one system: which runs of probes leave the balancer's
    flags in agreement with the checker's verdicts (app/healthchecker/healthchecker.go:99-111,
    280-282; app/proxy/proxy.go:316-361). */
module HealthAgreement {
  import opened Options
  import opened Selection
  import opened HealthChecker

  /** The first position holding x. */
  function FirstMatch<T(==)>(xs: seq<T>, x: T): (r: Option<nat>)
    ensures r.Some? ==> r.value < |xs| && xs[r.value] == x && x !in xs[..r.value]
    ensures r.None? ==> x !in xs
  {
    if xs == [] then None
    else
      var n := |xs| - 1;
      var front := FirstMatch(xs[..n], x);
      if front.Some? then front else if xs[n] == x then Some(n) else None
  }

  lemma {:induction false} FirstMatchIs<T>(xs: seq<T>, x: T, i: nat)
    requires i < |xs| && xs[i] == x && x !in xs[..i]
    ensures FirstMatch(xs, x) == Some(i)
  {
    var n := |xs| - 1;
    if i == n {
      assert xs[..n] == xs[..i];
    } else {
      assert xs[..n][..i] == xs[..i];
      FirstMatchIs(xs[..n], x, i);
    }
  }

  /** The flags after a push; only round-robin and random balancers accept one, and only the
      first target with that URL is touched. */
  function PushHealth<T(==)>(accepts: bool, urls: seq<T>, flags: seq<bool>, url: T, healthy: bool): (r: seq<bool>)
    requires |flags| == |urls|
    ensures |r| == |flags|
  {
    var i := FirstMatch(urls, url);
    if accepts && i.Some? then flags[i.value := healthy] else flags
  }

  /** One service.  `configured` are the target URLs as the checker knows them.  `rendered` says
      for each how the balancer prints the parsed URL, None for a URL that does not parse: the
      balancer drops such a target, and the checker keeps its status but gives up every probe of it
      before there is a result (app/healthchecker/healthchecker.go:194-198).  The flag of a dropped
      target means nothing. */
  datatype Service = Service(
    accepts: bool,
    thresholds: Thresholds,
    configured: seq<string>,
    rendered: seq<Option<string>>,
    statuses: seq<Status>,
    flags: seq<bool>
  ) {
    predicate Valid() {
      && thresholds.Valid()
      && |configured| == |rendered| == |statuses| == |flags|
    }
  }

  function Start(accepts: bool, t: Thresholds, configured: seq<string>, rendered: seq<Option<string>>): Service {
    Service(accepts, t, configured, rendered, seq(|configured|, _ => INITIAL), seq(|configured|, _ => true))
  }

  /** The URLs, or the flags, of the targets the balancer really has, in its order. */
  function Present<T>(rendered: seq<Option<string>>, xs: seq<T>): seq<T>
    requires |xs| == |rendered|
  {
    if rendered == [] then []
    else
      var n := |rendered| - 1;
      var front := Present(rendered[..n], xs[..n]);
      if rendered[n].Some? then front + [xs[n]] else front
  }

  function UrlsPresent(rendered: seq<Option<string>>): seq<string> {
    if rendered == [] then []
    else
      var n := |rendered| - 1;
      var front := UrlsPresent(rendered[..n]);
      if rendered[n].Some? then front + [rendered[n].value] else front
  }

  /** Target `target`'s probe came back with `success`. */
  datatype Probe = Probe(target: nat, success: bool)

  function Step(s: Service, p: Probe): (s': Service)
    requires s.Valid()
    ensures s'.Valid() && |s'.statuses| == |s.statuses|
  {
    if p.target >= |s.statuses| || s.rendered[p.target].None? then s
    else
      var before := s.statuses[p.target];
      var after := AfterCheck(s.thresholds, before, p.success);
      s.(statuses := s.statuses[p.target := after],
         flags := if after.healthy != before.healthy
                  then PushHealth(s.accepts, s.rendered, s.flags, Some(s.configured[p.target]), after.healthy)
                  else s.flags)
  }

  function Run(s: Service, ps: seq<Probe>): (s': Service)
    requires s.Valid()
    ensures s'.Valid() && |s'.statuses| == |s.statuses|
  {
    if ps == [] then s else Step(Run(s, ps[..|ps| - 1]), ps[|ps| - 1])
  }

  /** Every target the balancer has carries the checker's verdict. */
  ghost predicate Agrees(s: Service)
    requires s.Valid()
  {
    forall i :: 0 <= i < |s.flags| && s.rendered[i].Some? ==> s.flags[i] == s.statuses[i].healthy
  }

  /** The URL of every target the balancer has reaches that target. */
  ghost predicate Addressable(configured: seq<string>, rendered: seq<Option<string>>)
    requires |configured| == |rendered|
  {
    forall i :: 0 <= i < |configured| && rendered[i].Some? ==> FirstMatch(rendered, Some(configured[i])) == Some(i)
  }

  lemma {:induction false} RunFixed(s: Service, ps: seq<Probe>)
    requires s.Valid()
    ensures var s' := Run(s, ps);
            s'.accepts == s.accepts && s'.thresholds == s.thresholds
            && s'.configured == s.configured && s'.rendered == s.rendered
  {
    if ps != [] { RunFixed(s, ps[..|ps| - 1]); }
  }

  lemma {:induction false} RunAgrees(s: Service, ps: seq<Probe>)
    requires s.Valid() && Agrees(s) && s.accepts && Addressable(s.configured, s.rendered)
    ensures Agrees(Run(s, ps))
  {
    if ps != [] {
      RunAgrees(s, ps[..|ps| - 1]);
      RunFixed(s, ps[..|ps| - 1]);
    }
  }

  function Failures(i: nat, n: nat): seq<Probe> {
    if n == 0 then [] else Failures(i, n - 1) + [Probe(i, false)]
  }

  lemma {:induction false} FailureStep(s: Service, i: nat)
    requires s.Valid() && i < |s.statuses| && s.rendered[i].Some? && s.flags[i]
    requires !s.accepts || FirstMatch(s.rendered, Some(s.configured[i])) != Some(i)
    ensures var s' := Step(s, Probe(i, false));
            s'.statuses[i] == AfterCheck(s.thresholds, s.statuses[i], false) && s'.flags[i]
  {}

  /** A target that fails until it is held unhealthy, while its push goes nowhere or elsewhere. */
  lemma {:induction false} FailuresRun(s: Service, i: nat, n: nat)
    requires s.Valid() && i < |s.statuses| && s.rendered[i].Some? && n <= s.thresholds.unhealthy
    requires s.statuses[i] == INITIAL && s.flags[i]
    requires !s.accepts || FirstMatch(s.rendered, Some(s.configured[i])) != Some(i)
    ensures var s' := Run(s, Failures(i, n));
            s'.statuses[i] == Status(n, 0, n < s.thresholds.unhealthy) && s'.flags[i]
  {
    if n > 0 {
      FailuresRun(s, i, n - 1);
      var front := Failures(i, n - 1);
      RunFixed(s, front);
      RunAppend(s, front, Probe(i, false));
      FailureStep(Run(s, front), i);
    }
  }

  lemma {:induction false} RunAppend(s: Service, ps: seq<Probe>, p: Probe)
    requires s.Valid()
    ensures Run(s, ps + [p]) == Step(Run(s, ps), p)
  {
    assert (ps + [p])[..|ps|] == ps;
  }

  /** A target of the balancer that its own push does not reach keeps a wrong flag when it fails
      often enough. */
  lemma {:induction false} MisaddressedDisagrees(s: Service, i: nat)
    requires s.Valid() && i < |s.statuses| && s.rendered[i].Some?
    requires s.statuses[i] == INITIAL && s.flags[i]
    requires !s.accepts || FirstMatch(s.rendered, Some(s.configured[i])) != Some(i)
    ensures !Agrees(Run(s, Failures(i, s.thresholds.unhealthy)))
  {
    FailuresRun(s, i, s.thresholds.unhealthy);
    RunFixed(s, Failures(i, s.thresholds.unhealthy));
  }

  /** Exact agreement: after every run of probes the balancer's flags equal the checker's
      verdicts, if and only if the balancer has no target, or it is round-robin or random and
      the configured URL of each of its targets is first rendered by that target. */
  lemma {:induction false} AgreementIff(accepts: bool, t: Thresholds, configured: seq<string>,
      rendered: seq<Option<string>>)
    requires t.Valid() && |configured| == |rendered|
    ensures var s := Start(accepts, t, configured, rendered);
            (forall ps: seq<Probe> :: Agrees(Run(s, ps))) <==>
            ((forall i :: 0 <= i < |rendered| ==> rendered[i].None?) ||
             (accepts && Addressable(configured, rendered)))
  {
    var s := Start(accepts, t, configured, rendered);
    if forall i :: 0 <= i < |rendered| ==> rendered[i].None? {
      forall ps: seq<Probe> ensures Agrees(Run(s, ps)) { RunFixed(s, ps); }
    } else if accepts && Addressable(configured, rendered) {
      forall ps: seq<Probe> ensures Agrees(Run(s, ps)) { RunAgrees(s, ps); }
    } else {
      var i :| 0 <= i < |rendered| && rendered[i].Some? &&
        (!accepts || FirstMatch(rendered, Some(configured[i])) != Some(i));
      MisaddressedDisagrees(s, i);
    }
  }

  function Somes(urls: seq<string>): (r: seq<Option<string>>)
    ensures |r| == |urls| && forall i :: 0 <= i < |urls| ==> r[i] == Some(urls[i])
  {
    seq(|urls|, i requires 0 <= i < |urls| => Some(urls[i]))
  }

  /** Distinct canonical URLs, which parsing leaves unchanged, are enough. */
  lemma {:induction false} DistinctCanonicalIsAddressable(urls: seq<string>)
    requires forall i, j :: 0 <= i < j < |urls| ==> urls[i] != urls[j]
    ensures Addressable(urls, Somes(urls))
  {
    var rs := Somes(urls);
    forall i | 0 <= i < |urls| ensures FirstMatch(rs, Some(urls[i])) == Some(i) {
      assert forall k :: 0 <= k < i ==> rs[..i][k] == rs[k];
      FirstMatchIs(rs, Some(urls[i]), i);
    }
  }

  /** Dropping the unparsable targets first or pushing first comes to the same: the balancer's
      own list of URLs and flags moves as its part of the list above. */
  lemma {:induction false} PushOnPresent(accepts: bool, rendered: seq<Option<string>>, flags: seq<bool>,
      url: string, healthy: bool)
    requires |flags| == |rendered|
    ensures |UrlsPresent(rendered)| == |Present(rendered, flags)|
    ensures Present(rendered, PushHealth(accepts, rendered, flags, Some(url), healthy))
         == PushHealth(accepts, UrlsPresent(rendered), Present(rendered, flags), url, healthy)
    ensures FirstMatch(rendered, Some(url)).None? <==> FirstMatch(UrlsPresent(rendered), url).None?
  {
    if rendered != [] {
      var n := |rendered| - 1;
      var rs, fs, r, f := rendered[..n], flags[..n], rendered[n], flags[n];
      assert rendered == rs + [r] && flags == fs + [f];
      PushOnPresent(accepts, rs, fs, url, healthy);
      PushAppend(accepts, rs, fs, Some(url), r, f, healthy);
      PresentAppend(rs, fs, r, f);
      PresentAppend(rs, PushHealth(accepts, rs, fs, Some(url), healthy), r, f);
      PresentAppend(rs, fs, r, healthy);
      if r.Some? { PushAppend(accepts, UrlsPresent(rs), Present(rs, fs), url, r.value, f, healthy); }
    }
  }

  lemma {:induction false} PushAppend<T>(accepts: bool, xs: seq<T>, flags: seq<bool>, x: T, y: T, f: bool,
      healthy: bool)
    requires |flags| == |xs|
    ensures PushHealth(accepts, xs + [y], flags + [f], x, healthy) ==
            if FirstMatch(xs, x).Some? then PushHealth(accepts, xs, flags, x, healthy) + [f]
            else flags + [if accepts && y == x then healthy else f]
    ensures FirstMatch(xs + [y], x).None? <==> FirstMatch(xs, x).None? && y != x
  {
    assert (xs + [y])[..|xs|] == xs;
  }

  lemma {:induction false} PresentAppend(rendered: seq<Option<string>>, flags: seq<bool>, r: Option<string>, f: bool)
    requires |flags| == |rendered|
    ensures Present(rendered + [r], flags + [f]) ==
            if r.Some? then Present(rendered, flags) + [f] else Present(rendered, flags)
    ensures UrlsPresent(rendered + [r]) ==
            if r.Some? then UrlsPresent(rendered) + [r.value] else UrlsPresent(rendered)
  {
    assert (rendered + [r])[..|rendered|] == rendered && (flags + [f])[..|flags|] == flags;
  }

  function AreSome(rendered: seq<Option<string>>): (r: seq<bool>)
    ensures |r| == |rendered| && forall i :: 0 <= i < |r| ==> r[i] == rendered[i].Some?
  {
    seq(|rendered|, i requires 0 <= i < |rendered| => rendered[i].Some?)
  }

  /** The balancer's list has every parsable target, no other, and in order. */
  lemma {:induction false} PresentAreAll<T>(rendered: seq<Option<string>>, xs: seq<T>)
    requires |xs| == |rendered|
    ensures var idx := HealthyIndices(AreSome(rendered));
            && |Present(rendered, xs)| == |UrlsPresent(rendered)| == |idx|
            && forall k :: 0 <= k < |idx| ==>
                 Present(rendered, xs)[k] == xs[idx[k]] && Some(UrlsPresent(rendered)[k]) == rendered[idx[k]]
  {
    if rendered != [] {
      var n := |rendered| - 1;
      PresentAreAll(rendered[..n], xs[..n]);
      assert AreSome(rendered)[..n] == AreSome(rendered[..n]);
      var front := HealthyIndices(AreSome(rendered[..n]));
      assert HealthyIndices(AreSome(rendered)) == if rendered[n].Some? then front + [n] else front;
    }
  }

  function Verdicts(s: Service): (v: seq<bool>)
    ensures |v| == |s.statuses| && forall i :: 0 <= i < |v| ==> v[i] == s.statuses[i].healthy
  {
    seq(|s.statuses|, i requires 0 <= i < |s.statuses| => s.statuses[i].healthy)
  }

  lemma {:induction false} PresentEqual(rendered: seq<Option<string>>, a: seq<bool>, b: seq<bool>)
    requires |a| == |b| == |rendered|
    ensures |Present(rendered, a)| == |Present(rendered, b)|
    ensures (forall i :: 0 <= i < |a| && rendered[i].Some? ==> a[i] == b[i]) ==>
              Present(rendered, a) == Present(rendered, b)
  {
    if rendered != [] { PresentEqual(rendered[..|a| - 1], a[..|a| - 1], b[..|a| - 1]); }
  }

  /** In an agreeing service the balancer's own flags are the checker's verdicts, so the selections
      over them never return a target the checker holds unhealthy. */
  lemma {:induction false} SelectionAvoidsUnhealthy(s: Service, ps: seq<Probe>, counter: uint32)
    requires s.Valid() && Agrees(s) && s.accepts && Addressable(s.configured, s.rendered)
    requires |Present(s.rendered, s.flags)| < UINT32
    ensures var s' := Run(s, ps);
            var flags, verdicts := Present(s'.rendered, s'.flags), Present(s'.rendered, Verdicts(s'));
            && flags == verdicts && |flags| == |Present(s.rendered, s.flags)|
            && (match Scan(flags, counter) case Some(i) => i < |verdicts| && verdicts[i] case None => true)
            && (forall k :: 0 <= k < |HealthyIndices(flags)| ==> verdicts[HealthyIndices(flags)[k]])
  {
    RunAgrees(s, ps);
    RunFixed(s, ps);
    PresentEqual(s.rendered, s.flags, Run(s, ps).flags);
    PresentEqual(s.rendered, Run(s, ps).flags, Verdicts(Run(s, ps)));
  }

  /** Weighted and least-connections balancers never learn about health: in every reachable
      state all their flags are still true. */
  lemma {:induction false} UnpushedFlagsStayTrue(t: Thresholds, configured: seq<string>, rendered: seq<Option<string>>,
      ps: seq<Probe>)
    requires t.Valid() && |configured| == |rendered|
    ensures forall i :: 0 <= i < |configured| ==> Run(Start(false, t, configured, rendered), ps).flags[i]
  {
    var s := Start(false, t, configured, rendered);
    RunFixed(s, ps);
    if ps != [] {
      RunFixed(s, ps[..|ps| - 1]);
      UnpushedFlagsStayTrue(t, configured, rendered, ps[..|ps| - 1]);
    }
  }
}
