/** Masking transient probe failures (packages/dkrypt/src/deviceHealth.ts:431, 491-499, 540-560). */
module HealthStabiliser {
  import opened Wrappers

  /** A probe result: whether its readiness is blocked, whether a jailbreak blocker is reported, and the rest. */
  datatype Health = Health(reachable: bool, blocked: bool, jailbreakBlocker: bool, checkedAt: int, details: int)

  const CONFIRMATIONS: nat := 3

  predicate Healthy(h: Health) {
    h.reachable && !h.blocked
  }

  function Stabilized(previous: Option<Health>, next: Health, failures: nat): Health {
    if next.reachable && next.jailbreakBlocker then next
    else if Healthy(next) || previous.None? || !Healthy(previous.value) || failures >= CONFIRMATIONS then next
    else previous.value.(checkedAt := next.checkedAt)
  }

  datatype Caches = Caches(failures: map<string, nat>, lastGood: map<string, Health>, shown: map<string, Health>)

  datatype Probe = Probe(device: string, result: Health)

  function Get<T>(m: map<string, T>, k: string): Option<T> {
    if k in m then Some(m[k]) else None
  }

  function Failures(c: Caches, device: string): nat {
    if device in c.failures then c.failures[device] else 0
  }

  function Cached(c: Caches, p: Probe): Caches {
    if Healthy(p.result) then
      Caches(c.failures - {p.device}, c.lastGood[p.device := p.result], c.shown[p.device := p.result])
    else
      var failures := Failures(c, p.device) + 1;
      c.(failures := c.failures[p.device := failures],
         shown := c.shown[p.device := Stabilized(Get(c.lastGood, p.device), p.result, failures)])
  }

  class HealthCache {
    var failures: map<string, nat>
    var lastGood: map<string, Health>
    var shown: map<string, Health>

    function View(): Caches
      reads this
    {
      Caches(failures, lastGood, shown)
    }

    constructor ()
      ensures View() == Caches(map[], map[], map[])
    {
      failures, lastGood, shown := map[], map[], map[];
    }

    method CacheDeviceHealth(device: string, value: Health)
      modifies this
      ensures View() == Cached(old(View()), Probe(device, value))
    {
      if value.reachable && !value.blocked {
        failures := failures - {device};
        lastGood := lastGood[device := value];
        shown := shown[device := value];
        return;
      }
      var count := (if device in failures then failures[device] else 0) + 1;
      failures := failures[device := count];
      var previous := if device in lastGood then Some(lastGood[device]) else None;
      shown := shown[device := Stabilized(previous, value, count)];
    }
  }

  // ---------------------------------------------------------------- the rule over any run of probes

  function Run(probes: seq<Probe>): Caches {
    if probes == [] then Caches(map[], map[], map[]) else Cached(Run(probes[..|probes| - 1]), probes[|probes| - 1])
  }

  /** The results of one device's probes, in order. */
  function ResultsOf(probes: seq<Probe>, device: string): seq<Health> {
    if probes == [] then []
    else
      var p := probes[|probes| - 1];
      ResultsOf(probes[..|probes| - 1], device) + if p.device == device then [p.result] else []
  }

  /** How many results at the end are unhealthy in a row. */
  ghost predicate EndsUnhealthy(results: seq<Health>, n: nat) {
    && n <= |results|
    && (forall i | |results| - n <= i < |results| :: !Healthy(results[i]))
    && (n < |results| ==> Healthy(results[|results| - n - 1]))
  }

  /** The last healthy result, if there is one. */
  ghost predicate IsLastGood(results: seq<Health>, good: Option<Health>) {
    match good
    case Some(h) => exists i :: 0 <= i < |results| && results[i] == h && Healthy(h)
                                && forall j | i < j < |results| :: !Healthy(results[j])
    case None => forall i | 0 <= i < |results| :: !Healthy(results[i])
  }

  lemma LastGoodNext(results: seq<Health>, good: Option<Health>, r: Health)
    requires IsLastGood(results, good)
    ensures IsLastGood(results + [r], if Healthy(r) then Some(r) else good)
  {
    var all := results + [r];
    if Healthy(r) {
      assert all[|results|] == r;
    } else if good.Some? {
      var i :| 0 <= i < |results| && results[i] == good.value && forall j | i < j < |results| :: !Healthy(results[j]);
      assert all[i] == good.value && forall j | i < j < |all| :: !Healthy(all[j]);
    }
  }

  lemma UnhealthyNext(results: seq<Health>, n: nat, r: Health)
    requires EndsUnhealthy(results, n)
    ensures EndsUnhealthy(results + [r], if Healthy(r) then 0 else n + 1)
  {
  }

  /** What one probe does to the counter and the memory of one device. */
  lemma OneMore(c: Caches, p: Probe, device: string)
    ensures var after := Cached(c, p);
            && Failures(after, device) == (if p.device != device then Failures(c, device)
                                           else if Healthy(p.result) then 0 else Failures(c, device) + 1)
            && Get(after.lastGood, device) == (if p.device == device && Healthy(p.result) then Some(p.result)
                                               else Get(c.lastGood, device))
  {
  }

  /** At every moment the failure counter is the current run of unhealthy results and the remembered good result
      is the last healthy one. */
  lemma {:induction false} CountersMean(probes: seq<Probe>, device: string)
    ensures EndsUnhealthy(ResultsOf(probes, device), Failures(Run(probes), device))
    ensures IsLastGood(ResultsOf(probes, device), Get(Run(probes).lastGood, device))
  {
    if probes == [] {
    } else {
      var before, p := probes[..|probes| - 1], probes[|probes| - 1];
      CountersMean(before, device);
      OneMore(Run(before), p, device);
      if p.device == device {
        LastGoodNext(ResultsOf(before, device), Get(Run(before).lastGood, device), p.result);
        UnhealthyNext(ResultsOf(before, device), Failures(Run(before), device), p.result);
      }
      hide Cached, EndsUnhealthy, IsLastGood, Failures, Get, Healthy;
    }
  }

  /** What is shown after a probe. A healthy result is shown at once. An unhealthy one is shown exactly when
      there is no earlier good result, or it is the third or later in a row, or it is reachable with a jailbreak
      blocker; otherwise the last good result is, with only its check time updated. */
  lemma ShownRule(probes: seq<Probe>, p: Probe, run: nat, good: Option<Health>)
    requires EndsUnhealthy(ResultsOf(probes, p.device) + [p.result], run)
    requires IsLastGood(ResultsOf(probes, p.device), good)
    ensures var shown := Run(probes + [p]).shown;
            && p.device in shown
            && (Healthy(p.result) ==> shown[p.device] == p.result)
            && (!Healthy(p.result) ==>
                  && (shown[p.device] == p.result <==>
                        good.None? || run >= 3 || (p.result.reachable && p.result.jailbreakBlocker))
                  && (shown[p.device] != p.result ==> shown[p.device] == good.value.(checkedAt := p.result.checkedAt)))
    ensures forall d | d != p.device :: Get(Run(probes + [p]).shown, d) == Get(Run(probes).shown, d)
  {
    var all := probes + [p];
    assert all[..|probes|] == probes;
    CountersMean(probes, p.device);
    CountersMean(all, p.device);
    SameCount(ResultsOf(all, p.device), run, Failures(Run(all), p.device));
    SameGood(ResultsOf(probes, p.device), good, Get(Run(probes).lastGood, p.device));
  }

  lemma SameCount(results: seq<Health>, m: nat, n: nat)
    requires EndsUnhealthy(results, m) && EndsUnhealthy(results, n)
    ensures m == n
  {
  }

  lemma SameGood(results: seq<Health>, a: Option<Health>, b: Option<Health>)
    requires IsLastGood(results, a) && IsLastGood(results, b)
    ensures a == b
  {
  }
}
