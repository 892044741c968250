/** Grace period, outage round trip and isolation of outages, over runs of the health worker. */
module HealthLaws {
  import opened Options
  import opened HealthWorker

  function Run(w: World, events: seq<Event>, threshold: int): World {
    if events == [] then w
    else Next(Run(w, events[..|events| - 1], threshold), events[|events| - 1], threshold)
  }

  lemma {:induction false} RunConcat(w: World, xs: seq<Event>, ys: seq<Event>, threshold: int)
    ensures Run(w, xs + ys, threshold) == Run(Run(w, xs, threshold), ys, threshold)
  {
    if ys == [] {
      assert xs + ys == xs;
    } else {
      RunConcat(w, xs, ys[..|ys| - 1], threshold);
      assert (xs + ys)[..|xs + ys| - 1] == xs + ys[..|ys| - 1];
    }
  }

  // ----- counting failures -----

  /** Only probes of clusters that exist are processed. */
  predicate Processes(w: World, e: Event, c: int) {
    e.Probe? && e.cluster == c && c in w.clusters
  }

  /** The length of the trailing streak of failed probes of `c` since the worker's start or the last success. */
  ghost function TrailingFailures(w: World, events: seq<Event>, c: int, threshold: int): nat {
    if events == [] then 0
    else
      var before := events[..|events| - 1];
      var e := events[|events| - 1];
      if e.Restart? then 0
      else if Processes(Run(w, before, threshold), e, c) then
        if e.reachable then 0 else TrailingFailures(w, before, c, threshold) + 1
      else TrailingFailures(w, before, c, threshold)
  }

  lemma FailuresAfter(w: World, e: Event, c: int, threshold: int)
    ensures Lookup(Next(w, e, threshold).failures, c).GetOr(0) ==
      if e.Restart? || (Processes(w, e, c) && e.reachable) then 0
      else Lookup(w.failures, c).GetOr(0) + if Processes(w, e, c) then 1 else 0
  {
  }

  /** failures[c] is the trailing streak, whatever else happens. */
  lemma {:induction false} FailuresCountTheStreak(w: World, events: seq<Event>, c: int, threshold: int)
    requires w.failures == map[]
    ensures Lookup(Run(w, events, threshold).failures, c).GetOr(0) == TrailingFailures(w, events, c, threshold)
  {
    if events != [] {
      FailuresCountTheStreak(w, events[..|events| - 1], c, threshold);
      FailuresAfter(Run(w, events[..|events| - 1], threshold), events[|events| - 1], c, threshold);
    }
  }

  /**
   A cluster turns OFFLINE exactly at a failed probe of it whose streak has reached the
   threshold; nothing else in the system turns a cluster OFFLINE.
   */
  lemma OfflineNeedsTheStreak(w: World, events: seq<Event>, e: Event, c: int, threshold: int)
    requires w.failures == map[]
    requires c in Run(w, events, threshold).clusters && Run(w, events, threshold).clusters[c] != Offline
    requires c in Run(w, events + [e], threshold).clusters
    requires c < Run(w, events, threshold).nextCluster
    ensures Run(w, events + [e], threshold).clusters[c] == Offline <==>
      e == Probe(c, false) && TrailingFailures(w, events + [e], c, threshold) >= threshold
  {
    FailuresCountTheStreak(w, events, c, threshold);
    assert (events + [e])[..|events + [e]| - 1] == events;
  }

  /** Apps change status through a probe only when it confirms a transition between ONLINE and OFFLINE, never from UNKNOWN. */
  lemma CascadesNeedATransition(w: World, c: int, reachable: bool, threshold: int)
    requires c in w.clusters
    requires Next(w, Probe(c, reachable), threshold).apps != w.apps
    ensures w.clusters[c] != Unknown
    ensures Next(w, Probe(c, reachable), threshold).clusters[c] != w.clusters[c]
  {
  }

  // ----- the captured apps -----

  /** Ids are handed out in order, and an existing cluster has captured apps only while OFFLINE. */
  ghost predicate Inv(w: World) {
    && (forall c :: c in w.clusters || c in w.degraded ==> c < w.nextCluster)
    && (forall c :: c in w.clusters && c in w.degraded ==> w.clusters[c] == Offline)
  }

  lemma EventKeepsInv(w: World, e: Event, threshold: int)
    requires Inv(w)
    ensures Inv(Next(w, e, threshold))
  {
  }

  lemma {:induction false} RunKeepsInv(w: World, events: seq<Event>, threshold: int)
    requires Inv(w)
    ensures Inv(Run(w, events, threshold))
  {
    if events != [] {
      RunKeepsInv(w, events[..|events| - 1], threshold);
      EventKeepsInv(Run(w, events[..|events| - 1], threshold), events[|events| - 1], threshold);
    }
  }

  /** Captured apps are DEGRADED, and no app is captured for two clusters. */
  ghost predicate Disjoint(w: World) {
    && (forall c, a :: c in w.degraded && a in w.degraded[c] && a in w.apps ==> w.apps[a].status == Degraded)
    && (forall c, d :: c in w.degraded && d in w.degraded && c != d ==> w.degraded[c] !! w.degraded[d])
    && (forall c :: c in w.degraded ==> w.degraded[c] <= w.apps.Keys)
  }

  /** With only worker and retargeting steps, the captured sets of different clusters stay disjoint. */
  lemma {:induction false} CapturesStayDisjoint(w: World, events: seq<Event>, threshold: int)
    requires Inv(w) && Disjoint(w)
    requires forall i :: 0 <= i < |events| ==> events[i].Probe? || events[i].Retarget? || events[i].Restart?
    ensures Disjoint(Run(w, events, threshold))
  {
    if events != [] {
      var before := Run(w, events[..|events| - 1], threshold);
      CapturesStayDisjoint(w, events[..|events| - 1], threshold);
      RunKeepsInv(w, events[..|events| - 1], threshold);
      EventKeepsDisjoint(before, events[|events| - 1], threshold);
    }
  }

  lemma EventKeepsDisjoint(w: World, e: Event, threshold: int)
    requires Inv(w) && Disjoint(w) && (e.Probe? || e.Retarget? || e.Restart?)
    ensures Disjoint(Next(w, e, threshold))
  {
    if e.Probe? && e.cluster in w.clusters {
      var w' := Next(w, e, threshold);
      forall d | d in w'.degraded && d != e.cluster ensures d in w.degraded && w'.degraded[d] == w.degraded[d] {
      }
      if w'.degraded != w.degraded {
        forall d | d in w.degraded && d != e.cluster ensures w.degraded[d] !! DeployedOn(w.apps, e.cluster) {
          forall a | a in w.degraded[d] ensures a !in DeployedOn(w.apps, e.cluster) {
            assert a in w.apps;
          }
        }
      }
    }
  }

  // ----- outages -----

  /** The outage of `c` confirmed by the last probe. */
  predicate Confirms(w: World, c: int, threshold: int) {
    c in w.clusters && w.clusters[c] == Online && Next(w, Probe(c, false), threshold).clusters[c] == Offline
  }

  /** During an outage: the worker keeps running, the cluster stays registered and unreachable. */
  predicate DuringOutage(e: Event, c: int) {
    && !e.Restart?
    && e != RemoveCluster(c)
    && e != Probe(c, true)
  }

  /** What the outage of `c` captured stays captured, and the cluster stays OFFLINE, until its next successful probe. */
  lemma {:induction false} CaptureSurvives(w: World, events: seq<Event>, c: int, threshold: int)
    requires Inv(w) && Confirms(w, c, threshold)
    requires forall i :: 0 <= i < |events| ==> DuringOutage(events[i], c)
    ensures var v := Run(Next(w, Probe(c, false), threshold), events, threshold);
      && c in v.clusters && v.clusters[c] == Offline
      && c in v.degraded && v.degraded[c] == DeployedOn(w.apps, c)
      && Inv(v)
  {
    var outage := Next(w, Probe(c, false), threshold);
    EventKeepsInv(w, Probe(c, false), threshold);
    if events != [] {
      CaptureSurvives(w, events[..|events| - 1], c, threshold);
      EventKeepsInv(Run(outage, events[..|events| - 1], threshold), events[|events| - 1], threshold);
    }
  }

  /**
   Recovery with arbitrary other writers in between: it changes exactly the apps that were
   DEPLOYED on the cluster at the outage, are DEGRADED now and still target it, and turns them
   to DEPLOYED.
   */
  lemma RecoveryRestoresExactly(w: World, events: seq<Event>, c: int, threshold: int, a: int)
    requires Inv(w) && Confirms(w, c, threshold)
    requires forall i :: 0 <= i < |events| ==> DuringOutage(events[i], c)
    ensures var v := Run(Next(w, Probe(c, false), threshold), events, threshold);
      var r := Next(v, Probe(c, true), threshold);
      && (a in r.apps <==> a in v.apps)
      && (a in v.apps ==>
            r.apps[a] == if a in w.apps && w.apps[a] == App(Some(c), Deployed) && v.apps[a] == App(Some(c), Degraded)
                         then App(Some(c), Deployed) else v.apps[a])
  {
    CaptureSurvives(w, events, c, threshold);
  }

  /** Steps of the worker alone, on clusters other than `c` or failing on `c`, leave the apps of `c` as the outage left them. */
  lemma {:induction false} WorkerLeavesOutageApps(w: World, events: seq<Event>, c: int, threshold: int, a: int)
    requires Inv(w) && Confirms(w, c, threshold) && a in w.apps && w.apps[a].cluster == Some(c)
    requires forall i :: 0 <= i < |events| ==> DuringOutage(events[i], c) && events[i].Probe?
    ensures var outage := Next(w, Probe(c, false), threshold);
      var v := Run(outage, events, threshold);
      a in v.apps && v.apps[a] == outage.apps[a]
  {
    if events != [] {
      WorkerLeavesOutageApps(w, events[..|events| - 1], c, threshold, a);
      CaptureSurvives(w, events[..|events| - 1], c, threshold);
    }
  }

  /**
   Outage round trip: when only the worker writes between the confirmed outage of a cluster and
   its recovery, every app of the cluster returns to the status it had before, whatever happens
   to the other clusters meanwhile.
   */
  lemma OutageRoundTrip(w: World, events: seq<Event>, c: int, threshold: int, a: int)
    requires Inv(w) && Confirms(w, c, threshold) && a in w.apps && w.apps[a].cluster == Some(c)
    requires forall i :: 0 <= i < |events| ==> DuringOutage(events[i], c) && events[i].Probe?
    ensures var back := Run(w, [Probe(c, false)] + events + [Probe(c, true)], threshold);
      a in back.apps && back.apps[a] == w.apps[a] && c in back.clusters && back.clusters[c] == Online && c !in back.degraded
  {
    var fail, ok := [Probe(c, false)], [Probe(c, true)];
    RunConcat(w, fail + events, ok, threshold);
    RunConcat(w, fail, events, threshold);
    var outage := Next(w, Probe(c, false), threshold);
    assert fail[..0] == [];
    assert Run(w, fail, threshold) == outage;
    var v := Run(outage, events, threshold);
    assert ok[..0] == [];
    assert Run(v, ok, threshold) == Next(v, Probe(c, true), threshold);
    WorkerLeavesOutageApps(w, events, c, threshold, a);
    RecoveryRestoresExactly(w, events, c, threshold, a);
    CaptureSurvives(w, events, c, threshold);
  }

  // ----- restarts during an outage -----

  /** Between outage and recovery: failed or other clusters' probes, and restarts of the worker. */
  predicate ProbesAndRestarts(events: seq<Event>, c: int) {
    forall i :: 0 <= i < |events| ==> events[i].Restart? || (events[i].Probe? && events[i] != Probe(c, true))
  }

  /** The cluster stays OFFLINE and its apps stay as the outage left them; what it captured is kept until the first restart. */
  lemma {:induction false} OutageState(w: World, events: seq<Event>, c: int, threshold: int, a: int)
    requires Inv(w) && Confirms(w, c, threshold) && a in w.apps && w.apps[a].cluster == Some(c)
    requires ProbesAndRestarts(events, c)
    ensures var outage := Next(w, Probe(c, false), threshold);
      var v := Run(outage, events, threshold);
      && Inv(v) && c in v.clusters && v.clusters[c] == Offline
      && a in v.apps && v.apps[a] == outage.apps[a]
      && Lookup(v.degraded, c) == (if Restart in events then None else Some(DeployedOn(w.apps, c)))
  {
    EventKeepsInv(w, Probe(c, false), threshold);
    if events != [] {
      var n := |events| - 1;
      OutageState(w, events[..n], c, threshold, a);
      assert events == events[..n] + [events[n]];
      EventKeepsInv(Run(Next(w, Probe(c, false), threshold), events[..n], threshold), events[n], threshold);
    }
  }

  /**
   The round trip, exactly: with nothing but probes and restarts in between, an app of the cluster
   gets its status back if and only if it was not DEPLOYED or the worker did not restart.
   */
  lemma RoundTripIffNoRestart(w: World, events: seq<Event>, c: int, threshold: int, a: int)
    requires Inv(w) && Confirms(w, c, threshold) && a in w.apps && w.apps[a].cluster == Some(c)
    requires ProbesAndRestarts(events, c)
    ensures var back := Next(Run(Next(w, Probe(c, false), threshold), events, threshold), Probe(c, true), threshold);
      && a in back.apps
      && (back.apps[a] == w.apps[a] <==> w.apps[a].status != Deployed || Restart !in events)
      && (back.apps[a] != w.apps[a] ==> back.apps[a] == App(Some(c), Degraded))
  {
    OutageState(w, events, c, threshold, a);
  }

  /** A restart between outage and recovery loses the capture: the apps stay DEGRADED. */
  lemma RestartLosesTheCapture(w: World, c: int, threshold: int, a: int)
    requires Confirms(w, c, threshold) && a in w.apps && w.apps[a] == App(Some(c), Deployed)
    ensures var back := Next(Next(Next(w, Probe(c, false), threshold), Restart, threshold), Probe(c, true), threshold);
      a in back.apps && back.apps[a].status == Degraded
  {
  }

  // ----- what a probe leaves -----

  /** Grace: a failed probe whose streak is below the threshold changes no cluster's status, no app and no capture. */
  lemma GraceChangesNothing(w: World, events: seq<Event>, c: int, threshold: int)
    requires w.failures == map[]
    requires TrailingFailures(w, events + [Probe(c, false)], c, threshold) < threshold
    ensures var before, after := Run(w, events, threshold), Run(w, events + [Probe(c, false)], threshold);
      after.clusters == before.clusters && after.apps == before.apps && after.degraded == before.degraded
  {
    FailuresCountTheStreak(w, events, c, threshold);
    assert (events + [Probe(c, false)])[..|events + [Probe(c, false)]| - 1] == events;
    var before := Run(w, events, threshold);
    if c in before.clusters {
      assert before.clusters[c := before.clusters[c]] == before.clusters;
    }
  }

  /** A successful probe leaves its cluster ONLINE, whatever came before, and every other cluster as it was. */
  lemma SuccessMeansOnline(w: World, events: seq<Event>, c: int, threshold: int)
    requires c in Run(w, events, threshold).clusters
    ensures var before, after := Run(w, events, threshold), Run(w, events + [Probe(c, true)], threshold);
      && after.clusters == before.clusters[c := Online]
      && (before.clusters[c] != Offline ==> after.apps == before.apps && after.degraded == before.degraded)
  {
    assert (events + [Probe(c, true)])[..|events + [Probe(c, true)]| - 1] == events;
  }

  /** n failed probes of c in a row. */
  function Fails(c: int, n: nat): seq<Event> {
    if n == 0 then [] else Fails(c, n - 1) + [Probe(c, false)]
  }

  lemma OneMoreFailure(w: World, c: int, threshold: int, n: nat) returns (near: World)
    ensures near == Run(w, Fails(c, n), threshold)
    ensures Run(w, Fails(c, n + 1), threshold) == Next(near, Probe(c, false), threshold)
  {
    near := Run(w, Fails(c, n), threshold);
    assert Fails(c, n + 1)[..|Fails(c, n + 1)| - 1] == Fails(c, n);
  }

  /** Below the threshold a row of failures changes the counter and nothing else. */
  lemma {:induction false} FailuresInGrace(w: World, c: int, threshold: int, n: nat)
    requires c in w.clusters && (c in w.failures ==> w.failures[c] == 0) && n < threshold
    ensures CountedOnly(w, Run(w, Fails(c, n), threshold), c, n)
  {
    if n > 0 {
      FailuresInGrace(w, c, threshold, n - 1);
      var near := OneMoreFailure(w, c, threshold, n - 1);
      CountsOneMore(w, near, c, threshold, n - 1);
    }
  }

  /** Nothing but the counter changed, and it stands at n. */
  predicate CountedOnly(w: World, v: World, c: int, n: nat) {
    && v.clusters == w.clusters && v.apps == w.apps && v.degraded == w.degraded
    && (if n == 0 then c in v.failures ==> v.failures[c] == 0 else c in v.failures && v.failures[c] == n)
  }

  lemma CountsOneMore(w: World, near: World, c: int, threshold: int, n: nat)
    requires c in w.clusters && CountedOnly(w, near, c, n) && n + 1 < threshold
    ensures CountedOnly(w, Next(near, Probe(c, false), threshold), c, n + 1)
  {
    assert w.clusters[c := w.clusters[c]] == w.clusters;
  }

  /** The cluster is OFFLINE, and exactly its DEPLOYED apps are DEGRADED and captured. */
  ghost predicate IsOutage(before: World, after: World, c: int) {
    && after.clusters == before.clusters[c := Offline] && after.apps.Keys == before.apps.Keys
    && (forall a :: a in before.apps ==>
          after.apps[a] == if before.apps[a] == App(Some(c), Deployed) then App(Some(c), Degraded) else before.apps[a])
    && c in after.degraded && after.degraded[c] == (set a | a in before.apps && before.apps[a] == App(Some(c), Deployed))
    && forall d :: d != c ==> Lookup(after.degraded, d) == Lookup(before.degraded, d)
  }

  /**
   The outage from the first failure on: from an ONLINE cluster with a clean counter, `threshold`
   failed probes in a row are an outage.
   */
  lemma ThresholdFailuresAreAnOutage(w: World, c: int, threshold: int)
    requires c in w.clusters && w.clusters[c] == Online && (c in w.failures ==> w.failures[c] == 0) && threshold >= 1
    ensures IsOutage(w, Run(w, Fails(c, threshold), threshold), c)
  {
    FailuresInGrace(w, c, threshold, threshold - 1);
    var near := OneMoreFailure(w, c, threshold, threshold - 1);
    LastFailureDegrades(w, near, c, threshold);
  }

  lemma LastFailureDegrades(w: World, near: World, c: int, threshold: int)
    requires c in w.clusters && w.clusters[c] == Online && threshold >= 1 && CountedOnly(w, near, c, threshold - 1)
    ensures IsOutage(w, Next(near, Probe(c, false), threshold), c)
  {
  }

  /** A cluster still UNKNOWN goes OFFLINE the same way, without touching an app. */
  lemma UnknownGoesOfflineQuietly(w: World, c: int, threshold: int)
    requires c in w.clusters && w.clusters[c] == Unknown && (c in w.failures ==> w.failures[c] == 0) && threshold >= 1
    ensures var v := Run(w, Fails(c, threshold), threshold);
      v.clusters == w.clusters[c := Offline] && v.apps == w.apps && v.degraded == w.degraded
  {
    FailuresInGrace(w, c, threshold, threshold - 1);
    var near := OneMoreFailure(w, c, threshold, threshold - 1);
    LastFailureOfUnknown(w, near, c, threshold);
  }

  lemma LastFailureOfUnknown(w: World, near: World, c: int, threshold: int)
    requires c in w.clusters && w.clusters[c] == Unknown && threshold >= 1 && CountedOnly(w, near, c, threshold - 1)
    ensures var v := Next(near, Probe(c, false), threshold);
      v.clusters == w.clusters[c := Offline] && v.apps == w.apps && v.degraded == w.degraded
  {
  }
}
