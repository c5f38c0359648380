/**
 End to end: endpoint to slot, entry, UDN, cached engine id and device, and back from the
 device's events to the reports of the same endpoint.
 */
module Routing {
  import opened Options
  import opened Lights
  import opened Runs
  import opened Adapter
  import opened Publishing
  import opened Reporting

  /** The report paths of the lights. */
  function Paths(lights: seq<Light>): set<Report> {
    set i, a: Attribute | 0 <= i < |lights| && a in {Reachable, OnOff, CurrentLevel} :: Report(lights[i].endpoint, a)
  }

  /** Every path of every light read once. */
  function ReadAll(lights: seq<Light>): map<Report, int> {
    map r | r in Paths(lights) && At(lights, r.endpoint) < |lights| ::
      Reading(lights[At(lights, r.endpoint)], r.attribute)
  }

  lemma ReadAllReads(lights: seq<Light>, i: nat, a: Attribute)
    requires DistinctEndpoints(lights) && i < |lights|
    ensures var r := Report(lights[i].endpoint, a);
            r in ReadAll(lights) && ReadAll(lights)[r] == Reading(lights[i], a)
  {
    assert a in {Reachable, OnOff, CurrentLevel};
    assert Report(lights[i].endpoint, a) in Paths(lights);
    assert At(lights, lights[i].endpoint) == i;
  }

  /** The system at the start of service, with devices in any state. */
  function Start(window: nat, clock: int, lights: seq<Light>, devices: seq<Physical>): System
  {
    System(window, clock, lights, [], [], [], devices, [], [], ReadAll(lights))
  }

  /** The published lights of a sorted discovery. */
  function PublishedLights(sorted: seq<WemoDevice>, rejects: seq<set<int>>, first: int, capacity: nat): seq<Light>
    requires |rejects| == |sorted| && forall k :: 0 <= k < |sorted| ==> 0 <= sorted[k].levelPercent
  {
    Seeds(sorted, Publish(rejects, first, capacity, |sorted|).published, first)
  }

  /** What publishing leaves behind is a start state of the transition system, so the results
      about runs apply to the published lights. */
  lemma PublishedStart(sorted: seq<WemoDevice>, rejects: seq<set<int>>, first: int, capacity: nat,
      window: nat, clock: int, devices: seq<Physical>)
    requires |rejects| == |sorted| && forall k :: 0 <= k < |sorted| ==> 0 <= sorted[k].levelPercent
    requires |devices| == |PublishedLights(sorted, rejects, first, capacity)|
    ensures var lights := PublishedLights(sorted, rejects, first, capacity);
            DistinctEndpoints(lights) && Init(Start(window, clock, lights, devices))
  {
    var lights := PublishedLights(sorted, rejects, first, capacity);
    assert DistinctEndpoints(lights);
    var s := Start(window, clock, lights, devices);
    forall i, a | 0 <= i < |s.lights| ensures Coherent(s, s.lights[i], a) {
      ReadAllReads(lights, i, a);
    }
  }

  /** One engine listing with distinct devices: no empty UDN, no UDN or id twice. */
  ghost predicate CleanListing(infos: seq<Info>) {
    && (forall i :: 0 <= i < |infos| ==> infos[i].udn != "")
    && (forall i, j :: 0 <= i < j < |infos| ==> infos[i].udn != infos[j].udn && infos[i].wemoId != infos[j].wemoId)
  }

  lemma {:induction false} LastIdOfClean(infos: seq<Info>, i: nat)
    requires CleanListing(infos) && i < |infos|
    ensures LastId(infos, infos[i].udn) == Some(infos[i].wemoId)
  {
    var n := |infos| - 1;
    if i < n {
      assert infos[..n][i] == infos[i];
      LastIdOfClean(infos[..n], i);
    }
  }

  lemma DescriptionsDistinct(infos: seq<Info>)
    requires CleanListing(infos)
    ensures DistinctUdns(DescribeAll(infos))
  {
    var r := DescribeAll(infos);
    forall i, j | 0 <= i < j < |r| ensures r[i].udn != r[j].udn {
      assert r[i] == Describe(infos[i]) && r[j] == Describe(infos[j]);
    }
  }

  lemma LevelsFit(infos: seq<Info>, sorted: seq<WemoDevice>)
    requires SortOf(sorted, DescribeAll(infos))
    ensures forall k :: 0 <= k < |sorted| ==> 0 <= sorted[k].levelPercent <= 100
  {
    forall k | 0 <= k < |sorted| ensures 0 <= sorted[k].levelPercent <= 100 {
      var i := Origin(infos, sorted, k);
    }
  }

  /** Every sorted device describes one item of the listing. */
  lemma Origin(infos: seq<Info>, sorted: seq<WemoDevice>, k: nat) returns (i: nat)
    requires SortOf(sorted, DescribeAll(infos)) && k < |sorted|
    ensures i < |infos| && sorted[k] == Describe(infos[i])
  {
    SortKeepsMembers(sorted, DescribeAll(infos), sorted[k]);
    var n :| 0 <= n < |DescribeAll(infos)| && DescribeAll(infos)[n] == sorted[k];
    i := n;
  }

  /** The setting of the end-to-end results: one clean listing, discovered, sorted and
      published under any refusals. */
  ghost predicate Discovered(infos: seq<Info>, sorted: seq<WemoDevice>, rejects: seq<set<int>>): (b: bool)
    ensures b ==> forall k :: 0 <= k < |sorted| ==> 0 <= sorted[k].levelPercent <= 100
  {
    if SortOf(sorted, DescribeAll(infos)) then
      LevelsFit(infos, sorted);
      CleanListing(infos) && |rejects| == |sorted|
    else false
  }

  /** Each published light's UDN is cached with the light's own engine id. */
  lemma CachedUnderOwnId(infos: seq<Info>, sorted: seq<WemoDevice>, rejects: seq<set<int>>, first: int, capacity: nat, k: nat)
    requires Discovered(infos, sorted, rejects)
    requires k < |PublishedLights(sorted, rejects, first, capacity)|
    ensures var l := PublishedLights(sorted, rejects, first, capacity)[k];
            Lookup(Merge(map[], infos), l.udn) == Some(l.wemoId)
  {
    var published := Publish(rejects, first, capacity, |sorted|).published;
    var i := Origin(infos, sorted, published[k]);
    LastIdOfClean(infos, i);
    MergeLookup(map[], infos, infos[i].udn);
  }

  lemma OwnIdsDistinct(infos: seq<Info>, sorted: seq<WemoDevice>, rejects: seq<set<int>>, first: int, capacity: nat,
      j: nat, k: nat)
    requires Discovered(infos, sorted, rejects)
    requires j < k < |PublishedLights(sorted, rejects, first, capacity)|
    ensures var lights := PublishedLights(sorted, rejects, first, capacity);
            lights[j].wemoId != lights[k].wemoId && lights[j].udn != lights[k].udn
  {
    var published := Publish(rejects, first, capacity, |sorted|).published;
    DescriptionsDistinct(infos);
    SortedUdnsDistinct(sorted, DescribeAll(infos));
    var m := Origin(infos, sorted, published[j]);
    var n := Origin(infos, sorted, published[k]);
    assert sorted[published[j]].udn != sorted[published[k]].udn;
    assert m != n;
    assert if m < n then infos[m].wemoId != infos[n].wemoId else infos[n].wemoId != infos[m].wemoId;
  }

  /** The round trip. Endpoint first + k is served by entry k; commands for its UDN go to the
      engine id from which events come back to entry k, and no other entry's do. */
  lemma RoutingRoundTrip(infos: seq<Info>, sorted: seq<WemoDevice>, rejects: seq<set<int>>, first: int, capacity: nat, k: nat)
    requires Discovered(infos, sorted, rejects)
    requires k < |PublishedLights(sorted, rejects, first, capacity)|
    ensures var lights := PublishedLights(sorted, rejects, first, capacity);
            var cache := Merge(map[], infos);
            && At(lights, first + k) == k
            && lights[k].udn in cache && Find(lights, cache[lights[k].udn]) == k
            && forall j :: 0 <= j < |lights| && j != k ==> Lookup(cache, lights[j].udn) != Lookup(cache, lights[k].udn)
  {
    var lights := PublishedLights(sorted, rejects, first, capacity);
    var cache := Merge(map[], infos);
    CachedUnderOwnId(infos, sorted, rejects, first, capacity, k);
    forall j | 0 <= j < |lights| && j != k
      ensures lights[j].wemoId != lights[k].wemoId && lights[j].endpoint != first + k
      ensures Lookup(cache, lights[j].udn) != Lookup(cache, lights[k].udn)
    {
      CachedUnderOwnId(infos, sorted, rejects, first, capacity, j);
      if j < k {
        OwnIdsDistinct(infos, sorted, rejects, first, capacity, j, k);
      } else {
        OwnIdsDistinct(infos, sorted, rejects, first, capacity, k, j);
      }
    }
    var i := Find(lights, lights[k].wemoId);
    assert lights[k].endpoint == first + k;
  }

  /** What the sender threads of a log ask of the adapter. */
  predicate AsksFor(op: Op, x: Sent, lights: seq<Light>) {
    x.light < |lights| && op.DoSet? && op.udn == lights[x.light].udn && op.command == x.command
  }

  /** In every run from the published start, whatever order the threads call the adapter in,
      each command of the log reaches the engine id of the light it was written to, as that
      command, and level commands arrive as on at 1 to 100 percent. */
  lemma CommandsReachTheirDevices(infos: seq<Info>, sorted: seq<WemoDevice>, rejects: seq<set<int>>,
      first: int, capacity: nat, window: nat, clock: int, devices: seq<Physical>, acts: seq<Action>,
      adapter: State, order: seq<Sent>, ops: seq<Op>, k: nat)
    requires Discovered(infos, sorted, rejects)
    requires var lights := PublishedLights(sorted, rejects, first, capacity);
             && |devices| == |lights|
             && multiset(order) <= multiset(Runs.Run(Start(window, clock, lights, devices), acts).log)
             && |ops| == |order| && forall n :: 0 <= n < |ops| ==> AsksFor(ops[n], order[n], lights)
    requires adapter.initialized && adapter.cache == Merge(map[], infos) && k < |ops|
    ensures var lights := PublishedLights(sorted, rejects, first, capacity);
            var x := order[k];
            var t := Adapter.Run(adapter, ops);
            && |t.calls| == |adapter.calls| + |ops| && x.light < |lights|
            && Means(t.calls[|adapter.calls| + k], lights[x.light].wemoId, x.command)
            && (x.command.SetLevel? ==>
                  t.calls[|adapter.calls| + k] == EngineCall(lights[x.light].wemoId, 1, x.command.percent)
                  && 1 <= x.command.percent <= 100)
  {
    var lights := PublishedLights(sorted, rejects, first, capacity);
    forall n | 0 <= n < |ops|
      ensures ops[n].udn in adapter.cache && adapter.cache[ops[n].udn] == lights[order[n].light].wemoId
    {
      assert AsksFor(ops[n], order[n], lights);
      CachedUnderOwnId(infos, sorted, rejects, first, capacity, order[n].light);
    }
    KnownUdnsKeepTheirIds(adapter, ops);
    assert AsksFor(ops[k], order[k], lights);
    var s := Start(window, clock, lights, devices);
    PublishedStart(sorted, rejects, first, capacity, window, clock, devices);
    InitInv(s);
    RunKeepsInv(s, acts);
    var log := Runs.Run(s, acts).log;
    assert order[k] in multiset(order);
    assert order[k] in multiset(log);
    var n :| 0 <= n < |log| && log[n] == order[k];
    assert Lit(log[n]);
  }

  /** In every run from the published start, an event from the engine id of entry k changes
      entry k alone, and every report it schedules is for endpoint first + k. */
  lemma EventsReportOnTheirEndpoint(infos: seq<Info>, sorted: seq<WemoDevice>, rejects: seq<set<int>>,
      first: int, capacity: nat, window: nat, clock: int, devices: seq<Physical>, acts: seq<Action>, k: nat, ev: WemoEvent)
    requires Discovered(infos, sorted, rejects)
    requires var lights := PublishedLights(sorted, rejects, first, capacity);
             k < |lights| && ev.wemoId == lights[k].wemoId
    ensures var lights := PublishedLights(sorted, rejects, first, capacity);
            var s := Runs.Run(Start(window, clock, lights, devices), acts);
            var t := Step(s, Event(ev));
            && k < |s.lights| == |t.lights|
            && t.lights == s.lights[k := HandleEvent(s.lights[k], ev, s.clock)]
            && s.reports <= t.reports
            && forall r :: r in t.reports[|s.reports|..] ==> r.endpoint == first + k
  {
    var lights := PublishedLights(sorted, rejects, first, capacity);
    var start := Start(window, clock, lights, devices);
    var s := Runs.Run(start, acts);
    IdentitiesKept(start, acts);
    assert Find(lights, ev.wemoId) == k by {
      RoutingRoundTrip(infos, sorted, rejects, first, capacity, k);
      CachedUnderOwnId(infos, sorted, rejects, first, capacity, k);
    }
    FindByIdentity(lights, s.lights, ev.wemoId);
    assert SameIdentity(lights[k], s.lights[k]) && lights[k].endpoint == first + k;
    EventOnEntry(s, ev, k);
  }

  /** Event routing depends on the lights' identities only. */
  lemma FindByIdentity(a: seq<Light>, b: seq<Light>, wemoId: int)
    requires |a| == |b| && forall i :: 0 <= i < |a| ==> SameIdentity(a[i], b[i])
    ensures Find(a, wemoId) == Find(b, wemoId)
  {
    assert forall i :: 0 <= i < |a| ==> SameIdentity(a[i], b[i]) && a[i].wemoId == b[i].wemoId;
  }

  lemma EventOnEntry(s: System, ev: WemoEvent, k: nat)
    requires k < |s.lights| && Find(s.lights, ev.wemoId) == k
    ensures var t := Step(s, Event(ev));
            && t.lights == s.lights[k := HandleEvent(s.lights[k], ev, s.clock)]
            && s.reports <= t.reports
            && forall r :: r in t.reports[|s.reports|..] ==> r.endpoint == s.lights[k].endpoint
  {
    EventStep(s, ev);
    var l := HandleEvent(s.lights[k], ev, s.clock);
    assert Step(s, Event(ev)).reports[|s.reports|..] == Changes(s.lights[k], l);
  }
}
