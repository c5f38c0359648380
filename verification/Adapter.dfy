/**
 The adapter between UDNs and the engine's device ids: a cache filled from engine listings,
 rebuilt by Discover and merged into on a cache miss. Engine return codes and listings are
 inputs.
 */
module Adapter {
  import opened Options
  import opened Lights

  const TYPE_DIMMER := 4

  /** One item of the engine's device list. */
  datatype Info = Info(wemoId: int, udn: string, friendlyName: string,
                       online: int, state: int, level: int, deviceType: int)

  /** Result of we_list_devices: the return code, the count it claims, and the fixed-size
      item array. */
  datatype Listing = Listing(ok: bool, count: int, items: seq<Info>)

  /** What Discover hands to the application. */
  datatype WemoDevice = WemoDevice(wemoId: int, udn: string, friendlyName: string,
                                   supportsLevel: bool, online: bool, onoff: int, levelPercent: int)

  /** A we_set_action call; the level is -1 for a plain on/off command. */
  datatype EngineCall = EngineCall(wemoId: int, state: int, level: int)

  function Clamp(x: int, low: int, high: int): int
    requires low <= high
  {
    if x < low then low else if x > high then high else x
  }

  /** The items a listing contributes: its count is not trusted beyond the array. */
  function Items(l: Listing): seq<Info> {
    l.items[..Clamp(l.count, 0, |l.items|)]
  }

  function Describe(info: Info): WemoDevice {
    WemoDevice(info.wemoId, info.udn, info.friendlyName,
               info.deviceType == TYPE_DIMMER || info.level >= 0,
               info.online != 0,
               if info.state != 0 then 1 else 0,
               if info.level >= 0 then Clamp(info.level, 0, 100) else 0)
  }

  function DescribeAll(infos: seq<Info>): (r: seq<WemoDevice>)
    ensures |r| == |infos| && forall k :: 0 <= k < |infos| ==> r[k] == Describe(infos[k])
  {
    seq(|infos|, k requires 0 <= k < |infos| => Describe(infos[k]))
  }

  /** What a listed item tells the application about its device: a level or the dimmer type
      makes it dimmable, flags are 0 or 1, and levels are cut to 0..100. */
  predicate Tells(d: WemoDevice, info: Info) {
    && d.wemoId == info.wemoId && d.udn == info.udn && d.friendlyName == info.friendlyName
    && (d.supportsLevel <==> info.deviceType == 4 || info.level >= 0)
    && (d.online <==> info.online != 0)
    && d.onoff == (if info.state != 0 then 1 else 0)
    && (info.level < 0 ==> d.levelPercent == 0)
    && (0 <= info.level <= 100 ==> d.levelPercent == info.level)
    && (info.level > 100 ==> d.levelPercent == 100)
  }

  lemma Described(info: Info)
    ensures Tells(Describe(info), info)
    ensures forall d :: Tells(d, info) ==> d == Describe(info)
  {
  }

  /** How many items of the array count: the claimed number, but not below none or above all. */
  ghost predicate Listed(l: Listing, n: nat) {
    && n <= |l.items|
    && (l.count <= 0 ==> n == 0)
    && (0 <= l.count <= |l.items| ==> n == l.count)
    && (l.count > |l.items| ==> n == |l.items|)
  }

  lemma ItemsListed(l: Listing)
    ensures Listed(l, |Items(l)|) && Items(l) == l.items[..|Items(l)|]
  {
  }

  // ---------------------------------------------------------------- the cache by its history

  /** Id of the last item for a UDN in one listing; the empty UDN is never listed. */
  function LastId(infos: seq<Info>, udn: string): Option<int> {
    if infos == [] || udn == "" then None
    else if infos[|infos| - 1].udn == udn then Some(infos[|infos| - 1].wemoId)
    else LastId(infos[..|infos| - 1], udn)
  }

  /** Id of a UDN in the most recent of several snapshots that lists it. */
  function LatestId(snapshots: seq<seq<Info>>, udn: string): Option<int> {
    if snapshots == [] then None
    else if LastId(snapshots[|snapshots| - 1], udn).Some? then LastId(snapshots[|snapshots| - 1], udn)
    else LatestId(snapshots[..|snapshots| - 1], udn)
  }

  function Lookup(cache: map<string, int>, udn: string): Option<int> {
    if udn in cache then Some(cache[udn]) else None
  }

  /** The cache answers every UDN as the snapshots since the last discovery do. */
  ghost predicate Reflects(cache: map<string, int>, snapshots: seq<seq<Info>>) {
    forall u: string :: LatestId(snapshots, u) == Lookup(cache, u)
  }

  /** A cache with the items of a listing written over it in order. */
  function Merge(cache: map<string, int>, infos: seq<Info>): map<string, int> {
    if infos == [] then cache else
    var x := infos[|infos| - 1];
    var before := Merge(cache, infos[..|infos| - 1]);
    if x.udn != "" then before[x.udn := x.wemoId] else before
  }

  lemma {:induction false} MergeLookup(cache: map<string, int>, infos: seq<Info>, u: string)
    ensures Lookup(Merge(cache, infos), u)
            == if LastId(infos, u).Some? then LastId(infos, u) else Lookup(cache, u)
  {
    if infos != [] {
      MergeLookup(cache, infos[..|infos| - 1], u);
    }
  }

  /** The id of a UDN in a listing is that of an item after which no item has the UDN. */
  lemma {:induction false} LastIdIsLast(infos: seq<Info>, udn: string, id: int)
    ensures LastId(infos, udn) == Some(id) <==>
      udn != "" && exists k :: 0 <= k < |infos| && infos[k].udn == udn && infos[k].wemoId == id
                               && forall j :: k < j < |infos| ==> infos[j].udn != udn
    ensures LastId(infos, udn) == None <==> udn == "" || forall k :: 0 <= k < |infos| ==> infos[k].udn != udn
  {
    if infos != [] {
      var n := |infos| - 1;
      var before := infos[..n];
      LastIdIsLast(before, udn, id);
      assert forall k :: 0 <= k < n ==> before[k] == infos[k];
      if udn != "" && infos[n].udn != udn {
        if LastId(before, udn) == Some(id) {
          var k :| 0 <= k < n && before[k].udn == udn && before[k].wemoId == id && forall j :: k < j < n ==> before[j].udn != udn;
          assert infos[k].udn == udn && infos[k].wemoId == id && forall j :: k < j < |infos| ==> infos[j].udn != udn;
        }
        if k :| 0 <= k < |infos| && infos[k].udn == udn && infos[k].wemoId == id && forall j :: k < j < |infos| ==> infos[j].udn != udn {
          assert before[k].udn == udn && before[k].wemoId == id && forall j :: k < j < n ==> before[j].udn != udn;
        }
      }
    }
  }

  /** And in several snapshots that of the last one to list it. */
  lemma {:induction false} LatestIdIsLatest(snapshots: seq<seq<Info>>, udn: string, id: int)
    ensures LatestId(snapshots, udn) == Some(id) <==>
      exists n :: 0 <= n < |snapshots| && LastId(snapshots[n], udn) == Some(id)
                  && forall m :: n < m < |snapshots| ==> LastId(snapshots[m], udn) == None
  {
    if snapshots != [] {
      var k := |snapshots| - 1;
      var before := snapshots[..k];
      LatestIdIsLatest(before, udn, id);
      assert forall n :: 0 <= n < k ==> before[n] == snapshots[n];
      if LastId(snapshots[k], udn) == None {
        if LatestId(before, udn) == Some(id) {
          var n :| 0 <= n < k && LastId(before[n], udn) == Some(id) && forall m :: n < m < k ==> LastId(before[m], udn) == None;
          assert LastId(snapshots[n], udn) == Some(id) && forall m :: n < m < |snapshots| ==> LastId(snapshots[m], udn) == None;
        }
        if n :| 0 <= n < |snapshots| && LastId(snapshots[n], udn) == Some(id)
                && forall m :: n < m < |snapshots| ==> LastId(snapshots[m], udn) == None {
          assert LastId(before[n], udn) == Some(id) && forall m :: n < m < k ==> LastId(before[m], udn) == None;
        }
      }
    }
  }

  lemma MergeReflects(cache: map<string, int>, snapshots: seq<seq<Info>>, infos: seq<Info>)
    requires Reflects(cache, snapshots)
    ensures Reflects(Merge(cache, infos), snapshots + [infos])
  {
    assert (snapshots + [infos])[..|snapshots|] == snapshots;
    forall u: string ensures LatestId(snapshots + [infos], u) == Lookup(Merge(cache, infos), u) {
      MergeLookup(cache, infos, u);
      assert LatestId(snapshots, u) == Lookup(cache, u);
    }
  }

  // ---------------------------------------------------------------- the adapter as a value

  datatype State = State(initialized: bool, cache: map<string, int>, snapshots: seq<seq<Info>>, calls: seq<EngineCall>)

  /** `initOk` is what we_init would return, `listing` what the engine would list. */
  datatype Op =
    | DoDiscover(initOk: bool, listing: Listing)
    | DoSet(udn: string, command: Command, initOk: bool, listing: Listing)

  /** The engine call a command turns into. */
  function CallFor(wemoId: int, c: Command): EngineCall {
    match c
    case SetOnOff(on) => EngineCall(wemoId, if on then 1 else 0, -1)
    case SetLevel(percent) =>
      var clamped := Clamp(percent, 0, 100);
      EngineCall(wemoId, if clamped > 0 then 1 else 0, clamped)
  }

  /** The engine call that means the command: on is state 1 and off state 0, both without a
      level; a level is cut to 0..100 and is on unless it is 0. */
  predicate Means(call: EngineCall, wemoId: int, c: Command) {
    && call.wemoId == wemoId
    && (c.SetOnOff? ==> call.state == (if c.on then 1 else 0) && call.level == -1)
    && (c.SetLevel? ==> call.state == (if c.percent > 0 then 1 else 0))
    && (c.SetLevel? && c.percent <= 0 ==> call.level == 0)
    && (c.SetLevel? && 0 <= c.percent <= 100 ==> call.level == c.percent)
    && (c.SetLevel? && c.percent > 100 ==> call.level == 100)
  }

  lemma CallMeans(wemoId: int, c: Command)
    ensures Means(CallFor(wemoId, c), wemoId, c)
    ensures forall call :: Means(call, wemoId, c) ==> call == CallFor(wemoId, c)
  {
  }

  function Send(s: State, udn: string, c: Command): State {
    if udn in s.cache then s.(calls := s.calls + [CallFor(s.cache[udn], c)]) else s
  }

  /** One operation: only the cache decides; the snapshots are a record of what filled it. */
  function Do(s: State, op: Op): State {
    var ready := s.(initialized := s.initialized || op.initOk);
    if !ready.initialized then ready else
    match op
    case DoDiscover(_, l) =>
      if l.ok then ready.(cache := Merge(map[], Items(l)), snapshots := [Items(l)]) else ready
    case DoSet(udn, c, _, l) =>
      if udn in s.cache || !l.ok then Send(ready, udn, c)
      else Send(ready.(cache := Merge(s.cache, Items(l)), snapshots := s.snapshots + [Items(l)]), udn, c)
  }

  const START := State(false, map[], [], [])

  function Run(s: State, ops: seq<Op>): State
    decreases |ops|
  {
    if ops == [] then s else Run(Do(s, ops[0]), ops[1..])
  }

  lemma DoKeepsHistory(s: State, op: Op)
    requires Reflects(s.cache, s.snapshots)
    ensures Reflects(Do(s, op).cache, Do(s, op).snapshots)
  {
    match op
    case DoDiscover(_, l) =>
      assert Reflects(map[], []);
      MergeReflects(map[], [], Items(l));
      assert [] + [Items(l)] == [Items(l)];
    case DoSet(_, _, _, l) => MergeReflects(s.cache, s.snapshots, Items(l));
  }

  lemma {:induction false} RunKeepsHistory(s: State, ops: seq<Op>)
    requires Reflects(s.cache, s.snapshots)
    ensures Reflects(Run(s, ops).cache, Run(s, ops).snapshots)
    decreases |ops|
  {
    if ops != [] {
      DoKeepsHistory(s, ops[0]);
      RunKeepsHistory(Do(s, ops[0]), ops[1..]);
    }
  }

  lemma {:induction false} NoEmptyUdn(snapshots: seq<seq<Info>>)
    ensures LatestId(snapshots, "") == None
  {
    if snapshots != [] {
      NoEmptyUdn(snapshots[..|snapshots| - 1]);
    }
  }

  /** After any run the cache answers each UDN with its id in the most recent successful
      snapshot that lists it, counting from the last successful discovery; the empty UDN is
      never cached. */
  lemma CacheIsHistory(ops: seq<Op>, udn: string)
    ensures var s := Run(START, ops);
            && Lookup(s.cache, udn) == LatestId(s.snapshots, udn)
            && "" !in s.cache
  {
    assert Reflects(map[], []);
    RunKeepsHistory(START, ops);
    NoEmptyUdn(Run(START, ops).snapshots);
    assert Lookup(Run(START, ops).cache, "") == None;
  }

  /** A discovery that succeeds leaves in the cache exactly the non-empty UDNs of its listing,
      whatever was there before, each with the id of its last item; one that fails leaves the
      cache alone. */
  lemma DiscoveryRebuilds(s: State, initOk: bool, l: Listing, udn: string, n: nat)
    requires Listed(l, n)
    ensures var t := Do(s, DoDiscover(initOk, l));
            && t.calls == s.calls && t.initialized == (s.initialized || initOk)
            && if t.initialized && l.ok then
                 && t.snapshots == [l.items[..n]]
                 && (udn in t.cache <==> udn != "" && exists k :: 0 <= k < n && l.items[k].udn == udn)
                 && (udn in t.cache ==> exists k :: 0 <= k < n && l.items[k].udn == udn && l.items[k].wemoId == t.cache[udn]
                                                   && forall j :: k < j < n ==> l.items[j].udn != udn)
               else t.cache == s.cache && t.snapshots == s.snapshots
  {
    ItemsListed(l);
    assert Items(l) == l.items[..n];
    MergedIsListed(l.items, n, udn);
  }

  lemma MergedIsListed(items: seq<Info>, n: nat, udn: string)
    requires n <= |items|
    ensures var cache := Merge(map[], items[..n]);
            && (udn in cache <==> udn != "" && exists k :: 0 <= k < n && items[k].udn == udn)
            && (udn in cache ==> exists k :: 0 <= k < n && items[k].udn == udn && items[k].wemoId == cache[udn]
                                            && forall j :: k < j < n ==> items[j].udn != udn)
  {
    var infos := items[..n];
    var cache := Merge(map[], infos);
    MergeLookup(map[], infos, udn);
    assert forall k :: 0 <= k < n ==> infos[k] == items[k];
    LastIdIsLast(infos, udn, if udn in cache then cache[udn] else 0);
    if udn in cache {
      var k :| 0 <= k < |infos| && infos[k].udn == udn && infos[k].wemoId == cache[udn]
               && forall j :: k < j < |infos| ==> infos[j].udn != udn;
      assert items[k].udn == udn && forall j :: k < j < n ==> items[j].udn != udn;
    }
  }

  /** After any run, a command sends at most one call, and only to the id the snapshots then
      give for its UDN; a UDN that neither cache nor refresh knows is not commanded. The
      listing is fetched, and kept, only on a miss. */
  lemma CommandGoesWhereHistoryPoints(ops: seq<Op>, udn: string, c: Command, initOk: bool, l: Listing)
    ensures var s := Run(START, ops);
            var t := Do(s, DoSet(udn, c, initOk, l));
            var id := LatestId(t.snapshots, udn);
            && (if t.initialized && id.Some? then
                  |t.calls| == |s.calls| + 1 && s.calls <= t.calls && Means(t.calls[|s.calls|], id.value, c)
                else t.calls == s.calls)
            && t.snapshots == (if t.initialized && l.ok && LatestId(s.snapshots, udn).None?
                               then s.snapshots + [Items(l)] else s.snapshots)
  {
    var s := Run(START, ops);
    CacheIsHistory(ops, udn);
    assert Reflects(map[], []);
    RunKeepsHistory(START, ops);
    DoKeepsHistory(s, DoSet(udn, c, initOk, l));
    var t := Do(s, DoSet(udn, c, initOk, l));
    assert Lookup(t.cache, udn) == LatestId(t.snapshots, udn);
    if udn in t.cache {
      CallMeans(t.cache[udn], c);
    }
  }

  /** A device without a UDN is discovered, but no command for it ever reaches the engine. */
  lemma EmptyUdnIsNeverCommanded(ops: seq<Op>, c: Command, initOk: bool, l: Listing)
    ensures Do(Run(START, ops), DoSet("", c, initOk, l)).calls == Run(START, ops).calls
  {
    CommandGoesWhereHistoryPoints(ops, "", c, initOk, l);
    NoEmptyUdn(Do(Run(START, ops), DoSet("", c, initOk, l)).snapshots);
  }

  /** Commands for UDNs the cache knows never change it, so they all go to the ids it held
      when the first was sent, in order. */
  lemma {:induction false} KnownUdnsKeepTheirIds(s: State, ops: seq<Op>)
    requires s.initialized
    requires forall k :: 0 <= k < |ops| ==> ops[k].DoSet? && ops[k].udn in s.cache
    ensures var t := Run(s, ops);
            && t.cache == s.cache && |t.calls| == |s.calls| + |ops| && s.calls <= t.calls
            && forall k :: 0 <= k < |ops| ==>
                 Means(t.calls[|s.calls| + k], s.cache[ops[k].udn], ops[k].command)
    decreases |ops|
  {
    if ops != [] {
      CallMeans(s.cache[ops[0].udn], ops[0].command);
      KnownUdnsKeepTheirIds(Do(s, ops[0]), ops[1..]);
      var t := Run(s, ops);
      forall k | 0 <= k < |ops|
        ensures Means(t.calls[|s.calls| + k], s.cache[ops[k].udn], ops[k].command)
      {
        if k > 0 {
          assert ops[1..][k - 1] == ops[k];
        } else {
          assert Do(s, ops[0]).calls[|s.calls|] == t.calls[|s.calls|];
        }
      }
    }
  }

  // ---------------------------------------------------------------- the adapter as an object

  class WemoAdapter {
    var initialized: bool
    var udnToWemoId: map<string, int>
    ghost var snapshots: seq<seq<Info>>
    ghost var calls: seq<EngineCall>

    ghost function View(): State
      reads this
    {
      State(initialized, udnToWemoId, snapshots, calls)
    }

    /** The cache has a UDN exactly if it is not empty and one of the first n items has it, with
        the id of the last such item. */
    ghost predicate Rebuilt(udn: string, items: seq<Info>, n: nat)
      requires n <= |items|
      reads this`udnToWemoId
    {
      && (udn in udnToWemoId <==> udn != "" && exists k :: 0 <= k < n && items[k].udn == udn)
      && (udn in udnToWemoId ==> exists k :: 0 <= k < n && items[k].udn == udn && items[k].wemoId == udnToWemoId[udn]
                                            && forall j :: k < j < n ==> items[j].udn != udn)
    }

    ghost predicate RebuiltFrom(items: seq<Info>, n: nat)
      requires n <= |items|
      reads this`udnToWemoId
    {
      forall udn: string :: Rebuilt(udn, items, n)
    }

    constructor ()
      ensures View() == START
    {
      initialized, udnToWemoId := false, map[];
      snapshots, calls := [], [];
    }

    /** Initialises the engine once; later calls do not ask it again. */
    method EnsureInitialized(initOk: bool) returns (ok: bool)
      modifies this`initialized
      ensures ok == initialized == (old(initialized) || initOk)
    {
      if initialized {
        return true;
      }
      initialized := initOk;
      return initialized;
    }

    method Discover(initOk: bool, listing: Listing) returns (devices: seq<WemoDevice>)
      modifies this
      ensures View() == Do(old(View()), DoDiscover(initOk, listing))
      ensures devices == if initialized && listing.ok then DescribeAll(Items(listing)) else []
      ensures initialized && listing.ok ==> Listed(listing, |devices|) && RebuiltFrom(listing.items, |devices|)
      ensures initialized && listing.ok ==> forall k :: 0 <= k < |devices| ==> Tells(devices[k], listing.items[k])
      ensures !(initialized && listing.ok) ==> devices == [] && udnToWemoId == old(udnToWemoId)
    {
      devices := [];
      var ok := EnsureInitialized(initOk);
      if !ok || !listing.ok {
        return;
      }
      udnToWemoId := map[];
      var items := listing.items;
      var count := Clamp(listing.count, 0, |items|);
      var i := 0;
      while i < count
        invariant 0 <= i <= count
        invariant devices == DescribeAll(items[..i])
        invariant udnToWemoId == Merge(map[], items[..i])
        invariant initialized && calls == old(calls)
      {
        var device := Describe(items[i]);
        assert items[..i+1][..i] == items[..i];
        if device.udn != "" {
          udnToWemoId := udnToWemoId[device.udn := device.wemoId];
        }
        devices := devices + [device];
        i := i + 1;
      }
      snapshots := [Items(listing)];
      ItemsListed(listing);
      forall k | 0 <= k < |devices| ensures Tells(devices[k], items[k]) {
        Described(items[k]);
      }
      forall udn: string ensures Rebuilt(udn, items, |devices|) {
        MergedIsListed(items, |devices|, udn);
      }
    }

    /** The cache-miss path: what the engine lists now is added to the cache. */
    method MergeListing(listing: Listing)
      requires listing.ok
      modifies this`udnToWemoId, this`snapshots
      ensures udnToWemoId == Merge(old(udnToWemoId), Items(listing))
      ensures snapshots == old(snapshots) + [Items(listing)]
    {
      var items := listing.items;
      var count := Clamp(listing.count, 0, |items|);
      var i := 0;
      while i < count
        invariant 0 <= i <= count
        invariant udnToWemoId == Merge(old(udnToWemoId), items[..i])
        invariant snapshots == old(snapshots)
      {
        assert items[..i+1][..i] == items[..i];
        if items[i].udn != "" {
          udnToWemoId := udnToWemoId[items[i].udn := items[i].wemoId];
        }
        i := i + 1;
      }
      snapshots := snapshots + [Items(listing)];
    }

    method SendState(wemoId: int, state: int, level: int, setRc: int) returns (ok: bool)
      modifies this`calls
      ensures calls == old(calls) + [EngineCall(wemoId, state, level)] && ok == (setRc != 0)
    {
      calls := calls + [EngineCall(wemoId, state, level)];
      return setRc != 0;
    }

    method SetOnOff(udn: string, on: bool, initOk: bool, listing: Listing, setRc: int) returns (ok: bool)
      modifies this
      ensures View() == Do(old(View()), DoSet(udn, Command.SetOnOff(on), initOk, listing))
      ensures calls == old(calls) + if initialized && udn in udnToWemoId
                                    then [EngineCall(udnToWemoId[udn], if on then 1 else 0, -1)] else []
      ensures ok == (calls != old(calls) && setRc != 0)
    {
      var ready := EnsureInitialized(initOk);
      if !ready {
        return false;
      }
      if udn in udnToWemoId {
        ok := SendState(udnToWemoId[udn], if on then 1 else 0, -1, setRc);
        return;
      }
      if listing.ok {
        MergeListing(listing);
        if udn in udnToWemoId {
          ok := SendState(udnToWemoId[udn], if on then 1 else 0, -1, setRc);
          return;
        }
      }
      return false;
    }

    method SetLevelPercent(udn: string, percent: int, initOk: bool, listing: Listing, setRc: int) returns (ok: bool)
      requires 0 <= percent <= 255
      modifies this
      ensures View() == Do(old(View()), DoSet(udn, SetLevel(percent), initOk, listing))
      ensures calls == old(calls) + if initialized && udn in udnToWemoId
                                    then [EngineCall(udnToWemoId[udn], if percent > 0 then 1 else 0,
                                                     if percent <= 100 then percent else 100)] else []
      ensures ok == (calls != old(calls) && setRc != 0)
    {
      var ready := EnsureInitialized(initOk);
      if !ready {
        return false;
      }
      var clamped := Clamp(percent, 0, 100);
      var state := if clamped > 0 then 1 else 0;
      if udn in udnToWemoId {
        ok := SendState(udnToWemoId[udn], state, clamped, setRc);
        return;
      }
      if listing.ok {
        MergeListing(listing);
        if udn in udnToWemoId {
          ok := SendState(udnToWemoId[udn], state, clamped, setRc);
          return;
        }
      }
      return false;
    }
  }
}
