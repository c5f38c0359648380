/**
 Which discovered devices get an endpoint, and which one: the order they are published in,
 and the outcome of offering them one by one to the stack.
 */
module Publishing {
  import opened Options
  import opened Levels
  import opened Lights
  import opened Adapter
  import opened Endpoints

  // ---------------------------------------------------------------- the order

  /** std::string comparison. */
  predicate Less(a: string, b: string) {
    b != [] && (a == [] || a[0] < b[0] || (a[0] == b[0] && Less(a[1..], b[1..])))
  }

  lemma {:induction false} LessTotal(a: string, b: string)
    ensures Less(a, b) || Less(b, a) || a == b
    ensures !(Less(a, b) && Less(b, a))
    ensures !Less(a, a)
  {
    if a != [] {
      LessTotal(a[1..], a[1..]);
      if b != [] {
        LessTotal(a[1..], b[1..]);
        if a[0] == b[0] && a[1..] == b[1..] {
          assert a == [a[0]] + a[1..] && b == [b[0]] + b[1..];
        }
      }
    }
  }

  /** It is the order of std::string: at the first difference the smaller character comes first,
      and a proper prefix comes before the longer string. */
  lemma {:induction false} LessIsStringOrder(a: string, b: string)
    ensures Less(a, b) <==>
      exists k :: 0 <= k <= |a| && k <= |b| && a[..k] == b[..k]
                  && (k == |a| < |b| || (k < |a| && k < |b| && a[k] < b[k]))
  {
    if a != [] && b != [] && a[0] == b[0] {
      var c, d := a[1..], b[1..];
      LessIsStringOrder(c, d);
      if Less(c, d) {
        var k :| 0 <= k <= |c| && k <= |d| && c[..k] == d[..k] && (k == |c| < |d| || (k < |c| && k < |d| && c[k] < d[k]));
        assert a[..k+1] == [a[0]] + c[..k] && b[..k+1] == [b[0]] + d[..k];
      }
      if k :| 0 <= k <= |a| && k <= |b| && a[..k] == b[..k] && (k == |a| < |b| || (k < |a| && k < |b| && a[k] < b[k])) {
        assert k > 0;
        assert c[..k-1] == a[..k][1..] && d[..k-1] == b[..k][1..];
      }
    } else {
      assert a[..0] == b[..0];
    }
  }

  lemma {:induction false} LessTransitive(a: string, b: string, c: string)
    requires Less(a, b) && Less(b, c)
    ensures Less(a, c)
  {
    if a != [] && a[0] == b[0] == c[0] {
      LessTransitive(a[1..], b[1..], c[1..]);
    }
  }

  /** The comparator handed to std::sort: by UDN, then by name. */
  predicate Before(a: WemoDevice, b: WemoDevice) {
    if a.udn != b.udn then Less(a.udn, b.udn) else Less(a.friendlyName, b.friendlyName)
  }

  /** What std::sort may return for a list; it does not fix the order of equal elements. */
  ghost predicate SortOf(sorted: seq<WemoDevice>, list: seq<WemoDevice>) {
    && multiset(sorted) == multiset(list)
    && forall i, j :: 0 <= i < j < |sorted| ==> !Before(sorted[j], sorted[i])
  }

  ghost predicate DistinctUdns(list: seq<WemoDevice>) {
    forall i, j :: 0 <= i < j < |list| ==> list[i].udn != list[j].udn
  }

  /** The order devices are published in: by UDN, and among equal UDNs by name. */
  lemma PublishOrder(sorted: seq<WemoDevice>, list: seq<WemoDevice>, i: nat, j: nat)
    requires SortOf(sorted, list) && i < j < |sorted|
    ensures sorted[i].udn == sorted[j].udn || Less(sorted[i].udn, sorted[j].udn)
    ensures sorted[i].udn == sorted[j].udn ==>
              sorted[i].friendlyName == sorted[j].friendlyName || Less(sorted[i].friendlyName, sorted[j].friendlyName)
  {
    assert !Before(sorted[j], sorted[i]);
    LessTotal(sorted[i].udn, sorted[j].udn);
    LessTotal(sorted[i].friendlyName, sorted[j].friendlyName);
  }

  lemma SortKeepsMembers(sorted: seq<WemoDevice>, list: seq<WemoDevice>, d: WemoDevice)
    requires SortOf(sorted, list)
    ensures d in sorted <==> d in list
  {
    assert d in multiset(sorted) <==> d in multiset(list);
  }

  /** Positions of distinct UDNs stay distinct under sorting. */
  lemma SortedUdnsDistinct(sorted: seq<WemoDevice>, list: seq<WemoDevice>)
    requires SortOf(sorted, list) && DistinctUdns(list)
    ensures DistinctUdns(sorted)
  {
    forall i, j | 0 <= i < j < |sorted| ensures sorted[i].udn != sorted[j].udn {
      if sorted[i].udn == sorted[j].udn {
        SortKeepsMembers(sorted, list, sorted[i]);
        SortKeepsMembers(sorted, list, sorted[j]);
        var m :| 0 <= m < |list| && list[m] == sorted[i];
        var n :| 0 <= n < |list| && list[n] == sorted[j];
        assert m == n;
        TwiceInBoth(sorted, i, j, list, m);
      }
    }
  }

  /** Equal elements at two places of a sequence cannot be one place of a permutation whose
      other elements differ. */
  lemma TwiceInBoth(s: seq<WemoDevice>, i: nat, j: nat, t: seq<WemoDevice>, m: nat)
    requires i < j < |s| && s[i] == s[j] && m < |t| && t[m] == s[i] && DistinctUdns(t)
    ensures multiset(s) != multiset(t)
  {
    var x := s[i];
    assert s == s[..i] + [x] + s[i+1..j] + [x] + s[j+1..];
    assert multiset(s)[x] >= 2;
    assert t == t[..m] + [x] + t[m+1..];
    assert forall k :: 0 <= k < |t| && k != m ==> t[k] != x;
    assert x !in t[..m] && x !in t[m+1..];
    assert multiset(t)[x] == multiset(t[..m])[x] + 1 + multiset(t[m+1..])[x] == 1;
  }

  /** In sorted order with distinct UDNs, position is rank: exactly the earlier devices have
      smaller UDNs. */
  lemma SortedByUdn(sorted: seq<WemoDevice>, i: nat, j: nat)
    requires i < |sorted| && j < |sorted| && DistinctUdns(sorted)
    requires forall i, j :: 0 <= i < j < |sorted| ==> !Before(sorted[j], sorted[i])
    ensures Less(sorted[i].udn, sorted[j].udn) <==> i < j
  {
    LessTotal(sorted[i].udn, sorted[j].udn);
    if i < j {
      assert sorted[i].udn != sorted[j].udn && !Before(sorted[j], sorted[i]);
    } else if j < i {
      assert sorted[j].udn != sorted[i].udn && !Before(sorted[i], sorted[j]);
    }
  }

  /** The devices whose UDN is smaller. */
  function Smaller(list: seq<WemoDevice>, udn: string): set<WemoDevice> {
    set d | d in list && Less(d.udn, udn)
  }

  function Members(s: seq<WemoDevice>): set<WemoDevice> {
    set d | d in s
  }

  lemma RankIsPosition(sorted: seq<WemoDevice>, list: seq<WemoDevice>, k: nat)
    requires SortOf(sorted, list) && DistinctUdns(list) && k < |sorted|
    ensures |Smaller(list, sorted[k].udn)| == k
  {
    SortedUdnsDistinct(sorted, list);
    var s := Smaller(list, sorted[k].udn);
    var prefix := Members(sorted[..k]);
    forall d ensures d in s <==> d in prefix {
      SortKeepsMembers(sorted, list, d);
      if d in s {
        var j :| 0 <= j < |sorted| && sorted[j] == d;
        SortedByUdn(sorted, j, k);
        assert sorted[..k][j] == d;
      }
      if d in prefix {
        var j :| 0 <= j < k && sorted[..k][j] == d;
        SortedByUdn(sorted, j, k);
      }
    }
    assert s == prefix;
    PrefixSize(sorted, k);
  }

  lemma {:induction false} PrefixSize(sorted: seq<WemoDevice>, k: nat)
    requires k <= |sorted| && DistinctUdns(sorted)
    ensures |Members(sorted[..k])| == k
  {
    if k > 0 {
      PrefixSize(sorted, k - 1);
      var p := Members(sorted[..k-1]);
      assert sorted[..k] == sorted[..k-1] + [sorted[k-1]];
      assert Members(sorted[..k]) == p + {sorted[k-1]};
      assert sorted[k-1] !in p;
    }
  }

  /** Discovery order does not matter: with distinct UDNs every sort of every permutation of
      the list is the same sequence. */
  lemma SortIsUnique(s: seq<WemoDevice>, t: seq<WemoDevice>, list: seq<WemoDevice>, permuted: seq<WemoDevice>)
    requires SortOf(s, list) && SortOf(t, permuted) && multiset(list) == multiset(permuted) && DistinctUdns(list)
    ensures s == t
  {
    assert SortOf(t, list);
    assert |s| == |multiset(s)| == |multiset(t)| == |t|;
    SortedUdnsDistinct(t, list);
    SortedUdnsDistinct(s, list);
    forall k | 0 <= k < |s| ensures s[k] == t[k] {
      SortKeepsMembers(s, list, s[k]);
      SortKeepsMembers(t, list, s[k]);
      var j :| 0 <= j < |t| && t[j] == s[k];
      RankIsPosition(s, list, k);
      RankIsPosition(t, list, j);
    }
  }

  // ---------------------------------------------------------------- the publish loop

  /** Discovery indices of the devices published so far, and the id cursor. */
  datatype Progress = Progress(published: seq<nat>, cursor: int)

  /** The id a device ends on when `k` devices hold the ids from `first` on: the cursor is the
      last id given out or the next one, and an id that is taken is skipped. */
  function Offer(first: int, k: nat, cursor: int, rejects: set<int>): int {
    if cursor < first + k && cursor !in rejects then first + k else cursor
  }

  /** The loop over the first `j` devices; `rejects[n]` are the ids the stack refuses device n. */
  function Publish(rejects: seq<set<int>>, first: int, capacity: nat, j: nat): (p: Progress)
    requires j <= |rejects|
    ensures |p.published| <= capacity && |p.published| <= j
    ensures p.cursor == first + |p.published| || (p.cursor == first + |p.published| - 1 && p.published != [])
    ensures forall k :: 0 <= k < |p.published| ==> p.published[k] < j
    ensures forall k, m :: 0 <= k < m < |p.published| ==> p.published[k] < p.published[m]
  {
    if j == 0 then Progress([], first) else
    var p := Publish(rejects, first, capacity, j - 1);
    if |p.published| >= capacity then p else
    var id := Offer(first, |p.published|, p.cursor, rejects[j-1]);
    if id in rejects[j-1] then p.(cursor := id) else Progress(p.published + [j - 1], id)
  }

  /** A device that the loop publishes gets the endpoint id first + k, k being how many were
      published before it, whatever failed in between; a device is left out exactly when the
      capacity is reached or the stack refuses an id it tries. */
  lemma PublishStep(rejects: seq<set<int>>, first: int, capacity: nat, j: nat)
    requires j < |rejects|
    ensures var p := Publish(rejects, first, capacity, j);
            var q := Publish(rejects, first, capacity, j + 1);
            var k := |p.published|;
            && (q.published == p.published || q.published == p.published + [j])
            && (q.published == p.published + [j] ==> q.cursor == first + k)
            && (q.published == p.published <==>
                  k >= capacity || first + k in rejects[j] || (p.cursor == first + k - 1 && p.cursor in rejects[j]))
  {
    var p := Publish(rejects, first, capacity, j);
    assert p.published + [j] != p.published;
  }

  /** Without refusals the first `capacity` devices are published, in order. */
  lemma {:induction false} PublishWithoutFaults(rejects: seq<set<int>>, first: int, capacity: nat, j: nat)
    requires j <= |rejects| && forall n :: 0 <= n < |rejects| ==> rejects[n] == {}
    ensures var p := Publish(rejects, first, capacity, j).published;
            |p| == (if j < capacity then j else capacity) && forall k :: 0 <= k < |p| ==> p[k] == k
  {
    if j > 0 {
      PublishWithoutFaults(rejects, first, capacity, j - 1);
      PublishStep(rejects, first, capacity, j - 1);
    }
  }

  /** The light value of a published device. */
  function Seed(d: WemoDevice, endpoint: int): Light
    requires 0 <= d.levelPercent
  {
    Light(d.wemoId, d.udn, d.supportsLevel, endpoint, true, d.online, d.onoff != 0,
          if d.supportsLevel then ToMatter(d.levelPercent) else 0, -1, 0, -1, 0)
  }

  /** The lights of the published devices, on endpoints from `first` on. */
  function Seeds(sorted: seq<WemoDevice>, published: seq<nat>, first: int): (r: seq<Light>)
    requires forall k :: 0 <= k < |published| ==> published[k] < |sorted|
    requires forall k :: 0 <= k < |sorted| ==> 0 <= sorted[k].levelPercent
    ensures |r| == |published|
    ensures forall k :: 0 <= k < |published| ==> r[k] == Seed(sorted[published[k]], first + k)
  {
    seq(|published|, k requires 0 <= k < |published| => Seed(sorted[published[k]], first + k))
  }

  lemma SeedsGrow(sorted: seq<WemoDevice>, published: seq<nat>, first: int, j: nat)
    requires forall k :: 0 <= k < |published| ==> published[k] < |sorted|
    requires forall k :: 0 <= k < |sorted| ==> 0 <= sorted[k].levelPercent
    requires j < |sorted|
    ensures forall k :: 0 <= k < |published + [j]| ==> (published + [j])[k] < |sorted|
    ensures Seeds(sorted, published + [j], first) == Seeds(sorted, published, first) + [Seed(sorted[j], first + |published|)]
  {
  }

  /** One turn of the loop in terms of the lights published and the cursor. */
  function Turn(views: seq<Light>, cursor: int, d: WemoDevice, refused: set<int>, first: int, capacity: nat): (seq<Light>, int)
    requires 0 <= d.levelPercent
  {
    if |views| >= capacity then (views, cursor) else
    var id := Offer(first, |views|, cursor, refused);
    (if id in refused then views else views + [Seed(d, first + |views|)], id)
  }

  /** The lights and the cursor after `j` turns. */
  function Turns(sorted: seq<WemoDevice>, rejects: seq<set<int>>, first: int, capacity: nat, j: nat): (seq<Light>, int)
    requires |rejects| == |sorted| && j <= |sorted| && forall k :: 0 <= k < |sorted| ==> 0 <= sorted[k].levelPercent
  {
    if j == 0 then ([], first) else
    var before := Turns(sorted, rejects, first, capacity, j - 1);
    Turn(before.0, before.1, sorted[j-1], rejects[j-1], first, capacity)
  }

  /** They are the lights of the devices that Publish picks. */
  lemma {:induction false} TurnsPublish(sorted: seq<WemoDevice>, rejects: seq<set<int>>, first: int, capacity: nat, j: nat)
    requires |rejects| == |sorted| && j <= |sorted| && forall k :: 0 <= k < |sorted| ==> 0 <= sorted[k].levelPercent
    ensures var p := Publish(rejects, first, capacity, j);
            var turns := Turns(sorted, rejects, first, capacity, j);
            Seeds(sorted, p.published, first) == turns.0 && p.cursor == turns.1
  {
    if j > 0 {
      TurnsPublish(sorted, rejects, first, capacity, j - 1);
      SeedsGrow(sorted, Publish(rejects, first, capacity, j - 1).published, first, j - 1);
    }
  }

  /** The endpoint a UDN ends up on, if any. */
  function EndpointOf(sorted: seq<WemoDevice>, published: seq<nat>, first: int, udn: string): Option<int>
    requires forall k :: 0 <= k < |published| ==> published[k] < |sorted|
    decreases |published|
  {
    if published == [] then None else
    var k := |published| - 1;
    if sorted[published[k]].udn == udn then Some(first + k) else EndpointOf(sorted, published[..k], first, udn)
  }

  /** The endpoint of a UDN once the whole sorted list has been offered. */
  function Assigned(sorted: seq<WemoDevice>, rejects: seq<set<int>>, first: int, capacity: nat, udn: string): Option<int>
    requires |rejects| == |sorted|
  {
    EndpointOf(sorted, Publish(rejects, first, capacity, |sorted|).published, first, udn)
  }

  lemma {:induction false} EndpointAt(sorted: seq<WemoDevice>, published: seq<nat>, first: int, k: nat)
    requires DistinctUdns(sorted) && k < |published|
    requires forall k :: 0 <= k < |published| ==> published[k] < |sorted|
    requires forall k, m :: 0 <= k < m < |published| ==> published[k] < published[m]
    ensures EndpointOf(sorted, published, first, sorted[published[k]].udn) == Some(first + k)
    decreases |published|
  {
    if k < |published| - 1 {
      EndpointAt(sorted, published[..|published| - 1], first, k);
    }
  }

  /** With distinct UDNs and no refusals a device's endpoint is the first dynamic id plus the
      number of smaller UDNs, for the `capacity` smallest of them. */
  lemma EndpointIsRank(list: seq<WemoDevice>, sorted: seq<WemoDevice>, rejects: seq<set<int>>,
      first: int, capacity: nat, k: nat)
    requires SortOf(sorted, list) && DistinctUdns(list) && |rejects| == |sorted|
    requires forall n :: 0 <= n < |rejects| ==> rejects[n] == {}
    requires k < |sorted| && k < capacity
    ensures Assigned(sorted, rejects, first, capacity, sorted[k].udn) == Some(first + |Smaller(list, sorted[k].udn)|)
  {
    PublishWithoutFaults(rejects, first, capacity, |sorted|);
    SortedUdnsDistinct(sorted, list);
    RankIsPosition(sorted, list, k);
    EndpointAt(sorted, Publish(rejects, first, capacity, |sorted|).published, first, k);
  }

  /** No endpoint for a UDN that is not among the published ones. */
  lemma {:induction false} NoEndpoint(sorted: seq<WemoDevice>, published: seq<nat>, first: int, udn: string)
    requires forall k :: 0 <= k < |published| ==> published[k] < |sorted|
    requires forall k :: 0 <= k < |published| ==> sorted[published[k]].udn != udn
    ensures EndpointOf(sorted, published, first, udn) == None
    decreases |published|
  {
    if published != [] {
      NoEndpoint(sorted, published[..|published| - 1], first, udn);
    }
  }

  /** The endpoint of a device by its rank, in or beyond capacity. */
  lemma EndpointByRank(list: seq<WemoDevice>, sorted: seq<WemoDevice>, rejects: seq<set<int>>,
      first: int, capacity: nat, dev: WemoDevice)
    requires SortOf(sorted, list) && DistinctUdns(list) && |rejects| == |sorted|
    requires forall n :: 0 <= n < |rejects| ==> rejects[n] == {}
    requires dev in list
    ensures var rank := |Smaller(list, dev.udn)|;
            Assigned(sorted, rejects, first, capacity, dev.udn) == if rank < capacity then Some(first + rank) else None
  {
    SortKeepsMembers(sorted, list, dev);
    var k :| 0 <= k < |sorted| && sorted[k] == dev;
    RankIsPosition(sorted, list, k);
    if k < capacity {
      EndpointIsRank(list, sorted, rejects, first, capacity, k);
    } else {
      SortedUdnsDistinct(sorted, list);
      PublishWithoutFaults(rejects, first, capacity, |sorted|);
      NoEndpoint(sorted, Publish(rejects, first, capacity, |sorted|).published, first, dev.udn);
    }
  }

  lemma NewcomerInSmaller(list: seq<WemoDevice>, d: WemoDevice, udn: string)
    requires DistinctUdns(list + [d])
    ensures |Smaller(list + [d], udn)| == |Smaller(list, udn)| + (if Less(d.udn, udn) then 1 else 0)
  {
    var all := list + [d];
    assert all[|list|] == d;
    forall k | 0 <= k < |list| ensures list[k] != d {
      assert all[k].udn != all[|list|].udn;
    }
    assert Smaller(all, udn) == Smaller(list, udn) + (if Less(d.udn, udn) then {d} else {});
  }

  /** Endpoints are not stable across restarts: the application publishes by rank and does not
      consult the registry. Whatever comes or goes between two discoveries, a device published
      at the first keeps its endpoint if and only if as many smaller UDNs are listed as before;
      otherwise it moves by the difference, or off the end. */
  lemma KeepsEndpointIff(list: seq<WemoDevice>, later: seq<WemoDevice>, dev: WemoDevice, again: WemoDevice,
      s: seq<WemoDevice>, t: seq<WemoDevice>, sRejects: seq<set<int>>, tRejects: seq<set<int>>, first: int, capacity: nat)
    requires SortOf(s, list) && SortOf(t, later) && DistinctUdns(list) && DistinctUdns(later)
    requires dev in list && again in later && dev.udn == again.udn
    requires |sRejects| == |s| && forall n :: 0 <= n < |sRejects| ==> sRejects[n] == {}
    requires |tRejects| == |t| && forall n :: 0 <= n < |tRejects| ==> tRejects[n] == {}
    ensures var before := Assigned(s, sRejects, first, capacity, dev.udn);
            var after := Assigned(t, tRejects, first, capacity, dev.udn);
            var m, n := |Smaller(list, dev.udn)|, |Smaller(later, dev.udn)|;
            && before == (if m < capacity then Some(first + m) else None)
            && after == (if n < capacity then Some(first + n) else None)
            && (before.Some? ==> (after == before <==> m == n))
  {
    EndpointByRank(list, s, sRejects, first, capacity, dev);
    EndpointByRank(later, t, tRejects, first, capacity, again);
  }

  /** In particular one newly discovered device moves exactly the devices with a
      larger UDN, each to the next endpoint, the last one off the end. */
  lemma NewcomerShiftsLargerUdns(list: seq<WemoDevice>, d: WemoDevice, dev: WemoDevice,
      s: seq<WemoDevice>, t: seq<WemoDevice>, sRejects: seq<set<int>>, tRejects: seq<set<int>>, first: int, capacity: nat)
    requires SortOf(s, list) && SortOf(t, list + [d]) && DistinctUdns(list + [d]) && dev in list
    requires |sRejects| == |s| && forall n :: 0 <= n < |sRejects| ==> sRejects[n] == {}
    requires |tRejects| == |t| && forall n :: 0 <= n < |tRejects| ==> tRejects[n] == {}
    ensures var before := Assigned(s, sRejects, first, capacity, dev.udn);
            var after := Assigned(t, tRejects, first, capacity, dev.udn);
            before.Some? ==>
              && (after == before <==> !Less(d.udn, dev.udn))
              && (Less(d.udn, dev.udn) ==>
                    after == if before.value + 1 < first + capacity then Some(before.value + 1) else None)
  {
    DistinctPrefix(list, d);
    KeepsEndpointIff(list, list + [d], dev, dev, s, t, sRejects, tRejects, first, capacity);
    NewcomerInSmaller(list, d, dev.udn);
  }

  lemma DistinctPrefix(list: seq<WemoDevice>, d: WemoDevice)
    requires DistinctUdns(list + [d])
    ensures DistinctUdns(list)
  {
    forall i, j | 0 <= i < j < |list| ensures list[i].udn != list[j].udn {
      assert (list + [d])[i].udn != (list + [d])[j].udn;
    }
  }

  /** Any permutation of the discovery list gives the same UDN-to-endpoint map, under the same
      refusals. */
  lemma EndpointsIgnoreDiscoveryOrder(list: seq<WemoDevice>, permuted: seq<WemoDevice>,
      s: seq<WemoDevice>, t: seq<WemoDevice>, rejects: seq<set<int>>, first: int, capacity: nat, udn: string)
    requires SortOf(s, list) && SortOf(t, permuted) && multiset(list) == multiset(permuted) && DistinctUdns(list)
    requires |rejects| == |s| == |t|
    ensures Assigned(s, rejects, first, capacity, udn) == Assigned(t, rejects, first, capacity, udn)
  {
    SortIsUnique(s, t, list, permuted);
  }

  /** Tables in which the first k slots hold the ids from `first` on. */
  ghost predicate Packed<D>(t: Table<D>, first: int, k: nat) {
    && Consistent(t) && t.first == first && k <= |t.slots|
    && (forall i :: 0 <= i < k ==> t.slots[i].Some? && t.stack[i] == Some(first + i))
    && (forall i :: k <= i < |t.slots| ==> t.slots[i].None? && t.stack[i].None?)
    && (t.cursor == first + k || (k > 0 && t.cursor == first + k - 1))
  }

  /** On packed tables the allocator's cyclic search lands where Offer says. */
  lemma OfferIsLanding<D>(t: Table<D>, first: int, k: nat, rejects: set<int>)
    requires Packed(t, first, k) && k < |t.slots|
    ensures FirstFree(t.slots) == k && Landing(t, rejects) == Offer(first, k, t.cursor, rejects)
  {
    var live := Live(t.stack);
    forall id ensures id in live <==> first <= id < first + k {
      if first <= id < first + k {
        assert t.stack[id - first] == Some(id);
      }
    }
    LiveBound(t.stack, k);
    var n := Skips(first, t.cursor, live, rejects, 0);
    assert Answer(live, rejects, Ahead(first, t.cursor, 0)) == Exists <==> t.cursor < first + k && t.cursor !in rejects;
    if t.cursor < first + k && t.cursor !in rejects {
      assert Ahead(first, t.cursor, 1) == first + k;
      assert Answer(live, rejects, Ahead(first, t.cursor, 1)) != Exists;
      assert n == 1;
    } else {
      assert n == 0;
    }
  }

  /** Offering one more device to packed tables keeps them packed. */
  lemma AddKeepsPacked<D>(t: Table<D>, first: int, k: nat, d: D, rejects: set<int>)
    requires Packed(t, first, k) && k < |t.slots| && !Present(t, d)
    ensures var id := Offer(first, k, t.cursor, rejects);
            var (u, i) := Add(t, d, rejects);
            && u.cursor == id && u.ids == t.ids[d := id]
            && (if id in rejects then i < 0 && Packed(u, first, k) && u.slots == t.slots && u.stack == t.stack
                else i == k && id == first + k && Packed(u, first, k + 1)
                     && u.slots == t.slots[k := Some(d)] && u.stack == t.stack[k := Some(id)])
  {
    OfferIsLanding(t, first, k, rejects);
    var id := Offer(first, k, t.cursor, rejects);
    var (u, i) := Add(t, d, rejects);
    assert Consistent(u) by { AddKeepsConsistent(t, d, rejects); }
    assert u.cursor == id && u.ids == t.ids[d := id] && u.first == t.first;
    if id in rejects {
      assert u.slots == t.slots && u.stack == t.stack && i == -1;
    } else {
      assert u.slots == t.slots[k := Some(d)] && u.stack == t.stack[k := Some(id)] && i == k;
    }
  }
}
