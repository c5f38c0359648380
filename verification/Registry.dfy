/**
 The persistent endpoint registry: a UDN-to-endpoint table and a counter stored as text,
 changed only inside immediate transactions. Every statement may fail.
 */
module Registry {
  import opened Options
  import opened Decimal

  const FIRST_ID := 2
  const COUNTER := "next_endpoint_id"

  /** The tables endpoint_map (udn PRIMARY KEY, endpoint_id UNIQUE) and bridge_meta. */
  datatype Store = Store(rows: map<string, int>, meta: map<string, string>)

  // ---------------------------------------------------------------- statements

  function SelectId(st: Store, udn: string, fault: bool): Option<int> {
    if fault || udn !in st.rows then None else Some(st.rows[udn] % 65536)
  }

  /** The counter, or the first id when the row is missing or the query fails; None when the
      text does not parse, where std::stoi throws. */
  function ReadCounter(st: Store, fault: bool): Option<int> {
    if fault || COUNTER !in st.meta then Some(FIRST_ID) else
    match Stoi(st.meta[COUNTER])
    case None => None
    case Some(v) => Some(v % 65536)
  }

  function Insert(st: Store, udn: string, id: int, fault: bool): Option<Store> {
    if fault || udn in st.rows || id in st.rows.Values then None else Some(st.(rows := st.rows[udn := id]))
  }

  function Upsert(st: Store, next: nat, fault: bool): Option<Store> {
    if fault then None else Some(st.(meta := st.meta[COUNTER := ToString(next)]))
  }

  // ---------------------------------------------------------------- what the store holds

  predicate Distinct(order: seq<string>) {
    forall i, j :: 0 <= i < j < |order| ==> order[i] != order[j]
  }

  /** The id of the k-th assignment. */
  function IdAt(k: nat): int {
    (FIRST_ID + k) % 65536
  }

  /** The store holds exactly the UDNs committed so far, the k-th with id (2 + k) mod 65536,
      and the counter names the id after them. */
  ghost predicate Holds(st: Store, order: seq<string>) {
    && |order| <= 65536 && Distinct(order)
    && (forall u :: u in st.rows <==> u in order)
    && (forall k :: 0 <= k < |order| ==> order[k] in st.rows && st.rows[order[k]] == IdAt(k))
    && (if order == [] then COUNTER !in st.meta
        else COUNTER in st.meta && st.meta[COUNTER] == ToString(IdAt(|order|)))
  }

  lemma IdsInjective(j: nat, k: nat)
    requires j < k < 65536
    ensures IdAt(j) != IdAt(k)
  {
  }

  /** The ids in use are the first n; the next one is free unless all 65536 are taken. */
  lemma UsedIds(st: Store, order: seq<string>, id: int)
    requires Holds(st, order)
    ensures id in st.rows.Values <==> exists k :: 0 <= k < |order| && id == IdAt(k)
    ensures IdAt(|order|) in st.rows.Values <==> |order| == 65536
    ensures FIRST_ID in st.rows.Values <==> order != []
  {
    if id in st.rows.Values {
      var u :| u in st.rows && st.rows[u] == id;
      var k :| 0 <= k < |order| && order[k] == u;
    }
    forall k | 0 <= k < |order| ensures IdAt(k) in st.rows.Values {
      assert order[k] in st.rows;
    }
    if order != [] { assert IdAt(0) == FIRST_ID; }
    if |order| == 65536 { assert IdAt(0) == IdAt(65536); }
    if IdAt(|order|) in st.rows.Values {
      var u :| u in st.rows && st.rows[u] == IdAt(|order|);
      var k :| 0 <= k < |order| && order[k] == u;
      if |order| < 65536 { IdsInjective(k, |order|); }
    }
  }

  lemma CounterReads(st: Store, order: seq<string>)
    requires Holds(st, order)
    ensures ReadCounter(st, false) == Some(IdAt(|order|))
    ensures ReadCounter(st, true) == Some(FIRST_ID)
  {
    StoiOfToString(IdAt(|order|));
  }

  /** Whatever the counter query did, an accepted insert takes the next id in order: a failed
      query falls back to 2, which UNIQUE rejects in every non-empty store. */
  lemma InsertTakesNextId(st: Store, order: seq<string>, udn: string, counterFault: bool, fault: bool)
    requires Holds(st, order)
    ensures var id := ReadCounter(st, counterFault);
            && id.Some?
            && (Insert(st, udn, id.value, fault).Some? <==>
                  !fault && udn !in order && |order| < 65536 && (counterFault ==> order == []))
            && (Insert(st, udn, id.value, fault).Some? ==> id.value == IdAt(|order|))
  {
    CounterReads(st, order);
    UsedIds(st, order, 0);
  }

  lemma CommitHolds(st: Store, order: seq<string>, udn: string)
    requires Holds(st, order) && udn !in order && |order| < 65536
    ensures Holds(Store(st.rows[udn := IdAt(|order|)], st.meta[COUNTER := ToString((IdAt(|order|) + 1) % 65536)]),
                  order + [udn])
  {
    assert (IdAt(|order|) + 1) % 65536 == IdAt(|order| + 1);
  }

  /** The write half of a transaction: whether it gets as far as COMMIT, and what it would
      commit. */
  lemma WritesHold(st: Store, order: seq<string>, udn: string, counterFault: bool, insertFault: bool, upsertFault: bool)
    requires Holds(st, order)
    ensures var id := ReadCounter(st, counterFault);
            && id.Some?
            && var inserted := Insert(st, udn, id.value, insertFault);
            && (inserted.Some? <==> !insertFault && udn !in order && |order| < 65536 && (counterFault ==> order == []))
            && (inserted.Some? ==>
                  var updated := Upsert(inserted.value, (id.value + 1) % 65536, upsertFault);
                  && id.value == IdAt(|order|)
                  && (updated.None? <==> upsertFault)
                  && (updated.Some? ==> Holds(updated.value, order + [udn])))
  {
    InsertTakesNextId(st, order, udn, counterFault, insertFault);
    var inserted := Insert(st, udn, ReadCounter(st, counterFault).value, insertFault);
    if inserted.Some? {
      CommitHolds(st, order, udn);
    }
  }

  lemma SelectHolds(st: Store, order: seq<string>, k: nat)
    requires Holds(st, order) && k < |order|
    ensures SelectId(st, order[k], false) == Some(IdAt(k))
  {
  }

  // ---------------------------------------------------------------- one call

  /** Which steps of a call fail. */
  datatype Faults = Faults(open: bool, create: bool, begin: bool, select: bool,
                           counter: bool, insert: bool, upsert: bool, commit: bool)

  const NO_FAULTS := Faults(false, false, false, false, false, false, false, false)

  function IndexOf(order: seq<string>, udn: string): (k: nat)
    requires udn in order
    ensures k < |order| && order[k] == udn
  {
    if order[0] == udn then 0 else 1 + IndexOf(order[1..], udn)
  }

  /** What a call answers and what is committed after it, in terms of what was committed
      before: no statement order, no counter text. */
  function Outcome(order: seq<string>, udn: string, f: Faults): (Option<int>, seq<string>) {
    if f.open || f.create || f.begin then (None, order)
    else if udn in order then (if f.select then None else Some(IdAt(IndexOf(order, udn))), order)
    else if f.insert || f.upsert || |order| >= 65536 || (f.counter && order != []) then (None, order)
    else (Some(IdAt(|order|)), if f.commit then order else order + [udn])
  }

  class EndpointRegistry {
    var durable: Store
    ghost var order: seq<string>

    ghost predicate Valid()
      reads this
    {
      Holds(durable, order)
    }

    constructor ()
      ensures Valid() && order == []
    {
      durable := Store(map[], map[]);
      order := [];
    }

    method Lookup(udn: string, f: Faults) returns (r: Option<int>)
      requires Valid()
      ensures r == if f.open || f.create || f.select || udn !in order then None
                   else Some(IdAt(IndexOf(order, udn)))
    {
      if f.open || f.create {
        return None;
      }
      r := SelectId(durable, udn, f.select);
      if udn in order {
        SelectHolds(durable, order, IndexOf(order, udn));
      }
    }

    method GetOrAssign(udn: string, f: Faults) returns (r: Option<int>)
      requires Valid()
      modifies this
      ensures Valid() && (r, order) == Outcome(old(order), udn, f)
      ensures order == old(order) ==> durable == old(durable)
    {
      if f.open || f.create || f.begin {
        return None;
      }
      var work := durable;
      var existing := SelectId(work, udn, f.select);
      if existing.Some? {
        SelectHolds(durable, order, IndexOf(order, udn));
        return existing;
      }
      WritesHold(work, order, udn, f.counter, f.insert, f.upsert);
      var id := ReadCounter(work, f.counter).value;
      var next := (id + 1) % 65536;
      var inserted := Insert(work, udn, id, f.insert);
      if inserted.None? {
        return None;
      }
      work := inserted.value;
      var updated := Upsert(work, next, f.upsert);
      if updated.None? {
        return None;
      }
      work := updated.value;
      if !f.commit {
        durable := work;
        order := order + [udn];
      }
      return Some(id);
    }
  }

  // ---------------------------------------------------------------- what calls promise

  /** Without faults a new UDN is assigned exactly while fewer than 65536 are stored, the
      first 65534 of them with ids of at least 2; after that nothing changes, and stored UDNs
      resolve for ever. */
  lemma Exhaustion(order: seq<string>, udn: string)
    requires |order| <= 65536
    ensures var (r, after) := Outcome(order, udn, NO_FAULTS);
            && (r.Some? <==> udn in order || |order| < 65536)
            && (udn !in order && r.Some? ==>
                  r.value == IdAt(|order|) && after == order + [udn] && (r.value >= 2 <==> |order| < 65534))
            && (udn in order ==> after == order && r == Some(IdAt(IndexOf(order, udn))))
            && (r.None? ==> after == order)
  {
  }

  /** An answered id is durable exactly when the UDN was stored already or the COMMIT, whose
      result the code ignores, went through. */
  lemma AnswerIsDurableIff(order: seq<string>, udn: string, f: Faults)
    requires Distinct(order) && Outcome(order, udn, f).0.Some?
    ensures var (r, after) := Outcome(order, udn, f);
            (udn in after && r == Some(IdAt(IndexOf(after, udn)))) <==> (udn in order || !f.commit)
  {
    if udn !in order {
      NewestIndex(order, udn);
    }
  }

  lemma {:induction false} NewestIndex(order: seq<string>, udn: string)
    requires udn !in order
    ensures udn in order + [udn] && IndexOf(order + [udn], udn) == |order|
  {
    assert (order + [udn])[|order|] == udn;
    if order != [] {
      assert order[0] in order;
      NewestIndex(order[1..], udn);
      assert (order + [udn])[1..] == order[1..] + [udn];
    }
  }

  /** So a failed COMMIT can hand the same endpoint to two devices. */
  lemma FailedCommitSharesId(u: string, v: string)
    requires u != v
    ensures var (a, o1) := Outcome([], u, NO_FAULTS.(commit := true));
            var (b, o2) := Outcome(o1, v, NO_FAULTS);
            a == b == Some(FIRST_ID) && o2 == [v]
  {
  }
}
