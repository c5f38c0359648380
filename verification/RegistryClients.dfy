/**
 Several processes on one registry file. Each statement of GetOrAssign is one step, any of
 them may fail or be the process's last, and BEGIN IMMEDIATE admits one writer at a time.
 */
module RegistryClients {
  import opened Options
  import opened Decimal
  import opened Registry

  /** How far the client that holds the write lock has come. */
  datatype Phase =
    | Begun(udn: string)
    | Found(udn: string, id: int)
    | Absent(udn: string)
    | Picked(udn: string, id: int)
    | Inserted(udn: string, id: int)
    | Updated(udn: string, id: int)

  /** The client inside a transaction with its uncommitted copy of the tables. */
  datatype Holder = Nobody | Holder(client: nat, phase: Phase, work: Store)

  /** `durable` says whether the answer rests on committed data. */
  datatype Answer = Answer(client: nat, udn: string, id: Option<int>, durable: bool)

  /** `order` and `answers` record what was committed and what calls returned. */
  datatype Db = Db(store: Store, order: seq<string>, holder: Holder, answers: seq<Answer>)

  /** `Advance` is a client's next statement of GetOrAssign, the first one being BEGIN for the
      given UDN; `Die` ends the process, and closing its handle rolls back. */
  datatype Move =
    | Advance(client: nat, udn: string, fault: bool)
    | Look(client: nat, udn: string, fault: bool)
    | Die(client: nat)

  const EMPTY := Db(Store(map[], map[]), [], Nobody, [])

  function Reply(d: Db, a: Answer): Db {
    d.(holder := Nobody, answers := d.answers + [a])
  }

  /** The statement the lock holder runs next. */
  function Proceed(d: Db, fault: bool): Db
    requires d.holder.Holder?
  {
    var h := d.holder;
    match h.phase
    case Begun(u) =>
      (match SelectId(h.work, u, fault)
       case Some(id) => d.(holder := h.(phase := Found(u, id)))
       case None => d.(holder := h.(phase := Absent(u))))
    case Found(u, id) => Reply(d, Answer(h.client, u, Some(id), true))
    case Absent(u) =>
      (match ReadCounter(h.work, fault)
       case Some(id) => d.(holder := h.(phase := Picked(u, id)))
       case None => d.(holder := Nobody))
    case Picked(u, id) =>
      (match Insert(h.work, u, id, fault)
       case Some(w) => d.(holder := h.(phase := Inserted(u, id), work := w))
       case None => Reply(d, Answer(h.client, u, None, false)))
    case Inserted(u, id) =>
      (match Upsert(h.work, (id + 1) % 65536, fault)
       case Some(w) => d.(holder := h.(phase := Updated(u, id), work := w))
       case None => Reply(d, Answer(h.client, u, None, false)))
    case Updated(u, id) =>
      if fault then Reply(d, Answer(h.client, u, Some(id), false))
      else Reply(d.(store := h.work, order := d.order + [u]), Answer(h.client, u, Some(id), true))
  }

  function Step(d: Db, m: Move): Db {
    match m
    case Advance(c, u, fault) =>
      if d.holder.Holder? && d.holder.client == c then Proceed(d, fault)
      else if d.holder.Holder? || fault then d.(answers := d.answers + [Answer(c, u, None, false)])
      else d.(holder := Holder(c, Begun(u), d.store))
    case Look(c, u, fault) => d.(answers := d.answers + [Answer(c, u, SelectId(d.store, u, fault), true)])
    case Die(c) => if d.holder.Holder? && d.holder.client == c then d.(holder := Nobody) else d
  }

  function Run(d: Db, moves: seq<Move>): Db
    decreases |moves|
  {
    if moves == [] then d else Run(Step(d, moves[0]), moves[1..])
  }

  // ---------------------------------------------------------------- the invariant

  /** The holder's copy is the committed store plus what its statements did to it. */
  ghost predicate HolderInv(d: Db) {
    d.holder.Holder? ==>
      var h := d.holder;
      var n := |d.order|;
      match h.phase
      case Begun(u) => h.work == d.store
      case Found(u, id) => h.work == d.store && u in d.store.rows && d.store.rows[u] == id
      case Absent(u) => h.work == d.store
      case Picked(u, id) =>
        h.work == d.store && (ReadCounter(d.store, false) == Some(id) || ReadCounter(d.store, true) == Some(id))
      case Inserted(u, id) =>
        && u !in d.order && n < 65536 && id == IdAt(n)
        && h.work == d.store.(rows := d.store.rows[u := id])
      case Updated(u, id) =>
        && u !in d.order && n < 65536 && id == IdAt(n)
        && h.work == Store(d.store.rows[u := id], d.store.meta[COUNTER := ToString((id + 1) % 65536)])
  }

  /** A durable answer is what the store says; with it in place, no other answer for its UDN
      names another id and no answer for another UDN names its id. */
  predicate Backed(d: Db, a: Answer) {
    a.durable && a.id.Some? ==> a.udn in d.store.rows && d.store.rows[a.udn] == a.id.value
  }

  predicate Consistent(a: Answer, b: Answer) {
    a.durable && a.id.Some? && b.id.Some? ==> (a.udn == b.udn <==> a.id == b.id)
  }

  ghost predicate Inv(d: Db) {
    && Holds(d.store, d.order)
    && HolderInv(d)
    && (forall j :: 0 <= j < |d.answers| ==> Backed(d, d.answers[j]))
    && (forall j, k :: 0 <= j < k < |d.answers| ==> Consistent(d.answers[j], d.answers[k]))
  }

  /** An answer that agrees with the store: it names the id stored for its UDN, or an id no
      stored UDN has, and is durable only in the first case. */
  ghost predicate Agrees(d: Db, a: Answer) {
    a.id.Some? ==>
      if a.udn in d.store.rows then d.store.rows[a.udn] == a.id.value
      else a.id.value !in d.store.rows.Values && !a.durable
  }

  lemma RowsInjective(st: Store, order: seq<string>, u: string, v: string)
    requires Holds(st, order) && u in st.rows && v in st.rows && u != v
    ensures st.rows[u] != st.rows[v]
  {
    var j :| 0 <= j < |order| && order[j] == u;
    var k :| 0 <= k < |order| && order[k] == v;
    if j < k { IdsInjective(j, k); } else { IdsInjective(k, j); }
  }

  lemma AnswerKeepsInv(d: Db, a: Answer)
    requires Inv(d) && Agrees(d, a)
    ensures Inv(d.(answers := d.answers + [a]))
  {
    var t := d.(answers := d.answers + [a]);
    forall j | 0 <= j < |d.answers| ensures Consistent(d.answers[j], a) {
      var b := d.answers[j];
      assert Backed(d, b);
      if b.durable && b.id.Some? && a.id.Some? && a.udn in d.store.rows && a.udn != b.udn {
        RowsInjective(d.store, d.order, a.udn, b.udn);
      }
    }
    forall j | 0 <= j < |t.answers| ensures Backed(t, t.answers[j]) {
      assert j < |d.answers| ==> Backed(d, d.answers[j]);
    }
  }

  lemma ReplyKeepsInv(d: Db, a: Answer)
    requires Inv(d) && Agrees(d, a)
    ensures Inv(Reply(d, a))
  {
    AnswerKeepsInv(d.(holder := Nobody), a);
  }

  lemma FreshId(d: Db)
    requires Inv(d) && |d.order| < 65536
    ensures IdAt(|d.order|) !in d.store.rows.Values
  {
    UsedIds(d.store, d.order, 0);
  }

  lemma CommitKeepsInv(d: Db, u: string, w: Store)
    requires Inv(d) && u !in d.order && |d.order| < 65536
    requires w == Store(d.store.rows[u := IdAt(|d.order|)],
                        d.store.meta[COUNTER := ToString((IdAt(|d.order|) + 1) % 65536)])
    ensures Inv(d.(store := w, order := d.order + [u], holder := Nobody))
  {
    var t := d.(store := w, order := d.order + [u], holder := Nobody);
    CommitHolds(d.store, d.order, u);
    forall j | 0 <= j < |t.answers| ensures Backed(t, t.answers[j]) {
      assert Backed(d, d.answers[j]);
    }
  }

  lemma ProceedKeepsInv(d: Db, fault: bool)
    requires Inv(d) && d.holder.Holder?
    ensures Inv(Proceed(d, fault))
  {
    var h := d.holder;
    match h.phase {
      case Begun(u) => StoredIdsFit(d.store, d.order);
      case Found(u, id) => ReplyKeepsInv(d, Answer(h.client, u, Some(id), true));
      case Absent(u) =>
      case Picked(u, id) =>
        InsertTakesNextId(d.store, d.order, u, ReadCounter(d.store, false) != Some(id), fault);
        CounterReads(d.store, d.order);
        if Insert(h.work, u, id, fault).None? {
          ReplyKeepsInv(d, Answer(h.client, u, None, false));
        }
      case Inserted(u, id) =>
        if fault { ReplyKeepsInv(d, Answer(h.client, u, None, false)); }
      case Updated(u, id) =>
        if fault {
          FreshId(d);
          ReplyKeepsInv(d, Answer(h.client, u, Some(id), false));
        } else {
          CommitKeepsInv(d, u, h.work);
          var t := d.(store := h.work, order := d.order + [u], holder := Nobody);
          AnswerKeepsInv(t, Answer(h.client, u, Some(id), true));
        }
    }
  }

  /** The cast to uint16_t loses nothing. */
  lemma StoredIdsFit(st: Store, order: seq<string>)
    requires Holds(st, order)
    ensures forall u :: u in st.rows ==> st.rows[u] % 65536 == st.rows[u]
  {
    forall u | u in st.rows ensures st.rows[u] % 65536 == st.rows[u] {
      var k :| 0 <= k < |order| && order[k] == u;
    }
  }

  lemma StepKeepsInv(d: Db, m: Move)
    requires Inv(d)
    ensures Inv(Step(d, m))
  {
    match m
    case Advance(c, u, fault) =>
      if d.holder.Holder? && d.holder.client == c {
        ProceedKeepsInv(d, fault);
      } else if d.holder.Holder? || fault {
        AnswerKeepsInv(d, Answer(c, u, None, false));
      } else {
        assert forall j :: 0 <= j < |d.answers| ==> Backed(d, d.answers[j]);
        assert forall j :: 0 <= j < |d.answers| ==> Backed(Step(d, m), d.answers[j]);
      }
    case Look(c, u, fault) =>
      StoredIdsFit(d.store, d.order);
      AnswerKeepsInv(d, Answer(c, u, SelectId(d.store, u, fault), true));
    case Die(c) =>
      assert forall j :: 0 <= j < |d.answers| ==> Backed(d, d.answers[j]);
      assert forall j :: 0 <= j < |d.answers| ==> Backed(Step(d, m), d.answers[j]);
  }

  lemma {:induction false} RunKeepsInv(d: Db, moves: seq<Move>)
    requires Inv(d)
    ensures Inv(Run(d, moves))
    decreases |moves|
  {
    if moves != [] {
      StepKeepsInv(d, moves[0]);
      RunKeepsInv(Step(d, moves[0]), moves[1..]);
    }
  }

  // ---------------------------------------------------------------- single moves

  /** A lookup that does not fail answers the UDN's row, or nothing if it has none; it changes
      nothing else. */
  lemma LookAnswersRow(d: Db, c: nat, u: string)
    requires Inv(d)
    ensures Step(d, Look(c, u, false))
            == d.(answers := d.answers + [Answer(c, u, if u in d.store.rows then Some(d.store.rows[u]) else None, true)])
  {
    StoredIdsFit(d.store, d.order);
  }

  /** While one client is in a transaction another one's BEGIN fails: it is answered nothing. */
  lemma OnlyHolderAdvances(d: Db, c: nat, u: string, fault: bool)
    requires d.holder.Holder? && d.holder.client != c
    ensures Step(d, Advance(c, u, fault)) == d.(answers := d.answers + [Answer(c, u, None, false)])
  {
  }

  /** A client that dies in a transaction leaves no trace but the freed lock; any other's death
      leaves none at all. */
  lemma DeathRollsBack(d: Db, c: nat)
    ensures var t := Step(d, Die(c));
            && t.store == d.store && t.order == d.order && t.answers == d.answers
            && (if d.holder.Holder? && d.holder.client == c then t.holder.Nobody? else t.holder == d.holder)
  {
  }

  // ---------------------------------------------------------------- main results

  /** Under any interleaving of clients and any faults, deaths and failed COMMITs included, the
      durable table holds exactly the committed UDNs, the k-th with id (2 + k) mod 65536, and
      at most 65536 of them. */
  lemma DurableTableIsRank(moves: seq<Move>)
    ensures var d := Run(EMPTY, moves);
            && Holds(d.store, d.order)
            && (forall j, k :: 0 <= j < k < |d.order| ==> d.store.rows[d.order[j]] != d.store.rows[d.order[k]])
  {
    RunKeepsInv(EMPTY, moves);
    var d := Run(EMPTY, moves);
    forall j, k | 0 <= j < k < |d.order| ensures d.store.rows[d.order[j]] != d.store.rows[d.order[k]] {
      IdsInjective(j, k);
    }
  }

  /** Once a call has returned an id durably, every later answer for that UDN is that id or
      nothing, and no other UDN is ever told that id, even by a call whose COMMIT fails. */
  lemma EndpointsNeverChangeHands(moves: seq<Move>, j: nat, k: nat)
    requires j < k < |Run(EMPTY, moves).answers|
    ensures var a := Run(EMPTY, moves).answers[j];
            var b := Run(EMPTY, moves).answers[k];
            a.durable && a.id.Some? && b.id.Some? ==> (a.udn == b.udn <==> a.id == b.id)
  {
    RunKeepsInv(EMPTY, moves);
    assert Consistent(Run(EMPTY, moves).answers[j], Run(EMPTY, moves).answers[k]);
  }

  lemma StepKeepsCommits(d: Db, m: Move, u: string)
    requires Inv(d) && u in d.store.rows
    ensures var t := Step(d, m);
            d.order <= t.order && u in t.store.rows && t.store.rows[u] == d.store.rows[u]
  {
  }

  /** Nothing committed is ever lost or rewritten. */
  lemma {:induction false} CommitsAreForEver(d: Db, moves: seq<Move>, u: string)
    requires Inv(d) && u in d.store.rows
    ensures var t := Run(d, moves);
            d.order <= t.order && u in t.store.rows && t.store.rows[u] == d.store.rows[u]
    decreases |moves|
  {
    if moves != [] {
      StepKeepsInv(d, moves[0]);
      StepKeepsCommits(d, moves[0], u);
      CommitsAreForEver(Step(d, moves[0]), moves[1..], u);
    }
  }

  /** An answer that names no id but the stored one. */
  predicate OnlyStored(st: Store, a: Answer) {
    a.id.Some? ==> a.udn in st.rows && st.rows[a.udn] == a.id.value
  }

  lemma StepWhenFull(d: Db, m: Move)
    requires Inv(d) && |d.order| == 65536
    ensures var t := Step(d, m);
            && t.store == d.store && t.order == d.order && d.answers <= t.answers
            && forall k :: |d.answers| <= k < |t.answers| ==> OnlyStored(d.store, t.answers[k])
  {
    StoredIdsFit(d.store, d.order);
    if m.Advance? && d.holder.Holder? && d.holder.client == m.client && d.holder.phase.Picked? {
      InsertTakesNextId(d.store, d.order, m.udn, ReadCounter(d.store, false) != Some(d.holder.phase.id), m.fault);
      PickedIsTaken(d.store, d.order, d.holder.phase.id);
    }
  }

  /** Once all ids are taken, neither the counter nor the fallback names a free one. */
  lemma PickedIsTaken(st: Store, order: seq<string>, id: int)
    requires Holds(st, order) && |order| == 65536
    requires ReadCounter(st, false) == Some(id) || ReadCounter(st, true) == Some(id)
    ensures id in st.rows.Values
  {
    CounterReads(st, order);
    UsedIds(st, order, id);
  }

  /** Exhaustion is for ever: with 65536 UDNs stored no run changes the store any more, and
      whatever is answered from then on is the stored id of the UDN or nothing. */
  lemma {:induction false} ExhaustedForEver(d: Db, moves: seq<Move>)
    requires Inv(d) && |d.order| == 65536
    ensures var t := Run(d, moves);
            && t.store == d.store && t.order == d.order && d.answers <= t.answers
            && forall k :: |d.answers| <= k < |t.answers| ==> OnlyStored(d.store, t.answers[k])
    decreases |moves|
  {
    if moves != [] {
      StepKeepsInv(d, moves[0]);
      StepWhenFull(d, moves[0]);
      ExhaustedForEver(Step(d, moves[0]), moves[1..]);
    }
  }

  /** The moves of one undisturbed call. */
  function Moves(c: nat, udn: string, order: seq<string>, f: Faults): seq<Move> {
    var start := Advance(c, udn, f.open || f.create || f.begin);
    if start.fault then [start]
    else if udn in order && !f.select then [start, Advance(c, udn, false), Advance(c, udn, false)]
    else
      var tried := [start, Advance(c, udn, f.select), Advance(c, udn, f.counter), Advance(c, udn, f.insert)];
      if f.insert || udn in order || |order| >= 65536 || (f.counter && order != []) then tried
      else if f.upsert then tried + [Advance(c, udn, true)]
      else tried + [Advance(c, udn, false), Advance(c, udn, f.commit)]
  }

  lemma RunOne(d: Db, m: Move, rest: seq<Move>)
    ensures Run(d, [m] + rest) == Run(Step(d, m), rest)
  {
    assert ([m] + rest)[1..] == rest;
  }

  /** Alone, the step machine answers and commits what the call's outcome says. */
  lemma UndisturbedCall(d: Db, c: nat, udn: string, f: Faults)
    requires Inv(d) && d.holder.Nobody?
    ensures var t := Run(d, Moves(c, udn, d.order, f));
            var (r, after) := Outcome(d.order, udn, f);
            && t.order == after && t.holder.Nobody?
            && |t.answers| == |d.answers| + 1 && t.answers[|d.answers|].id == r
  {
    var m := Moves(c, udn, d.order, f);
    var d1 := Step(d, m[0]);
    StepKeepsInv(d, m[0]);
    RunOne(d, m[0], m[1..]);
    assert [m[0]] + m[1..] == m;
    if !m[0].fault {
      AfterBegin(d, d1, c, udn, f, m[1..]);
    } else {
      assert Run(d1, m[1..]) == d1;
    }
  }

  lemma AfterBegin(d: Db, d1: Db, c: nat, udn: string, f: Faults, m: seq<Move>)
    requires Inv(d) && d.holder.Nobody? && !f.open && !f.create && !f.begin
    requires d1 == d.(holder := Holder(c, Begun(udn), d.store))
    requires m == Moves(c, udn, d.order, f)[1..]
    ensures var t := Run(d1, m);
            var (r, after) := Outcome(d.order, udn, f);
            && t.order == after && t.holder.Nobody?
            && |t.answers| == |d.answers| + 1 && t.answers[|d.answers|].id == r
  {
    var d2 := Step(d1, m[0]);
    RunOne(d1, m[0], m[1..]);
    assert [m[0]] + m[1..] == m;
    if udn in d.order && !f.select {
      SelectHolds(d.store, d.order, IndexOf(d.order, udn));
      RunOne(d2, m[1], []);
      assert m[1..] == [m[1]] + [];
    } else {
      AfterMiss(d, d2, c, udn, f, m[1..]);
    }
  }

  lemma AfterMiss(d: Db, d2: Db, c: nat, udn: string, f: Faults, m: seq<Move>)
    requires Inv(d) && d.holder.Nobody? && !f.open && !f.create && !f.begin && (udn in d.order ==> f.select)
    requires d2 == d.(holder := Holder(c, Absent(udn), d.store))
    requires m == Moves(c, udn, d.order, f)[2..]
    ensures var t := Run(d2, m);
            var (r, after) := Outcome(d.order, udn, f);
            && t.order == after && t.holder.Nobody?
            && |t.answers| == |d.answers| + 1 && t.answers[|d.answers|].id == r
  {
    CounterReads(d.store, d.order);
    var id := ReadCounter(d.store, f.counter).value;
    var d3 := d.(holder := Holder(c, Picked(udn, id), d.store));
    RunOne(d2, m[0], m[1..]);
    assert [m[0]] + m[1..] == m && Step(d2, m[0]) == d3;
    AfterPick(d, d3, c, udn, f, id, m[1..]);
  }

  lemma AfterPick(d: Db, d3: Db, c: nat, udn: string, f: Faults, id: int, m: seq<Move>)
    requires Inv(d) && d.holder.Nobody? && !f.open && !f.create && !f.begin && (udn in d.order ==> f.select)
    requires ReadCounter(d.store, f.counter) == Some(id)
    requires d3 == d.(holder := Holder(c, Picked(udn, id), d.store))
    requires m == Moves(c, udn, d.order, f)[3..]
    ensures var t := Run(d3, m);
            var (r, after) := Outcome(d.order, udn, f);
            && t.order == after && t.holder.Nobody?
            && |t.answers| == |d.answers| + 1 && t.answers[|d.answers|].id == r
  {
    InsertTakesNextId(d.store, d.order, udn, f.counter, f.insert);
    RunOne(d3, m[0], m[1..]);
    assert [m[0]] + m[1..] == m;
    var w := Insert(d.store, udn, id, f.insert);
    if w.Some? {
      var d4 := d.(holder := Holder(c, Inserted(udn, id), w.value));
      assert Step(d3, m[0]) == d4;
      AfterInsert(d, d4, c, udn, id, f.upsert, f.commit, m[1..]);
    } else {
      assert m[1..] == [];
    }
  }

  lemma AfterInsert(d: Db, d4: Db, c: nat, udn: string, id: int, upsert: bool, commit: bool, m: seq<Move>)
    requires d4.holder.Holder? && d4 == d.(holder := Holder(c, Inserted(udn, id), d4.holder.work))
    requires m == if upsert then [Advance(c, udn, true)] else [Advance(c, udn, false), Advance(c, udn, commit)]
    ensures var t := Run(d4, m);
            && t.holder.Nobody? && |t.answers| == |d.answers| + 1
            && t.order == (if upsert || commit then d.order else d.order + [udn])
            && t.answers[|d.answers|].id == (if upsert then None else Some(id))
  {
    RunOne(d4, m[0], m[1..]);
    assert [m[0]] + m[1..] == m;
    if !upsert {
      RunOne(Step(d4, m[0]), m[1], []);
      assert m[1..] == [m[1]] + [];
    }
  }
}
