/**
 The adapter under the sender threads. A command that misses the cache lets go of the lock
 while it fetches a listing, so any number of lookups, fetches and merges interleave. Each
 locked region is one step, and so is each call of the engine outside it.
 */
module AdapterThreads {
  import opened Options
  import opened Lights
  import opened Adapter

  datatype Job = Ask(udn: string, command: Command) | Rediscover

  /** What a thread does next: look in the cache, fetch a listing, or merge the one it holds. */
  datatype Phase = Looking(udn: string, command: Command) | Fetching(job: Job) | Holding(job: Job, items: seq<Info>)

  /** An engine call and whose it is. */
  datatype Call = Call(thread: nat, udn: string, command: Command, made: EngineCall)

  /** `started` are the threads that ever began; `threads` those that have not returned. */
  datatype Machine = Machine(initialized: bool, cache: map<string, int>, snapshots: seq<seq<Info>>,
                             started: set<nat>, threads: map<nat, Phase>, calls: seq<Call>)

  /** `Start` is a new thread's call of the adapter up to the engine's initialisation; `Advance`
      its next step, with the listing the engine gives if it fetches. */
  datatype Move = Start(thread: nat, job: Job, initOk: bool) | Advance(thread: nat, listing: Listing)

  const IDLE := Machine(false, map[], [], {}, map[], [])

  function Finish(m: Machine, t: nat): Machine {
    m.(threads := m.threads - {t})
  }

  /** The lookup that ends in an engine call, still under the lock, or in nothing. */
  function SendIfKnown(m: Machine, t: nat, udn: string, c: Command): Machine {
    if udn in m.cache then m.(calls := m.calls + [Call(t, udn, c, CallFor(m.cache[udn], c))]) else m
  }

  function Step(m: Machine, move: Move): Machine {
    match move
    case Start(t, job, initOk) =>
      if t in m.started then m else
      var ready := m.(initialized := m.initialized || initOk, started := m.started + {t});
      if !ready.initialized then ready else
      ready.(threads := ready.threads[t := if job.Ask? then Looking(job.udn, job.command) else Fetching(job)])
    case Advance(t, l) =>
      if t !in m.threads then m else
      match m.threads[t]
      case Looking(u, c) =>
        if u in m.cache then Finish(SendIfKnown(m, t, u, c), t) else m.(threads := m.threads[t := Fetching(Ask(u, c))])
      case Fetching(job) =>
        if l.ok then m.(threads := m.threads[t := Holding(job, Items(l))]) else Finish(m, t)
      case Holding(Rediscover, items) =>
        Finish(m.(cache := Merge(map[], items), snapshots := [items]), t)
      case Holding(Ask(u, c), items) =>
        Finish(SendIfKnown(m.(cache := Merge(m.cache, items), snapshots := m.snapshots + [items]), t, u, c), t)
  }

  function Run(m: Machine, moves: seq<Move>): Machine
    decreases |moves|
  {
    if moves == [] then m else Run(Step(m, moves[0]), moves[1..])
  }

  // ---------------------------------------------------------------- the invariant

  /** The cache agrees with the listings merged so far, and a thread that has called the engine
      did so once and has returned. */
  ghost predicate Inv(m: Machine) {
    && Reflects(m.cache, m.snapshots)
    && m.threads.Keys <= m.started
    && (forall k :: 0 <= k < |m.calls| ==> m.calls[k].thread in m.started && m.calls[k].thread !in m.threads)
    && (forall j, k :: 0 <= j < k < |m.calls| ==> m.calls[j].thread != m.calls[k].thread)
  }

  lemma StepKeepsInv(m: Machine, move: Move)
    requires Inv(m)
    ensures Inv(Step(m, move))
  {
    if move.Advance? && move.thread in m.threads && m.threads[move.thread].Holding? {
      var items := m.threads[move.thread].items;
      MergeReflects(m.cache, m.snapshots, items);
      assert Reflects(map[], []);
      MergeReflects(map[], [], items);
      assert [] + [items] == [items];
    }
  }

  lemma {:induction false} RunKeepsInv(m: Machine, moves: seq<Move>)
    requires Inv(m)
    ensures Inv(Run(m, moves))
    decreases |moves|
  {
    if moves != [] {
      StepKeepsInv(m, moves[0]);
      RunKeepsInv(Step(m, moves[0]), moves[1..]);
    }
  }

  // ---------------------------------------------------------------- main results

  /** Under any interleaving the cache answers each UDN with its id in the listing merged last
      of those that list it, counting from the last rebuild; the empty UDN is never cached. */
  lemma CacheIsMergeHistory(moves: seq<Move>, udn: string)
    ensures var m := Run(IDLE, moves);
            && Lookup(m.cache, udn) == LatestId(m.snapshots, udn)
            && "" !in m.cache
  {
    assert Reflects(map[], []);
    RunKeepsInv(IDLE, moves);
    NoEmptyUdn(Run(IDLE, moves).snapshots);
    assert Lookup(Run(IDLE, moves).cache, "") == None;
  }

  /** Under any interleaving a command makes at most one engine call. */
  lemma OneCallPerThread(moves: seq<Move>, j: nat, k: nat)
    requires j < k < |Run(IDLE, moves).calls|
    ensures Run(IDLE, moves).calls[j].thread != Run(IDLE, moves).calls[k].thread
  {
    assert Reflects(map[], []);
    RunKeepsInv(IDLE, moves);
  }

  /** The command a thread is on. */
  function JobOf(p: Phase): Job {
    match p
    case Looking(u, c) => Ask(u, c)
    case Fetching(job) => job
    case Holding(job, _) => job
  }

  /** Under any interleaving, whatever other threads have merged or rebuilt meanwhile, a step
      makes an engine call only for the command of its own thread, and it goes to the id that
      the merge history gives the UDN at that moment. */
  lemma CallGoesWhereHistoryPoints(moves: seq<Move>, move: Move)
    ensures var m := Run(IDLE, moves);
            var n := Step(m, move);
            n.calls == m.calls
            || (&& move.Advance? && move.thread in m.threads && move.thread !in n.threads
                && JobOf(m.threads[move.thread]).Ask?
                && var job := JobOf(m.threads[move.thread]);
                   var id := LatestId(n.snapshots, job.udn);
                   && id.Some? && |n.calls| == |m.calls| + 1 && m.calls <= n.calls
                   && var call := n.calls[|m.calls|];
                      && call.thread == move.thread && call.udn == job.udn && call.command == job.command
                      && Means(call.made, id.value, job.command))
  {
    assert Reflects(map[], []);
    RunKeepsInv(IDLE, moves);
    var m := Run(IDLE, moves);
    StepKeepsInv(m, move);
    if move.Advance? && move.thread in m.threads && JobOf(m.threads[move.thread]).Ask? {
      var n := Step(m, move);
      var u := JobOf(m.threads[move.thread]).udn;
      assert LatestId(n.snapshots, u) == Lookup(n.cache, u);
      if u in n.cache {
        CallMeans(n.cache[u], JobOf(m.threads[move.thread]).command);
      }
    }
  }

  /** Once begun, a command returns without a call if and only if its fetch fails or the UDN is
      unknown right after its merge. */
  lemma ReturnsEmptyHandedIff(moves: seq<Move>, t: nat, l: Listing)
    ensures var m := Run(IDLE, moves);
            var n := Step(m, Advance(t, l));
            t in m.threads && JobOf(m.threads[t]).Ask? ==>
              (t !in n.threads && n.calls == m.calls <==>
                 || (m.threads[t].Fetching? && !l.ok)
                 || (m.threads[t].Holding? && LatestId(n.snapshots, JobOf(m.threads[t]).udn).None?))
  {
    assert Reflects(map[], []);
    RunKeepsInv(IDLE, moves);
    var m := Run(IDLE, moves);
    StepKeepsInv(m, Advance(t, l));
    if t in m.threads && JobOf(m.threads[t]).Ask? {
      var n := Step(m, Advance(t, l));
      var u := JobOf(m.threads[t]).udn;
      assert LatestId(n.snapshots, u) == Lookup(n.cache, u);
    }
  }

  // ---------------------------------------------------------------- commands for known devices

  /** Every thread under way is about to look up a UDN that the cache knows. */
  predicate AllKnown(m: Machine) {
    forall t :: t in m.threads ==> m.threads[t].Looking? && m.threads[t].udn in m.cache
  }

  predicate AsksForKnown(move: Move, cache: map<string, int>) {
    move.Start? ==> move.job.Ask? && move.job.udn in cache
  }

  /** While only commands for UDNs the cache knows are given, no interleaving of their threads
      changes the cache, and every call goes to the id it holds. */
  lemma {:induction false} KnownUdnsKeepTheirIds(m: Machine, moves: seq<Move>)
    requires AllKnown(m) && forall k :: 0 <= k < |moves| ==> AsksForKnown(moves[k], m.cache)
    ensures var n := Run(m, moves);
            && n.cache == m.cache && m.calls <= n.calls
            && forall k :: |m.calls| <= k < |n.calls| ==>
                 n.calls[k].udn in m.cache && Means(n.calls[k].made, m.cache[n.calls[k].udn], n.calls[k].command)
    decreases |moves|
  {
    if moves != [] {
      var n := Step(m, moves[0]);
      assert AsksForKnown(moves[0], m.cache);
      assert n.cache == m.cache && AllKnown(n) && m.calls <= n.calls;
      if n.calls != m.calls {
        var c := n.calls[|m.calls|];
        CallMeans(m.cache[c.udn], c.command);
      }
      KnownUdnsKeepTheirIds(n, moves[1..]);
    }
  }

  // ---------------------------------------------------------------- one thread alone

  function Made(calls: seq<Call>): (r: seq<EngineCall>)
    ensures |r| == |calls| && forall k :: 0 <= k < |r| ==> r[k] == calls[k].made
  {
    seq(|calls|, k requires 0 <= k < |calls| => calls[k].made)
  }

  /** The machine as the adapter seen from outside. */
  function View(m: Machine): State {
    State(m.initialized, m.cache, m.snapshots, Made(m.calls))
  }

  function OpOf(job: Job, initOk: bool, l: Listing): Op {
    match job
    case Ask(u, c) => DoSet(u, c, initOk, l)
    case Rediscover => DoDiscover(initOk, l)
  }

  /** A thread that no other disturbs does what the operation as a whole specifies. */
  lemma UndisturbedThread(m: Machine, t: nat, job: Job, initOk: bool, l: Listing)
    requires t !in m.started && m.threads.Keys <= m.started
    ensures var n := Run(m, [Start(t, job, initOk), Advance(t, l), Advance(t, l), Advance(t, l)]);
            View(n) == Do(View(m), OpOf(job, initOk, l)) && n.threads == m.threads
  {
    var a := Advance(t, l);
    FourMoves(m, Start(t, job, initOk), a);
    assert m.threads[t := Fetching(job)] - {t} == m.threads;
  }

  lemma FourMoves(m: Machine, start: Move, a: Move)
    ensures Run(m, [start, a, a, a]) == Step(Step(Step(Step(m, start), a), a), a)
  {
    assert [start, a, a, a][1..] == [a, a, a] && [a, a, a][1..] == [a, a] && [a, a][1..] == [a] && [a][1..] == [];
    var m1 := Step(m, start);
    var m2 := Step(m1, a);
    assert Run(Step(m2, a), [a]) == Run(Step(Step(m2, a), a), []);
    assert Run(m2, [a, a]) == Run(Step(m2, a), [a]);
    assert Run(m1, [a, a, a]) == Run(m2, [a, a]);
  }
}
