/**
 What the detached sender threads do to the devices. Each thread makes its call whenever it
 gets to it, so commands may overtake each other, and the adapter or the engine may refuse
 one, of which nobody is told.
 */
module Delivery {
  import opened Options
  import opened Levels
  import opened Lights
  import opened Runs
  import opened SettleWindow
  import opened NonInterference
  import opened Reporting

  // ---------------------------------------------------------------- two sides of a device

  /** Commands set two things at a device: whether it is on, which every command decides, and
      its brightness, which only level commands do. */
  datatype Aspect = Power | Brightness

  function Shown(p: Physical, a: Aspect): int {
    match a
    case Power => if p.on then 1 else 0
    case Brightness => p.percent
  }

  /** What an aspect shows after a device obeys the command; None if the command leaves it. */
  function Asked(c: Command, a: Aspect): Option<int> {
    match a
    case Power => Some(if c.SetLevel? || c.on then 1 else 0)
    case Brightness => if c.SetLevel? then Some(c.percent) else None
  }

  lemma ObeyShows(p: Physical, c: Command, a: Aspect)
    ensures Shown(Obey(p, c), a) == if Asked(c, a).Some? then Asked(c, a).value else Shown(p, a)
  {
  }

  predicate Concerns(x: Sent, i: nat, a: Aspect) {
    x.light == i && Asked(x.command, a).Some?
  }

  /** The sends that decide an aspect of device `i`, in order. */
  function Concerning(sends: seq<Sent>, i: nat, a: Aspect): (r: seq<Sent>)
    ensures r == [] <==> forall x :: x in sends ==> !Concerns(x, i, a)
  {
    if sends == [] then [] else
    var x := sends[|sends| - 1];
    assert sends == sends[..|sends| - 1] + [x];
    Concerning(sends[..|sends| - 1], i, a) + (if Concerns(x, i, a) then [x] else [])
  }

  lemma ConcerningOneMore(sends: seq<Sent>, x: Sent, i: nat, a: Aspect)
    ensures Concerning(sends + [x], i, a) == Concerning(sends, i, a) + (if Concerns(x, i, a) then [x] else [])
  {
    assert (sends + [x])[..|sends|] == sends;
  }

  lemma {:induction false} ConcerningConcat(s: seq<Sent>, t: seq<Sent>, i: nat, a: Aspect)
    ensures Concerning(s + t, i, a) == Concerning(s, i, a) + Concerning(t, i, a)
  {
    if t == [] {
      assert s + t == s;
    } else {
      var n := |t| - 1;
      assert s + t == (s + t[..n]) + [t[n]] && t == t[..n] + [t[n]];
      ConcerningConcat(s, t[..n], i, a);
      ConcerningOneMore(s + t[..n], t[n], i, a);
      ConcerningOneMore(t[..n], t[n], i, a);
    }
  }

  // ---------------------------------------------------------------- what became of the commands

  /** The commands that were accepted, and those that were refused. */
  function Accepted(history: seq<Outcome>): seq<Sent> {
    if history == [] then [] else
    var o := history[|history| - 1];
    Accepted(history[..|history| - 1]) + (if o.accepted then [o.sent] else [])
  }

  function Refused(history: seq<Outcome>): seq<Sent> {
    if history == [] then [] else
    var o := history[|history| - 1];
    Refused(history[..|history| - 1]) + (if o.accepted then [] else [o.sent])
  }

  lemma {:induction false} TriedSplits(history: seq<Outcome>)
    ensures multiset(Tried(history)) == multiset(Accepted(history)) + multiset(Refused(history))
  {
    if history != [] {
      var n := |history| - 1;
      TriedSplits(history[..n]);
      assert Tried(history) == Tried(history[..n]) + [history[n].sent];
    }
  }

  /** In every run each command ever dispatched was accepted once, or refused once and so lost,
      or is still in flight. */
  lemma EveryCommandAccountedFor(s: System, acts: seq<Action>)
    requires Init(s)
    ensures var t := Run(s, acts);
            multiset(Accepted(t.history)) + multiset(Refused(t.history)) + multiset(t.inFlight) == multiset(t.log)
  {
    InitInv(s);
    RunKeepsInv(s, acts);
    TriedSplits(Run(s, acts).history);
  }

  /** The state device `i` reaches from `p` when it obeys the given sends in this order. */
  function ApplyAll(p: Physical, sends: seq<Sent>, i: nat): Physical {
    if sends == [] then p else
    var x := sends[|sends| - 1];
    var q := ApplyAll(p, sends[..|sends| - 1], i);
    if x.light == i then Obey(q, x.command) else q
  }

  /** The same from the outcomes of the calls. */
  function After(p: Physical, history: seq<Outcome>, i: nat): Physical {
    ApplyAll(p, Accepted(history), i)
  }

  lemma AfterOneMore(p: Physical, history: seq<Outcome>, o: Outcome, i: nat)
    ensures After(p, history + [o], i)
            == if o.accepted && o.sent.light == i then Obey(After(p, history, i), o.sent.command) else After(p, history, i)
  {
    assert (history + [o])[..|history|] == history;
    var before := Accepted(history);
    assert (before + [o.sent])[..|before|] == before;
    assert before + [] == before;
  }

  /** In every run a device is where obeying the accepted commands, and no others, in the order
      in which they got through takes it. */
  lemma {:induction false} DevicesObeyAccepted(s: System, acts: seq<Action>, i: nat)
    requires i < |s.devices|
    ensures var t := Run(s, acts);
            && |t.devices| == |s.devices| && s.history <= t.history
            && t.devices[i] == ApplyAll(s.devices[i], Accepted(t.history[|s.history|..]), i)
  {
    assert s.history[|s.history|..] == [];
    DeviceTracked(s, acts, i, s.devices[i], |s.history|);
  }

  lemma {:induction false} DeviceTracked(s: System, acts: seq<Action>, i: nat, p: Physical, n: nat)
    requires i < |s.devices| && n <= |s.history| && s.devices[i] == After(p, s.history[n..], i)
    ensures var t := Run(s, acts);
            |t.devices| == |s.devices| && s.history <= t.history && t.devices[i] == After(p, t.history[n..], i)
    decreases |acts|
  {
    if acts != [] {
      StepTracks(s, acts[0], i, p, n);
      DeviceTracked(Step(s, acts[0]), acts[1..], i, p, n);
    }
  }

  lemma StepTracks(s: System, act: Action, i: nat, p: Physical, n: nat)
    requires i < |s.devices| && n <= |s.history| && s.devices[i] == After(p, s.history[n..], i)
    ensures var t := Step(s, act);
            |t.devices| == |s.devices| && s.history <= t.history && t.devices[i] == After(p, t.history[n..], i)
  {
    if act.Deliver? && act.k < |s.inFlight| && s.inFlight[act.k].light < |s.devices| {
      var o := Outcome(s.inFlight[act.k], act.accepted);
      assert Step(s, act).history[n..] == s.history[n..] + [o];
      AfterOneMore(p, s.history[n..], o, i);
    } else {
      assert Step(s, act).history == s.history && Step(s, act).devices == s.devices;
    }
  }

  // ---------------------------------------------------------------- calls that keep their order

  /** The thread of a send that decides the aspect calls before that of an earlier one. */
  predicate Overtakes(s: System, act: Action, i: nat, a: Aspect) {
    && act.Deliver? && act.k < |s.inFlight| && Concerns(s.inFlight[act.k], i, a)
    && exists x :: x in s.inFlight[..act.k] && Concerns(x, i, a)
  }

  /** No such thread overtakes another. Threads of other lights, and of commands that leave the
      aspect alone, may call at any time. */
  predicate InOrder(s: System, acts: seq<Action>, i: nat, a: Aspect)
    decreases |acts|
  {
    acts == [] || (!Overtakes(s, acts[0], i, a) && InOrder(Step(s, acts[0]), acts[1..], i, a))
  }

  /** Calls made from the n-th on, followed by those to come, are the commands `f` followed by
      those dispatched from the l-th on. */
  predicate Sequenced(s: System, i: nat, a: Aspect, n: nat, l: nat, f: seq<Sent>) {
    && n <= |s.history| && l <= |s.log|
    && Concerning(Tried(s.history[n..]), i, a) + Concerning(s.inFlight, i, a) == f + Concerning(s.log[l..], i, a)
  }

  /** Appending one more element on both sides. */
  lemma Extend<T>(a: seq<T>, b: seq<T>, c: seq<T>, e: seq<T>, more: seq<T>)
    requires a + b == c + e
    ensures a + (b + more) == c + (e + more)
  {
    assert a + (b + more) == (a + b) + more;
    assert c + (e + more) == (c + e) + more;
  }

  /** Moving an element over the cut, from behind nothing. */
  lemma Move<T>(tried: seq<T>, x: seq<T>, before: seq<T>, after: seq<T>)
    requires x == [] || before == []
    ensures (tried + x) + (before + after) == tried + ((before + x) + after)
  {
    if x == [] {
      assert tried + x == tried && before + x == before;
    } else {
      assert before + after == after && before + x == x;
    }
  }

  lemma NoTails<T>(a: seq<T>, b: seq<T>, c: seq<T>, d: seq<T>)
    requires a + b == c + d && b == [] && d == []
    ensures a == c
  {
    assert a + [] == a && c + [] == c;
  }

  lemma FirstApart<T>(a: seq<T>, b: seq<T>)
    requires b != []
    ensures a + b == (a + [b[0]]) + b[1..]
  {
  }

  lemma Cancel<T>(a: multiset<T>, b: multiset<T>, c: multiset<T>)
    requires a + b == a + c
    ensures b == c
  {
    assert forall x :: b[x] == (a + b)[x] - a[x] == (a + c)[x] - a[x] == c[x];
  }

  lemma DispatchSequenced(s: System, t: System, x: Sent, i: nat, a: Aspect, n: nat, l: nat, f: seq<Sent>)
    requires Sequenced(s, i, a, n, l, f)
    requires t.history == s.history && t.log == s.log + [x] && t.inFlight == s.inFlight + [x]
    ensures Sequenced(t, i, a, n, l, f)
  {
    assert t.log[l..] == s.log[l..] + [x];
    ConcerningOneMore(s.log[l..], x, i, a);
    ConcerningOneMore(s.inFlight, x, i, a);
    Extend(Concerning(Tried(s.history[n..]), i, a), Concerning(s.inFlight, i, a), f, Concerning(s.log[l..], i, a),
           if Concerns(x, i, a) then [x] else []);
  }

  lemma CallSequenced(s: System, t: System, k: nat, o: Outcome, i: nat, a: Aspect, n: nat, l: nat, f: seq<Sent>)
    requires Sequenced(s, i, a, n, l, f) && k < |s.inFlight| && o.sent == s.inFlight[k]
    requires Concerns(o.sent, i, a) ==> forall x :: x in s.inFlight[..k] ==> !Concerns(x, i, a)
    requires t.history == s.history + [o] && t.log == s.log && t.inFlight == s.inFlight[..k] + s.inFlight[k+1..]
    ensures Sequenced(t, i, a, n, l, f)
  {
    var x, before, after := o.sent, s.inFlight[..k], s.inFlight[k+1..];
    assert t.history[n..] == s.history[n..] + [o];
    assert Tried(t.history[n..]) == Tried(s.history[n..]) + [x];
    ConcerningOneMore(Tried(s.history[n..]), x, i, a);
    assert s.inFlight == (before + [x]) + after;
    ConcerningConcat(before + [x], after, i, a);
    ConcerningOneMore(before, x, i, a);
    ConcerningConcat(before, after, i, a);
    Move(Concerning(Tried(s.history[n..]), i, a), if Concerns(x, i, a) then [x] else [],
         Concerning(before, i, a), Concerning(after, i, a));
  }

  /** Dispatching a command starts one thread. */
  lemma DispatchStep(s: System, act: Action)
    requires Added(s, act) != []
    ensures var t := Step(s, act);
            && Added(s, act) == [Added(s, act)[0]] && t.log == s.log + Added(s, act)
            && t.inFlight == s.inFlight + Added(s, act) && t.history == s.history && t.devices == s.devices
  {
  }

  lemma StepSequenced(s: System, act: Action, i: nat, a: Aspect, n: nat, l: nat, f: seq<Sent>)
    requires Sequenced(s, i, a, n, l, f) && !Overtakes(s, act, i, a)
    ensures Sequenced(Step(s, act), i, a, n, l, f)
  {
    var t := Step(s, act);
    if Added(s, act) != [] {
      DispatchStep(s, act);
      DispatchSequenced(s, t, Added(s, act)[0], i, a, n, l, f);
    } else if act.Deliver? && act.k < |s.inFlight| && s.inFlight[act.k].light < |s.devices| {
      CallSequenced(s, t, act.k, Outcome(s.inFlight[act.k], act.accepted), i, a, n, l, f);
    } else {
      assert t.history == s.history && t.log == s.log && t.inFlight == s.inFlight;
    }
  }

  lemma {:induction false} RunSequenced(s: System, acts: seq<Action>, i: nat, a: Aspect, n: nat, l: nat, f: seq<Sent>)
    requires Sequenced(s, i, a, n, l, f) && InOrder(s, acts, i, a)
    ensures Sequenced(Run(s, acts), i, a, n, l, f)
    decreases |acts|
  {
    if acts != [] {
      StepSequenced(s, acts[0], i, a, n, l, f);
      RunSequenced(Step(s, acts[0]), acts[1..], i, a, n, l, f);
    }
  }

  lemma {:induction false} LogGrows(s: System, acts: seq<Action>)
    ensures s.log <= Run(s, acts).log
    decreases |acts|
  {
    if acts != [] {
      StepLog(s, acts[0]);
      LogGrows(Step(s, acts[0]), acts[1..]);
    }
  }

  /** If the threads of the commands that decide an aspect of a device keep their order, the
      calls they make are these commands in the order of the log: first those in flight at the
      outset, then those dispatched since. So the aspect is decided by the accepted ones of
      them, obeyed in that order. */
  lemma InOrderDeliveryObeysLog(s: System, acts: seq<Action>, i: nat, a: Aspect)
    requires i < |s.devices| && InOrder(s, acts, i, a)
    ensures var t := Run(s, acts);
            && s.history <= t.history && s.log <= t.log && i < |t.devices|
            && var h := t.history[|s.history|..];
               && Concerning(Tried(h), i, a) + Concerning(t.inFlight, i, a)
                  == Concerning(s.inFlight, i, a) + Concerning(t.log[|s.log|..], i, a)
               && t.devices[i] == ApplyAll(s.devices[i], Accepted(h), i)
  {
    assert s.history[|s.history|..] == [] && s.log[|s.log|..] == [];
    RunSequenced(s, acts, i, a, |s.history|, |s.log|, Concerning(s.inFlight, i, a));
    DevicesObeyAccepted(s, acts, i);
    LogGrows(s, acts);
  }

  // ---------------------------------------------------------------- the last write

  /** No action of the run sends a command that decides the aspect. */
  predicate NoneSent(s: System, acts: seq<Action>, i: nat, a: Aspect)
    decreases |acts|
  {
    acts == [] || (Concerning(Added(s, acts[0]), i, a) == [] && NoneSent(Step(s, acts[0]), acts[1..], i, a))
  }

  lemma {:induction false} QuietLog(s: System, acts: seq<Action>, i: nat, a: Aspect, l: nat)
    requires NoneSent(s, acts, i, a) && l <= |s.log|
    ensures l <= |Run(s, acts).log| && Concerning(Run(s, acts).log[l..], i, a) == Concerning(s.log[l..], i, a)
    decreases |acts|
  {
    if acts != [] {
      StepLog(s, acts[0]);
      var added := Added(s, acts[0]);
      assert Step(s, acts[0]).log[l..] == s.log[l..] + added;
      ConcerningConcat(s.log[l..], added, i, a);
      QuietLog(Step(s, acts[0]), acts[1..], i, a, l);
    }
  }

  /** The last call that concerned an aspect. */
  function LastTried(history: seq<Outcome>, i: nat, a: Aspect): (k: Option<nat>)
    ensures k.Some? ==> k.value < |history| && Concerns(history[k.value].sent, i, a)
  {
    if history == [] then None else
    var n := |history| - 1;
    if Concerns(history[n].sent, i, a) then Some(n) else LastTried(history[..n], i, a)
  }

  /** It is the last of the concerning sends, and with it or, if it was refused, with what came
      before it the aspect stays. */
  lemma {:induction false} LastTriedDecides(p: Physical, history: seq<Outcome>, i: nat, a: Aspect)
    ensures var k := LastTried(history, i, a);
            var c := Concerning(Tried(history), i, a);
            && (k.None? <==> c == [])
            && (k.Some? ==>
                  var o := history[k.value];
                  && o.sent == c[|c| - 1]
                  && Shown(After(p, history, i), a)
                     == if o.accepted then Asked(o.sent.command, a).value else Shown(After(p, history[..k.value], i), a))
  {
    if history != [] {
      var n := |history| - 1;
      var o, rest := history[n], history[..n];
      assert history == rest + [o];
      assert Tried(history) == Tried(rest) + [o.sent];
      ConcerningOneMore(Tried(rest), o.sent, i, a);
      AfterOneMore(p, rest, o, i);
      ObeyShows(After(p, rest, i), o.sent.command, a);
      if !Concerns(o.sent, i, a) {
        LastTriedDecides(p, rest, i, a);
        var k := LastTried(rest, i, a);
        assert k.Some? ==> history[..k.value] == rest[..k.value] && history[k.value] == rest[k.value];
      }
    }
  }

  /** The action dispatches `x`, which is the last command of the run to decide the aspect; the
      threads of those that do keep their order and have all made their calls by the end. */
  predicate LastWrite(s: System, w: Action, acts: seq<Action>, x: Sent, i: nat, a: Aspect) {
    && Added(s, w) == [x] && Concerns(x, i, a)
    && NoneSent(Step(s, w), acts, i, a) && InOrder(Step(s, w), acts, i, a)
    && forall y :: y in Run(Step(s, w), acts).inFlight ==> !Concerns(y, i, a)
  }

  /** The last write wins if its call is accepted. If it is refused the device keeps what the
      earlier accepted calls left. */
  lemma LastWriteDecides(s: System, w: Action, acts: seq<Action>, x: Sent, i: nat, a: Aspect)
    requires i < |s.devices| && LastWrite(s, w, acts, x, i, a)
    ensures var t := Run(Step(s, w), acts);
            && i < |t.devices| && s.history <= t.history
            && var h := t.history[|s.history|..];
               var k := LastTried(h, i, a);
               && k.Some? && h[k.value].sent == x
               && Shown(t.devices[i], a)
                  == if h[k.value].accepted then Asked(x.command, a).value
                     else Shown(After(s.devices[i], h[..k.value], i), a)
  {
    var s1 := Step(s, w);
    DispatchStep(s, w);
    LastCalls(s1, acts, i, a);
    ConcerningOneMore(s.inFlight, x, i, a);
    LastTriedDecides(s.devices[i], Run(s1, acts).history[|s.history|..], i, a);
  }

  /** Without new commands, and once the old ones have had their calls, these were the calls. */
  lemma LastCalls(s: System, acts: seq<Action>, i: nat, a: Aspect)
    requires i < |s.devices| && NoneSent(s, acts, i, a) && InOrder(s, acts, i, a)
    requires Concerning(Run(s, acts).inFlight, i, a) == []
    ensures var t := Run(s, acts);
            && s.history <= t.history && i < |t.devices|
            && var h := t.history[|s.history|..];
               Concerning(Tried(h), i, a) == Concerning(s.inFlight, i, a) && t.devices[i] == After(s.devices[i], h, i)
  {
    InOrderDeliveryObeysLog(s, acts, i, a);
    QuietLog(s, acts, i, a, |s.log|);
    assert s.log[|s.log|..] == [];
    var t := Run(s, acts);
    NoTails(Concerning(Tried(t.history[|s.history|..]), i, a), Concerning(t.inFlight, i, a),
            Concerning(s.inFlight, i, a), Concerning(t.log[|s.log|..], i, a));
  }

  /** The outcome of the last call that concerned an aspect since `s`. */
  function LastOutcome(s: System, t: System, i: nat, a: Aspect): Option<Outcome>
    requires s.history <= t.history
  {
    var h := t.history[|s.history|..];
    match LastTried(h, i, a)
    case None => None
    case Some(k) => Some(h[k])
  }

  /** What the accepted calls before that one left. */
  function LeftBehind(s: System, t: System, i: nat, a: Aspect): int
    requires s.history <= t.history && i < |s.devices|
  {
    var h := t.history[|s.history|..];
    match LastTried(h, i, a)
    case None => Shown(s.devices[i], a)
    case Some(k) => Shown(After(s.devices[i], h[..k], i), a)
  }

  /** A level write carried out by the handler reaches the device if and only if its call is
      accepted or the device was left on that percentage before. */
  lemma LastLevelWriteReachesDeviceIff(s: System, i: nat, m: int, pause: nat, acts: seq<Action>, x: Sent)
    requires Inv(s) && LastWrite(s, LevelWrite(i, m, pause), acts, x, i, Brightness)
    ensures var t := Run(Step(s, LevelWrite(i, m, pause)), acts);
            && i < |s.devices| && i < |t.devices| && s.history <= t.history
            && LastOutcome(s, t, i, Brightness).Some? && LastOutcome(s, t, i, Brightness).value.sent == x
            && (t.devices[i].percent == ToPercent(m) <==>
                  LastOutcome(s, t, i, Brightness).value.accepted || LeftBehind(s, t, i, Brightness) == ToPercent(m))
  {
    LastWriteDecides(s, LevelWrite(i, m, pause), acts, x, i, Brightness);
    LevelWriteAcceptedIff(s.lights[i], m, s.clock, s.clock + pause, s.window);
  }

  /** The same for on and off; here level commands count as writes too. */
  lemma LastOnOffWriteReachesDeviceIff(s: System, i: nat, target: bool, acts: seq<Action>, x: Sent)
    requires Inv(s) && LastWrite(s, OnOffWrite(i, target), acts, x, i, Power)
    ensures var t := Run(Step(s, OnOffWrite(i, target)), acts);
            && i < |s.devices| && i < |t.devices| && s.history <= t.history
            && LastOutcome(s, t, i, Power).Some? && LastOutcome(s, t, i, Power).value.sent == x
            && (t.devices[i].on == target <==>
                  LastOutcome(s, t, i, Power).value.accepted || LeftBehind(s, t, i, Power) == (if target then 1 else 0))
  {
    LastWriteDecides(s, OnOffWrite(i, target), acts, x, i, Power);
  }

  /** Convergence with an honest device: once the last level write m has had its call and the
      windows are over, the first online event that carries the device's real state makes the
      cache show that state. The level is the echo of m, at most 3 below it, if and only if
      the call was accepted or the device had been left on that percentage; a refused write is
      undone in the cache as well. */
  lemma HonestDeviceConverges(s: System, i: nat, m: int, pause: nat, acts: seq<Action>, x: Sent, ev: WemoEvent)
    requires Inv(s) && LastWrite(s, LevelWrite(i, m, pause), acts, x, i, Brightness)
    requires var t := Run(Step(s, LevelWrite(i, m, pause)), acts);
             && i < |t.lights| && i < |t.devices| && Settled(t, i)
             && Find(t.lights, ev.wemoId) == i && ev.online
             && (ev.state != 0) == t.devices[i].on && ev.level == t.devices[i].percent && 0 <= ev.level <= 100
    ensures var t := Run(Step(s, LevelWrite(i, m, pause)), acts);
            var l := Step(t, Event(ev)).lights[i];
            && l.on == t.devices[i].on && l.level == ToMatter(t.devices[i].percent)
            && s.history <= t.history && i < |s.devices| && LastOutcome(s, t, i, Brightness).Some?
            && (l.level == ToMatter(ToPercent(m)) <==>
                  LastOutcome(s, t, i, Brightness).value.accepted || LeftBehind(s, t, i, Brightness) == ToPercent(m))
            && m - 3 <= ToMatter(ToPercent(m)) <= m
  {
    var w := LevelWrite(i, m, pause);
    var s1 := Step(s, w);
    var t := Run(s1, acts);
    StepKeepsInv(s, w);
    RunKeepsInv(s1, acts);
    LastLevelWriteReachesDeviceIff(s, i, m, pause, acts, x);
    IdentitiesKept(s1, acts);
    StepTouches(s, w);
    assert SameIdentity(s.lights[i], s1.lights[i]) && SameIdentity(s1.lights[i], t.lights[i]);
    PercentRange(m);
    FirstEventAfterWindow(t, i, ev, 0);
    LevelWriteAcceptedIff(s.lights[i], m, s.clock, s.clock + pause, s.window);
    EchoLoss(m);
    MatterInjective(ev.level, ToPercent(m));
  }

  /** The same for on and off, and for every kind of light: once the last command that decides
      power has had its call and the on/off window is over, the first online event that
      carries the device's real state makes the cache show it. It is what was written if and
      only if the call was accepted or the device had been left there. */
  lemma HonestSwitchConverges(s: System, i: nat, target: bool, acts: seq<Action>, x: Sent, ev: WemoEvent)
    requires Inv(s) && LastWrite(s, OnOffWrite(i, target), acts, x, i, Power)
    requires var t := Run(Step(s, OnOffWrite(i, target)), acts);
             && i < |t.lights| && i < |t.devices| && !OnOffOpen(t.lights[i], t.clock)
             && Find(t.lights, ev.wemoId) == i && ev.online && (ev.state != 0) == t.devices[i].on
    ensures var t := Run(Step(s, OnOffWrite(i, target)), acts);
            var l := Step(t, Event(ev)).lights[i];
            && l.on == t.devices[i].on
            && s.history <= t.history && i < |s.devices| && LastOutcome(s, t, i, Power).Some?
            && (l.on == target <==>
                  LastOutcome(s, t, i, Power).value.accepted || LeftBehind(s, t, i, Power) == (if target then 1 else 0))
  {
    var w := OnOffWrite(i, target);
    var t := Run(Step(s, w), acts);
    StepKeepsInv(s, w);
    RunKeepsInv(Step(s, w), acts);
    LastOnOffWriteReachesDeviceIff(s, i, target, acts, x);
    EventEffect(t.lights[i], ev, t.clock);
    EventStep(t, ev);
  }

  // ---------------------------------------------------------------- any order

  predicate OnlyDelivers(acts: seq<Action>) {
    forall k :: 0 <= k < |acts| ==> acts[k].Deliver?
  }

  /** Every accepted call that decides the aspect asks for the target, and if there is none the
      aspect shows it already. */
  predicate Agree(shown: int, fates: seq<Outcome>, i: nat, a: Aspect, target: int) {
    && (forall o :: o in fates && o.accepted && Concerns(o.sent, i, a) ==> Asked(o.sent.command, a).value == target)
    && ((forall o :: o in fates && Concerns(o.sent, i, a) ==> !o.accepted) ==> shown == target)
  }

  lemma {:induction false} AgreementDecides(p: Physical, fates: seq<Outcome>, i: nat, a: Aspect, target: int)
    requires Agree(Shown(p, a), fates, i, a, target)
    ensures Shown(After(p, fates, i), a) == target
  {
    if fates != [] {
      var n := |fates| - 1;
      var o, rest := fates[n], fates[..n];
      assert fates == rest + [o];
      AfterOneMore(p, rest, o, i);
      ObeyShows(After(p, rest, i), o.sent.command, a);
      if !(o.accepted && Concerns(o.sent, i, a)) {
        AgreementDecides(p, rest, i, a, target);
      }
    }
  }

  predicate Addressed(s: System) {
    forall k :: 0 <= k < |s.inFlight| ==> s.inFlight[k].light < |s.devices|
  }

  lemma AllAddressed(s: System)
    requires Inv(s)
    ensures Addressed(s)
  {
    forall k | 0 <= k < |s.inFlight| ensures s.inFlight[k].light < |s.devices| {
      assert s.inFlight[k] in s.inFlight;
    }
  }

  lemma OneTaken(order: seq<Outcome>, flight: seq<Sent>, k: nat)
    requires multiset(Tried(order)) == multiset(flight) && order != [] && k < |flight| && flight[k] == order[0].sent
    ensures multiset(Tried(order[1..])) == multiset(flight[..k] + flight[k+1..])
  {
    var x, rest, others := order[0].sent, Tried(order[1..]), flight[..k] + flight[k+1..];
    assert flight == flight[..k] + [x] + flight[k+1..];
    assert Tried(order) == [x] + rest;
    assert multiset(flight) == multiset(others) + multiset{x};
    assert multiset(Tried(order)) == multiset{x} + multiset(rest);
    Cancel(multiset{x}, multiset(rest), multiset(others));
  }

  lemma OneCall(s: System, k: nat, accepted: bool, rest: seq<Action>)
    requires Addressed(s) && k < |s.inFlight|
    ensures var d := Deliver(k, accepted);
            var t := Step(s, d);
            && t.history == s.history + [Outcome(s.inFlight[k], accepted)]
            && t.inFlight == s.inFlight[..k] + s.inFlight[k+1..] && Addressed(t)
            && Run(s, [d] + rest) == Run(t, rest)
  {
    assert ([Deliver(k, accepted)] + rest)[1..] == rest;
  }

  /** The threads can make their calls in any order, and each call can end either way. */
  lemma {:induction false} AnyOrderPossible(s: System, order: seq<Outcome>) returns (acts: seq<Action>)
    requires Addressed(s) && multiset(Tried(order)) == multiset(s.inFlight)
    ensures OnlyDelivers(acts)
    ensures Run(s, acts).inFlight == [] && Run(s, acts).history == s.history + order
    decreases |order|
  {
    if order == [] {
      acts := [];
      assert Tried(order) == [];
      assert |multiset(s.inFlight)| == 0;
    } else {
      assert Tried(order)[0] in multiset(Tried(order));
      var k :| 0 <= k < |s.inFlight| && s.inFlight[k] == order[0].sent;
      var d := Deliver(k, order[0].accepted);
      OneCall(s, k, order[0].accepted, []);
      OneTaken(order, s.inFlight, k);
      var rest := AnyOrderPossible(Step(s, d), order[1..]);
      OneCall(s, k, order[0].accepted, rest);
      acts := [d] + rest;
      FirstApart(s.history, order);
    }
  }

  /** A run that only lets the threads in flight make their calls, to the last, with the given
      fates in some order. */
  predicate Completes(s: System, acts: seq<Action>, fates: seq<Outcome>) {
    var t := Run(s, acts);
    && OnlyDelivers(acts) && t.inFlight == [] && s.history <= t.history
    && multiset(t.history[|s.history|..]) == multiset(fates)
  }

  /** Whatever becomes of each send in flight: every order in which their threads may call ends
      with the device showing the target if and only if the accepted ones that decide the
      aspect all ask for it, or there is none and the device shows it already. */
  lemma EveryOrderEndsOnTargetIff(s: System, i: nat, a: Aspect, target: int, fates: seq<Outcome>)
    requires Inv(s) && i < |s.devices| && Tried(fates) == s.inFlight
    ensures (forall acts :: Completes(s, acts, fates) ==>
               i < |Run(s, acts).devices| && Shown(Run(s, acts).devices[i], a) == target)
            <==> Agree(Shown(s.devices[i], a), fates, i, a, target)
  {
    if Agree(Shown(s.devices[i], a), fates, i, a, target) {
      forall acts | Completes(s, acts, fates)
        ensures i < |Run(s, acts).devices| && Shown(Run(s, acts).devices[i], a) == target
      {
        DevicesObeyAccepted(s, acts, i);
        var h := Run(s, acts).history[|s.history|..];
        forall o ensures o in h <==> o in fates {
          assert o in multiset(h) <==> o in multiset(fates);
        }
        AgreementDecides(s.devices[i], h, i, a, target);
      }
    } else {
      var acts := DisagreementShows(s, i, a, target, fates);
    }
  }

  lemma DisagreementShows(s: System, i: nat, a: Aspect, target: int, fates: seq<Outcome>) returns (acts: seq<Action>)
    requires Inv(s) && i < |s.devices| && Tried(fates) == s.inFlight
    requires !Agree(Shown(s.devices[i], a), fates, i, a, target)
    ensures Completes(s, acts, fates) && i < |Run(s, acts).devices| && Shown(Run(s, acts).devices[i], a) != target
  {
    AllAddressed(s);
    var order := WorstOrder(s.devices[i], fates, i, a, target);
    acts := AnyOrderPossible(s, order);
    DevicesObeyAccepted(s, acts, i);
    assert Run(s, acts).history[|s.history|..] == order;
  }

  /** One call put behind all the others. */
  lemma PutLast(p: Physical, fates: seq<Outcome>, k: nat, i: nat, a: Aspect) returns (order: seq<Outcome>)
    requires k < |fates| && fates[k].accepted && Concerns(fates[k].sent, i, a)
    ensures multiset(order) == multiset(fates) && multiset(Tried(order)) == multiset(Tried(fates))
    ensures Shown(After(p, order, i), a) == Asked(fates[k].sent.command, a).value
  {
    var x := fates[k];
    var before, after := fates[..k], fates[k+1..];
    order := before + after + [x];
    assert fates == before + [x] + after;
    assert Tried(fates) == Tried(before) + [x.sent] + Tried(after);
    assert Tried(order) == Tried(before) + Tried(after) + [x.sent];
    AfterOneMore(p, before + after, x, i);
    ObeyShows(After(p, before + after, i), x.sent.command, a);
  }

  /** If the fates do not agree, some order ends elsewhere. */
  lemma WorstOrder(p: Physical, fates: seq<Outcome>, i: nat, a: Aspect, target: int) returns (order: seq<Outcome>)
    requires !Agree(Shown(p, a), fates, i, a, target)
    ensures multiset(order) == multiset(fates) && multiset(Tried(order)) == multiset(Tried(fates))
    ensures Shown(After(p, order, i), a) != target
  {
    if k :| 0 <= k < |fates| && fates[k].accepted && Concerns(fates[k].sent, i, a)
            && Asked(fates[k].sent.command, a).value != target {
      order := PutLast(p, fates, k, i, a);
    } else {
      order := fates;
      AgreementDecides(p, fates, i, a, Shown(p, a));
    }
  }

  /** With nothing known about the engine's answers either: every order and every combination
      of answers ends on the target if and only if the device shows it already and every send
      in flight that decides the aspect asks for it. */
  lemma EveryEndIsTargetIff(s: System, i: nat, a: Aspect, target: int)
    requires Inv(s) && i < |s.devices|
    ensures (forall acts :: OnlyDelivers(acts) && Run(s, acts).inFlight == [] ==>
               i < |Run(s, acts).devices| && Shown(Run(s, acts).devices[i], a) == target)
            <==> Shown(s.devices[i], a) == target
                 && forall x :: x in s.inFlight && Concerns(x, i, a) ==> Asked(x.command, a).value == target
  {
    var fit := Shown(s.devices[i], a) == target
               && forall x :: x in s.inFlight && Concerns(x, i, a) ==> Asked(x.command, a).value == target;
    if fit {
      forall acts | OnlyDelivers(acts) && Run(s, acts).inFlight == []
        ensures i < |Run(s, acts).devices| && Shown(Run(s, acts).devices[i], a) == target
      {
        DevicesObeyAccepted(s, acts, i);
        var h := Run(s, acts).history[|s.history|..];
        CallsWereInFlight(s, acts);
        forall o | o in h ensures o.sent in s.inFlight {
          var k :| 0 <= k < |h| && h[k] == o;
          assert Tried(h)[k] in multiset(Tried(h));
        }
        AgreementDecides(s.devices[i], h, i, a, target);
      }
    } else {
      var answer := Shown(s.devices[i], a) == target;
      var fates := seq(|s.inFlight|, k requires 0 <= k < |s.inFlight| => Outcome(s.inFlight[k], answer));
      assert Tried(fates) == s.inFlight;
      if answer {
        var x :| x in s.inFlight && Concerns(x, i, a) && Asked(x.command, a).value != target;
        var k :| 0 <= k < |s.inFlight| && s.inFlight[k] == x;
        assert fates[k] in fates;
      }
      var acts := DisagreementShows(s, i, a, target, fates);
    }
  }

  lemma TriedRest(before: seq<Outcome>, after: seq<Outcome>)
    requires before <= after
    ensures multiset(Tried(after)) == multiset(Tried(before)) + multiset(Tried(after[|before|..]))
  {
    assert Tried(after) == Tried(before) + Tried(after[|before|..]);
  }

  /** Complete deliveries call exactly for what was in flight. */
  lemma CallsWereInFlight(s: System, acts: seq<Action>)
    requires Inv(s) && OnlyDelivers(acts) && Run(s, acts).inFlight == [] && |s.devices| > 0
    ensures s.history <= Run(s, acts).history
    ensures multiset(Tried(Run(s, acts).history[|s.history|..])) == multiset(s.inFlight)
  {
    var t := Run(s, acts);
    RunKeepsInv(s, acts);
    DevicesObeyAccepted(s, acts, 0);
    DeliveriesKeepLog(s, acts);
    TriedRest(s.history, t.history);
    Cancel(multiset(Tried(s.history)), multiset(Tried(t.history[|s.history|..])), multiset(s.inFlight));
  }

  lemma {:induction false} DeliveriesKeepLog(s: System, acts: seq<Action>)
    requires OnlyDelivers(acts)
    ensures Run(s, acts).log == s.log
    decreases |acts|
  {
    if acts != [] {
      assert acts[0].Deliver?;
      DeliveriesKeepLog(Step(s, acts[0]), acts[1..]);
    }
  }
}
