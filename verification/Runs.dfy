/**
 The bridge as a transition system: published lights with their command marks, a monotone
 clock, the sends that detached threads have yet to deliver, the physical devices, and the
 work queue of attribute reports a subscriber reads from. Engine events are arbitrary
 inputs, so they may be stale, repeated or out of order.
 */
module Runs {
  import opened Lights

  /** A command handed to a sender thread: when, for which light, and what. */
  datatype Sent = Sent(at: int, light: nat, command: Command)

  /** How a thread's call of the adapter ended; the thread discards the answer. */
  datatype Outcome = Outcome(sent: Sent, accepted: bool)

  datatype Physical = Physical(on: bool, percent: int)

  /** `log` holds every command ever dispatched, `history` the calls made so far, in that
      order; `drained` the reports already handed to the subscriber, whose last reading of
      each path is `seen`. */
  datatype System = System(
    window: nat, clock: int, lights: seq<Light>,
    log: seq<Sent>, inFlight: seq<Sent>, history: seq<Outcome>, devices: seq<Physical>,
    reports: seq<Report>, drained: seq<Report>, seen: map<Report, int>)

  /** `LevelWrite.pause` is the time between the two clock readings of the level handler.
      `Deliver` is one thread's call: `accepted` is what the adapter answers, false when it
      knows no device for the UDN or the engine refuses, and then the device stays as it is. */
  datatype Action =
    | Tick(elapsed: nat)
    | OnOffWrite(light: nat, target: bool)
    | LevelWrite(light: nat, level: int, pause: nat)
    | Event(event: WemoEvent)
    | Deliver(k: nat, accepted: bool)
    | Drain

  /** The first light with the given WeMo id, or the number of lights. */
  function Find(lights: seq<Light>, wemoId: int): (i: nat)
    ensures i <= |lights|
    ensures i < |lights| ==> lights[i].wemoId == wemoId
    ensures forall j :: 0 <= j < i ==> lights[j].wemoId != wemoId
  {
    if lights == [] then 0
    else if lights[0].wemoId == wemoId then 0
    else 1 + Find(lights[1..], wemoId)
  }

  /** The light published on an endpoint, or the number of lights. */
  function At(lights: seq<Light>, endpoint: int): (i: nat)
    ensures i <= |lights|
    ensures i < |lights| ==> lights[i].endpoint == endpoint
    ensures forall j :: 0 <= j < i ==> lights[j].endpoint != endpoint
  {
    if lights == [] then 0
    else if lights[0].endpoint == endpoint then 0
    else 1 + At(lights[1..], endpoint)
  }

  function Replace(s: System, i: nat, l: Light): System
    requires i < |s.lights|
  {
    s.(lights := s.lights[i := l], reports := s.reports + Changes(s.lights[i], l))
  }

  function Dispatch(s: System, i: nat, command: Command): System {
    var sent := Sent(s.clock, i, command);
    s.(log := s.log + [sent], inFlight := s.inFlight + [sent])
  }

  /** The sends whose calls were made, accepted or not. */
  function Tried(history: seq<Outcome>): (r: seq<Sent>)
    ensures |r| == |history| && forall k :: 0 <= k < |r| ==> r[k] == history[k].sent
  {
    seq(|history|, k requires 0 <= k < |history| => history[k].sent)
  }

  function Obey(p: Physical, c: Command): Physical {
    match c
    case SetOnOff(on) => p.(on := on)
    case SetLevel(percent) => Physical(true, percent)
  }

  /** The data model only routes writes it has an endpoint for, level writes only to dimmable
      lights, and the handlers turn away unreachable ones. */
  predicate Accepts(s: System, a: Action) {
    match a
    case OnOffWrite(i, _) => i < |s.lights| && s.lights[i].reachable
    case LevelWrite(i, m, _) => i < |s.lights| && s.lights[i].dimmable && 0 <= m <= 255 && s.lights[i].reachable
    case _ => true
  }

  function Step(s: System, a: Action): System {
    if !Accepts(s, a) then s else
    match a
    case Tick(elapsed) => s.(clock := s.clock + elapsed)
    case OnOffWrite(i, target) =>
      Dispatch(Replace(s, i, WriteOnOff(s.lights[i], target, s.clock, s.window)), i, SetOnOff(target))
    case LevelWrite(i, m, pause) =>
      var (l, c) := WriteLevel(s.lights[i], m, s.clock, s.clock + pause, s.window);
      var t := Replace(s, i, l).(clock := s.clock + pause);
      if c.Some? then Dispatch(t, i, c.value) else t
    case Event(ev) =>
      var i := Find(s.lights, ev.wemoId);
      if i < |s.lights| then Replace(s, i, HandleEvent(s.lights[i], ev, s.clock)) else s
    case Deliver(k, accepted) =>
      if k < |s.inFlight| && s.inFlight[k].light < |s.devices| then
        var x := s.inFlight[k];
        s.(inFlight := s.inFlight[..k] + s.inFlight[k+1..], history := s.history + [Outcome(x, accepted)],
           devices := if accepted then s.devices[x.light := Obey(s.devices[x.light], x.command)] else s.devices)
      else s
    case Drain =>
      if s.reports == [] then s else
      var r := s.reports[0];
      var i := At(s.lights, r.endpoint);
      s.(reports := s.reports[1..], drained := s.drained + [r],
         seen := if i < |s.lights| then s.seen[r := Reading(s.lights[i], r.attribute)] else s.seen)
  }

  /** What an accepted on/off write does to the application's part of the system. */
  lemma OnOffStep(s: System, i: nat, target: bool)
    requires Accepts(s, OnOffWrite(i, target))
    ensures var t := Step(s, OnOffWrite(i, target));
            var l := WriteOnOff(s.lights[i], target, s.clock, s.window);
            && t.window == s.window && t.lights == s.lights[i := l]
            && t.reports == s.reports + Changes(s.lights[i], l)
            && t.log == s.log + [Sent(s.clock, i, SetOnOff(target))] && t.clock == s.clock
            && t.inFlight == s.inFlight + [Sent(s.clock, i, SetOnOff(target))]
  {
  }

  lemma LevelStep(s: System, i: nat, m: int, pause: nat)
    requires Accepts(s, LevelWrite(i, m, pause))
    ensures var t := Step(s, LevelWrite(i, m, pause));
            var (l, c) := WriteLevel(s.lights[i], m, s.clock, s.clock + pause, s.window);
            && t.window == s.window && t.lights == s.lights[i := l]
            && t.reports == s.reports + Changes(s.lights[i], l)
            && t.log == s.log + (if c.Some? then [Sent(s.clock + pause, i, c.value)] else [])
            && t.inFlight == s.inFlight + (if c.Some? then [Sent(s.clock + pause, i, c.value)] else [])
            && t.clock == s.clock + pause
  {
  }

  lemma EventStep(s: System, ev: WemoEvent)
    ensures var t := Step(s, Event(ev));
            var i := Find(s.lights, ev.wemoId);
            && t.window == s.window && t.log == s.log
            && (if i < |s.lights| then
                  var l := HandleEvent(s.lights[i], ev, s.clock);
                  t.lights == s.lights[i := l] && t.reports == s.reports + Changes(s.lights[i], l)
                else t == s)
  {
  }

  /** Time passes and nothing else happens. */
  lemma TickStep(s: System, elapsed: nat)
    ensures Step(s, Tick(elapsed)) == s.(clock := s.clock + elapsed)
  {
  }

  /** What one thread's call does: an accepted on/off command switches its device and leaves the
      percentage, an accepted level command turns it on at that percentage, and a refused one
      changes no device; every other device stays as it is. */
  lemma CallStep(s: System, k: nat, accepted: bool)
    requires k < |s.inFlight| && s.inFlight[k].light < |s.devices|
    ensures var t := Step(s, Deliver(k, accepted));
            var x := s.inFlight[k];
            && |t.devices| == |s.devices| && t.lights == s.lights && t.log == s.log && t.reports == s.reports
            && (forall j :: 0 <= j < |s.devices| && (j != x.light || !accepted) ==> t.devices[j] == s.devices[j])
            && (accepted && x.command.SetOnOff? ==>
                  t.devices[x.light].on == x.command.on && t.devices[x.light].percent == s.devices[x.light].percent)
            && (accepted && x.command.SetLevel? ==>
                  t.devices[x.light].on && t.devices[x.light].percent == x.command.percent)
            && t.history == s.history + [Outcome(x, accepted)] && t.inFlight == s.inFlight[..k] + s.inFlight[k+1..]
  {
  }

  /** Draining a report lets the subscriber read what the light then shows: 1 or 0 for on/off
      and reachability, the cached level for the level. */
  lemma DrainReads(s: System)
    requires s.reports != [] && At(s.lights, s.reports[0].endpoint) < |s.lights|
    ensures var t := Step(s, Drain);
            var r := s.reports[0];
            var l := s.lights[At(s.lights, r.endpoint)];
            && r in t.seen
            && (r.attribute == OnOff ==> t.seen[r] == if l.on then 1 else 0)
            && (r.attribute == Reachable ==> t.seen[r] == if l.reachable then 1 else 0)
            && (r.attribute == CurrentLevel ==> t.seen[r] == l.level)
            && forall q :: q != r ==> (q in t.seen <==> q in s.seen) && (q in s.seen ==> t.seen[q] == s.seen[q])
  {
    ReadingShows(s.lights[At(s.lights, s.reports[0].endpoint)]);
  }

  lemma DrainStep(s: System)
    ensures var t := Step(s, Drain);
            && t.window == s.window && t.lights == s.lights && t.log == s.log
            && s.drained + s.reports[..|s.reports| - |t.reports|] == t.drained
            && t.reports == if s.reports == [] then [] else s.reports[1..]
  {
    assert s.drained + [] == s.drained;
  }

  function Run(s: System, acts: seq<Action>): System
    decreases |acts|
  {
    if acts == [] then s else Run(Step(s, acts[0]), acts[1..])
  }

  // ---------------------------------------------------------------- the invariant

  predicate DistinctEndpoints(lights: seq<Light>) {
    forall i, j :: 0 <= i < j < |lights| ==> lights[i].endpoint != lights[j].endpoint
  }

  /** Every on/off command is still covered by its light's mark or its window is over. */
  predicate Covered(s: System, x: Sent) {
    x.light < |s.lights| && x.at <= s.clock &&
    (x.command.SetOnOff? ==>
      var l := s.lights[x.light];
      s.clock > x.at + s.window || (l.commandedOnOff >= 0 && l.onOffUntil >= x.at + s.window))
  }

  /** A level command never means off. */
  predicate Lit(x: Sent) {
    x.command.SetLevel? ==> 1 <= x.command.percent <= 100
  }

  /** The log is in time order, and a level command comes after the settle window of every
      earlier on/off command to the same light. */
  predicate Apart(x: Sent, y: Sent, window: nat) {
    x.at <= y.at &&
    (x.light == y.light && x.command.SetOnOff? && y.command.SetLevel? ==> y.at > x.at + window)
  }

  /** The subscriber's last reading is current or a report for the path is queued. */
  predicate Coherent(s: System, l: Light, a: Attribute) {
    var r := Report(l.endpoint, a);
    l.observed ==> r in s.reports || (r in s.seen && s.seen[r] == Reading(l, a))
  }

  ghost predicate Inv(s: System) {
    && |s.devices| == |s.lights|
    && DistinctEndpoints(s.lights)
    && (forall i :: 0 <= i < |s.lights| ==> LightInv(s.lights[i]))
    && (forall k :: 0 <= k < |s.log| ==> Covered(s, s.log[k]) && Lit(s.log[k]))
    && (forall j, k :: 0 <= j < k < |s.log| ==> Apart(s.log[j], s.log[k], s.window))
    && (forall i, a :: 0 <= i < |s.lights| ==> Coherent(s, s.lights[i], a))
    && (forall x :: x in s.inFlight ==> x.light < |s.lights|)
    && multiset(Tried(s.history)) + multiset(s.inFlight) == multiset(s.log)
  }

  /** Start of service: nothing pending, nothing sent, every observed path read once. */
  ghost predicate Init(s: System) {
    && |s.devices| == |s.lights|
    && DistinctEndpoints(s.lights)
    && s.log == s.inFlight == [] && s.history == [] && s.reports == s.drained == []
    && (forall i :: 0 <= i < |s.lights| ==>
          var l := s.lights[i]; l.commandedOnOff == l.commandedLevel == -1 && 0 <= l.level <= 255)
    && (forall i, a :: 0 <= i < |s.lights| ==> Coherent(s, s.lights[i], a))
  }

  lemma InitInv(s: System)
    requires Init(s)
    ensures Inv(s)
  {
  }

  lemma ReplaceKeepsInv(s: System, i: nat, l: Light)
    requires Inv(s) && i < |s.lights| && SameIdentity(s.lights[i], l) && LightInv(l)
    requires forall k :: 0 <= k < |s.log| && s.log[k].light == i ==> Covered(s.(lights := s.lights[i := l]), s.log[k])
    ensures Inv(Replace(s, i, l))
  {
    var t := Replace(s, i, l);
    forall k | 0 <= k < |t.log| ensures Covered(t, t.log[k]) && Lit(t.log[k]) {
      assert Covered(s, s.log[k]);
    }
    forall j, a | 0 <= j < |t.lights| ensures Coherent(t, t.lights[j], a) {
      assert Coherent(s, s.lights[j], a);
    }
  }

  lemma DispatchKeepsInv(s: System, i: nat, c: Command)
    requires Inv(s) && i < |s.lights|
    requires Covered(s, Sent(s.clock, i, c)) && Lit(Sent(s.clock, i, c))
    requires forall k :: 0 <= k < |s.log| ==> Apart(s.log[k], Sent(s.clock, i, c), s.window)
    ensures Inv(Dispatch(s, i, c))
  {
    var t := Dispatch(s, i, c);
    forall k | 0 <= k < |t.log| ensures Covered(t, t.log[k]) && Lit(t.log[k]) {
      assert k < |s.log| ==> Covered(s, s.log[k]);
    }
    forall j, a | 0 <= j < |t.lights| ensures Coherent(t, t.lights[j], a) {
      assert Coherent(s, s.lights[j], a);
    }
  }

  lemma ClockKeepsInv(s: System, d: nat)
    requires Inv(s)
    ensures Inv(s.(clock := s.clock + d))
  {
    var t := s.(clock := s.clock + d);
    forall k | 0 <= k < |t.log| ensures Covered(t, t.log[k]) && Lit(t.log[k]) {
      assert Covered(s, s.log[k]);
    }
    forall j, a | 0 <= j < |t.lights| ensures Coherent(t, t.lights[j], a) {
      assert Coherent(s, s.lights[j], a);
    }
  }

  lemma DeliverKeepsInv(s: System, k: nat, accepted: bool)
    requires Inv(s)
    ensures Inv(Step(s, Deliver(k, accepted)))
  {
    var t := Step(s, Deliver(k, accepted));
    if k < |s.inFlight| {
      assert Tried(t.history) == Tried(s.history) + [s.inFlight[k]];
      assert s.inFlight == s.inFlight[..k] + [s.inFlight[k]] + s.inFlight[k+1..];
      assert s.inFlight[k] in s.inFlight;
      forall x | x in t.inFlight ensures x.light < |s.lights| {
        assert x in s.inFlight;
      }
    }
    forall n | 0 <= n < |t.log| ensures Covered(t, t.log[n]) && Lit(t.log[n]) {
      assert Covered(s, s.log[n]);
    }
    forall j, a | 0 <= j < |t.lights| ensures Coherent(t, t.lights[j], a) {
      assert Coherent(s, s.lights[j], a);
    }
  }

  lemma DrainKeepsInv(s: System)
    requires Inv(s)
    ensures Inv(Step(s, Drain))
  {
    var t := Step(s, Drain);
    forall n | 0 <= n < |t.log| ensures Covered(t, t.log[n]) && Lit(t.log[n]) {
      assert Covered(s, s.log[n]);
    }
    forall j, a | 0 <= j < |t.lights| ensures Coherent(t, t.lights[j], a) {
      assert Coherent(s, s.lights[j], a);
      if s.reports != [] {
        assert s.reports == [s.reports[0]] + s.reports[1..];
        var i := At(s.lights, s.reports[0].endpoint);
        assert s.reports[0].endpoint == s.lights[j].endpoint ==> i == j;
      }
    }
  }

  lemma OnOffWriteKeepsInv(s: System, i: nat, target: bool)
    requires Inv(s) && i < |s.lights|
    ensures var r := Replace(s, i, WriteOnOff(s.lights[i], target, s.clock, s.window));
            Inv(r) && Inv(Dispatch(r, i, SetOnOff(target)))
  {
    var l := WriteOnOff(s.lights[i], target, s.clock, s.window);
    WriteKeepsInv(s.lights[i], target, 0, 0, 0, s.window);
    forall k | 0 <= k < |s.log| && s.log[k].light == i
      ensures Covered(s.(lights := s.lights[i := l]), s.log[k])
    {
      assert Covered(s, s.log[k]);
    }
    ReplaceKeepsInv(s, i, l);
    var r := Replace(s, i, l);
    forall k | 0 <= k < |r.log| ensures Apart(r.log[k], Sent(r.clock, i, SetOnOff(target)), r.window) {
      assert Covered(s, s.log[k]);
    }
    DispatchKeepsInv(r, i, SetOnOff(target));
  }

  /** The light's side of a level write, before anything is sent. */
  lemma LevelMarkKeepsInv(s: System, i: nat, m: int, pause: nat)
    requires Inv(s) && Accepts(s, LevelWrite(i, m, pause))
    ensures var l := WriteLevel(s.lights[i], m, s.clock, s.clock + pause, s.window).0;
            Inv(Replace(s, i, l).(clock := s.clock + pause))
  {
    var l := WriteLevel(s.lights[i], m, s.clock, s.clock + pause, s.window).0;
    WriteKeepsInv(s.lights[i], false, m, s.clock, s.clock + pause, s.window);
    forall k | 0 <= k < |s.log| && s.log[k].light == i
      ensures Covered(s.(lights := s.lights[i := l]), s.log[k])
    {
      assert Covered(s, s.log[k]);
    }
    ReplaceKeepsInv(s, i, l);
    ClockKeepsInv(Replace(s, i, l), pause);
  }

  /** If the light has no open on/off window now, a level command sent from now on is apart
      from everything in the log. */
  lemma LevelCommandApart(s: System, i: nat, later: int, percent: int)
    requires Inv(s) && i < |s.lights| && later >= s.clock
    requires !(s.lights[i].commandedOnOff >= 0 && s.clock <= s.lights[i].onOffUntil)
    ensures forall k :: 0 <= k < |s.log| ==> Apart(s.log[k], Sent(later, i, SetLevel(percent)), s.window)
  {
    forall k | 0 <= k < |s.log| ensures Apart(s.log[k], Sent(later, i, SetLevel(percent)), s.window) {
      assert Covered(s, s.log[k]);
    }
  }

  lemma LevelWriteKeepsInv(s: System, i: nat, m: int, pause: nat)
    requires Inv(s) && Accepts(s, LevelWrite(i, m, pause))
    ensures Inv(Step(s, LevelWrite(i, m, pause)))
  {
    var (l, c) := WriteLevel(s.lights[i], m, s.clock, s.clock + pause, s.window);
    var t := Replace(s, i, l).(clock := s.clock + pause);
    LevelMarkKeepsInv(s, i, m, pause);
    if c.Some? {
      LevelWriteAcceptedIff(s.lights[i], m, s.clock, s.clock + pause, s.window);
      LevelCommandApart(s, i, t.clock, c.value.percent);
      assert t.log == s.log && t.window == s.window && |t.lights| == |s.lights|;
      DispatchKeepsInv(t, i, c.value);
      assert Step(s, LevelWrite(i, m, pause)) == Dispatch(t, i, c.value);
    }
  }

  lemma EventKeepsSystemInv(s: System, ev: WemoEvent)
    requires Inv(s)
    ensures Inv(Step(s, Event(ev)))
  {
    var i := Find(s.lights, ev.wemoId);
    if i < |s.lights| {
      var l := HandleEvent(s.lights[i], ev, s.clock);
      EventKeepsInv(s.lights[i], ev, s.clock);
      forall k | 0 <= k < |s.log| && s.log[k].light == i
        ensures Covered(s.(lights := s.lights[i := l]), s.log[k])
      {
        assert Covered(s, s.log[k]);
        MarkOutlivesEvent(s.lights[i], ev, s.clock);
      }
      ReplaceKeepsInv(s, i, l);
    }
  }

  /** An event drops an on/off mark only past its deadline, and never moves the deadline. */
  lemma MarkOutlivesEvent(l: Light, ev: WemoEvent, now: int)
    ensures var r := HandleEvent(l, ev, now);
            && r.onOffUntil == l.onOffUntil && r.levelUntil == l.levelUntil
            && (r.commandedOnOff == l.commandedOnOff || (now > l.onOffUntil && r.commandedOnOff == -1))
            && (r.commandedLevel == l.commandedLevel || (now > l.levelUntil && r.commandedLevel == -1))
  {
  }

  lemma StepKeepsInv(s: System, a: Action)
    requires Inv(s)
    ensures Inv(Step(s, a))
  {
    match a
    case Tick(elapsed) => ClockKeepsInv(s, elapsed);
    case OnOffWrite(i, target) => if Accepts(s, a) { OnOffWriteKeepsInv(s, i, target); }
    case LevelWrite(i, m, pause) => if Accepts(s, a) { LevelWriteKeepsInv(s, i, m, pause); }
    case Event(ev) => EventKeepsSystemInv(s, ev);
    case Deliver(k, accepted) => DeliverKeepsInv(s, k, accepted);
    case Drain => DrainKeepsInv(s);
  }

  /** The invariant holds in every state any run reaches. */
  lemma {:induction false} RunKeepsInv(s: System, acts: seq<Action>)
    requires Inv(s)
    ensures Inv(Run(s, acts))
    decreases |acts|
  {
    if acts != [] {
      StepKeepsInv(s, acts[0]);
      RunKeepsInv(Step(s, acts[0]), acts[1..]);
    }
  }
}
