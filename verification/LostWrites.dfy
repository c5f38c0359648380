/**
 Two runs from a freshly published dimmer in which the controller's last write is lost: once
 because an older sender thread calls after it, once because the engine refuses it. Both end
 with nothing pending, the cache showing the device, and nobody told.
 */
module LostWrites {
  import opened Levels
  import opened Lights
  import opened Runs
  import opened SettleWindow
  import opened Publishing
  import opened Routing
  import Adapter

  const LISTED := Adapter.Info(7, "u", "lamp", 1, 1, 4, Adapter.TYPE_DIMMER)
  const DIMMER := Light(7, "u", true, 3, true, true, true, 10, -1, 0, -1, 0)

  /** The system once the one dimmer that was found, at 4 percent, is on endpoint 3. */
  function OneDimmer(): System {
    assert Adapter.Describe(LISTED).levelPercent == 4;
    Start(2000, 0, PublishedLights(Adapter.DescribeAll([LISTED]), [{}], 3, 16), [Physical(true, 4)])
  }

  lemma OneDimmerPublished()
    ensures Discovered([LISTED], Adapter.DescribeAll([LISTED]), [{}])
    ensures OneDimmer().lights == [DIMMER] && Init(OneDimmer())
  {
    var sorted := Adapter.DescribeAll([LISTED]);
    assert sorted == [Adapter.Describe(LISTED)];
    assert Publish([{}], 3, 16, 0) == Progress([], 3);
    assert Publish([{}], 3, 16, 1) == Progress([0], 3);
    assert ToMatter(4) == 10;
    assert PublishedLights(sorted, [{}], 3, 16) == [DIMMER];
    PublishedStart(sorted, [{}], 3, 16, 2000, 0, [Physical(true, 4)]);
  }

  /** The part of a one-light system that the two runs follow. */
  predicate Looks(s: System, clock: int, l: Light, flight: seq<Sent>, history: seq<Outcome>, p: Physical) {
    && s.window == 2000 && s.clock == clock && s.lights == [l]
    && s.inFlight == flight && s.history == history && s.devices == [p]
  }

  lemma AfterWrite(s: System, l: Light, flight: seq<Sent>, history: seq<Outcome>, p: Physical, m: int)
    requires Looks(s, 0, l, flight, history, p)
    requires 2 <= m <= 254 && l.dimmable && l.reachable && l.commandedOnOff == -1
    ensures Looks(Step(s, LevelWrite(0, m, 0)), 0, l.(level := m, commandedLevel := m, levelUntil := 2000),
                  flight + [Sent(0, 0, SetLevel(ToPercent(m)))], history, p)
  {
  }

  lemma AfterCall(s: System, l: Light, flight: seq<Sent>, history: seq<Outcome>, p: Physical, k: nat, accepted: bool)
    requires Looks(s, 0, l, flight, history, p) && k < |flight| && flight[k].light == 0
    ensures Looks(Step(s, Deliver(k, accepted)), 0, l, flight[..k] + flight[k+1..],
                  history + [Outcome(flight[k], accepted)], if accepted then Obey(p, flight[k].command) else p)
  {
  }

  /** The device's own report, after the window. */
  lemma AfterEcho(s: System, l: Light, history: seq<Outcome>, p: Physical)
    requires Looks(s, 0, l, [], history, p)
    requires l.commandedLevel >= 0 && l.levelUntil == 2000 && l.commandedOnOff == -1
    requires l.dimmable && 0 <= p.percent <= 100 && p.on
    ensures Looks(Step(Step(s, Tick(2001)), Event(WemoEvent(l.wemoId, true, 1, p.percent))), 2001,
                  l.(reachable := true, on := true, level := ToMatter(p.percent), commandedLevel := -1), [], history, p)
  {
    assert Find(s.lights, l.wemoId) == 0;
  }

  /** The run ends with all calls made and the windows over, after a last level write `m` to
      light 0 that the handler carried out; but the device is at another percentage and the
      cache follows it. */
  ghost predicate LastWriteLost(s: System, acts: seq<Action>, n: nat, m: int) {
    var t := Run(s, acts);
    && n < |acts| && acts[n] == LevelWrite(0, m, 0) && CommandsLevel(Run(s, acts[..n]), acts[n], 0)
    && (forall k :: n < k < |acts| ==> !acts[k].LevelWrite?)
    && t.inFlight == [] && |t.lights| == |t.devices| == 1 && Settled(t, 0)
    && 0 <= t.devices[0].percent <= 100 && t.devices[0].percent != ToPercent(m)
    && t.lights[0].level == ToMatter(t.devices[0].percent) && t.lights[0].level != m
  }

  /** Every call of the run was accepted. */
  predicate AllAccepted(history: seq<Outcome>) {
    forall k :: 0 <= k < |history| ==> history[k].accepted
  }

  lemma RunPair(s: System, a: Action, b: Action, rest: seq<Action>)
    ensures Run(s, [a, b] + rest) == Run(Step(Step(s, a), b), rest)
  {
    assert ([a, b] + rest)[1..] == [b] + rest;
    assert ([b] + rest)[1..] == rest;
  }

  const FULL := Sent(0, 0, SetLevel(100))
  const HALF := Sent(0, 0, SetLevel(50))
  const AT_HALF := DIMMER.(level := 127, commandedLevel := 127, levelUntil := 2000)

  lemma TwoWrites(s: System)
    requires Looks(s, 0, DIMMER, [], [], Physical(true, 4))
    ensures Looks(Step(Step(s, LevelWrite(0, 254, 0)), LevelWrite(0, 127, 0)), 0, AT_HALF, [FULL, HALF], [], Physical(true, 4))
  {
    AfterWrite(s, DIMMER, [], [], Physical(true, 4), 254);
    var l := DIMMER.(level := 254, commandedLevel := 254, levelUntil := 2000);
    AfterWrite(Step(s, LevelWrite(0, 254, 0)), l, [FULL], [], Physical(true, 4), 127);
  }

  lemma TwoCallsSwapped(s: System)
    requires Looks(s, 0, AT_HALF, [FULL, HALF], [], Physical(true, 4))
    ensures Looks(Step(Step(s, Deliver(1, true)), Deliver(0, true)), 0, AT_HALF, [],
                  [Outcome(HALF, true), Outcome(FULL, true)], Physical(true, 100))
  {
    AfterCall(s, AT_HALF, [FULL, HALF], [], Physical(true, 4), 1, true);
    AfterCall(Step(s, Deliver(1, true)), AT_HALF, [FULL], [Outcome(HALF, true)], Physical(true, 50), 0, true);
  }

  lemma WriteRefused(s: System)
    requires Looks(s, 0, DIMMER, [], [], Physical(true, 4))
    ensures Looks(Step(Step(s, LevelWrite(0, 127, 0)), Deliver(0, false)), 0, AT_HALF, [],
                  [Outcome(HALF, false)], Physical(true, 4))
  {
    AfterWrite(s, DIMMER, [], [], Physical(true, 4), 127);
    AfterCall(Step(s, LevelWrite(0, 127, 0)), AT_HALF, [HALF], [], Physical(true, 4), 0, false);
  }

  /** The end of both runs: the window passes and the device reports. */
  lemma Ending(s: System, history: seq<Outcome>, p: Physical)
    requires Looks(s, 0, AT_HALF, [], history, p) && 0 <= p.percent <= 100 && p.on
    ensures Looks(Run(s, [Tick(2001), Event(WemoEvent(7, true, 1, p.percent))]), 2001,
                  DIMMER.(level := ToMatter(p.percent), levelUntil := 2000), [], history, p)
  {
    AfterEcho(s, AT_HALF, history, p);
    var last := [Tick(2001), Event(WemoEvent(7, true, 1, p.percent))];
    assert last == last + [];
    RunPair(s, last[0], last[1], []);
  }

  lemma FirstWrite(s: System)
    requires Looks(s, 0, DIMMER, [], [], Physical(true, 4))
    ensures CommandsLevel(s, LevelWrite(0, 127, 0), 0)
    ensures CommandsLevel(Run(s, [LevelWrite(0, 254, 0)]), LevelWrite(0, 127, 0), 0)
  {
    AfterWrite(s, DIMMER, [], [], Physical(true, 4), 254);
    assert [LevelWrite(0, 254, 0)][1..] == [];
  }

  lemma Overtaken(s: System, writes: seq<Action>, calls: seq<Action>, last: seq<Action>)
    requires Looks(s, 0, DIMMER, [], [], Physical(true, 4))
    requires writes == [LevelWrite(0, 254, 0), LevelWrite(0, 127, 0)] && calls == [Deliver(1, true), Deliver(0, true)]
    requires last == [Tick(2001), Event(WemoEvent(7, true, 1, 100))]
    ensures Looks(Run(s, writes + (calls + last)), 2001, DIMMER.(level := 254, levelUntil := 2000), [],
                  [Outcome(HALF, true), Outcome(FULL, true)], Physical(true, 100))
  {
    assert ToMatter(100) == 254;
    var s2 := Step(Step(s, writes[0]), writes[1]);
    TwoWrites(s);
    TwoCallsSwapped(s2);
    RunPair(s, writes[0], writes[1], calls + last);
    RunPair(s2, calls[0], calls[1], last);
    Ending(Step(Step(s2, calls[0]), calls[1]), [Outcome(HALF, true), Outcome(FULL, true)], Physical(true, 100));
  }

  lemma Undone(s: System, first: seq<Action>, last: seq<Action>)
    requires Looks(s, 0, DIMMER, [], [], Physical(true, 4))
    requires first == [LevelWrite(0, 127, 0), Deliver(0, false)]
    requires last == [Tick(2001), Event(WemoEvent(7, true, 1, 4))]
    ensures Looks(Run(s, first + last), 2001, DIMMER.(levelUntil := 2000), [], [Outcome(HALF, false)], Physical(true, 4))
  {
    assert ToMatter(4) == 10;
    WriteRefused(s);
    RunPair(s, first[0], first[1], last);
    Ending(Step(Step(s, first[0]), first[1]), [Outcome(HALF, false)], Physical(true, 4));
  }

  lemma Ends(s: System, acts: seq<Action>, n: nat, m: int, l: Light, history: seq<Outcome>, p: Physical)
    requires Looks(Run(s, acts), 2001, l, [], history, p) && l.commandedOnOff == l.commandedLevel == -1
    requires n < |acts| && acts[n] == LevelWrite(0, m, 0) && CommandsLevel(Run(s, acts[..n]), acts[n], 0)
    requires forall k :: n < k < |acts| ==> !acts[k].LevelWrite?
    requires 0 <= m <= 255 && 0 <= p.percent <= 100 && p.percent != ToPercent(m) && l.level == ToMatter(p.percent) != m
    ensures LastWriteLost(s, acts, n, m) && Run(s, acts).history == history
  {
  }

  /** The controller writes 254, then 127, and the second thread calls first. Every call is
      accepted, and the device stays at 100 percent and the light at 254. */
  lemma ReorderedSendsLoseTheLastWrite()
    ensures exists acts :: LastWriteLost(OneDimmer(), acts, 1, 127) && AllAccepted(Run(OneDimmer(), acts).history)
  {
    OneDimmerPublished();
    var acts := OvertakenRun(OneDimmer());
  }

  lemma OvertakenRun(s: System) returns (acts: seq<Action>)
    requires Looks(s, 0, DIMMER, [], [], Physical(true, 4))
    ensures LastWriteLost(s, acts, 1, 127) && AllAccepted(Run(s, acts).history)
  {
    var writes, calls := [LevelWrite(0, 254, 0), LevelWrite(0, 127, 0)], [Deliver(1, true), Deliver(0, true)];
    var last := [Tick(2001), Event(WemoEvent(7, true, 1, 100))];
    Overtaken(s, writes, calls, last);
    FirstWrite(s);
    acts := writes + (calls + last);
    assert acts[..1] == [LevelWrite(0, 254, 0)];
    assert ToMatter(100) == 254 && ToPercent(127) == 50;
    Ends(s, acts, 1, 127, DIMMER.(level := 254, levelUntil := 2000), [Outcome(HALF, true), Outcome(FULL, true)], Physical(true, 100));
  }

  /** The controller writes 127 and the engine refuses the call: the device stays at 4
      percent, and after the window the light falls back to 10. */
  lemma RefusedSendUndoesTheWrite()
    ensures exists acts :: LastWriteLost(OneDimmer(), acts, 0, 127) && !AllAccepted(Run(OneDimmer(), acts).history)
  {
    OneDimmerPublished();
    var acts := UndoneRun(OneDimmer());
  }

  lemma UndoneRun(s: System) returns (acts: seq<Action>)
    requires Looks(s, 0, DIMMER, [], [], Physical(true, 4))
    ensures LastWriteLost(s, acts, 0, 127) && !AllAccepted(Run(s, acts).history)
  {
    var first, last := [LevelWrite(0, 127, 0), Deliver(0, false)], [Tick(2001), Event(WemoEvent(7, true, 1, 4))];
    Undone(s, first, last);
    FirstWrite(s);
    acts := first + last;
    assert acts[..0] == [];
    assert ToMatter(4) == 10 && ToPercent(127) == 50;
    Ends(s, acts, 0, 127, DIMMER.(levelUntil := 2000), [Outcome(HALF, false)], Physical(true, 4));
    assert !Run(s, acts).history[0].accepted;
  }
}
