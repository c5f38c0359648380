/**
 What the settle window guarantees over whole runs: a commanded value is what controllers
 read until the window closes, whatever events arrive, and level commands wait for on/off
 windows.
 */
module SettleWindow {
  import opened Levels
  import opened Lights
  import opened Runs

  /** The action carries out an on/off write to light `i`. */
  predicate CommandsOnOff(s: System, a: Action, i: nat) {
    a.OnOffWrite? && a.light == i && Accepts(s, a)
  }

  /** The action carries out a level write to light `i`. */
  predicate CommandsLevel(s: System, a: Action, i: nat) {
    && a.LevelWrite? && a.light == i && Accepts(s, a)
    && WriteLevel(s.lights[i], a.level, s.clock, s.clock + a.pause, s.window).1.Some?
  }

  predicate NoOnOffCommand(s: System, acts: seq<Action>, i: nat)
    decreases |acts|
  {
    acts == [] || (!CommandsOnOff(s, acts[0], i) && NoOnOffCommand(Step(s, acts[0]), acts[1..], i))
  }

  predicate NoLevelCommand(s: System, acts: seq<Action>, i: nat)
    decreases |acts|
  {
    acts == [] || (!CommandsLevel(s, acts[0], i) && NoLevelCommand(Step(s, acts[0]), acts[1..], i))
  }

  predicate HoldsOnOff(s: System, i: nat, target: bool, until: int) {
    i < |s.lights| &&
    (s.clock > until
     || (s.lights[i].on == target && s.lights[i].onOffUntil == until
         && s.lights[i].commandedOnOff == (if target then 1 else 0)))
  }

  predicate HoldsLevel(s: System, i: nat, m: int, until: int) {
    i < |s.lights| &&
    (s.clock > until
     || (s.lights[i].level == s.lights[i].commandedLevel == m && s.lights[i].levelUntil == until))
  }

  lemma {:induction false} OnOffHeldOverRun(s: System, acts: seq<Action>, i: nat, target: bool, until: int)
    requires HoldsOnOff(s, i, target, until) && NoOnOffCommand(s, acts, i)
    ensures HoldsOnOff(Run(s, acts), i, target, until)
    decreases |acts|
  {
    if acts != [] {
      assert HoldsOnOff(Step(s, acts[0]), i, target, until);
      OnOffHeldOverRun(Step(s, acts[0]), acts[1..], i, target, until);
    }
  }

  lemma LevelHeldOverStep(s: System, a: Action, i: nat, m: int, until: int)
    requires 2 <= m <= 255 && HoldsLevel(s, i, m, until) && !CommandsLevel(s, a, i)
    ensures HoldsLevel(Step(s, a), i, m, until)
  {
    if a.LevelWrite? && a.light == i && Accepts(s, a) {
      LevelWriteAcceptedIff(s.lights[i], a.level, s.clock, s.clock + a.pause, s.window);
    }
  }

  lemma {:induction false} LevelHeldOverRun(s: System, acts: seq<Action>, i: nat, m: int, until: int)
    requires 2 <= m <= 255 && HoldsLevel(s, i, m, until) && NoLevelCommand(s, acts, i)
    ensures HoldsLevel(Run(s, acts), i, m, until)
    decreases |acts|
  {
    if acts != [] {
      LevelHeldOverStep(s, acts[0], i, m, until);
      LevelHeldOverRun(Step(s, acts[0]), acts[1..], i, m, until);
    }
  }

  /** After an on/off write at time t, every state of every run up to t + window shows the
      commanded value, unless a later on/off write to the same light is carried out. Stale
      events, level writes and the order of deliveries make no difference. */
  lemma OnOffSettleSafety(s: System, i: nat, target: bool, acts: seq<Action>)
    requires Accepts(s, OnOffWrite(i, target))
    requires NoOnOffCommand(Step(s, OnOffWrite(i, target)), acts, i)
    ensures var t := Run(Step(s, OnOffWrite(i, target)), acts);
            i < |t.lights| && (t.clock <= s.clock + s.window ==> t.lights[i].on == target)
  {
    OnOffHeldOverRun(Step(s, OnOffWrite(i, target)), acts, i, target, s.clock + s.window);
  }

  /** The same for levels; the window runs from the handler's second clock reading. */
  lemma LevelSettleSafety(s: System, i: nat, m: int, pause: nat, acts: seq<Action>)
    requires CommandsLevel(s, LevelWrite(i, m, pause), i)
    requires NoLevelCommand(Step(s, LevelWrite(i, m, pause)), acts, i)
    ensures var t := Run(Step(s, LevelWrite(i, m, pause)), acts);
            i < |t.lights| && (t.clock <= s.clock + pause + s.window ==> t.lights[i].level == m)
  {
    LevelWriteAcceptedIff(s.lights[i], m, s.clock, s.clock + pause, s.window);
    LevelHeldOverRun(Step(s, LevelWrite(i, m, pause)), acts, i, m, s.clock + pause + s.window);
  }

  /** In every run, marks agree with the cache even past their deadline: an event drops a
      mark before it may change the value. */
  lemma MarksAgreeWithCache(s: System, acts: seq<Action>, i: nat)
    requires Init(s) && i < |Run(s, acts).lights|
    ensures var l := Run(s, acts).lights[i];
            && (l.commandedOnOff >= 0 ==> l.on == (l.commandedOnOff == 1))
            && (l.commandedLevel >= 0 ==> l.level == l.commandedLevel >= 2)
  {
    InitInv(s);
    RunKeepsInv(s, acts);
  }

  /** In every run a level command goes out strictly after the settle deadline of every
      earlier on/off command to that light. */
  lemma LevelCommandsWaitOutOnOff(s: System, acts: seq<Action>, j: nat, k: nat)
    requires Init(s) && j < k < |Run(s, acts).log|
    ensures var log := Run(s, acts).log;
            && log[j].at <= log[k].at
            && (log[j].light == log[k].light && log[j].command.SetOnOff? && log[k].command.SetLevel?
                ==> log[k].at > log[j].at + Run(s, acts).window)
  {
    InitInv(s);
    RunKeepsInv(s, acts);
    assert Apart(Run(s, acts).log[j], Run(s, acts).log[k], Run(s, acts).window);
  }

  /** In every run a dispatched level command asks for 1 to 100 percent, never for off. */
  lemma LevelCommandsMeanOn(s: System, acts: seq<Action>, k: nat)
    requires Init(s) && k < |Run(s, acts).log| && Run(s, acts).log[k].command.SetLevel?
    ensures 1 <= Run(s, acts).log[k].command.percent <= 100
  {
    InitInv(s);
    RunKeepsInv(s, acts);
    assert Lit(Run(s, acts).log[k]);
  }

  // ---------------------------------------------------------------- after the window

  predicate Settled(s: System, i: nat)
    requires i < |s.lights|
  {
    var l := s.lights[i];
    (l.commandedOnOff < 0 || s.clock > l.onOffUntil) && (l.commandedLevel < 0 || s.clock > l.levelUntil)
  }

  /** The windows that hold this event back are over: the on/off window, and for the level of
      a dimmable light the level window. */
  predicate Unhindered(l: Light, ev: WemoEvent, now: int) {
    !OnOffOpen(l, now) && (l.dimmable && ev.level >= 0 ==> !LevelOpen(l, now))
  }

  /** Once no window holds it back, the first online event sets a light to the state it
      carries, and a dimmable one to the level if it carries one, and drops the marks; repeating
      the event at any later time changes no light and schedules no report. */
  lemma FirstEventAfterWindow(s: System, i: nat, ev: WemoEvent, elapsed: nat)
    requires i < |s.lights| && Find(s.lights, ev.wemoId) == i && ev.online
    requires Unhindered(s.lights[i], ev, s.clock) && LightInv(s.lights[i])
    ensures var t := Step(s, Event(ev));
            var l := t.lights[i];
            var again := Step(Step(t, Tick(elapsed)), Event(ev));
            && l.reachable && l.on == (ev.state != 0) && l.commandedOnOff == -1
            && (if s.lights[i].dimmable && ev.level >= 0 then l.level == ToMatter(ev.level) && l.commandedLevel == -1
                else l.level == s.lights[i].level && l.commandedLevel == s.lights[i].commandedLevel)
            && again.lights == t.lights && again.reports == t.reports
  {
    var t := Step(s, Event(ev));
    var l := HandleEvent(s.lights[i], ev, s.clock);
    EventStep(s, ev);
    EventTwice(s.lights[i], ev, s.clock, t.clock + elapsed);
    FindStable(s.lights, i, l, ev.wemoId);
    EventStep(Step(t, Tick(elapsed)), ev);
    assert t.lights[i := l] == t.lights && t.reports + [] == t.reports;
  }

  lemma EventTwice(l: Light, ev: WemoEvent, now: int, later: int)
    requires ev.online && Unhindered(l, ev, now) && LightInv(l)
    ensures var r := HandleEvent(l, ev, now);
            && HandleEvent(r, ev, later) == r && SameIdentity(l, r)
            && r.reachable && r.on == (ev.state != 0) && r.commandedOnOff == -1
            && (if l.dimmable && ev.level >= 0 then r.level == ToMatter(ev.level) && r.commandedLevel == -1
                else r.level == l.level && r.commandedLevel == l.commandedLevel)
  {
  }

  /** Replacing a light by one of the same identity leaves event routing alone. */
  lemma FindStable(lights: seq<Light>, i: nat, l: Light, wemoId: int)
    requires i < |lights| && SameIdentity(lights[i], l)
    ensures Find(lights[i := l], wemoId) == Find(lights, wemoId)
  {
    assert forall k :: 0 <= k < |lights| ==> lights[i := l][k].wemoId == lights[k].wemoId;
  }
}
