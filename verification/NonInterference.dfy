/**
 Engine events cannot influence what the bridge sends to the devices, except through
 reachability: the commands of a run are a function of its timed controller writes and of
 whether the light was reachable at each of them.
 */
module NonInterference {
  import opened Levels
  import opened Lights
  import opened Runs

  /** What a run shows of a controller write that reached a handler's endpoint: the clock
      readings, the light, the written value and whether the light was reachable. */
  datatype Write =
    | OnOffSeen(at: int, light: nat, target: bool, reachable: bool)
    | LevelSeen(at: int, later: int, light: nat, level: int, reachable: bool)

  /** Writes of one action; those the data model would not route at all are not seen. */
  function Seen(s: System, a: Action): seq<Write> {
    match a
    case OnOffWrite(i, target) =>
      if i < |s.lights| then [OnOffSeen(s.clock, i, target, s.lights[i].reachable)] else []
    case LevelWrite(i, m, pause) =>
      if i < |s.lights| && s.lights[i].dimmable && 0 <= m <= 255
      then [LevelSeen(s.clock, s.clock + pause, i, m, s.lights[i].reachable)] else []
    case _ => []
  }

  function Writes(s: System, acts: seq<Action>): seq<Write>
    decreases |acts|
  {
    if acts == [] then [] else Seen(s, acts[0]) + Writes(Step(s, acts[0]), acts[1..])
  }

  /** The event-free reference: the only state is, per light, the deadline of its last on/off
      command. */
  function Replay(deadlines: map<nat, int>, writes: seq<Write>, window: nat): seq<Sent>
    decreases |writes|
  {
    if writes == [] then [] else
    var w := writes[0];
    if !w.reachable then Replay(deadlines, writes[1..], window) else
    match w
    case OnOffSeen(at, i, target, _) =>
      [Sent(at, i, SetOnOff(target))] + Replay(deadlines[i := at + window], writes[1..], window)
    case LevelSeen(at, later, i, m, _) =>
      if (i in deadlines && at <= deadlines[i]) || m <= 1 || m > 255
      then Replay(deadlines, writes[1..], window)
      else [Sent(later, i, SetLevel(ToPercent(m)))] + Replay(deadlines, writes[1..], window)
  }

  /** The deadlines a state remembers. */
  function Deadlines(s: System): map<nat, int> {
    map i: nat | i < |s.lights| && s.lights[i].commandedOnOff >= 0 :: s.lights[i].onOffUntil
  }

  /** The marks of a state and a record of deadlines agree on which windows are open: a light
      may have lost its mark, but only once the window was over. */
  ghost predicate Agrees(s: System, deadlines: map<nat, int>) {
    forall i: nat :: i < |s.lights| ==>
      (if s.lights[i].commandedOnOff >= 0 then i in deadlines && deadlines[i] == s.lights[i].onOffUntil
       else i in deadlines ==> s.clock > deadlines[i])
  }

  /** The log entries one action adds. */
  function Added(s: System, a: Action): seq<Sent> {
    if !Accepts(s, a) then [] else
    match a
    case OnOffWrite(i, target) => [Sent(s.clock, i, SetOnOff(target))]
    case LevelWrite(i, m, pause) =>
      var c := WriteLevel(s.lights[i], m, s.clock, s.clock + pause, s.window).1;
      if c.Some? then [Sent(s.clock + pause, i, c.value)] else []
    case _ => []
  }

  lemma StepLog(s: System, a: Action)
    ensures Step(s, a).log == s.log + Added(s, a)
    ensures Step(s, a).window == s.window
  {
  }

  function Note(deadlines: map<nat, int>, s: System, a: Action): map<nat, int> {
    if Accepts(s, a) && a.OnOffWrite? then deadlines[a.light := s.clock + s.window] else deadlines
  }

  lemma NoteAgrees(s: System, a: Action, deadlines: map<nat, int>)
    requires Agrees(s, deadlines)
    ensures Agrees(Step(s, a), Note(deadlines, s, a))
  {
    if a.Event? {
      var i := Find(s.lights, a.event.wemoId);
      if i < |s.lights| {
        MarkOutlivesEvent(s.lights[i], a.event, s.clock);
      }
    }
  }

  /** One action's commands are those the reference derives from what was seen of it. */
  lemma StepReplays(s: System, a: Action, deadlines: map<nat, int>, rest: seq<Write>)
    requires Agrees(s, deadlines)
    ensures Replay(deadlines, Seen(s, a) + rest, s.window)
            == Added(s, a) + Replay(Note(deadlines, s, a), rest, s.window)
  {
    var seen := Seen(s, a);
    if seen == [] {
      assert seen + rest == rest;
    } else {
      assert (seen + rest)[1..] == rest;
      if a.LevelWrite? {
        LevelWriteAcceptedIff(s.lights[a.light], a.level, s.clock, s.clock + a.pause, s.window);
      }
    }
  }

  lemma Unroll(s: System, acts: seq<Action>)
    requires acts != []
    ensures Run(s, acts) == Run(Step(s, acts[0]), acts[1..])
    ensures Writes(s, acts) == Seen(s, acts[0]) + Writes(Step(s, acts[0]), acts[1..])
  {
  }

  /** From the tail of a log to the whole log. */
  lemma Glue(before: seq<Sent>, added: seq<Sent>, rest: seq<Sent>, middle: seq<Sent>, log: seq<Sent>, all: seq<Sent>)
    requires middle == before + added && log == middle + rest && all == added + rest
    ensures log == before + all
  {
  }

  /** The commands of a run are a function of its writes: events, ticks, deliveries and
      report drains only matter through clock readings and reachability. */
  lemma {:induction false} LogIsReplay(s: System, acts: seq<Action>, deadlines: map<nat, int>)
    requires Agrees(s, deadlines)
    ensures Run(s, acts).log == s.log + Replay(deadlines, Writes(s, acts), s.window)
    decreases |acts|
  {
    if acts != [] {
      var a, rest := acts[0], acts[1..];
      var t, n := Step(s, a), Note(deadlines, s, a);
      NoteAgrees(s, a, deadlines);
      LogIsReplay(t, rest, n);
      var w := Writes(t, rest);
      StepLog(s, a);
      StepReplays(s, a, deadlines, w);
      Unroll(s, acts);
      Glue(s.log, Added(s, a), Replay(n, w, s.window), t.log, Run(s, acts).log, Replay(deadlines, Seen(s, a) + w, s.window));
    }
  }

  /** Two runs with the same timed writes and the same reachability at each write dispatch the
      same commands, however different their events, cached states and deliveries. */
  lemma EventsDoNotInterfere(s: System, acts: seq<Action>, t: System, bcts: seq<Action>)
    requires s.window == t.window && Deadlines(s) == Deadlines(t)
    requires Writes(s, acts) == Writes(t, bcts)
    ensures |Run(s, acts).log| >= |s.log| && |Run(t, bcts).log| >= |t.log|
    ensures Run(s, acts).log[|s.log|..] == Run(t, bcts).log[|t.log|..]
  {
    assert Agrees(s, Deadlines(s)) && Agrees(t, Deadlines(t));
    LogIsReplay(s, acts, Deadlines(s));
    LogIsReplay(t, bcts, Deadlines(t));
  }
}
