/**
 What subscribers see: reports go out exactly for changes, for the endpoint that changed,
 and a subscriber that reads on every report never misses the current value.
 */
module Reporting {
  import opened Lights
  import opened Runs

  /** All reports ever scheduled, drained or still queued. */
  function Scheduled(s: System): seq<Report> {
    s.drained + s.reports
  }

  /** What a subscriber must have read at an attribute to be up to date with a light. */
  predicate UpToDate(seen: map<Report, int>, l: Light, a: Attribute) {
    var r := Report(l.endpoint, a);
    && r in seen
    && match a
       case Reachable => seen[r] == if l.reachable then 1 else 0
       case OnOff => seen[r] == if l.on then 1 else 0
       case CurrentLevel => seen[r] == l.level
  }

  /** In every run, if what a subscriber last read at an observed light is not its cached state,
      reachability or level, a report for that attribute of that endpoint is still queued; once
      the queue is drained the subscriber is up to date. */
  lemma SubscriberCoherence(s: System, acts: seq<Action>, i: nat, a: Attribute)
    requires Init(s) && i < |Run(s, acts).lights| && Run(s, acts).lights[i].observed
    ensures var t := Run(s, acts);
            var r := Report(t.lights[i].endpoint, a);
            && (!UpToDate(t.seen, t.lights[i], a) ==> r in t.reports)
            && (t.reports == [] ==> UpToDate(t.seen, t.lights[i], a))
  {
    InitInv(s);
    RunKeepsInv(s, acts);
    assert Coherent(Run(s, acts), Run(s, acts).lights[i], a);
    ReadingShows(Run(s, acts).lights[i]);
  }

  /** How many actions of a run change what light `i` shows at an attribute. */
  function TimesChanged(s: System, acts: seq<Action>, i: nat, a: Attribute): nat
    decreases |acts|
  {
    if acts == [] then 0 else
    var t := Step(s, acts[0]);
    (if i < |s.lights| && i < |t.lights| && Reading(s.lights[i], a) != Reading(t.lights[i], a) then 1 else 0)
    + TimesChanged(t, acts[1..], i, a)
  }

  lemma ChangesCount(l: Light, k: Light, endpoint: int, a: Attribute)
    ensures multiset(Changes(l, k))[Report(endpoint, a)]
            == if l.observed && l.endpoint == endpoint && Reading(l, a) != Reading(k, a) then 1 else 0
  {
    match a
    case Reachable =>
    case OnOff =>
    case CurrentLevel =>
  }

  /** Reports of one handler come in the order reachability, on/off, level. */
  lemma ChangesInOrder(l: Light, k: Light, i: nat, j: nat)
    requires i < j < |Changes(l, k)|
    ensures var x, y := Changes(l, k)[i].attribute, Changes(l, k)[j].attribute;
            (x == Reachable && y != Reachable) || (x == OnOff && y == CurrentLevel)
  {
  }

  /** The one light an action may change, or the number of lights. */
  function Touched(s: System, a: Action): (i: nat)
    ensures i <= |s.lights|
  {
    match a
    case OnOffWrite(i, _) => if Accepts(s, a) then i else |s.lights|
    case LevelWrite(i, _, _) => if Accepts(s, a) then i else |s.lights|
    case Event(ev) => Find(s.lights, ev.wemoId)
    case _ => |s.lights|
  }

  lemma StepTouches(s: System, a: Action)
    ensures var t := Step(s, a);
            var i := Touched(s, a);
            && |s.lights| == |t.lights|
            && (forall j :: 0 <= j < |s.lights| && j != i ==> t.lights[j] == s.lights[j])
            && (i < |s.lights| ==> SameIdentity(s.lights[i], t.lights[i]))
  {
    var i := Touched(s, a);
    if i < |s.lights| {
      var l := s.lights[i];
      match a
      case OnOffWrite(_, target) => HandlersKeepIdentity(l, target, 0, WemoEvent(0, false, 0, 0), s.clock, 0, s.window);
      case LevelWrite(_, m, pause) =>
        HandlersKeepIdentity(l, false, m, WemoEvent(0, false, 0, 0), s.clock, s.clock + pause, s.window);
      case Event(ev) => HandlersKeepIdentity(l, false, 0, ev, s.clock, 0, s.window);
    } else {
      assert Step(s, a).lights == s.lights;
    }
  }

  /** No run changes what a light is: its ids, its endpoint and whether it is observed. */
  lemma {:induction false} IdentitiesKept(s: System, acts: seq<Action>)
    ensures |Run(s, acts).lights| == |s.lights|
    ensures forall i :: 0 <= i < |s.lights| ==> SameIdentity(s.lights[i], Run(s, acts).lights[i])
    decreases |acts|
  {
    if acts != [] {
      IdentitiesKept(Step(s, acts[0]), acts[1..]);
      StepTouches(s, acts[0]);
    }
  }

  /** An action schedules the reports of the light it touches. */
  lemma StepSchedules(s: System, a: Action)
    requires !a.Drain? && |Step(s, a).lights| == |s.lights|
    ensures var t := Step(s, a);
            var i := Touched(s, a);
            && t.drained == s.drained
            && t.reports == s.reports + (if i < |s.lights| then Changes(s.lights[i], t.lights[i]) else [])
  {
    var i := Touched(s, a);
    if i < |s.lights| {
      var l := Step(s, a).lights[i];
      assert Step(s, a).reports == Replace(s, i, l).reports;
    }
  }

  lemma DrainSchedules(s: System)
    ensures Scheduled(Step(s, Drain)) == Scheduled(s)
  {
    if s.reports != [] {
      assert s.reports == [s.reports[0]] + s.reports[1..];
      assert s.drained + [s.reports[0]] + s.reports[1..] == s.drained + s.reports;
    }
  }

  lemma StepAdds(s: System, a: Action)
    ensures var i := Touched(s, a);
            && |Step(s, a).lights| == |s.lights|
            && Scheduled(Step(s, a))
               == Scheduled(s) + (if i < |s.lights| then Changes(s.lights[i], Step(s, a).lights[i]) else [])
  {
    StepTouches(s, a);
    if a.Drain? {
      DrainSchedules(s);
    } else {
      StepSchedules(s, a);
    }
  }

  lemma StepCounts(s: System, a: Action, i: nat, attr: Attribute)
    requires DistinctEndpoints(s.lights) && i < |s.lights| && s.lights[i].observed
    ensures var t := Step(s, a);
            var r := Report(s.lights[i].endpoint, attr);
            && DistinctEndpoints(t.lights) && i < |t.lights| && SameIdentity(s.lights[i], t.lights[i])
            && multiset(Scheduled(t))[r] == multiset(Scheduled(s))[r]
               + (if Reading(s.lights[i], attr) != Reading(t.lights[i], attr) then 1 else 0)
  {
    var t, n := Step(s, a), Touched(s, a);
    StepTouches(s, a);
    StepAdds(s, a);
    if n < |s.lights| {
      ChangesCount(s.lights[n], t.lights[n], s.lights[i].endpoint, attr);
    }
  }

  /** Over a run, the reports scheduled for an attribute of an observed light are exactly as
      many as its actual changes. */
  lemma {:induction false} ReportsCountChanges(s: System, acts: seq<Action>, i: nat, a: Attribute)
    requires DistinctEndpoints(s.lights) && i < |s.lights| && s.lights[i].observed
    ensures var r := Report(s.lights[i].endpoint, a);
            multiset(Scheduled(Run(s, acts)))[r]
            == multiset(Scheduled(s))[r] + TimesChanged(s, acts, i, a)
    decreases |acts|
  {
    if acts != [] {
      StepCounts(s, acts[0], i, a);
      ReportsCountChanges(Step(s, acts[0]), acts[1..], i, a);
    }
  }
}
