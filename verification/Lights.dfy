/**
 One bridged light as a value: what the Matter side caches about it, and the command marks
 that hold back stale events for a settle window. The functions here specify the three
 handlers that change it; the class in Bridge.dfy is proved to compute them.
 */
module Lights {
  import opened Options
  import opened Levels

  /** Attributes whose changes are reported to subscribers. */
  datatype Attribute = Reachable | OnOff | CurrentLevel

  datatype Report = Report(endpoint: int, attribute: Attribute)

  /** `commandedOnOff` and `commandedLevel` are -1 when there is no mark. `observed` says that
      the change callback is installed. */
  datatype Light = Light(
    wemoId: int, udn: string, dimmable: bool, endpoint: int, observed: bool,
    reachable: bool, on: bool, level: int,
    commandedOnOff: int, onOffUntil: int, commandedLevel: int, levelUntil: int)

  /** A state event of the engine; `level` is -1 when the device has none. */
  datatype WemoEvent = WemoEvent(wemoId: int, online: bool, state: int, level: int)

  /** What a detached sender thread asks of the adapter. */
  datatype Command = SetOnOff(on: bool) | SetLevel(percent: int)

  // ---------------------------------------------------------------- the handlers

  /** An accepted on/off write. */
  function WriteOnOff(l: Light, target: bool, now: int, window: nat): Light {
    l.(on := target, commandedOnOff := if target then 1 else 0, onOffUntil := now + window)
  }

  /** The on/off mark is dropped once `now` is past its deadline. */
  function ExpireOnOff(l: Light, now: int): Light {
    if l.commandedOnOff >= 0 && now > l.onOffUntil then l.(commandedOnOff := -1) else l
  }

  /** A level write to a reachable light. `now` decides whether it is ignored; `later`, the
      second clock reading, starts the settle window. */
  function WriteLevel(l: Light, m: int, now: int, later: int, window: nat): (Light, Option<Command>)
    requires 0 <= m <= 255
  {
    var e := ExpireOnOff(l, now);
    if e.commandedOnOff >= 0 then (e, None)
    else if m <= 1 then (e, None)
    else (e.(level := m, commandedLevel := m, levelUntil := later + window), Some(SetLevel(ToPercent(m))))
  }

  function EventOnOff(l: Light, newOn: bool, now: int): Light {
    var e := ExpireOnOff(l, now);
    if e.commandedOnOff >= 0 && e.commandedOnOff != (if newOn then 1 else 0) then e else e.(on := newOn)
  }

  function EventLevel(l: Light, level: int, now: int): Light
    requires level >= 0
  {
    var e := if l.commandedLevel >= 0 && now > l.levelUntil then l.(commandedLevel := -1) else l;
    if e.commandedLevel >= 0 && e.commandedLevel % 256 != ToMatter(level) then e
    else e.(level := ToMatter(level))
  }

  /** An engine event for this light. */
  function HandleEvent(l: Light, ev: WemoEvent, now: int): Light {
    var r := l.(reachable := ev.online);
    if !ev.online then r else
    var o := EventOnOff(r, ev.state != 0, now);
    if o.dimmable && ev.level >= 0 then EventLevel(o, ev.level, now) else o
  }

  // ---------------------------------------------------------------- reports

  /** The cached value a subscriber reads at an attribute. */
  function Reading(l: Light, a: Attribute): int {
    match a
    case Reachable => if l.reachable then 1 else 0
    case OnOff => if l.on then 1 else 0
    case CurrentLevel => l.level
  }

  function ReportIf(before: Light, after: Light, a: Attribute): seq<Report> {
    if before.observed && Reading(before, a) != Reading(after, a) then [Report(before.endpoint, a)] else []
  }

  /** The reports a handler schedules: one for each attribute it changed, in this order. */
  function Changes(before: Light, after: Light): seq<Report> {
    ReportIf(before, after, Reachable) + ReportIf(before, after, OnOff) + ReportIf(before, after, CurrentLevel)
  }

  /** What subscribers read: 1 or 0 for the flags, and the level itself. */
  lemma ReadingShows(l: Light)
    ensures Reading(l, OnOff) == 1 <==> l.on
    ensures Reading(l, OnOff) == 0 <==> !l.on
    ensures Reading(l, Reachable) == 1 <==> l.reachable
    ensures Reading(l, Reachable) == 0 <==> !l.reachable
    ensures Reading(l, CurrentLevel) == l.level
  {
  }

  // ---------------------------------------------------------------- facts about one step

  /** What never changes about a light once it is published. */
  predicate SameIdentity(l: Light, k: Light) {
    && l.wemoId == k.wemoId && l.udn == k.udn && l.dimmable == k.dimmable
    && l.endpoint == k.endpoint && l.observed == k.observed
  }

  lemma HandlersKeepIdentity(l: Light, target: bool, m: int, ev: WemoEvent, now: int, later: int, window: nat)
    ensures SameIdentity(l, WriteOnOff(l, target, now, window))
    ensures 0 <= m <= 255 ==> SameIdentity(l, WriteLevel(l, m, now, later, window).0)
    ensures SameIdentity(l, HandleEvent(l, ev, now))
  {
  }

  /** A mark, once set, agrees with the cache, and a commanded level is never one that means off. */
  predicate LightInv(l: Light) {
    && -1 <= l.commandedOnOff <= 1
    && (l.commandedOnOff >= 0 ==> l.on == (l.commandedOnOff == 1))
    && 0 <= l.level <= 255
    && (l.commandedLevel == -1 || (l.dimmable && 2 <= l.commandedLevel <= 255 && l.level == l.commandedLevel))
  }

  lemma WriteKeepsInv(l: Light, target: bool, m: int, now: int, later: int, window: nat)
    requires LightInv(l)
    ensures LightInv(WriteOnOff(l, target, now, window)) && SameIdentity(l, WriteOnOff(l, target, now, window))
    ensures 0 <= m <= 255 && l.dimmable ==>
              var r := WriteLevel(l, m, now, later, window).0; LightInv(r) && SameIdentity(l, r)
  {
  }

  lemma EventKeepsInv(l: Light, ev: WemoEvent, now: int)
    requires LightInv(l)
    ensures LightInv(HandleEvent(l, ev, now)) && SameIdentity(l, HandleEvent(l, ev, now))
  {
    if ev.level >= 0 {
      var m := ToMatter(ev.level);
      assert 0 <= m <= 255;
    }
  }

  /** A level write is carried out exactly when no on/off window is open and the level is not
      the synthetic minimum; then it commands a percentage that means on. */
  lemma LevelWriteAcceptedIff(l: Light, m: int, now: int, later: int, window: nat)
    requires 0 <= m <= 255
    ensures var (r, c) := WriteLevel(l, m, now, later, window);
            && (c.Some? <==> !(l.commandedOnOff >= 0 && now <= l.onOffUntil) && m >= 2)
            && (c.Some? ==> c.value == SetLevel(ToPercent(m)) && 1 <= c.value.percent <= 100
                            && (if m == 2 then c.value.percent == 1
                                else 254 * c.value.percent <= 100 * m < 254 * c.value.percent + 254)
                            && r.level == r.commandedLevel == m && r.levelUntil == later + window)
            && (c.None? ==> r.level == l.level && r.commandedLevel == l.commandedLevel && r.levelUntil == l.levelUntil)
            && r.on == l.on && r.reachable == l.reachable && r.onOffUntil == l.onOffUntil
            && (if l.commandedOnOff >= 0 && now <= l.onOffUntil then r.commandedOnOff == l.commandedOnOff
                else r.commandedOnOff < 0)
  {
    PercentRange(m);
    PercentExact(m);
  }

  /** A window is open while its mark is set and its deadline has not passed. */
  predicate OnOffOpen(l: Light, now: int) {
    l.commandedOnOff >= 0 && now <= l.onOffUntil
  }

  predicate LevelOpen(l: Light, now: int) {
    l.commandedLevel >= 0 && now <= l.levelUntil
  }

  /** The whole visible effect of an event: reachability always follows; an online event also
      sets on/off unless that window is open, and the level of a dimmable light unless the
      level window is open. Whether it confirms the command makes no difference. */
  lemma EventEffect(l: Light, ev: WemoEvent, now: int)
    requires LightInv(l)
    ensures var r := HandleEvent(l, ev, now);
            && r.reachable == ev.online
            && r.on == (if ev.online && !OnOffOpen(l, now) then ev.state != 0 else l.on)
            && r.level == (if ev.online && l.dimmable && ev.level >= 0 && !LevelOpen(l, now)
                           then ToMatter(ev.level) else l.level)
            && (OnOffOpen(r, now) <==> OnOffOpen(l, now)) && (LevelOpen(r, now) <==> LevelOpen(l, now))
            && (!ev.online ==> r == l.(reachable := false))
  {
  }
}
