/**
 The application's globals and the handlers that change them in place. Each handler is proved
 to take the abstract system of Runs.dfy through the step that models it, so every run-level
 theorem holds of the globals.
 */
module Bridge {
  import opened Options
  import opened Levels
  import opened Lights
  import opened Runs
  import opened Devices
  import opened Endpoints
  import opened Adapter
  import opened Publishing

  /** A detached sender thread and what it captured. */
  datatype Spawn = Spawn(udn: string, command: Command)

  datatype AttributeId = OnOffAttribute | CurrentLevelAttribute | OtherAttribute

  datatype Cluster = OnOffCluster | LevelControlCluster

  /** The one attribute of a cluster that a controller can write. */
  function Served(c: Cluster): AttributeId {
    match c
    case OnOffCluster => OnOffAttribute
    case LevelControlCluster => CurrentLevelAttribute
  }

  /** The abstract action of a write that is taken. */
  function Written(c: Cluster, i: nat, value: int, pause: nat): Action {
    match c
    case OnOffCluster => OnOffWrite(i, value != 0)
    case LevelControlCluster => LevelWrite(i, value, pause)
  }

  /** An entry of gBridgedWemoLights. */
  class BridgedLight {
    const wemoId: int
    const udn: string
    const isDimmable: bool
    const device: Device
    var commandedOnOff: int
    var onOffUntil: int
    var commandedLevel: int
    var levelUntil: int

    constructor (wemoId: int, udn: string, isDimmable: bool, device: Device)
      ensures this.wemoId == wemoId && this.udn == udn && this.isDimmable == isDimmable && this.device == device
      ensures commandedOnOff == commandedLevel == -1 && onOffUntil == levelUntil == 0
    {
      this.wemoId, this.udn, this.isDimmable, this.device := wemoId, udn, isDimmable, device;
      commandedOnOff, onOffUntil, commandedLevel, levelUntil := -1, 0, -1, 0;
    }

    ghost function View(): Light
      reads this, device
    {
      Light(wemoId, udn, isDimmable, device.endpointId, device.Observed(),
            device.reachable, device.on, device.level,
            commandedOnOff, onOffUntil, commandedLevel, levelUntil)
    }

    /** The entry is published: its callback is installed. */
    ghost predicate Ready()
      reads device
    {
      device.dimmable == isDimmable && device.Observed()
    }

    /** The cache and mark updates of an on/off write. */
    method TakeOnOff(targetOn: bool, now: int, window: nat, queue: WorkQueue)
      requires Ready()
      modifies this`commandedOnOff, this`onOffUntil, device`on, queue
      ensures View() == WriteOnOff(old(View()), targetOn, now, window)
      ensures queue.reports == old(queue.reports) + Changes(old(View()), View())
    {
      device.SetOnOff(targetOn, queue);
      commandedOnOff := if targetOn then 1 else 0;
      onOffUntil := now + window;
    }

    /** The tests and updates of a level write; `sent` with the percentage to command, unless
        the write is ignored. */
    method TakeLevel(matterLevel: int, now: int, later: int, window: nat, queue: WorkQueue)
      returns (sent: bool, wemoPercent: int)
      requires Ready() && isDimmable && 0 <= matterLevel <= 255
      modifies this`commandedOnOff, this`commandedLevel, this`levelUntil, device`level, queue
      ensures var (l, c) := WriteLevel(old(View()), matterLevel, now, later, window);
              View() == l && c == if sent then Some(SetLevel(wemoPercent)) else None
      ensures sent ==> if matterLevel == 2 then wemoPercent == 1
                       else 254 * wemoPercent <= 100 * matterLevel < 254 * wemoPercent + 254
      ensures queue.reports == old(queue.reports) + Changes(old(View()), View())
    {
      sent, wemoPercent := false, 0;
      if commandedOnOff >= 0 && now > onOffUntil {
        commandedOnOff := -1;
      }
      if commandedOnOff >= 0 && now <= onOffUntil {
        return;
      }
      if commandedOnOff < 0 && matterLevel <= 1 {
        return;
      }
      device.SetLevel(matterLevel, queue);
      wemoPercent := Uint8(matterLevel * 100 / 254);
      if matterLevel > 0 && wemoPercent == 0 {
        wemoPercent := 1;
      }
      PercentExact(matterLevel);
      commandedLevel := matterLevel;
      levelUntil := later + window;
      sent := true;
    }

    /** The on/off part of an online event. */
    method TakeEventOnOff(newOn: bool, now: int, queue: WorkQueue)
      requires Ready()
      modifies this`commandedOnOff, device`on, queue
      ensures View() == EventOnOff(old(View()), newOn, now)
      ensures queue.reports == old(queue.reports) + ReportIf(old(View()), View(), OnOff)
    {
      var newOnInt := if newOn then 1 else 0;
      var suppressOnOff := false;
      if commandedOnOff >= 0 {
        if now > onOffUntil {
          commandedOnOff := -1;
        } else if newOnInt != commandedOnOff {
          suppressOnOff := true;
        }
      }
      if !suppressOnOff && device.on != newOn {
        device.SetOnOff(newOn, queue);
      }
    }

    /** The level part of an online event. */
    method TakeEventLevel(level: int, now: int, queue: WorkQueue)
      requires Ready() && isDimmable && level >= 0
      modifies this`commandedLevel, device`level, queue
      ensures View() == EventLevel(old(View()), level, now)
      ensures queue.reports == old(queue.reports) + ReportIf(old(View()), View(), CurrentLevel)
    {
      var matterLevel := Uint8(Uint16(level) * 254 / 100);
      var suppressLevel := false;
      if commandedLevel >= 0 {
        if now > levelUntil {
          commandedLevel := -1;
        } else if matterLevel != commandedLevel % 256 {
          suppressLevel := true;
        }
      }
      if !suppressLevel && device.level != matterLevel {
        device.SetLevel(matterLevel, queue);
      }
    }

    method TakeEvent(ev: WemoEvent, now: int, queue: WorkQueue)
      requires Ready()
      modifies this, device, queue
      ensures View() == HandleEvent(old(View()), ev, now)
      ensures queue.reports == old(queue.reports) + Changes(old(View()), View())
    {
      if device.reachable != ev.online {
        device.SetReachable(ev.online, queue);
      }
      if ev.online {
        TakeEventOnOff(ev.state != 0, now, queue);
        if isDimmable && ev.level >= 0 {
          TakeEventLevel(ev.level, now, queue);
        }
      }
    }
  }

  class BridgeApp {
    const window: nat
    const queue: WorkQueue
    const table: EndpointTable
    var lights: seq<BridgedLight>
    var deviceToUdn: map<Device, string>
    var spawned: seq<Spawn>

    constructor (window: nat, capacity: nat)
      ensures this.window == window && lights == [] && deviceToUdn == map[] && spawned == []
      ensures fresh(queue) && fresh(table) && fresh(table.slots)
      ensures queue.reports == [] && table.slots.Length == capacity && table.NothingLive()
    {
      this.window := window;
      queue := new WorkQueue();
      table := new EndpointTable(capacity);
      lights, deviceToUdn, spawned := [], map[], [];
    }

    ghost function Entries(): set<BridgedLight>
      reads this
    {
      set l | l in lights
    }

    ghost function Devices(): set<Device>
      reads this
    {
      set l | l in lights :: l.device
    }

    /** The three tables agree: slot k holds the device of entry k under the stack's id for the
        slot, and the UDN map names exactly the entries' devices. */
    ghost predicate Valid()
      reads this, lights, Devices(), table, table.slots
    {
      && |lights| <= table.slots.Length == |table.stack| <= 255
      && (forall i, j :: 0 <= i < j < |lights| ==>
            && lights[i] != lights[j] && lights[i].device != lights[j].device
            && lights[i].device.endpointId != lights[j].device.endpointId)
      && (forall i :: 0 <= i < |lights| ==>
            && lights[i].device.dimmable == lights[i].isDimmable && lights[i].device.Observed()
            && lights[i].device in deviceToUdn && deviceToUdn[lights[i].device] == lights[i].udn
            && table.slots[i] == lights[i].device && table.stack[i] == Some(lights[i].device.endpointId))
      && (forall i :: |lights| <= i < table.slots.Length ==> table.slots[i] == null && table.stack[i] == None)
      && deviceToUdn.Keys == Devices()
    }

    /** The globals are those of the abstract system; what the network and the devices do is
        not theirs. */
    ghost predicate Represents(s: System)
      reads this, lights, Devices(), queue
    {
      && s.window == window && s.reports == queue.reports
      && |s.lights| == |lights| && (forall i :: 0 <= i < |lights| ==> s.lights[i] == lights[i].View())
      && Started(spawned, s.log)
    }

    /** The entry of a device, as the handlers' loops search it. */
    method FindEntry(dev: Device, ghost i: nat) returns (entry: BridgedLight?)
      requires Valid() && i <= |lights|
      requires if i < |lights| then dev == lights[i].device else dev !in Devices()
      ensures entry == if i < |lights| then lights[i] else null
    {
      var k := 0;
      while k < |lights|
        invariant 0 <= k <= |lights| && k <= i
      {
        if lights[k].device == dev {
          assert i < |lights| ==> k == i;
          return lights[k];
        }
        k := k + 1;
      }
      return null;
    }

    /** Every entry but `e` shows what it showed before. */
    twostate predicate OthersUnchanged(e: BridgedLight)
      reads this, lights, Devices()
    {
      && lights == old(lights)
      && forall i :: 0 <= i < |lights| && lights[i] != e ==> lights[i].View() == old(lights[i].View())
    }

    /** Changing one published entry and its device, but not its endpoint, disturbs neither
        the tables nor the other entries. */
    twostate lemma OnlyEntryChanged(e: BridgedLight)
      requires old(Valid()) && e in lights && e.Ready() && e.device.endpointId == old(e.device.endpointId)
      requires lights == old(lights) && deviceToUdn == old(deviceToUdn) && unchanged(table) && unchanged(table.slots)
      requires forall l :: l in lights && l != e ==> unchanged(l) && unchanged(l.device)
      ensures Valid() && OthersUnchanged(e)
    {
    }

    /** The threads started are those of a log. */
    ghost predicate Started(threads: seq<Spawn>, log: seq<Sent>)
      reads this
    {
      && |threads| == |log|
      && (forall k :: 0 <= k < |log| ==>
            log[k].light < |lights| && threads[k] == Spawn(lights[log[k].light].udn, log[k].command))
    }

    /** Putting the entry's new value in the system's place restores the representation. */
    lemma Refines(s: System, t: System, i: nat, command: Option<Command>, at: int, before: seq<Spawn>)
      requires i < |lights| == |s.lights| && Started(before, s.log)
      requires forall j :: 0 <= j < |lights| && j != i ==> s.lights[j] == lights[j].View()
      requires t.window == window && t.lights == s.lights[i := lights[i].View()] && t.reports == queue.reports
      requires t.log == s.log + (if command.Some? then [Sent(at, i, command.value)] else [])
      requires spawned == before + (if command.Some? then [Spawn(lights[i].udn, command.value)] else [])
      ensures Represents(t)
    {
    }

    /** `value` is the byte the controller wrote. */
    method HandleWriteOnOff(dev: Device, attribute: AttributeId, value: int, now: int, ghost i: nat, ghost e: BridgedLight)
      returns (ok: bool)
      requires Valid() && i < |lights| && e == lights[i] && dev == e.device
      modifies this`spawned, queue, dev`on, e`commandedOnOff, e`onOffUntil
      ensures Valid() && OthersUnchanged(e)
      ensures ok == (attribute == OnOffAttribute && dev.reachable)
      ensures e.View() == if ok then WriteOnOff(old(e.View()), value != 0, now, window) else old(e.View())
      ensures queue.reports == old(queue.reports) + Changes(old(e.View()), e.View())
      ensures spawned == old(spawned) + (if ok then [Spawn(e.udn, SetOnOff(value != 0))] else [])
    {
      if attribute != OnOffAttribute || !dev.reachable {
        return false;
      }
      var entry := FindEntry(dev, i);
      entry.TakeOnOff(value != 0, now, window, queue);
      if dev in deviceToUdn {
        spawned := spawned + [Spawn(deviceToUdn[dev], SetOnOff(value != 0))];
      }
      OnlyEntryChanged(e);
      return true;
    }

    /** `now` and `later` are the handler's two clock readings. */
    method HandleWriteLevelControl(dev: Device, attribute: AttributeId, matterLevel: int, now: int, later: int,
        ghost i: nat, ghost e: BridgedLight)
      returns (ok: bool)
      requires Valid() && i < |lights| && e == lights[i] && dev == e.device
      requires 0 <= matterLevel <= 255 && dev.dimmable
      modifies this`spawned, queue, dev`level, e`commandedOnOff, e`commandedLevel, e`levelUntil
      ensures Valid() && OthersUnchanged(e)
      ensures ok == (attribute == CurrentLevelAttribute && dev.reachable)
      ensures var (l, c) := WriteLevel(old(e.View()), matterLevel, now, later, window);
              && e.View() == (if ok then l else old(e.View()))
              && spawned == old(spawned) + (if ok && c.Some? then [Spawn(e.udn, c.value)] else [])
      ensures queue.reports == old(queue.reports) + Changes(old(e.View()), e.View())
    {
      if attribute != CurrentLevelAttribute || !dev.reachable {
        return false;
      }
      var matched := FindEntry(dev, i);
      var sent, wemoPercent := matched.TakeLevel(matterLevel, now, later, window, queue);
      if sent && dev in deviceToUdn {
        spawned := spawned + [Spawn(deviceToUdn[dev], SetLevel(wemoPercent))];
      }
      OnlyEntryChanged(e);
      return true;
    }

    /** Index of the first entry with an engine id, or the number of entries. */
    method FindWemoId(wemoId: int) returns (k: nat)
      ensures k <= |lights| && (k < |lights| ==> lights[k].wemoId == wemoId)
      ensures forall j :: 0 <= j < k ==> lights[j].wemoId != wemoId
    {
      k := 0;
      while k < |lights|
        invariant k <= |lights|
        invariant forall j :: 0 <= j < k ==> lights[j].wemoId != wemoId
      {
        if lights[k].wemoId == wemoId {
          return;
        }
        k := k + 1;
      }
    }

    /** An engine event, on the Matter thread: the first entry with its id takes it. */
    method HandleWemoEvent(ev: WemoEvent, now: int) returns (k: nat)
      requires Valid()
      modifies Entries(), Devices(), queue
      ensures Valid() && k <= |lights|
      ensures k < |lights| ==> OthersUnchanged(lights[k]) && lights[k].wemoId == ev.wemoId
      ensures forall j :: 0 <= j < k ==> lights[j].wemoId != ev.wemoId
      ensures if k < |lights| then
                && lights[k].View() == HandleEvent(old(lights[k].View()), ev, now)
                && queue.reports == old(queue.reports) + Changes(old(lights[k].View()), lights[k].View())
              else unchanged(queue) && forall j :: 0 <= j < |lights| ==> lights[j].View() == old(lights[j].View())
      ensures lights == old(lights)
    {
      k := FindWemoId(ev.wemoId);
      if k < |lights| {
        var entry := lights[k];
        entry.TakeEvent(ev, now, queue);
        OnlyEntryChanged(entry);
      }
    }

    /** The event handler takes the abstract system through its event step. */
    method RunEvent(ev: WemoEvent, now: int, ghost s: System)
      requires Valid() && Represents(s) && s.clock == now
      modifies Entries(), Devices(), queue
      ensures Valid() && Represents(Step(s, Event(ev)))
    {
      ghost var views := s.lights;
      var k := HandleWemoEvent(ev, now);
      assert Find(views, ev.wemoId) == k by {
        assert forall j :: 0 <= j < |lights| ==> views[j].wemoId == lights[j].wemoId;
      }
      EventStep(s, ev);
      if k < |lights| {
        Refines(s, Step(s, Event(ev)), k, None, 0, spawned);
      }
    }

    /** The passing of time and the sender threads' calls change no global. */
    lemma QuietStepsRepresented(s: System, a: Action)
      requires Represents(s) && (a.Tick? || a.Deliver?)
      ensures Represents(Step(s, a))
    {
    }

    /** Running the next scheduled report is the drain step; the report run is the one the
        subscriber reads on. Only the queue changes. */
    method RunReport(ghost s: System) returns (r: seq<Report>)
      requires Represents(s)
      modifies queue
      ensures Represents(Step(s, Drain)) && Step(s, Drain).drained == s.drained + r
    {
      DrainStep(s);
      r := queue.RunNext();
      assert forall i :: 0 <= i < |lights| ==> lights[i].View() == old(lights[i].View());
    }

    /** An on/off write to the device of entry i takes the abstract system through its step. */
    method RunOnOffWrite(dev: Device, attribute: AttributeId, value: int, now: int,
        ghost i: nat, ghost e: BridgedLight, ghost s: System)
      returns (ok: bool)
      requires Valid() && Represents(s) && s.clock == now && i < |lights| && e == lights[i] && dev == e.device
      modifies this`spawned, queue, dev, e
      ensures Valid()
      ensures ok == (s.lights[i].reachable && attribute == OnOffAttribute)
      ensures Represents(if ok then Step(s, OnOffWrite(i, value != 0)) else s)
    {
      ghost var before := spawned;
      assert s.lights[i] == e.View();
      if attribute != OnOffAttribute || !dev.reachable {
        return false;
      }
      ok := HandleWriteOnOff(dev, attribute, value, now, i, e);
      OnOffStep(s, i, value != 0);
      Refines(s, Step(s, OnOffWrite(i, value != 0)), i, Some(SetOnOff(value != 0)), now, before);
    }

    method RunLevelWrite(dev: Device, attribute: AttributeId, value: int, now: int, pause: nat,
        ghost i: nat, ghost e: BridgedLight, ghost s: System)
      returns (ok: bool)
      requires Valid() && Represents(s) && s.clock == now && i < |lights| && e == lights[i] && dev == e.device
      requires 0 <= value <= 255 && e.isDimmable
      modifies this`spawned, queue, dev, e
      ensures Valid()
      ensures ok == (s.lights[i].reachable && attribute == CurrentLevelAttribute)
      ensures Represents(if ok then Step(s, LevelWrite(i, value, pause)) else s)
    {
      ghost var before := spawned;
      assert s.lights[i] == e.View();
      if attribute != CurrentLevelAttribute || !dev.reachable {
        return false;
      }
      ok := HandleWriteLevelControl(dev, attribute, value, now, now + pause, i, e);
      RefinesLevel(s, i, value, pause, before);
    }

    lemma RefinesLevel(s: System, i: nat, value: int, pause: nat, before: seq<Spawn>)
      requires i < |lights| == |s.lights| && Started(before, s.log) && s.window == window
      requires 0 <= value <= 255 && s.lights[i].dimmable && s.lights[i].reachable
      requires forall j :: 0 <= j < |lights| && j != i ==> s.lights[j] == lights[j].View()
      requires var (l, c) := WriteLevel(s.lights[i], value, s.clock, s.clock + pause, window);
               && lights[i].View() == l && queue.reports == s.reports + Changes(s.lights[i], l)
               && spawned == before + (if c.Some? then [Spawn(lights[i].udn, c.value)] else [])
      ensures Represents(Step(s, LevelWrite(i, value, pause)))
    {
      LevelStep(s, i, value, pause);
      Refines(s, Step(s, LevelWrite(i, value, pause)), i, WriteLevel(s.lights[i], value, s.clock, s.clock + pause, window).1,
              s.clock + pause, before);
    }

    /** The slot of the light published on an endpoint, if there is one. */
    method SlotAt(endpoint: int, ghost s: System) returns (index: nat)
      requires Valid() && Represents(s)
      ensures if index < table.slots.Length then
                && index < |lights| == |s.lights| && At(s.lights, endpoint) == index
                && s.lights[index] == lights[index].View()
              else At(s.lights, endpoint) == |s.lights|
    {
      index := table.IndexFromEndpoint(endpoint);
      EndpointIndex(s, endpoint, index);
    }

    /** A controller write as the data model hands it over: by endpoint, cluster and attribute.
        It reaches the light published on that endpoint, and only that one. Level writes come
        only for endpoints that have the cluster. */
    method WriteCallback(endpoint: int, cluster: Cluster, attribute: AttributeId, value: int, now: int, pause: nat,
        ghost s: System)
      returns (ok: bool, ghost i: nat)
      requires Valid() && Represents(s) && s.clock == now && 0 <= value <= 255
      requires cluster == LevelControlCluster ==>
                 forall l :: l in lights && l.device.endpointId == endpoint ==> l.isDimmable
      modifies this`spawned, Entries(), Devices(), queue
      ensures Valid() && i == At(s.lights, endpoint)
      ensures ok <==> i < |s.lights| && s.lights[i].reachable && attribute == Served(cluster)
      ensures Represents(if ok then Step(s, Written(cluster, i, value, pause)) else s)
    {
      ok := false;
      i := At(s.lights, endpoint);
      var index := SlotAt(endpoint, s);
      if index < table.slots.Length {
        ok := WriteSlot(index, cluster, attribute, value, now, pause, s);
      }
    }

    /** The dispatch of a write to the device in an occupied slot. */
    method WriteSlot(index: nat, cluster: Cluster, attribute: AttributeId, value: int, now: int, pause: nat,
        ghost s: System)
      returns (ok: bool)
      requires Valid() && Represents(s) && s.clock == now && 0 <= value <= 255 && index < |lights|
      requires cluster == LevelControlCluster ==> lights[index].isDimmable
      modifies this`spawned, Entries(), Devices(), queue
      ensures Valid()
      ensures ok == (s.lights[index].reachable && attribute == Served(cluster))
      ensures Represents(if ok then Step(s, Written(cluster, index, value, pause)) else s)
    {
      ok := false;
      var dev := table.slots[index];
      assert s.lights[index] == lights[index].View();
      if dev.reachable {
        match cluster {
          case OnOffCluster =>
            ok := RunOnOffWrite(dev, attribute, value, now, index, lights[index], s);
          case LevelControlCluster =>
            ok := RunLevelWrite(dev, attribute, value, now, pause, index, lights[index], s);
        }
      }
    }

    /** The stack's slot for an endpoint is the position of the light published on it. */
    lemma EndpointIndex(s: System, endpoint: int, index: nat)
      requires Valid() && Represents(s)
      requires index < |table.stack| ==> table.stack[index] == Some(endpoint)
      requires index >= |table.stack| ==> index == 0xFFFF && Some(endpoint) !in table.stack
      ensures index < table.slots.Length ==> index < |lights| && At(s.lights, endpoint) == index
      ensures index >= table.slots.Length ==> At(s.lights, endpoint) == |s.lights|
    {
      var i := At(s.lights, endpoint);
      if i < |s.lights| {
        assert s.lights[i] == lights[i].View();
        assert table.stack[i] == Some(endpoint);
      }
      if index < table.slots.Length {
        assert s.lights[index] == lights[index].View();
      }
    }

    /** The entries are distinct and show these lights. */
    ghost predicate EntriesShow(ls: seq<BridgedLight>, views: seq<Light>)
      reads ls, set l | l in ls :: l.device
    {
      && |ls| == |views|
      && (forall i :: 0 <= i < |ls| ==> ls[i].View() == views[i] && ls[i].device.dimmable == ls[i].isDimmable)
      && (forall i, j :: 0 <= i < j < |ls| ==> ls[i] != ls[j] && ls[i].device != ls[j].device)
    }

    /** Slot i holds the device of entry i and the stack its endpoint; the rest is empty. */
    ghost predicate TablesPacked(ls: seq<BridgedLight>, cursor: int, first: int, t: Table<Device>)
      reads table, table.slots, t.ids.Keys
    {
      && table.Shows(t) && Packed(t, first, |ls|) && t.cursor == cursor
      && (forall i :: 0 <= i < |ls| ==> t.slots[i] == Some(ls[i].device))
    }

    /** The UDN map names exactly the entries' devices. */
    ghost predicate UdnsNamed(ls: seq<BridgedLight>)
      reads this`deviceToUdn
    {
      && (forall i :: 0 <= i < |ls| ==> ls[i].device in deviceToUdn && deviceToUdn[ls[i].device] == ls[i].udn)
      && (forall d :: d in deviceToUdn ==> exists i :: 0 <= i < |ls| && ls[i].device == d)
    }

    lemma PublishedIsValid(views: seq<Light>, cursor: int, first: int, t: Table<Device>)
      requires EntriesShow(lights, views) && TablesPacked(lights, cursor, first, t) && UdnsNamed(lights)
      requires forall i :: 0 <= i < |views| ==> views[i].observed && views[i].endpoint == first + i
      ensures Valid()
    {
      forall i | 0 <= i < |lights|
        ensures lights[i].device.Observed() && lights[i].device.endpointId == first + i
      {
        assert lights[i].View() == views[i];
      }
      forall i | 0 <= i < table.slots.Length
        ensures i < |lights| ==> table.slots[i] == lights[i].device && table.stack[i] == Some(first + i)
        ensures i >= |lights| ==> table.slots[i] == null && table.stack[i] == None
      {
        assert t.slots[i] == if table.slots[i] == null then None else Some(table.slots[i]);
      }
    }

    /** A device object for a discovered device, not observed by anybody yet. */
    method MakeDevice(d: WemoDevice) returns (device: Device)
      requires 0 <= d.levelPercent
      modifies queue
      ensures fresh(device) && device.Silent() && device.dimmable == d.supportsLevel
      ensures device.on == (d.onoff != 0) && device.reachable == d.online
      ensures device.level == if d.supportsLevel then ToMatter(d.levelPercent) else 0
      ensures queue.reports == old(queue.reports)
    {
      device := new Device(d.supportsLevel);
      device.SetOnOff(d.onoff != 0, queue);
      if d.supportsLevel {
        device.SetLevel(Uint8(Uint16(d.levelPercent) * 254 / 100), queue);
      }
      device.SetReachable(d.online, queue);
    }

    /** A fresh entry for a discovered device, pushed at the back. There must be reserved room:
        the stack keeps pointers into the entries, which must not move. */
    method PushEntry(d: WemoDevice, ghost reserved: nat,
        ghost views: seq<Light>, ghost cursor: int, ghost first: int, ghost t: Table<Device>)
      returns (stable: BridgedLight)
      requires 0 <= d.levelPercent && |lights| < reserved
      requires EntriesShow(lights, views) && TablesPacked(lights, cursor, first, t) && UdnsNamed(lights)
      modifies this`lights, queue
      ensures EntriesShow(old(lights), views) && TablesPacked(old(lights), cursor, first, t) && UdnsNamed(old(lights))
      ensures fresh(stable) && fresh(stable.device) && lights == old(lights) + [stable]
      ensures stable.device.Silent() && stable.device.dimmable == stable.isDimmable
      ensures stable.View() == Seed(d, stable.device.endpointId).(observed := false)
      ensures queue.reports == old(queue.reports)
    {
      var device := MakeDevice(d);
      stable := new BridgedLight(d.wemoId, d.udn, d.supportsLevel, device);
      lights := lights + [stable];
    }

    /** Offers a new entry's device to the stack on packed tables. */
    method AskStack(stable: BridgedLight, refused: set<int>, first: int,
        ghost ls: seq<BridgedLight>, ghost cursor: int, ghost t: Table<Device>)
      returns (added: int, ghost u: Table<Device>)
      requires TablesPacked(ls, cursor, first, t) && |ls| < table.slots.Length
      requires forall i :: 0 <= i < |ls| ==> ls[i].device != stable.device
      modifies table`stack, table`cursor, table.slots, stable.device`endpointId
      ensures var id := Offer(first, |ls|, cursor, refused);
              if id in refused then added < 0 && TablesPacked(ls, id, first, u)
              else added == |ls| && stable.View() == old(stable.View()).(endpoint := first + |ls|)
                   && TablesPacked(ls + [stable], id, first, u)
    {
      NotPresent(t, stable.device);
      AddKeepsPacked(t, first, |ls|, stable.device, refused);
      u := Add(t, stable.device, refused).0;
      added := table.AddDeviceEndpoint(stable.device, refused, t);
    }

    lemma NotPresent(t: Table<Device>, device: Device)
      requires forall i :: 0 <= i < |t.slots| && t.slots[i].Some? ==> t.slots[i].value != device
      ensures !Present(t, device)
    {
    }

    lemma EntriesGrow(ls: seq<BridgedLight>, views: seq<Light>, e: BridgedLight)
      requires EntriesShow(ls, views) && e.device.dimmable == e.isDimmable
      requires forall i :: 0 <= i < |ls| ==> ls[i] != e && ls[i].device != e.device
      ensures EntriesShow(ls + [e], views + [e.View()])
    {
    }

    /** Installs the device's change callback, by kind; no endpoint moves. */
    method InstallCallback(stable: BridgedLight, ghost ls: seq<BridgedLight>, ghost views: seq<Light>,
        ghost first: int, ghost u: Table<Device>)
      requires EntriesShow(ls, views) && TablesPacked(ls + [stable], u.cursor, first, u)
      requires forall i :: 0 <= i < |ls| ==> ls[i] != stable && ls[i].device != stable.device
      requires stable.device.dimmable == stable.isDimmable
      modifies stable.device`onOffCallback, stable.device`dimmableCallback
      ensures EntriesShow(ls + [stable], views + [old(stable.View()).(observed := true)])
      ensures TablesPacked(ls + [stable], u.cursor, first, u)
    {
      if stable.isDimmable {
        stable.device.SetChangeCallback();
      } else {
        stable.device.SetOnOffChangeCallback();
      }
      EntriesGrow(ls, views, stable);
    }

    /** Names the device in the UDN map. */
    method RecordUdn(stable: BridgedLight, ghost ls: seq<BridgedLight>, ghost views: seq<Light>)
      requires UdnsNamed(ls) && forall i :: 0 <= i < |ls| ==> ls[i].device != stable.device
      requires EntriesShow(ls + [stable], views)
      modifies this`deviceToUdn
      ensures UdnsNamed(ls + [stable]) && EntriesShow(ls + [stable], views)
    {
      deviceToUdn := deviceToUdn[stable.device := stable.udn];
      ghost var es := ls + [stable];
      assert forall i :: 0 <= i < |es| ==> es[i].View() == old(es[i].View());
      UdnsGrow(ls, old(deviceToUdn), stable);
    }

    /** What follows a successful offer. */
    method KeepEntry(stable: BridgedLight, ghost ls: seq<BridgedLight>, ghost views: seq<Light>, ghost view: Light,
        ghost first: int, ghost u: Table<Device>)
      requires EntriesShow(ls, views) && UdnsNamed(ls) && TablesPacked(ls + [stable], u.cursor, first, u)
      requires forall i :: 0 <= i < |ls| ==> ls[i] != stable && ls[i].device != stable.device
      requires stable.device.dimmable == stable.isDimmable
      requires view.observed && stable.View() == view.(observed := false)
      modifies stable.device`onOffCallback, stable.device`dimmableCallback, this`deviceToUdn
      ensures EntriesShow(ls + [stable], views + [view])
      ensures UdnsNamed(ls + [stable]) && TablesPacked(ls + [stable], u.cursor, first, u)
    {
      assert stable.View().(observed := true) == view;
      InstallCallback(stable, ls, views, first, u);
      RecordUdn(stable, ls, views + [view]);
    }

    lemma UdnsGrow(ls: seq<BridgedLight>, m: map<Device, string>, e: BridgedLight)
      requires deviceToUdn == m[e.device := e.udn]
      requires forall i :: 0 <= i < |ls| ==> ls[i].device in m && m[ls[i].device] == ls[i].udn && ls[i].device != e.device
      requires forall d :: d in m ==> exists i :: 0 <= i < |ls| && ls[i].device == d
      ensures UdnsNamed(ls + [e])
    {
      forall d | d in deviceToUdn ensures exists i :: 0 <= i < |ls + [e]| && (ls + [e])[i].device == d {
        if d == e.device {
          assert (ls + [e])[|ls|].device == d;
        } else {
          var i :| 0 <= i < |ls| && ls[i].device == d;
          assert (ls + [e])[i].device == d;
        }
      }
    }

    /** Pushes a new entry and asks the stack for an endpoint. */
    method TryEntry(d: WemoDevice, refused: set<int>, first: int, ghost reserved: nat,
        ghost views: seq<Light>, ghost cursor: int, ghost t: Table<Device>)
      returns (stable: BridgedLight, added: int, ghost u: Table<Device>)
      requires 0 <= d.levelPercent && |lights| < table.slots.Length && |lights| < reserved
      requires EntriesShow(lights, views) && TablesPacked(lights, cursor, first, t) && UdnsNamed(lights)
      modifies this`lights, table`stack, table`cursor, table.slots, queue
      ensures lights == old(lights) + [stable] && EntriesShow(old(lights), views) && UdnsNamed(old(lights))
      ensures fresh(stable) && fresh(stable.device) && stable.device.dimmable == stable.isDimmable
      ensures var id := Offer(first, |views|, cursor, refused);
              if id in refused then added < 0 && u.cursor == id && TablesPacked(old(lights), id, first, u)
              else added >= 0 && u.cursor == id && TablesPacked(lights, id, first, u)
                   && stable.View() == Seed(d, first + |views|).(observed := false)
      ensures queue.reports == old(queue.reports)
    {
      ghost var ls := lights;
      stable := PushEntry(d, reserved, views, cursor, first, t);
      added, u := AskStack(stable, refused, first, ls, cursor, t);
    }

    /** Drops the entry pushed last. */
    method PopEntry(ghost ls: seq<BridgedLight>, ghost views: seq<Light>, ghost cursor: int, ghost first: int,
        ghost u: Table<Device>)
      requires |lights| == |ls| + 1 && lights[..|ls|] == ls
      requires EntriesShow(ls, views) && TablesPacked(ls, cursor, first, u) && UdnsNamed(ls)
      modifies this`lights
      ensures lights == ls && EntriesShow(ls, views) && TablesPacked(ls, cursor, first, u) && UdnsNamed(ls)
    {
      lights := lights[..|lights| - 1];
    }

    /** One turn of the publish loop: beyond capacity the device is skipped; otherwise its entry
        is pushed before the stack is asked, and popped again if no endpoint was given. */
    method PublishOne(d: WemoDevice, refused: set<int>, first: int, ghost reserved: nat,
        ghost views: seq<Light>, ghost cursor: int, ghost t: Table<Device>)
      returns (ghost v: seq<Light>, ghost c: int, ghost u: Table<Device>)
      requires 0 <= d.levelPercent && (|lights| < table.slots.Length ==> |lights| < reserved)
      requires EntriesShow(lights, views) && TablesPacked(lights, cursor, first, t) && UdnsNamed(lights)
      modifies this`lights, this`deviceToUdn, table`stack, table`cursor, table.slots, queue
      ensures (v, c) == Turn(views, cursor, d, refused, first, table.slots.Length)
      ensures EntriesShow(lights, v) && TablesPacked(lights, c, first, u) && UdnsNamed(lights)
      ensures queue.reports == old(queue.reports)
    {
      ghost var turn := Turn(views, cursor, d, refused, first, table.slots.Length);
      v, c, u := turn.0, turn.1, t;
      if |lights| >= table.slots.Length {
        return;
      }
      ghost var ls, view := lights, Seed(d, first + |views|);
      assert c == Offer(first, |views|, cursor, refused) && v == (if c in refused then views else views + [view]);
      var stable, added;
      stable, added, u := TryEntry(d, refused, first, reserved, views, cursor, t);
      if added < 0 {
        PopEntry(ls, views, c, first, u);
      } else {
        KeepEntry(stable, ls, views, view, first, u);
      }
    }

    /** The publish loop, in the room reserved for the smaller of the list and the slots. */
    method PublishAll(sorted: seq<WemoDevice>, rejects: seq<set<int>>, first: int)
      returns (ghost views: seq<Light>, ghost cursor: int, ghost t: Table<Device>)
      requires |rejects| == |sorted| && forall k :: 0 <= k < |sorted| ==> 0 <= sorted[k].levelPercent
      requires lights == [] && deviceToUdn == map[]
      requires Packed(Empty<Device>(table.slots.Length, first), first, 0) && table.Shows(Empty(table.slots.Length, first))
      modifies this`lights, this`deviceToUdn, table`stack, table`cursor, table.slots, queue
      ensures (views, cursor) == Turns(sorted, rejects, first, table.slots.Length, |sorted|)
      ensures EntriesShow(lights, views) && TablesPacked(lights, cursor, first, t) && UdnsNamed(lights)
      ensures queue.reports == old(queue.reports)
    {
      var capacity := table.slots.Length;
      ghost var reserved := if |sorted| < capacity then |sorted| else capacity;
      views, cursor, t := [], first, Empty<Device>(capacity, first);
      var j := 0;
      while j < |sorted|
        invariant 0 <= j <= |sorted| && |lights| <= j && |lights| <= reserved
        invariant (views, cursor) == Turns(sorted, rejects, first, capacity, j)
        invariant EntriesShow(lights, views) && TablesPacked(lights, cursor, first, t) && UdnsNamed(lights)
        invariant queue.reports == old(queue.reports)
      {
        views, cursor, t := PublishOne(sorted[j], rejects[j], first, reserved, views, cursor, t);
        j := j + 1;
      }
    }

    /** The start of service, when the stack has no dynamic endpoint yet: clears the tables and
        publishes the discovered devices, in the order std::sort left them in, up to the number
        of slots. */
    method ApplicationInit(sorted: seq<WemoDevice>, rejects: seq<set<int>>, first: int)
      returns (ghost published: seq<nat>)
      requires |rejects| == |sorted| && forall k :: 0 <= k < |sorted| ==> 0 <= sorted[k].levelPercent
      requires table.NothingLive() && table.slots.Length <= 255 && 0 <= first && first + table.slots.Length <= 65536 && first <= 65535
      modifies this`lights, this`deviceToUdn, table, table.slots, queue
      ensures published == Publish(rejects, first, table.slots.Length, |sorted|).published
      ensures Valid() && EntriesShow(lights, Seeds(sorted, published, first))
      ensures queue.reports == old(queue.reports)
    {
      table.Reset(first);
      lights := [];
      deviceToUdn := map[];
      ghost var views, cursor, t;
      views, cursor, t := PublishAll(sorted, rejects, first);
      TurnsPublish(sorted, rejects, first, table.slots.Length, |sorted|);
      published := Publish(rejects, first, table.slots.Length, |sorted|).published;
      PublishedIsValid(views, cursor, first, t);
    }

    /** Right after publishing the globals are those of the system that starts with the
        published lights and an empty history. */
    lemma StartRepresented(s: System, views: seq<Light>)
      requires EntriesShow(lights, views) && spawned == []
      requires s.window == window && s.lights == views && s.reports == queue.reports && s.log == []
      ensures Represents(s)
    {
    }
  }
}
