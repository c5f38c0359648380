/**
 The device objects behind the endpoints and the work queue their change callbacks write
 attribute reports to.
 */
module Devices {
  import opened Lights

  /** Reports scheduled on the platform thread and not run yet. */
  class WorkQueue {
    var reports: seq<Report>

    constructor ()
      ensures reports == []
    {
      reports := [];
    }

    /** The platform thread runs the first scheduled report, if there is one. */
    method RunNext() returns (r: seq<Report>)
      modifies this
      ensures r == (if old(reports) == [] then [] else [old(reports)[0]])
      ensures reports == (if old(reports) == [] then [] else old(reports)[1..])
    {
      if reports == [] {
        return [];
      }
      r := [reports[0]];
      reports := reports[1..];
    }
  }

  datatype Change = ChangedReachable | ChangedOnOff | ChangedLevel

  /** The on/off base class calls either the plain status handler or, on a dimmable device,
      the bridge that SetChangeCallback installs. */
  datatype OnOffCallback = NoCallback | StatusHandler | ForwardToDimmable

  function AttributeOf(c: Change): Attribute {
    match c
    case ChangedReachable => Reachable
    case ChangedOnOff => OnOff
    case ChangedLevel => CurrentLevel
  }

  /** A light on or off, with a level if it is dimmable. */
  class Device {
    const dimmable: bool
    var endpointId: int
    var reachable: bool
    var on: bool
    var level: int
    var onOffCallback: OnOffCallback
    var dimmableCallback: bool

    constructor (dimmable: bool)
      ensures this.dimmable == dimmable && !reachable && !on && level == 0 && !Observed()
      ensures onOffCallback == NoCallback && !dimmableCallback
    {
      this.dimmable := dimmable;
      endpointId, reachable, on, level := 0, false, false, 0;
      onOffCallback, dimmableCallback := NoCallback, false;
    }

    /** Every kind of change this device can have reaches the report queue. */
    predicate Observed()
      reads this
    {
      if dimmable then dimmableCallback && onOffCallback == ForwardToDimmable
      else onOffCallback == StatusHandler
    }

    /** No change does. */
    predicate Silent()
      reads this
    {
      onOffCallback == NoCallback && !dimmableCallback
    }

    method ScheduleReport(c: Change, queue: WorkQueue)
      modifies queue
      ensures queue.reports == old(queue.reports) + [Report(endpointId, AttributeOf(c))]
    {
      queue.reports := queue.reports + [Report(endpointId, AttributeOf(c))];
    }

    /** A change of the dimmable part calls the stored callback if there is one. */
    method NotifyDimmable(c: Change, queue: WorkQueue)
      modifies queue
      ensures queue.reports == old(queue.reports)
                + (if dimmableCallback then [Report(endpointId, AttributeOf(c))] else [])
    {
      if dimmableCallback {
        ScheduleReport(c, queue);
      }
    }

    /** A change of the on/off part; reachability takes this way too. */
    method NotifyOnOff(c: Change, queue: WorkQueue)
      modifies queue
      ensures queue.reports == old(queue.reports)
                + (if onOffCallback == StatusHandler || (onOffCallback == ForwardToDimmable && dimmableCallback)
                   then [Report(endpointId, AttributeOf(c))] else [])
    {
      match onOffCallback {
        case NoCallback =>
        case StatusHandler => ScheduleReport(c, queue);
        case ForwardToDimmable => NotifyDimmable(c, queue);
      }
    }

    /** HandleDeviceChange: overridden by the dimmable class. */
    method HandleDeviceChange(c: Change, queue: WorkQueue)
      requires Observed() || Silent()
      modifies queue
      ensures queue.reports == old(queue.reports)
                + (if Observed() then [Report(endpointId, AttributeOf(c))] else [])
    {
      if dimmable {
        NotifyDimmable(c, queue);
      } else {
        NotifyOnOff(c, queue);
      }
    }

    method SetReachable(r: bool, queue: WorkQueue)
      requires Observed() || Silent()
      modifies this`reachable, queue
      ensures reachable == r
      ensures queue.reports == old(queue.reports)
                + (if Observed() && old(reachable) != r then [Report(endpointId, Reachable)] else [])
    {
      var changed := reachable != r;
      reachable := r;
      if changed {
        HandleDeviceChange(ChangedReachable, queue);
      }
    }

    method SetOnOff(o: bool, queue: WorkQueue)
      requires Observed() || Silent()
      modifies this`on, queue
      ensures on == o
      ensures queue.reports == old(queue.reports)
                + (if Observed() && old(on) != o then [Report(endpointId, OnOff)] else [])
    {
      var changed := on != o;
      on := o;
      if changed {
        NotifyOnOff(ChangedOnOff, queue);
      }
    }

    method SetLevel(l: int, queue: WorkQueue)
      requires dimmable && (Observed() || Silent())
      modifies this`level, queue
      ensures level == l
      ensures queue.reports == old(queue.reports)
                + (if Observed() && old(level) != l then [Report(endpointId, CurrentLevel)] else [])
    {
      var changed := l != level;
      level := l;
      if changed && dimmableCallback {
        ScheduleReport(ChangedLevel, queue);
      }
    }

    /** Stores the callback and bridges the on/off base class to it. */
    method SetChangeCallback()
      requires dimmable
      modifies this`onOffCallback, this`dimmableCallback
      ensures Observed()
    {
      dimmableCallback := true;
      onOffCallback := ForwardToDimmable;
    }

    method SetOnOffChangeCallback()
      requires !dimmable
      modifies this`onOffCallback
      ensures Observed()
    {
      onOffCallback := StatusHandler;
    }
  }
}
