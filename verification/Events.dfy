/** The per-device event log of the data store. Go slices are modelled as views of arrays: appending
    writes in place when the array has room, so what is proved here includes that no two devices and
    no snapshot ever share memory. The mutex makes every operation one atomic step, so an interleaving
    of concurrent additions is a sequence of additions. */
module Events {

  const LIMIT := 100

  datatype DeviceEvent = DeviceEvent(kind: string, time: string, monoTime: int, data: map<string, string>)

  datatype Slice = Slice(backing: array<DeviceEvent>, off: nat, len: nat)

  function LastHundred<T>(s: seq<T>): seq<T> {
    if |s| > LIMIT then s[|s| - LIMIT..] else s
  }

  /** What is kept of a log: all of it up to a hundred events, then the last hundred. */
  lemma {:induction false} LastHundredMeans<T>(s: seq<T>)
    ensures |LastHundred(s)| == if |s| < 100 then |s| else 100
    ensures exists dropped :: s == dropped + LastHundred(s)
  {
    assert s == s[..|s| - |LastHundred(s)|] + LastHundred(s);
  }

  lemma TailOfView<T>(s: seq<T>, off: nat, len: nat)
    requires LIMIT < len && off + len <= |s|
    ensures LastHundred(s[off..off + len]) == s[off + (len - LIMIT)..off + (len - LIMIT) + LIMIT]
  {
  }

  class EventLog {
    var deviceEvents: map<string, Slice>

    ghost predicate Valid()
      reads this
    {
      && (forall d :: d in deviceEvents ==>
            deviceEvents[d].off + deviceEvents[d].len <= deviceEvents[d].backing.Length
            && deviceEvents[d].len <= LIMIT)
      && (forall d, e :: d in deviceEvents && e in deviceEvents && d != e ==>
            deviceEvents[d].backing != deviceEvents[e].backing)
    }

    ghost function Backings(): set<object>
      reads this
    {
      set d | d in deviceEvents :: deviceEvents[d].backing
    }

    /** The events stored for a device, oldest first. */
    ghost function Log(device: string): seq<DeviceEvent>
      requires Valid()
      reads this, Backings()
    {
      if device in deviceEvents then
        assert deviceEvents[device].backing in Backings();
        View(deviceEvents[device])
      else []
    }

    constructor ()
      ensures Valid() && Backings() == {}
      ensures forall d :: Log(d) == []
    {
      deviceEvents := map[];
    }

    /** Go's `append` for one element: in place when there is room, otherwise into a larger array. */
    static method Append(s: Slice, event: DeviceEvent) returns (t: Slice)
      requires s.off + s.len <= s.backing.Length
      modifies s.backing
      ensures t.off + t.len <= t.backing.Length && (t.backing == s.backing || fresh(t.backing))
      ensures t.len == s.len + 1
      ensures View(t) == old(View(s)) + [event]
    {
      var end := s.off + s.len;
      if end < s.backing.Length {
        s.backing[end] := event;
        t := Slice(s.backing, s.off, s.len + 1);
      } else {
        var room: nat :| true;  // Go does not say how much larger
        var bigger := new DeviceEvent[s.len + 1 + room];
        for k := 0 to s.len
          invariant bigger[..k] == s.backing[s.off..s.off + k]
          invariant s.backing[..] == old(s.backing[..])
        {
          bigger[k] := s.backing[s.off + k];
        }
        bigger[s.len] := event;
        t := Slice(bigger, 0, s.len + 1);
      }
    }

    static function View(s: Slice): seq<DeviceEvent>
      requires s.off + s.len <= s.backing.Length
      reads s.backing
    {
      s.backing[..][s.off..s.off + s.len]
    }

    static lemma CutView(t: Slice)
      requires LIMIT < t.len && t.off + t.len <= t.backing.Length
      ensures View(Slice(t.backing, t.off + (t.len - LIMIT), LIMIT)) == LastHundred(View(t))
    {
      assert View(t) == t.backing[..][t.off..t.off + t.len];
      TailOfView(t.backing[..], t.off, t.len);
    }

    /** The slice `AddDeviceEvent` is about to store: appended to and cut to the last hundred. */
    static method AppendAndCut(s: Slice, event: DeviceEvent) returns (t: Slice)
      requires s.off + s.len <= s.backing.Length
      modifies s.backing
      ensures t.off + t.len <= t.backing.Length && t.len <= LIMIT && (t.backing == s.backing || fresh(t.backing))
      ensures View(t) == LastHundred(old(View(s)) + [event])
    {
      t := Append(s, event);
      if t.len > LIMIT {
        CutView(t);
        t := Slice(t.backing, t.off + (t.len - LIMIT), LIMIT);
      }
    }

    method AddDeviceEvent(device: string, event: DeviceEvent)
      requires Valid()
      modifies this, Backings()
      ensures Valid() && fresh(Backings() - old(Backings()))
      ensures Log(device) == LastHundred(old(Log(device)) + [event])
      ensures |Log(device)| <= 100 && Log(device)[|Log(device)| - 1] == event
      ensures forall other :: other != device ==> Log(other) == old(Log(other))
    {
      var events: Slice;
      if device in deviceEvents {
        events := deviceEvents[device];
        assert events.backing in Backings();
      } else {
        var nothing := new DeviceEvent[0];
        events := Slice(nothing, 0, 0);
      }
      assert View(events) == old(Log(device));
      assert forall other :: other in deviceEvents && other != device ==>
        deviceEvents[other].backing != events.backing && deviceEvents[other].backing in Backings();
      events := AppendAndCut(events, event);
      assert forall other :: other != device ==> Log(other) == old(Log(other));
      StoreSlice(device, events);
    }

    /** `ds.deviceEvents[deviceID] = events` */
    method StoreSlice(device: string, events: Slice)
      requires Valid() && events.off + events.len <= events.backing.Length && events.len <= LIMIT
      requires forall other :: other in deviceEvents && other != device ==>
        deviceEvents[other].backing != events.backing
      modifies this
      ensures Valid() && Backings() <= old(Backings()) + {events.backing}
      ensures Log(device) == View(events)
      ensures forall other :: other != device ==> Log(other) == old(Log(other))
    {
      deviceEvents := deviceEvents[device := events];
    }

    method GetDeviceEvents(device: string) returns (copied: array<DeviceEvent>)
      requires Valid()
      ensures fresh(copied) && copied[..] == Log(device)
    {
      if device !in deviceEvents {
        copied := new DeviceEvent[0];
        return;
      }
      var s := deviceEvents[device];
      copied := new DeviceEvent[s.len];
      for k := 0 to s.len
        invariant copied[..k] == s.backing[s.off..s.off + k]
      {
        copied[k] := s.backing[s.off + k];
      }
      assert copied[..] == copied[..s.len] && Log(device) == View(s);
      assert View(s) == s.backing[s.off..s.off + s.len];
    }
  }

  // ---------- sequences of additions ----------

  datatype Addition = Addition(device: string, event: DeviceEvent)

  function EventsOf(adds: seq<Addition>, device: string): seq<DeviceEvent> {
    if adds == [] then []
    else EventsOf(adds[..|adds| - 1], device)
         + if adds[|adds| - 1].device == device then [adds[|adds| - 1].event] else []
  }

  /** Cutting after every addition keeps the same events as cutting once at the end. */
  lemma {:induction false} CutEarly<T>(s: seq<T>, more: seq<T>)
    ensures LastHundred(LastHundred(s) + more) == LastHundred(s + more)
  {
    var a, b := LastHundred(s) + more, s + more;
    if |s| > LIMIT {
      assert b[|s| - LIMIT..] == a;
    }
  }

  /** After any sequence of additions, by any devices in any order, each device's log is the last
      hundred of its earlier log followed by its own events in order; and a snapshot taken before the
      additions still shows what it showed. */
  method AddAll(log: EventLog, watched: string, adds: seq<Addition>) returns (snapshot: array<DeviceEvent>)
    requires log.Valid()
    modifies log, log.Backings()
    ensures log.Valid() && fresh(log.Backings() - old(log.Backings()))
    ensures forall d :: log.Log(d) == LastHundred(old(log.Log(d)) + EventsOf(adds, d))
    ensures snapshot[..] == old(log.Log(watched))
  {
    snapshot := log.GetDeviceEvents(watched);
    for i := 0 to |adds|
      invariant log.Valid() && fresh(log.Backings() - old(log.Backings())) && snapshot !in log.Backings()
      invariant forall d :: log.Log(d) == LastHundred(old(log.Log(d)) + EventsOf(adds[..i], d))
      invariant snapshot[..] == old(log.Log(watched))
    {
      label Before:
      log.AddDeviceEvent(adds[i].device, adds[i].event);
      forall d ensures log.Log(d) == LastHundred(old(log.Log(d)) + EventsOf(adds[..i + 1], d)) {
        OneMore(old(log.Log(d)), adds, i, d);
      }
    }
    assert adds[..|adds|] == adds;
  }

  lemma OneMore(start: seq<DeviceEvent>, adds: seq<Addition>, i: nat, device: string)
    requires i < |adds|
    ensures LastHundred(start + EventsOf(adds[..i + 1], device))
         == if adds[i].device == device
            then LastHundred(LastHundred(start + EventsOf(adds[..i], device)) + [adds[i].event])
            else LastHundred(start + EventsOf(adds[..i], device))
  {
    assert adds[..i + 1][..i] == adds[..i];
    var own := EventsOf(adds[..i], device);
    CutEarly(start + own, [adds[i].event]);
    assert (start + own) + [adds[i].event] == start + (own + [adds[i].event]);
    assert own + [] == own;
  }
}
