/**
  * The cover entity: binding a description to a device, reading its position
  * and closed state, building its commands, and discovering the entities of a
  * set of devices.
  */
module CoverEntities {
  import opened Wrappers
  import opened DataPoints
  import opened Positions
  import opened Descriptions
  import opened CoverLogic

  /** A device identifier, the key of the manager's `device_map`. */
  type DeviceId = string

  /** The tilt codes every description tries, in order. */
  const TiltCandidates: seq<Code> := [AngleHorizontal, AngleVertical]

  /** `position_wrapper.find_dpcode(device, codes, prefer_function=...)`: a wrapper of the given kind, if the codes resolve. */
  function FindWrapper(lookup: Lookup, device: Device, kind: WrapperKind, codes: seq<Code>, preferFunction: bool)
    : (r: Option<PositionWrapper>)
    ensures r.Some? <==> lookup.findInteger(device, codes, preferFunction).Some?
    ensures r.Some? ==> r.value.kind == kind && r.value.code == lookup.findInteger(device, codes, preferFunction).value.code
  {
    match lookup.findInteger(device, codes, preferFunction)
    case None => None
    case Some(ic) => Some(PositionWrapper(ic.code, ic.range, kind))
  }

  /** `current_position or set_position`. */
  function Fallback(current: Option<PositionWrapper>, setPos: Option<PositionWrapper>): (r: Option<PositionWrapper>)
    ensures current.Some? ==> r == current
    ensures current.None? ==> r == setPos
  {
    if current.Some? then current else setPos
  }

  /** The reading of an optional wrapper (`_read_wrapper`): none when unbound. */
  function ReadWrapper(w: Option<PositionWrapper>, status: Status): (r: Option<int>)
    ensures r.None? <==> w.None? || RawInteger(status, w.value.code).None?
  {
    match w
    case None => None
    case Some(w) => ReadPosition(w, status)
  }

  /** A Tuya cover entity bound to one device and one description. */
  class CoverEntity {
    const device: Device
    const description: CoverDescription
    const lookup: Lookup
    const currentPosition: Option<PositionWrapper>
    const setPosition: Option<PositionWrapper>
    const tiltPosition: Option<PositionWrapper>
    const currentState: Option<Code>
    const features: set<Feature>

    /** `__init__`: binds the wrappers and accumulates the supported features. */
    constructor (device: Device, lookup: Lookup, description: CoverDescription,
                 currentPosition: Option<PositionWrapper>, setPosition: Option<PositionWrapper>,
                 tiltPosition: Option<PositionWrapper>)
      requires !RaisesKeyError(device, description, lookup)
      ensures this.device == device && this.description == description && this.lookup == lookup
      ensures this.currentPosition == Fallback(currentPosition, setPosition)
      ensures this.setPosition == setPosition && this.tiltPosition == tiltPosition
      ensures this.currentState == lookup.getCode(device, description.currentState)
      ensures this.features
           == Features(InstructionOf(device, description, lookup), description, setPosition.Some?, tiltPosition.Some?)
    {
      var f: set<Feature> := {};
      if lookup.getCode(device, [description.key]).Some? {
        if device.functions[description.key].typeName == "Boolean" {
          f := f + {Open, Close};
        } else if lookup.findEnum(device, description.key, true).Some? {
          var range := lookup.findEnum(device, description.key, true).value;
          if description.openInstruction in range {
            f := f + {Open};
          }
          if description.closeInstruction in range {
            f := f + {Close};
          }
          if description.stopInstruction in range {
            f := f + {Stop};
          }
        }
      }
      if setPosition.Some? {
        f := f + {SetPosition};
      }
      if tiltPosition.Some? {
        f := f + {SetTiltPosition};
      }
      this.device := device;
      this.description := description;
      this.lookup := lookup;
      this.currentPosition := if currentPosition.Some? then currentPosition else setPosition;
      this.setPosition := setPosition;
      this.tiltPosition := tiltPosition;
      this.currentState := lookup.getCode(device, description.currentState);
      this.features := f;
    }

    /** `current_cover_position`: the bound position code's reading, none when unbound or unreported. */
    function CurrentCoverPosition(status: Status): (r: Option<int>)
      ensures r.None? <==> currentPosition.None? || RawInteger(status, currentPosition.value.code).None?
      ensures r.Some? ==> var w := currentPosition.value;
        r.value == RemapTo(w.range, RawInteger(status, w.code).value, Reversed(w.kind, status))
    {
      ReadWrapper(currentPosition, status)
    }

    /** `current_cover_tilt_position`: the tilt code's reading, none when unbound or unreported. */
    function CurrentCoverTiltPosition(status: Status): (r: Option<int>)
      ensures r.None? <==> tiltPosition.None? || RawInteger(status, tiltPosition.value.code).None?
      ensures r.Some? ==> var w := tiltPosition.value;
        r.value == RemapTo(w.range, RawInteger(status, w.code).value, Reversed(w.kind, status))
    {
      ReadWrapper(tiltPosition, status)
    }

    /**
      * `is_closed`: a current position decides (closed exactly at 0);
      * without one, the state code's value decides, flipped by the
      * description's inverse flag; with neither, unknown.
      */
    function IsClosed(status: Status): (r: Option<bool>)
      ensures CurrentCoverPosition(status).Some? ==> r == Some(CurrentCoverPosition(status).value == 0)
      ensures r.None? <==> CurrentCoverPosition(status).None? && StateSignal(currentState, status).None?
      ensures CurrentCoverPosition(status).None? && r.Some? ==>
        (r.value <==> description.currentStateInverse != ClosingValue(StateSignal(currentState, status).value))
    {
      ClosedState(CurrentCoverPosition(status), currentState, status, description.currentStateInverse)
    }

    /** Whether the key resolves as an enumeration, which selects literal instructions over booleans. */
    predicate KeyIsEnum()
    {
      lookup.findEnum(device, description.key, true).Some?
    }

    /**
      * `open_cover`: the open instruction on the key, then, when a set-position
      * wrapper is bound, a write of the raw end that reads as fully open.
      */
    method OpenCover(status: Status) returns (commands: seq<Command>)
      ensures |commands| == if setPosition.Some? then 2 else 1
      ensures commands[0].code == description.key
      ensures commands[0].value == if KeyIsEnum() then StrVal(description.openInstruction) else BoolVal(true)
      ensures setPosition.Some? ==> var w := setPosition.value;
        commands[1] == Command(w.code, IntVal(if Reversed(w.kind, status) then w.range.min else w.range.max))
    {
      var value := BoolVal(true);
      if lookup.findEnum(device, description.key, true).Some? {
        value := StrVal(description.openInstruction);
      }
      commands := [Command(description.key, value)];
      if setPosition.Some? {
        commands := commands + [UpdateCommand(setPosition.value, status, 100)];
      }
    }

    /**
      * `close_cover`: the close instruction on the key, then, when a
      * set-position wrapper is bound, a write of the raw end that reads as
      * fully closed.
      */
    method CloseCover(status: Status) returns (commands: seq<Command>)
      ensures |commands| == if setPosition.Some? then 2 else 1
      ensures commands[0].code == description.key
      ensures commands[0].value == if KeyIsEnum() then StrVal(description.closeInstruction) else BoolVal(false)
      ensures setPosition.Some? ==> var w := setPosition.value;
        commands[1] == Command(w.code, IntVal(if Reversed(w.kind, status) then w.range.max else w.range.min))
    {
      var value := BoolVal(false);
      if lookup.findEnum(device, description.key, true).Some? {
        value := StrVal(description.closeInstruction);
      }
      commands := [Command(description.key, value)];
      if setPosition.Some? {
        commands := commands + [UpdateCommand(setPosition.value, status, 0)];
      }
    }

    /** `stop_cover`: the stop literal on the key, sent whatever the features say. */
    method StopCover() returns (commands: seq<Command>)
      ensures commands == [Command(description.key, StrVal(description.stopInstruction))]
    {
      commands := [Command(description.key, StrVal(description.stopInstruction))];
    }

    /**
      * `async_set_cover_position`: the command writing a percentage to the
      * set-position code; nothing when no set-position wrapper is bound.
      */
    method SetCoverPosition(status: Status, pct: int) returns (command: Option<Command>)
      ensures command.Some? <==> setPosition.Some?
      ensures command.Some? ==> command.value == UpdateCommand(setPosition.value, status, pct)
    {
      command := None;
      if setPosition.Some? {
        command := Some(UpdateCommand(setPosition.value, status, pct));
      }
    }

    /**
      * `async_set_cover_tilt_position`: the command writing a percentage to
      * the tilt code; nothing when no tilt wrapper is bound.
      */
    method SetCoverTiltPosition(status: Status, pct: int) returns (command: Option<Command>)
      ensures command.Some? <==> tiltPosition.Some?
      ensures command.Some? ==> command.value == UpdateCommand(tiltPosition.value, status, pct)
    {
      command := None;
      if tiltPosition.Some? {
        command := Some(UpdateCommand(tiltPosition.value, status, pct));
      }
    }
  }

  /**
    * When no current-position code resolved, the entity reads its position
    * from the set-position wrapper.
    */
  lemma PositionFallsBackToSetPosition(e: CoverEntity, lookup: Lookup, status: Status)
    requires e.currentPosition == Fallback(FindWrapper(lookup, e.device, e.description.positionWrapper,
                                                       e.description.currentPosition, false), e.setPosition)
    requires lookup.findInteger(e.device, e.description.currentPosition, false).None?
    ensures e.CurrentCoverPosition(status) == ReadWrapper(e.setPosition, status)
  {
  }

  /**
    * Opening then reading: with a set-position wrapper bound (and not on the
    * mode code itself), the position the open command writes reads back as
    * 100 and the entity reports the cover open.
    */
  lemma OpenReadsFullyOpen(e: CoverEntity, status: Status, commands: seq<Command>)
    requires e.setPosition.Some? && e.currentPosition == e.setPosition
    requires e.setPosition.value.code != DataPoints.ControlBackMode
    requires |commands| == 2
    requires commands[1] == UpdateCommand(e.setPosition.value, status, 100)
    ensures e.CurrentCoverPosition(status[commands[1].code := commands[1].value]) == Some(100)
    ensures e.IsClosed(status[commands[1].code := commands[1].value]) == Some(false)
  {
    var w := e.setPosition.value;
    var after := status[commands[1].code := commands[1].value];
    assert Reversed(w.kind, after) == Reversed(w.kind, status);
    RemapToEnds(w.range, Reversed(w.kind, status));
  }

  /**
    * Closing then reading: the position the close command writes reads back
    * as 0 and the entity reports the cover closed.
    */
  lemma CloseReadsClosed(e: CoverEntity, status: Status, commands: seq<Command>)
    requires e.setPosition.Some? && e.currentPosition == e.setPosition
    requires e.setPosition.value.code != DataPoints.ControlBackMode
    requires |commands| == 2
    requires commands[1] == UpdateCommand(e.setPosition.value, status, 0)
    ensures e.CurrentCoverPosition(status[commands[1].code := commands[1].value]) == Some(0)
    ensures e.IsClosed(status[commands[1].code := commands[1].value]) == Some(true)
  {
    var w := e.setPosition.value;
    var after := status[commands[1].code := commands[1].value];
    assert Reversed(w.kind, after) == Reversed(w.kind, status);
    RemapToEnds(w.range, Reversed(w.kind, status));
  }

  /**
    * What discovery passes to the entity it builds for a device and
    * description, and what the constructor then establishes: the state code
    * and the supported features.
    */
  ghost predicate BoundFrom(e: CoverEntity, device: Device, d: CoverDescription, lookup: Lookup)
  {
    var setPos := FindWrapper(lookup, device, d.positionWrapper, d.setPosition, true);
    var tilt := FindWrapper(lookup, device, d.positionWrapper, TiltCandidates, true);
    e.device == device && e.description == d && e.lookup == lookup &&
    e.setPosition == setPos && e.tiltPosition == tilt &&
    e.currentPosition == Fallback(FindWrapper(lookup, device, d.positionWrapper, d.currentPosition, false), setPos) &&
    e.currentState == lookup.getCode(device, d.currentState) &&
    !RaisesKeyError(device, d, lookup) &&
    e.features == Features(InstructionOf(device, d, lookup), d, setPos.Some?, tilt.Some?)
  }

  /** Each entity was bound from the pair planned at its position. */
  ghost predicate AllBound(es: seq<CoverEntity>, plan: seq<(Device, CoverDescription)>, lookup: Lookup)
  {
    |es| == |plan| && forall k :: 0 <= k < |es| ==> BoundFrom(es[k], plan[k].0, plan[k].1, lookup)
  }

  /** No planned pair raises when bound. */
  predicate NoneRaise(plan: seq<(Device, CoverDescription)>, lookup: Lookup)
  {
    forall p :: p in plan ==> !RaisesKeyError(p.0, p.1, lookup)
  }

  /** Pair `k` is the first of the plan whose binding raises: the one the generator stops at. */
  predicate FirstRaise(plan: seq<(Device, CoverDescription)>, lookup: Lookup, k: int)
  {
    0 <= k < |plan| && RaisesKeyError(plan[k].0, plan[k].1, lookup) && NoneRaise(plan[..k], lookup)
  }

  /** The (device, description) pairs of one device, in table order. */
  function Pairs(device: Device, ds: seq<CoverDescription>): (r: seq<(Device, CoverDescription)>)
    ensures |r| == |ds|
    ensures forall k :: 0 <= k < |ds| ==> r[k] == (device, ds[k])
  {
    seq(|ds|, k requires 0 <= k < |ds| => (device, ds[k]))
  }

  /** The entities discovery plans for a list of devices: each device's selected descriptions, in order. */
  function Planned(ids: seq<DeviceId>, deviceMap: map<DeviceId, Device>): (r: seq<(Device, CoverDescription)>)
    requires forall k :: 0 <= k < |ids| ==> ids[k] in deviceMap
  {
    if ids == [] then []
    else
      var device := deviceMap[ids[|ids| - 1]];
      Planned(ids[..|ids| - 1], deviceMap) + Pairs(device, Selected(device))
  }

  /** The pairs planned for a prefix of the devices begin the pairs planned for all of them. */
  lemma {:induction false} PlannedPrefix(ids: seq<DeviceId>, deviceMap: map<DeviceId, Device>, i: nat)
    requires forall k :: 0 <= k < |ids| ==> ids[k] in deviceMap
    requires i <= |ids|
    ensures Planned(ids[..i], deviceMap) <= Planned(ids, deviceMap)
  {
    if i < |ids| {
      var init := ids[..|ids| - 1];
      assert init[..i] == ids[..i];
      PlannedPrefix(init, deviceMap, i);
    } else {
      assert ids[..i] == ids;
    }
  }

  /** Extending the device prefix by one device appends that device's pairs. */
  lemma PlannedStep(ids: seq<DeviceId>, deviceMap: map<DeviceId, Device>, i: nat)
    requires forall k :: 0 <= k < |ids| ==> ids[k] in deviceMap
    requires i < |ids|
    ensures Planned(ids[..i + 1], deviceMap)
         == Planned(ids[..i], deviceMap) + Pairs(deviceMap[ids[i]], Selected(deviceMap[ids[i]]))
  {
    assert ids[..i + 1][..i] == ids[..i];
  }

  /** Pairing one more description of a device: the pairs of the longer filtered prefix. */
  lemma PairsStep(device: Device, ds: seq<CoverDescription>, j: nat)
    requires j < |ds|
    ensures Pairs(device, Filter(device, ds[..j + 1]))
         == Pairs(device, Filter(device, ds[..j])) + (if Eligible(device, ds[j]) then [(device, ds[j])] else [])
  {
    FilterSnoc(device, ds, j);
  }

  /** Bindings line up across concatenation. */
  lemma AllBoundAppend(es: seq<CoverEntity>, plan: seq<(Device, CoverDescription)>,
                       more: seq<CoverEntity>, morePlan: seq<(Device, CoverDescription)>, lookup: Lookup)
    requires AllBound(es, plan, lookup) && AllBound(more, morePlan, lookup)
    ensures AllBound(es + more, plan + morePlan, lookup)
  {
    forall k | 0 <= k < |es + more|
      ensures BoundFrom((es + more)[k], (plan + morePlan)[k].0, (plan + morePlan)[k].1, lookup)
    {
      if k >= |es| {
        assert (es + more)[k] == more[k - |es|];
        assert (plan + morePlan)[k] == morePlan[k - |es|];
      }
    }
  }

  /** No pair of a concatenation raises exactly when no pair of either part does. */
  lemma NoneRaiseAppend(plan: seq<(Device, CoverDescription)>, morePlan: seq<(Device, CoverDescription)>, lookup: Lookup)
    ensures NoneRaise(plan + morePlan, lookup) <==> NoneRaise(plan, lookup) && NoneRaise(morePlan, lookup)
  {
  }

  /** Pairing distributes over concatenation. */
  lemma PairsAppend(device: Device, ds: seq<CoverDescription>, es: seq<CoverDescription>)
    ensures Pairs(device, ds + es) == Pairs(device, ds) + Pairs(device, es)
  {
  }

  /** The first raise of a part that follows a part where none raises is the first raise of any plan they begin. */
  lemma FirstRaiseShift(pre: seq<(Device, CoverDescription)>, mid: seq<(Device, CoverDescription)>,
                        plan: seq<(Device, CoverDescription)>, lookup: Lookup, k: int)
    requires NoneRaise(pre, lookup) && FirstRaise(mid, lookup, k)
    requires pre + mid <= plan
    ensures FirstRaise(plan, lookup, |pre| + k)
    ensures plan[|pre| + k] == mid[k]
    ensures !NoneRaise(plan, lookup)
  {
    assert plan[|pre| + k] == (pre + mid)[|pre| + k];
    assert plan[..|pre| + k] == pre + mid[..k];
    NoneRaiseAppend(pre, mid[..k], lookup);
    assert plan[|pre| + k] in plan;
  }

  /**
    * Within one device, the raising description met at table entry `j`, after
    * entries whose pairs do not raise, is the first raise of the device's pairs.
    */
  lemma DeviceFirstRaise(device: Device, j: nat, lookup: Lookup)
    requires j < |CategoryDescriptions(device.category)|
    requires var ds := CategoryDescriptions(device.category);
      NoneRaise(Pairs(device, Filter(device, ds[..j])), lookup) &&
      Eligible(device, ds[j]) && RaisesKeyError(device, ds[j], lookup)
    ensures var ds := CategoryDescriptions(device.category);
      var k := |Filter(device, ds[..j])|;
      FirstRaise(Pairs(device, Selected(device)), lookup, k) &&
      Pairs(device, Selected(device))[k].1 == ds[j] &&
      !NoneRaise(Pairs(device, Selected(device)), lookup)
  {
    var ds := CategoryDescriptions(device.category);
    var rest := ds[j + 1..];
    assert ds == ds[..j + 1] + rest;
    FilterAppend(device, ds[..j + 1], rest);
    PairsAppend(device, Filter(device, ds[..j + 1]), Filter(device, rest));
    PairsStep(device, ds, j);
    assert FirstRaise([(device, ds[j])], lookup, 0);
    FirstRaiseShift(Pairs(device, Filter(device, ds[..j])), [(device, ds[j])], Pairs(device, Selected(device)), lookup, 0);
  }

  /** The pairs planned for the devices before `i`, then device `i`'s pairs, begin the whole plan. */
  lemma PlannedSplit(ids: seq<DeviceId>, deviceMap: map<DeviceId, Device>, i: nat)
    requires forall k :: 0 <= k < |ids| ==> ids[k] in deviceMap
    requires i < |ids|
    ensures Planned(ids[..i], deviceMap) + Pairs(deviceMap[ids[i]], Selected(deviceMap[ids[i]]))
         <= Planned(ids, deviceMap)
  {
    PlannedStep(ids, deviceMap, i);
    PlannedPrefix(ids, deviceMap, i + 1);
  }

  /**
    * Across devices, the key of the first raise of device `i`'s pairs, after
    * devices whose pairs do not raise, is the key of the first raise of the
    * whole plan.
    */
  lemma PlannedFirstRaise(ids: seq<DeviceId>, deviceMap: map<DeviceId, Device>, i: nat, lookup: Lookup, key: Code)
    requires forall k :: 0 <= k < |ids| ==> ids[k] in deviceMap
    requires i < |ids|
    requires NoneRaise(Planned(ids[..i], deviceMap), lookup)
    requires var mid := Pairs(deviceMap[ids[i]], Selected(deviceMap[ids[i]]));
      exists k :: FirstRaise(mid, lookup, k) && key == mid[k].1.key
    ensures exists n :: FirstRaise(Planned(ids, deviceMap), lookup, n) && key == Planned(ids, deviceMap)[n].1.key
    ensures !NoneRaise(Planned(ids, deviceMap), lookup)
  {
    var pre := Planned(ids[..i], deviceMap);
    var mid := Pairs(deviceMap[ids[i]], Selected(deviceMap[ids[i]]));
    var plan := Planned(ids, deviceMap);
    var k :| FirstRaise(mid, lookup, k) && key == mid[k].1.key;
    PlannedSplit(ids, deviceMap, i);
    FirstRaiseShift(pre, mid, plan, lookup, k);
    assert FirstRaise(plan, lookup, |pre| + k) && key == plan[|pre| + k].1.key;
  }

  /**
    * The generator of `async_discover_device` for one device: one entity per
    * eligible description of the device's category, in table order, or the
    * key of a description whose binding raises.
    */
  method DiscoverDevice(device: Device, lookup: Lookup) returns (r: Result<seq<CoverEntity>, Code>)
    ensures r.Success? <==> NoneRaise(Pairs(device, Selected(device)), lookup)
    ensures r.Success? ==> AllBound(r.value, Pairs(device, Selected(device)), lookup)
    ensures r.Failure? ==> exists k :: FirstRaise(Pairs(device, Selected(device)), lookup, k)
                                   && r.error == Pairs(device, Selected(device))[k].1.key
  {
    var descriptions := CategoryDescriptions(device.category);
    var entities: seq<CoverEntity> := [];
    var j := 0;
    while j < |descriptions|
      invariant 0 <= j <= |descriptions|
      invariant AllBound(entities, Pairs(device, Filter(device, descriptions[..j])), lookup)
      invariant NoneRaise(Pairs(device, Filter(device, descriptions[..j])), lookup)
    {
      var d := descriptions[j];
      ghost var done := Pairs(device, Filter(device, descriptions[..j]));
      PairsStep(device, descriptions, j);
      if Eligible(device, d) {
        if RaisesKeyError(device, d, lookup) {
          DeviceFirstRaise(device, j, lookup);
          assert FirstRaise(Pairs(device, Selected(device)), lookup, |Filter(device, descriptions[..j])|);
          return Failure(d.key);
        }
        var setPos := FindWrapper(lookup, device, d.positionWrapper, d.setPosition, true);
        var e := new CoverEntity(device, lookup, d,
          FindWrapper(lookup, device, d.positionWrapper, d.currentPosition, false),
          setPos,
          FindWrapper(lookup, device, d.positionWrapper, TiltCandidates, true));
        assert BoundFrom(e, device, d, lookup);
        AllBoundAppend(entities, done, [e], [(device, d)], lookup);
        NoneRaiseAppend(done, [(device, d)], lookup);
        entities := entities + [e];
      } else {
        assert Pairs(device, Filter(device, descriptions[..j + 1])) == done;
      }
      j := j + 1;
    }
    assert descriptions[..j] == descriptions;
    r := Success(entities);
  }

  /** The entities of one more device, none raising, extend the bindings of the devices before it. */
  lemma PlannedExtend(ids: seq<DeviceId>, deviceMap: map<DeviceId, Device>, i: nat,
                      es: seq<CoverEntity>, more: seq<CoverEntity>, lookup: Lookup)
    requires forall k :: 0 <= k < |ids| ==> ids[k] in deviceMap
    requires i < |ids|
    requires AllBound(es, Planned(ids[..i], deviceMap), lookup) && NoneRaise(Planned(ids[..i], deviceMap), lookup)
    requires var device := deviceMap[ids[i]];
      AllBound(more, Pairs(device, Selected(device)), lookup) && NoneRaise(Pairs(device, Selected(device)), lookup)
    ensures AllBound(es + more, Planned(ids[..i + 1], deviceMap), lookup)
    ensures NoneRaise(Planned(ids[..i + 1], deviceMap), lookup)
  {
    var device := deviceMap[ids[i]];
    PlannedStep(ids, deviceMap, i);
    AllBoundAppend(es, Planned(ids[..i], deviceMap), more, Pairs(device, Selected(device)), lookup);
    NoneRaiseAppend(Planned(ids[..i], deviceMap), Pairs(device, Selected(device)), lookup);
  }

  /**
    * `async_discover_device`: the entities of every device, in device order;
    * the whole discovery fails with the key of a description whose binding
    * raises.
    */
  method Discover(ids: seq<DeviceId>, deviceMap: map<DeviceId, Device>, lookup: Lookup)
    returns (r: Result<seq<CoverEntity>, Code>)
    requires forall k :: 0 <= k < |ids| ==> ids[k] in deviceMap
    ensures r.Success? <==> NoneRaise(Planned(ids, deviceMap), lookup)
    ensures r.Success? ==> AllBound(r.value, Planned(ids, deviceMap), lookup)
    ensures r.Failure? ==> exists k :: FirstRaise(Planned(ids, deviceMap), lookup, k)
                                   && r.error == Planned(ids, deviceMap)[k].1.key
  {
    var entities: seq<CoverEntity> := [];
    var i := 0;
    while i < |ids|
      invariant 0 <= i <= |ids|
      invariant AllBound(entities, Planned(ids[..i], deviceMap), lookup)
      invariant NoneRaise(Planned(ids[..i], deviceMap), lookup)
    {
      var device := deviceMap[ids[i]];
      var found := DiscoverDevice(device, lookup);
      if found.Failure? {
        PlannedFirstRaise(ids, deviceMap, i, lookup, found.error);
        return Failure(found.error);
      }
      PlannedExtend(ids, deviceMap, i, entities, found.value, lookup);
      entities := entities + found.value;
      i := i + 1;
    }
    assert ids[..i] == ids;
    r := Success(entities);
  }
}
