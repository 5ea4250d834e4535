/**
  * The decisions a cover entity makes from its bound codes: which features
  * it supports and whether the cover is closed.
  */
module CoverLogic {
  import opened Wrappers
  import opened DataPoints
  import opened Descriptions

  /** The `CoverEntityFeature` flags the platform sets. */
  datatype Feature = Open | Close | Stop | SetPosition | SetTiltPosition

  /** How the description's instruction key is backed on the device. */
  datatype Instruction =
    | NoInstruction                  // the key does not resolve, or resolves to neither kind
    | BooleanSwitch                  // the key's function type is "Boolean"
    | EnumChoice(range: set<string>) // the key resolves as an enumeration with these literals

  /**
    * Whether binding raises: the key resolves on the device but is not one of
    * its function codes, so looking up its function type fails.
    */
  predicate RaisesKeyError(device: Device, d: CoverDescription, lookup: Lookup)
  {
    lookup.getCode(device, [d.key]).Some? && d.key !in device.functions
  }

  /** The instruction kind `__init__` finds for the description's key. */
  function InstructionOf(device: Device, d: CoverDescription, lookup: Lookup): (r: Instruction)
    requires !RaisesKeyError(device, d, lookup)
    ensures r == BooleanSwitch <==>
      lookup.getCode(device, [d.key]).Some? && device.functions[d.key].typeName == "Boolean"
    ensures r.EnumChoice? <==>
      lookup.getCode(device, [d.key]).Some? && device.functions[d.key].typeName != "Boolean"
      && lookup.findEnum(device, d.key, true).Some?
    ensures r.EnumChoice? ==> Some(r.range) == lookup.findEnum(device, d.key, true)
  {
    if lookup.getCode(device, [d.key]).None? then NoInstruction
    else if device.functions[d.key].typeName == "Boolean" then BooleanSwitch
    else match lookup.findEnum(device, d.key, true)
      case Some(range) => EnumChoice(range)
      case None => NoInstruction
  }

  /** The features of an entity with this instruction and these bound wrappers. */
  function Features(instruction: Instruction, d: CoverDescription, hasSetPosition: bool, hasTilt: bool)
    : (r: set<Feature>)
    ensures instruction == BooleanSwitch ==> Open in r && Close in r && Stop !in r
    ensures instruction == NoInstruction ==> Open !in r && Close !in r && Stop !in r
    ensures instruction.EnumChoice? ==>
      (Open in r <==> d.openInstruction in instruction.range) &&
      (Close in r <==> d.closeInstruction in instruction.range) &&
      (Stop in r <==> d.stopInstruction in instruction.range)
    ensures SetPosition in r <==> hasSetPosition
    ensures SetTiltPosition in r <==> hasTilt
  {
    var moves :=
      match instruction
      case NoInstruction => {}
      case BooleanSwitch => {Open, Close}
      case EnumChoice(range) =>
        (if d.openInstruction in range then {Open} else {}) +
        (if d.closeInstruction in range then {Close} else {}) +
        (if d.stopInstruction in range then {Stop} else {});
    moves + (if hasSetPosition then {SetPosition} else {}) + (if hasTilt then {SetTiltPosition} else {})
  }

  /** The state values `is_closed` takes for "closed" (Python's `1 == True` included). */
  predicate ClosingValue(v: Value)
  {
    v == BoolVal(true) || v == IntVal(1) || v == StrVal("close") || v == StrVal("fully_close")
  }

  /** The discrete state signal: the bound state code's value, unless absent or "stop". */
  function StateSignal(stateCode: Option<Code>, status: Status): (r: Option<Value>)
    ensures r.Some? <==> stateCode.Some? && stateCode.value in status && status[stateCode.value] != StrVal("stop")
    ensures r.Some? ==> r.value == status[stateCode.value]
  {
    if stateCode.Some? && stateCode.value in status && status[stateCode.value] != StrVal("stop")
    then Some(status[stateCode.value])
    else None
  }

  /**
    * `is_closed`: the position decides when there is one; otherwise the
    * discrete state, flipped by the inverse flag; otherwise unknown.
    */
  function ClosedState(position: Option<int>, stateCode: Option<Code>, status: Status, inverse: bool)
    : (r: Option<bool>)
    ensures position.Some? ==> r == Some(position.value == 0)
    ensures r.None? <==> position.None? && StateSignal(stateCode, status).None?
    ensures position.None? && r.Some? ==> (r.value <==> inverse != ClosingValue(StateSignal(stateCode, status).value))
  {
    if position.Some? then Some(position.value == 0)
    else match StateSignal(stateCode, status)
      case Some(v) => Some(inverse != ClosingValue(v))
      case None => None
  }

  /** A position of 0 means closed whatever the state code reports. */
  lemma PositionDominates(stateCode: Option<Code>, status: Status, inverse: bool)
    ensures ClosedState(Some(0), stateCode, status, inverse) == Some(true)
    ensures forall p :: p != 0 ==> ClosedState(Some(p), stateCode, status, inverse) == Some(false)
  {
  }

  /** Without a position, a state value of "stop" leaves the cover state unknown. */
  lemma StopIsUnknown(stateCode: Code, status: Status, inverse: bool)
    requires stateCode in status && status[stateCode] == StrVal("stop")
    ensures ClosedState(None, Some(stateCode), status, inverse) == None
  {
  }

  /** The inverse flag flips every state-based answer and leaves unknown unknown. */
  lemma InverseFlips(stateCode: Option<Code>, status: Status, inverse: bool)
    ensures var a := ClosedState(None, stateCode, status, inverse);
            var b := ClosedState(None, stateCode, status, !inverse);
            a.None? == b.None? && (a.Some? ==> a.value == !b.value)
  {
  }
}
