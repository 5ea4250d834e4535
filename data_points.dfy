/**
  * The vendor data-point vocabulary the cover platform works with: data-point
  * codes, device categories, raw status values, the device inventory, the
  * command pairs sent back to the device, and the lookup helpers of the
  * integration that live outside the cover platform.
  */
module DataPoints {
  import opened Wrappers

  /** A data-point code (a `DPCode` string such as "percent_state"). */
  type Code = string

  /** A device category (a `DeviceCategory` string such as "cl"). */
  type Category = string

  /** A raw status value as the cloud reports it. */
  datatype Value = BoolVal(b: bool) | StrVal(s: string) | IntVal(i: int)

  /** The current status of a device: code to raw value; a missing key is `None`. */
  type Status = map<Code, Value>

  /** The declared type of a data point (`"Boolean"`, `"Enum"`, `"Integer"`, ...). */
  datatype Descriptor = Descriptor(typeName: string)

  /**
    * The inventory of one device: its category, the writable codes
    * (`device.function`, here `functions`) and the readable codes (`device.status_range`).
    */
  datatype Device = Device(
    category: Category,
    functions: map<Code, Descriptor>,
    statusRange: map<Code, Descriptor>)

  /** One `{"code": ..., "value": ...}` entry of a command batch. */
  datatype Command = Command(code: Code, value: Value)

  /** The integer type information of a data point: its raw range. */
  datatype IntRange = IntRange(min: int, max: int)

  /** A raw range the linear remap can divide by. */
  type PositionRange = r: IntRange | r.min < r.max witness IntRange(0, 100)

  /** A code resolved as an integer data point, with its raw range. */
  datatype IntegerCode = IntegerCode(code: Code, range: PositionRange)

  /**
    * The lookup helpers the cover platform calls but does not define; their
    * results are inputs to this model.
    *   getCode     -- util.get_dpcode(device, codes)
    *   findEnum    -- models.find_dpcode(device, code, dptype=ENUM, prefer_function=...),
    *                  giving the enumeration's declared literals
    *   findInteger -- DPCodeIntegerWrapper.find_dpcode(device, codes, prefer_function=...)
    */
  datatype Lookup = Lookup(
    getCode: (Device, seq<Code>) -> Option<Code>,
    findEnum: (Device, Code, bool) -> Option<set<string>>,
    findInteger: (Device, seq<Code>, bool) -> Option<IntegerCode>)

  // Device categories with cover descriptions.
  const Ckmkzq: Category := "ckmkzq"
  const Cl: Category := "cl"
  const Clkg: Category := "clkg"
  const Jdcljqr: Category := "jdcljqr"

  // Data-point codes used by the cover platform.
  const AngleHorizontal: Code := "angle_horizontal"
  const AngleVertical: Code := "angle_vertical"
  const Control: Code := "control"
  const Control2: Code := "control_2"
  const Control3: Code := "control_3"
  const ControlBackMode: Code := "control_back_mode"
  const DoorcontactState: Code := "doorcontact_state"
  const DoorcontactState2: Code := "doorcontact_state_2"
  const DoorcontactState3: Code := "doorcontact_state_3"
  const MachOperate: Code := "mach_operate"
  const PercentControl: Code := "percent_control"
  const PercentControl2: Code := "percent_control_2"
  const PercentControl3: Code := "percent_control_3"
  const PercentState: Code := "percent_state"
  const PercentState2: Code := "percent_state_2"
  const PercentState3: Code := "percent_state_3"
  const Position: Code := "position"
  const SituationSet: Code := "situation_set"
  const Switch1: Code := "switch_1"
  const Switch2: Code := "switch_2"
  const Switch3: Code := "switch_3"
}
