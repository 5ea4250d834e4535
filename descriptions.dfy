/**
  * The static per-category cover description table and the discovery filter
  * that decides which descriptions of a device's category become entities.
  */
module Descriptions {
  import opened DataPoints
  import opened Positions

  /**
    * One cover entity description. A field the source types as
    * `DPCode | tuple[DPCode, ...] | None` is held as its candidate list, with
    * `[]` for None. The defaults are the dataclass defaults.
    */
  datatype CoverDescription = CoverDescription(
    key: Code,
    currentState: seq<Code> := [],
    currentStateInverse: bool := false,
    currentPosition: seq<Code> := [],
    positionWrapper: WrapperKind := Inverted,
    setPosition: seq<Code> := [],
    openInstruction: string := "open",
    closeInstruction: string := "close",
    stopInstruction: string := "stop")

  /** `COVERS`: the descriptions of each device category, in table order. */
  const Covers: map<Category, seq<CoverDescription>> := map[
    Ckmkzq := [
      CoverDescription(key := Switch1, currentState := [DoorcontactState], currentStateInverse := true),
      CoverDescription(key := Switch2, currentState := [DoorcontactState2], currentStateInverse := true),
      CoverDescription(key := Switch3, currentState := [DoorcontactState3], currentStateInverse := true)
    ],
    Cl := [
      CoverDescription(key := Control, currentState := [SituationSet, Control],
                       currentPosition := [PercentState], setPosition := [PercentControl]),
      CoverDescription(key := Control2, currentPosition := [PercentState2], setPosition := [PercentControl2]),
      CoverDescription(key := Control3, currentPosition := [PercentState3], setPosition := [PercentControl3]),
      CoverDescription(key := MachOperate, currentPosition := [Position], setPosition := [Position],
                       openInstruction := "FZ", closeInstruction := "ZZ", stopInstruction := "STOP"),
      CoverDescription(key := Switch1, currentPosition := [PercentState], setPosition := [PercentControl])
    ],
    Clkg := [
      CoverDescription(key := Control, currentPosition := [PercentState],
                       positionWrapper := WrapperKind.ControlBackMode, setPosition := [PercentControl]),
      CoverDescription(key := Control2, currentPosition := [PercentState2],
                       positionWrapper := WrapperKind.ControlBackMode, setPosition := [PercentControl2])
    ],
    Jdcljqr := [
      CoverDescription(key := Control, currentPosition := [PercentState], setPosition := [PercentControl])
    ]
  ]

  /** `COVERS.get(category)`, with no descriptions for a category without an entry. */
  function CategoryDescriptions(category: Category): (r: seq<CoverDescription>)
    ensures r != [] <==> category in {Ckmkzq, Cl, Clkg, Jdcljqr}
  {
    assert Covers.Keys == {Ckmkzq, Cl, Clkg, Jdcljqr};
    if category in Covers then Covers[category] else []
  }

  /**
    * Every description keeps the default literals "open"/"close"/"stop" except
    * the mach_operate one, which uses "FZ"/"ZZ"/"STOP"; every description keeps
    * the always-inverted wrapper except those of category clkg, which use the
    * control-back-mode wrapper.
    */
  lemma TableDefaults(category: Category, i: nat)
    requires category in Covers && i < |Covers[category]|
    ensures var d := Covers[category][i];
      (d.openInstruction, d.closeInstruction, d.stopInstruction)
        == (if d.key == MachOperate then ("FZ", "ZZ", "STOP") else ("open", "close", "stop"))
    ensures Covers[category][i].positionWrapper
        == (if category == Clkg then WrapperKind.ControlBackMode else Inverted)
  {
    assert Covers.Keys == {Ckmkzq, Cl, Clkg, Jdcljqr};
  }

  /** The discovery test: the description's key is a function or status-range code of the device. */
  predicate Eligible(device: Device, d: CoverDescription)
  {
    d.key in device.functions || d.key in device.statusRange
  }

  /** The eligible descriptions of a list, in their order. */
  function Filter(device: Device, ds: seq<CoverDescription>): (r: seq<CoverDescription>)
    ensures |r| <= |ds|
    ensures forall d :: d in r <==> d in ds && Eligible(device, d)
  {
    if ds == [] then []
    else (if Eligible(device, ds[0]) then [ds[0]] else []) + Filter(device, ds[1..])
  }

  /** Filtering distributes over concatenation, so it keeps the table order. */
  lemma {:induction false} FilterAppend(device: Device, ds: seq<CoverDescription>, es: seq<CoverDescription>)
    ensures Filter(device, ds + es) == Filter(device, ds) + Filter(device, es)
  {
    if ds == [] {
      assert ds + es == es;
    } else {
      assert (ds + es)[1..] == ds[1..] + es;
      FilterAppend(device, ds[1..], es);
    }
  }

  /** The descriptions discovery turns into entities for one device. */
  function Selected(device: Device): (r: seq<CoverDescription>)
    ensures device.category !in Covers ==> r == []
    ensures forall d :: d in r <==> d in CategoryDescriptions(device.category) && Eligible(device, d)
  {
    Filter(device, CategoryDescriptions(device.category))
  }

  /**
    * Discovery keeps exactly the eligible descriptions, one each, in order:
    * the first k+1 entries select what the first k select, followed by entry
    * k exactly when it is eligible.
    */
  lemma FilterSnoc(device: Device, ds: seq<CoverDescription>, k: nat)
    requires k < |ds|
    ensures Filter(device, ds[..k + 1])
         == Filter(device, ds[..k]) + (if Eligible(device, ds[k]) then [ds[k]] else [])
  {
    assert ds[..k + 1] == ds[..k] + [ds[k]];
    FilterAppend(device, ds[..k], [ds[k]]);
    assert [ds[k]][1..] == [];
  }
}
