# Tuya cover normalisation, modelled in Dafny

This project models the cover platform of the `tuya_custom` Home Assistant
integration (`custom_components/tuya_custom/cover.py`). The platform turns
Tuya devices of the curtain, garage-door and blind categories into cover
entities. It works on the vendor's data points (DPs), which are keyed codes
with per-category meaning. The model covers:

- the three position wrappers, which map a raw integer DP to the 0-100 cover
  scale and decide on every call whether that mapping is reversed:
  never, always, or unless the device's `control_back_mode` status is
  `"back"` (module `Positions`);
- the static `COVERS` table of entity descriptions per device category, with
  its dataclass defaults, and the discovery filter that picks the
  descriptions whose key the device declares (module `Descriptions`);
- the supported-feature derivation of `TuyaCoverEntity.__init__` and the
  three-way `is_closed` resolution (module `CoverLogic`);
- the entity itself: binding, position and tilt reads, the command batches of
  open, close, stop, set-position and set-tilt, and discovery over a list of
  devices (module `CoverEntities`, class `CoverEntity`);
- the process-wide refresh throttle of `async_update`, which records at
  most one successful bulk refresh per 25 seconds per manager; a refresh
  that raises records nothing and is retried on the next call (module
  `Throttle`, class `CacheThrottle`).

Files: `wrappers.dfy` (Option/Result), `data_points.dfy` (codes, categories,
status values, device inventory, command pairs, and the lookup helpers the
platform calls), `positions.dfy`, `descriptions.dfy`, `cover_logic.dfy`,
`cover_entity.dfy` and `throttle.dfy`.

Codes and categories are the `DPCode`/`DeviceCategory` strings. A device's
status is a map from code to a Boolean, string or integer value; a missing
key is Python's `None`. The helpers the platform calls but does not define
are `util.get_dpcode`, `models.find_dpcode(..., dptype=ENUM)` and
`DPCodeIntegerWrapper.find_dpcode`. They are the three function fields of
`DataPoints.Lookup`, and the model uses only their results. The remap helpers
of the integer type information (`remap_value_to`, `remap_value_from`) are
not part of this model. As their stand-in the model uses the linear remap:
raw `v` in `[min, max]` reads as `(v - min) / (max - min) * 100`, with
`max - v + min` in place of `v` when reversed. The platform rounds it with Python's `round`, which
rounds ties to even. The model computes that rounding exactly on integers
(`Positions.RoundHalfEven`).

Behaviour the code has and a reader might not expect:
- `stop_cover` sends the stop literal without consulting the supported
  features (cover.py:380-389).
- When the bulk refresh raises, `async_update` propagates the exception
  before writing the timestamp (cover.py:421-424). The next call therefore
  refreshes again (`Throttle.RefreshFailed`).
- `__init__` reads `device.function[description.key]` whenever
  `get_dpcode` resolves the key (cover.py:282-283). Discovery also admits
  keys that are only in `status_range`, so binding can raise `KeyError`.
  That aborts the whole discovery call, and no entity is added. The
  predicate `CoverLogic.RaisesKeyError` states when this happens.
- `is_closed` tests the state value against `(True, "close", "fully_close")`
  with Python equality. An integer status of `1` therefore counts as closed
  (`CoverLogic.ClosingValue`).

## Model

| member | source | states |
|---|---|---|
| `Positions.Reversed` | custom_components/tuya_custom/cover.py:38-79 | the plain wrapper is never reversed, the inverted one always, the control-back-mode one exactly when `control_back_mode` is absent or not `"back"` |
| `Positions.RoundHalfEven` | custom_components/tuya_custom/cover.py:46-53 | Python `round(n / d)`: the result is within half a step of `n / d`, and a tie goes to the even neighbour |
| `Positions.RoundUnique` | custom_components/tuya_custom/cover.py:46-53 | any integer nearest to `n / d`, with ties to even, is the rounded value |
| `Positions.RemapTo` | custom_components/tuya_custom/cover.py:46-53 | a raw value inside the range reads as a percentage between 0 and 100 |
| `Positions.RemapFrom` | custom_components/tuya_custom/cover.py:55-63 | a percentage between 0 and 100 writes a raw value inside the range |
| `Positions.RawValue` | custom_components/tuya_custom/cover.py:55-63 | `_convert_value_to_raw_value` takes the reversal flag from the current status, and a percentage between 0 and 100 gives a raw value inside the wrapper's range |
| `Positions.ReadPosition` | custom_components/tuya_custom/cover.py:42-53 | a position read is absent exactly when the raw integer status is absent; otherwise it is the rounded remap under the reversal flag computed from the same status |
| `Positions.UpdateCommand` | custom_components/tuya_custom/cover.py:55-63 | the write pair targets the wrapper's code with an integer; position 100 writes the raw max (raw min when reversed), position 0 the raw min (raw max when reversed), with the flag taken from the current status |
| `Positions.RemapToEnds` | custom_components/tuya_custom/cover.py:42-53 | raw min reads 0 and raw max reads 100, swapped when reversed |
| `Positions.RemapFromEnds` | custom_components/tuya_custom/cover.py:55-63 | writing 0 gives raw min and 100 gives raw max, swapped when reversed |
| `Positions.RemapToReflects` | custom_components/tuya_custom/cover.py:42-53 | reversal turns every reading `p` into `100 - p`, ties included |
| `Positions.RemapRoundTrip` | custom_components/tuya_custom/cover.py:42-63 | on a raw range at least 100 wide, a percentage written and read back under the same flag reads as written |
| `Positions.RawRoundTripBound` | custom_components/tuya_custom/cover.py:42-63 | reading a raw value and writing the percentage back under the same flag lands within `(max - min + 100) / 200` raw steps of the start, on any range |
| `Positions.RawRoundTripExact` | custom_components/tuya_custom/cover.py:42-63 | on a raw range at most 100 wide, reading a raw value and writing the percentage back under the same flag gives the raw value exactly |
| `Positions.ModeFlipsReading` | custom_components/tuya_custom/cover.py:74-79 | the control-back-mode wrapper recomputes the flag on every read: one raw value reads `p` with mode `"back"` and `100 - p` with any other mode; an absent mode reads like a non-`"back"` mode |
| `Positions.ReadAfterWrite` | custom_components/tuya_custom/cover.py:42-63 | applying a wrapper's write pair to the status and reading it back gives the percentage written (raw range at least 100 wide) |
| `Descriptions.Covers` | custom_components/tuya_custom/cover.py:98-202 | the description table of the categories ckmkzq, cl, clkg and jdcljqr, in table order: each entry's key, state codes and inverse flag, position codes, and any overridden literals or wrapper, every other field taking the dataclass default (lines 82-95) |
| `Descriptions.CategoryDescriptions` | custom_components/tuya_custom/cover.py:219 | `COVERS.get(device.category)` is non-empty exactly for the categories ckmkzq, cl, clkg and jdcljqr; any other category gives no descriptions |
| `Descriptions.TableDefaults` | custom_components/tuya_custom/cover.py:82-202 | every table entry has the literals open/close/stop except mach_operate's FZ/ZZ/STOP; every entry has the always-inverted wrapper except the clkg entries, which have the control-back-mode wrapper |
| `Descriptions.Eligible` | custom_components/tuya_custom/cover.py:238-241 | a description is eligible when its key is a function code or a status-range code of the device |
| `Descriptions.Filter` | custom_components/tuya_custom/cover.py:237-242 | a description is kept exactly when it is in the list and its key is a function or status-range code of the device |
| `Descriptions.FilterAppend` | custom_components/tuya_custom/cover.py:237-242 | filtering distributes over concatenation, so it keeps table order |
| `Descriptions.FilterSnoc` | custom_components/tuya_custom/cover.py:237-242 | one more table entry adds itself to the selection exactly when eligible, at the end |
| `Descriptions.Selected` | custom_components/tuya_custom/cover.py:219-242 | a category without a table entry selects nothing; otherwise exactly the eligible descriptions of the category are selected |
| `CoverLogic.RaisesKeyError` | custom_components/tuya_custom/cover.py:282-283 | binding raises exactly when `get_dpcode` resolves the key and the key is not a function code of the device |
| `CoverLogic.InstructionOf` | custom_components/tuya_custom/cover.py:282-295 | the key is a Boolean switch exactly when it resolves and its function type is "Boolean"; it is an enumeration exactly when it resolves, is not Boolean, and the enum lookup succeeds, and then it carries that enum's literals |
| `CoverLogic.Features` | custom_components/tuya_custom/cover.py:275-302 | a Boolean key gives OPEN and CLOSE but not STOP; an enum key gives each of OPEN/CLOSE/STOP exactly when its literal is in the enum range; no instruction gives none of them; SET_POSITION exactly when a set-position wrapper is bound; SET_TILT exactly when a tilt wrapper is bound |
| `CoverLogic.ClosingValue` | custom_components/tuya_custom/cover.py:331 | the state values that mean closed under Python equality: `True`, the integer 1, `"close"` and `"fully_close"` |
| `CoverLogic.StateSignal` | custom_components/tuya_custom/cover.py:324-329 | the state signal is present exactly when a state code is bound, reported, and not `"stop"`, and it is the reported value |
| `CoverLogic.ClosedState` | custom_components/tuya_custom/cover.py:317-334 | a position decides (closed iff 0); the result is unknown exactly when there is neither a position nor a state signal; otherwise it is the inverse flag XOR "the value is a closing value" |
| `CoverLogic.PositionDominates` | custom_components/tuya_custom/cover.py:320-322 | position 0 means closed and any other position open, whatever the state code reports |
| `CoverLogic.StopIsUnknown` | custom_components/tuya_custom/cover.py:324-334 | without a position, a `"stop"` state value leaves the state unknown |
| `CoverLogic.InverseFlips` | custom_components/tuya_custom/cover.py:330-332 | the inverse flag negates every state-based answer and leaves unknown unknown |
| `CoverEntities.FindWrapper` | custom_components/tuya_custom/cover.py:225-235 | a wrapper is bound exactly when the integer lookup resolves; it has the description's wrapper kind and the resolved code |
| `CoverEntities.ReadWrapper` | custom_components/tuya_custom/cover.py:304-315 | `_read_wrapper`: no reading exactly when no wrapper is bound or its code has no integer status |
| `CoverEntities.Fallback` | custom_components/tuya_custom/cover.py:277 | the current-position wrapper is the resolved one, or the set-position wrapper when none resolved |
| `CoverEntities.CoverEntity.constructor` | custom_components/tuya_custom/cover.py:261-302 | binds the description, the device, the lookup helpers and the wrappers, with the current-position fallback; resolves the state code; accumulates exactly `Features` of the key's instruction kind and the bound wrappers |
| `CoverEntities.CoverEntity.CurrentCoverPosition` | custom_components/tuya_custom/cover.py:304-307 | absent exactly when no position wrapper is bound or its code is unreported; otherwise the remapped raw value |
| `CoverEntities.CoverEntity.CurrentCoverTiltPosition` | custom_components/tuya_custom/cover.py:309-315 | the same for the tilt wrapper |
| `CoverEntities.CoverEntity.IsClosed` | custom_components/tuya_custom/cover.py:317-334 | the entity's position decides when present (closed iff 0); otherwise the state signal flipped by the description's inverse flag; unknown exactly when neither exists |
| `CoverEntities.CoverEntity.KeyIsEnum` | custom_components/tuya_custom/cover.py:339-344 | the open and close batches send the description's literal exactly when the key resolves as an enumeration (preferring the function) |
| `CoverEntities.CoverEntity.OpenCover` | custom_components/tuya_custom/cover.py:336-354 | one or two pairs (two exactly when a set-position wrapper is bound); the first writes `True`, or the open literal when the key resolves as an enumeration; the second writes the raw end that reads as fully open |
| `CoverEntities.CoverEntity.CloseCover` | custom_components/tuya_custom/cover.py:356-374 | the same with `False`, the close literal and the raw end that reads as fully closed |
| `CoverEntities.CoverEntity.StopCover` | custom_components/tuya_custom/cover.py:380-389 | exactly one pair, the stop literal on the key, with no feature check |
| `CoverEntities.CoverEntity.SetCoverPosition` | custom_components/tuya_custom/cover.py:376-378 | a write pair for the percentage exactly when a set-position wrapper is bound |
| `CoverEntities.CoverEntity.SetCoverTiltPosition` | custom_components/tuya_custom/cover.py:391-395 | a write pair for the percentage exactly when a tilt wrapper is bound |
| `CoverEntities.PositionFallsBackToSetPosition` | custom_components/tuya_custom/cover.py:277 | with no current-position code resolved, the entity's position is the set-position wrapper's reading |
| `CoverEntities.OpenReadsFullyOpen` | custom_components/tuya_custom/cover.py:336-354 | when the entity reads its position from the set-position wrapper and that code is not the `control_back_mode` code, then after the open batch's position write the entity reads 100 and reports not closed |
| `CoverEntities.CloseReadsClosed` | custom_components/tuya_custom/cover.py:356-374 | when the entity reads its position from the set-position wrapper and that code is not the `control_back_mode` code, then after the close batch's position write the entity reads 0 and reports closed |
| `CoverEntities.DiscoverDevice` | custom_components/tuya_custom/cover.py:219-242 | for one device, one entity per selected description, in table order, each bound from it with its lookup helpers, state code and `Features`; it fails exactly when some selected description's binding raises, and then with the key of the first such description in table order |
| `CoverEntities.Discover` | custom_components/tuya_custom/cover.py:214-244 | the entities of all devices in device order then table order, each bound with its lookup helpers, state code and `Features`; the whole call fails exactly when some planned binding raises, and then with the key of the first raising binding in device order then table order, where the generator stops |
| `Throttle.CacheThrottle.constructor` | custom_components/tuya_custom/cover.py:31 | the timestamp map starts empty, and no refresh has been invoked |
| `Throttle.Step` | custom_components/tuya_custom/cover.py:409-424 | skips exactly when the manager has a time less than 25 s before `now`; fails exactly when not skipped and the refresh raises; only a returned refresh records `now`; other managers' entries are unchanged |
| `Throttle.Throttled` | custom_components/tuya_custom/cover.py:414-416 | a call is skipped exactly when the manager has a recorded time less than 25 s before `now` |
| `Throttle.RefreshesSpaced` | custom_components/tuya_custom/cover.py:409-424 | over any sequence of calls, and whatever the clock does, two successful refreshes of one manager are at least 25 s apart |
| `Throttle.ThrottleTimeline` | custom_components/tuya_custom/cover.py:31-32 | calls at 0, 10 and 26 s refresh, skip and refresh |
| `Throttle.CacheThrottle.AsyncUpdate` | custom_components/tuya_custom/cover.py:397-424 | the outcome and the new map are `Step` of the old map; the refresh is invoked once unless skipped; other managers' timestamps are kept |

## Left out

- `custom_components/tuya_custom/workarounds.py`: its functions only log or yield to the event loop, so there is nothing to model.
- Home Assistant plumbing is not modelled: `async_setup_entry` and its dispatcher wiring, `async_add_entities`, the entity base class, `unique_id`, translation keys and placeholders, and device classes. The description datatype does not carry the fields that only feed these.
- Transport is not modelled. The command methods return their batch; `_send_command` is not part of this model.
- `CoverEntities.CoverEntity.SetCoverPosition`: the entity.py helper `_async_send_dpcode_update` is not part of this model, so an unbound wrapper is modelled as "no command".
- `CoverEntities.CoverEntity.SetCoverTiltPosition`: the same applies to the tilt wrapper.
- `update_device_cache` is not modelled as a call. A ghost log records each invocation, and a Boolean input says whether it raises.
- Concurrency is not modelled. `async_update` is one sequential step, so the race between the check at cover.py:414 and the write at cover.py:424 across the `await` is not captured.
- Time is integer seconds. Sub-second `datetime` differences and the float `total_seconds()` are not modelled.
- Positions: the remap is exact rational arithmetic rounded half to even. Floating-point error is not modelled, and neither is the `scale`/`step` of the integer type information.
- Positions: the raw range must satisfy `min < max`, a condition carried by its type. Under the linear stand-in, on a zero-width range a read (`read_device_status`, through `remap_value_to`) would divide by zero and raise, while a write (`remap_value_from`, which divides by 100) would always give `min`; those ranges are not modelled. Out-of-range raw values are remapped linearly and not clamped.
- `Positions.ReadPosition`: a non-integer value at a position code is treated as unreported, because `_read_device_status_raw` is not part of this model.
- The internals of `get_dpcode`, `find_dpcode` and `DPCodeIntegerWrapper.find_dpcode` are not modelled (models.py and util.py are not part of this model). They are the abstract fields of `DataPoints.Lookup`.
- `CoverEntities.CoverEntity.constructor` requires that `__init__` does not raise `KeyError` on `device.function[key]`. The raising path is modelled by `CoverEntities.DiscoverDevice` and `CoverEntities.Discover`, which fail with that key.
- `Positions.RemapRoundTrip`: proved only for raw ranges at least 100 steps wide. Narrower ranges cannot represent every percentage.
- `Positions.RawRoundTripBound`: on ranges wider than 100 steps the raw to percentage to raw direction is stated only within its tolerance, because a percentage cannot name every raw value there.
