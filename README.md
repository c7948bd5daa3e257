# Renpho sensor: unit reconciliation and state update

A model of the sensor entity of the Renpho smart-scale integration for Home
Assistant. Each sensor exposes one metric that the integration's update
coordinator fetched from the Renpho cloud. The model covers the parts of the
entity with logic:

- The unit the sensor reports (`unit_of_measurement` and `unit`). This depends
  on the user's preferred mass unit and on the sensor's native unit.
- The value transform applied to a metric read: kilograms to pounds, rounding
  to hundredths, or pass-through.
- The update of the stored state and timestamp. A read can return a value,
  return `None`, or raise an error.
- Availability, which mirrors the coordinator's `last_update_success` flag.
- The display name, "Renpho " followed by the configured name.

Files:

- `wrappers.dfy`: `Option`.
- `units.dfy` (module `Units`): the reported unit, the three value
  transforms, rounding to two decimals, and the lemmas relating them.
- `sensor.dfy` (module `Sensor`): the `RenphoSensor` class, its `Update`
  method, the pure step `Render` that specifies it, and lemmas about
  sequences of reads.

The last `elif` of both unit properties reads
`pref == MASS_KILOGRAMS or MASS_POUNDS and native != MASS_KILOGRAMS or MASS_POUNDS`.
Python groups this as `(pref == kg or (MASS_POUNDS and native != kg)) or MASS_POUNDS`.
Its last operand is the imported constant `MASS_POUNDS`, a non-empty string, so the
condition always holds.

The model evaluates the guard with Python's `and`/`or` and truthiness
(`FallbackGuard`), and keeps the fall-off-the-end `None` result in
`ReportedUnit`. It proves that the guard holds for every pair and that
`ReportedUnit` is never `None`. The result is pounds for a kilogram sensor
whose user prefers pounds, and the native unit in every other case. That
includes kilograms preferred on a pound sensor, and every non-mass unit.

Unit tags are strings. `MASS_KILOGRAMS`, `MASS_POUNDS` and `KG_TO_LBS` come
from the integration's own constants file, which is not part of this model.
Their values are assumed to be `"kg"`, `"lb"` and 2.2046226218. Of the two
unit values, the model relies only on `"lb"` being non-empty and on the two
tags being different.

Behaviour worth noting:

- An absent metric value (`None`) clears the state and keeps the previous
  timestamp. It does not make the sensor unavailable. Availability is only
  the coordinator's flag.
- A read that raises is caught inside the sensor's own update. Both stored
  fields keep their previous values.
- `round(x, 2)` rounds a tie to the even hundredth, so 70.005 kg is shown as
  70.0 (`DisplayValueExamples`, `RoundHundredthsTies`). Python gives 70.0 on
  the float 70.005 as well.
- Kilograms preferred on a pound sensor reports pounds and leaves the value
  unchanged.

## Model

| member | source | states |
|---|---|---|
| `Units.PyOr` | custom_components/renpho/sensor.py:166 | Python `or` returns one of its operands, and the result is truthy iff either operand is |
| `Units.PyAnd` | custom_components/renpho/sensor.py:166 | Python `and` returns one of its operands, and the result is truthy iff both operands are |
| `Units.FallbackGuard` | custom_components/renpho/sensor.py:166 | the last `elif` condition, grouped as Python parses it, is truthy for every (preference, native) pair |
| `Units.ReportedUnit` | custom_components/renpho/sensor.py:158-167 | never `None`; lb when the preference is lb and native is kg; kg for kg/kg; lb for lb/lb; the native unit for every other pair |
| `Sensor.RenphoSensor.UnitOfMeasurement` | custom_components/renpho/sensor.py:157-167 | the sensor reports lb exactly for preference lb on a kg sensor, and its native unit otherwise |
| `Sensor.RenphoSensor.Unit` | custom_components/renpho/sensor.py:169-179 | `unit` always equals `unit_of_measurement` |
| `Units.RoundHundredths` | custom_components/renpho/sensor.py:193-195 | `round(x, 2)` yields a whole number of hundredths, at most half a hundredth from `x`, and leaves a value that is already in hundredths unchanged |
| `Units.RoundHundredthsIdempotent` | custom_components/renpho/sensor.py:195 | rounding an already rounded value changes nothing |
| `Units.RoundHundredthsTies` | custom_components/renpho/sensor.py:195 | ties go to the even hundredth (70.005 to 70.0, 70.015 to 70.02) |
| `Units.SelectTransform` | custom_components/renpho/sensor.py:191-197 | the kg-to-lb conversion fires iff the reported unit differs from the native unit; rounding without conversion fires iff kg is both preferred and native; every other pair, including every non-mass unit, passes through |
| `Units.ApplyTransform` | custom_components/renpho/sensor.py:192-197 | the converted value is within 0.005 of `v * KG_TO_LBS`; the rounded value is within 0.005 of `v`; both are in hundredths; pass-through returns `v` |
| `Units.DisplayValue` | custom_components/renpho/sensor.py:191-197 | for every value: lb preferred on a kg sensor stores `round(v * KG_TO_LBS, 2)`; kg on kg stores `round(v, 2)`; every other pair stores `v` |
| `Units.DisplayAgreesWithUnit` | custom_components/renpho/sensor.py:158-197 | read in the reported unit, the stored value is the same mass as the native reading, up to rounding (within 0.005 kg) |
| `Units.DisplayValueIdempotent` | custom_components/renpho/sensor.py:192-197 | for a pair that keeps its unit, applying the rule again to its output gives the same value |
| `Units.DisplayValueExamples` | custom_components/renpho/sensor.py:192-197 | 70 kg shown in lb is 154.32; 70.005 kg shown in kg is 70.0; 150 lb stays 150; a lb sensor with kg preferred and a non-mass sensor pass through |
| `Sensor.DisplayName` | custom_components/renpho/sensor.py:97 | the display name is "Renpho " followed by the configured name, and nothing else |
| `Sensor.Render` | custom_components/renpho/sensor.py:184-211 | failed read: both fields unchanged; present value: state is the transformed value and timestamp is the read time; `None`: state cleared, timestamp kept; the timestamp changes only to the time of a read that delivered a value |
| `Sensor.RenphoSensor.constructor` | custom_components/renpho/sensor.py:82-102 | stores the configuration, with the name prefixed by "Renpho "; state and timestamp start unset |
| `Sensor.RenphoSensor.Available` | custom_components/renpho/sensor.py:115-118 | available exactly when the coordinator's last update succeeded |
| `Sensor.RenphoSensor.Name` | custom_components/renpho/sensor.py:143-145 | the name is "Renpho " followed by the configured name |
| `Sensor.RenphoSensor.Update` | custom_components/renpho/sensor.py:181-211 | writes only state and timestamp, as `Render` prescribes; an error leaves both unchanged and does not escape |
| `Sensor.Replay` | custom_components/renpho/sensor.py:181-211 | successive evaluations of `state`: after any sequence of reads, the timestamp is the starting one or the time of some read that delivered a value |
| `Sensor.LastStamp` | custom_components/renpho/sensor.py:198 | the time of the last read that delivered a value is the initial timestamp or the time of one such read |
| `Sensor.LastState` | custom_components/renpho/sensor.py:191-201 | the state from the last read that did not fail is the initial state, nothing, or the transformed value of some read |
| `Sensor.ReplaySnoc` | custom_components/renpho/sensor.py:181-211 | a sequence of reads followed by one more read is one more `Render` step |
| `Sensor.ReplaySummary` | custom_components/renpho/sensor.py:184-211 | after any sequence of reads, the state is set by the last read that did not fail and the timestamp by the last read that delivered a value |
| `Sensor.ReplayFailuresKeepRendered` | custom_components/renpho/sensor.py:203-211 | a run of failed reads leaves both fields exactly as they were |
| `Sensor.TimestampComesFromValue` | custom_components/renpho/sensor.py:198-201 | on a new sensor, the timestamp is unset or is the time of some read that delivered a value |

## Left out

- Platform setup (`sensors_list`, `async_setup`, `async_setup_entry`, `async_setup_platform`, lines 28-76): entity registration and config wiring belong to the host framework. `sensors_list` is called without its coordinator argument at lines 44 and 72.
- Listener subscription and refresh requests (`async_added_to_hass`, `async_update_data`): framework callbacks.
- The update coordinator: its fetch, caching, refresh coalescing and `get_specific_metric` live in a coordinator file that is not part of this model. The model uses only two things from it: the outcome of one metric read, passed to `Update`, and the `last_update_success` flag.
- `async`/`await`: the `state` property is a coroutine that assigns fields and returns nothing. The model has it as the synchronous method `Update`, which returns nothing.
- Floating point: values are exact reals. `round(x, 2)` is modelled on the exact value of `x`, not on its binary float, and `* KG_TO_LBS` is exact multiplication.
- `datetime.now().strftime(...)`: the formatted time is a parameter of `Update`.
- Logging (`_LOGGER.info`, `.error`, `.critical`): the three error kinds are kept apart in `FetchError`, but all three are handled the same way.
- `unique_id`: it depends on the external `slugify`.
- `device_state_attributes` and `extra_state_attributes`: these build a record from `_timestamp`, category and label. `__init__` never sets `_timestamp`, so reading them before the first successful read raises `AttributeError` in the source. The model's timestamp is an `Option` that starts as `None`.
- `should_poll`, `category` and `label`: constant or plain field reads. The constructor's contract states the stored category and label.
