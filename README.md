# IntesisACCloud connection supervisor and zone switches, in Dafny

This project models two parts of a smart-home integration for IntesisHome,
AnyWair, airconwithme and local Intesis air-conditioning controllers. It
proves properties of both.

**The connection supervisor (`IntesisManager`, module `Manager`).** It wraps
one vendor controller and keeps three pieces of state:
- a belief flag, `connected`;
- a duplicate-free, ordered list of subscriber callbacks;
- a fixed device type that says whether the device is a cloud device.

Every controller event reaches it through its relay, `async_update_callback`.
The relay first awaits each subscriber in list order with the event's device
id. Then it compares the belief with the controller's own `is_connected`:
- On a drop, it clears the belief and schedules `try_connect(0)`. The delay
  is 30 s for a local device, and a random delay in [10, 30) for a cloud
  device.
- On a recovery seen through an ordinary event, it only sets the belief.

A reconnection attempt `try_connect(n)` calls the controller's `connect()`:
- On success it sets the belief and notifies every subscriber with no
  device id.
- On a connection error it schedules `try_connect(n + 1)` after
  `min(2**n, 300)` seconds.
- Any other error escapes.

In the model, the class `Manager.IntesisManager` holds the flag, the
subscriber list (a `seq`), a queue `pending` of scheduled attempts, and a log
`effects`. The log records, in order, every subscriber await, every
scheduling and every call to the controller. The controller is the class
`Manager.Controller`, with a liveness field. The outcome of each `connect()`
is passed in as a parameter. The random first delay is a nondeterministic
choice (`:|`) in [10, 30).

**Zone switches (module `Switch`).**
- Discovery in `async_setup_entry` makes one switch per zone `1..number_of_zones`
  of every device. It skips spill zones, whose status is `7` or `'spill'`.
  Entities come in device order, then zone order. They are handed to
  `async_add_entities` in a single call, or not at all when there are none.
- A switch's unique id is `<device id>_zone_<zone>` and its name is
  `<device name> Zone <zone>`.
- `is_on` is true exactly for the statuses `1`, `7`, `'on'` and `'spill'`.
- Turning a switch on or off sends `'on'` or `'off'` for the switch's own
  device and zone.
- An update event makes the switch refresh when its device id is missing,
  empty, or the switch's own.

The controller's device table is a Python dictionary. The model represents it
as `Switch.Devices`: an ordered list of distinct ids plus a map from id to
attributes. Integers are written into strings the way Python's `str()` does;
module `Decimal` models this and proves the round trip with `int()`.

After the first failed reconnection attempt, the code waits
`min(2**0, 300) = 1` second before the next one
(`custom_components/intesisaccloud/manager.py:97`). `Manager.ReconnectionScenario`
shows this wait.

Two behaviours of the code as written are stated in the model:

- **A recovery through an ordinary event does not cancel the pending
  attempt.** That attempt still runs later: it calls `connect()` on a live
  controller and broadcasts to every subscriber again. So after a recovery,
  more than one reconnection episode can be pending, and subscribers can be
  notified twice. See `Manager.RecoveryByEventScenario`.
- **`stop` does not cancel pending attempts.** `Manager.IntesisManager.Stop`
  leaves `pending` as it was.

## Model

| member | source | states |
|---|---|---|
| `Manager.IntesisManager.constructor` | custom_components/intesisaccloud/manager.py:11-24 | a new supervisor is not connected, has no subscribers, nothing scheduled and has done nothing; it keeps the controller and the device type |
| `Manager.IntesisManager.IsConnected` | custom_components/intesisaccloud/manager.py:43-46 | `is_connected` reports the belief flag exactly, not the controller's liveness |
| `Manager.IntesisManager.AsyncConnect` | custom_components/intesisaccloud/manager.py:30-36 | on success the belief is set, the controller is live and the relay is registered: exactly one connect call, then exactly one registration; on a failure the error is returned unchanged and only the connect call happened |
| `Manager.IntesisManager.Stop` | custom_components/intesisaccloud/manager.py:38-41 | the relay is unregistered before the controller is stopped; belief, subscribers and pending attempts are left as they were |
| `Manager.AddSubscriber` | custom_components/intesisaccloud/manager.py:56-59 | the list keeps its order and its elements, gains `cb` at the end exactly when it was absent, and stays duplicate-free |
| `Manager.IntesisManager.AddUpdateCallback` | custom_components/intesisaccloud/manager.py:56-59 | the subscriber list becomes `AddSubscriber` of the old list and stays duplicate-free |
| `Manager.AddIdempotent` | custom_components/intesisaccloud/manager.py:56-59 | adding the same callback twice gives the same list as adding it once |
| `Manager.RemoveSubscriber` | custom_components/intesisaccloud/manager.py:61-64 | removing an absent callback changes nothing; removing a present one deletes its first occurrence and keeps everything else in order |
| `Manager.RemoveSubscriberExact` | custom_components/intesisaccloud/manager.py:61-64 | on a duplicate-free list, removal drops exactly `cb`: the list shrinks by one if `cb` was present, every other callback stays, and the list stays duplicate-free |
| `Manager.IntesisManager.RemoveUpdateCallback` | custom_components/intesisaccloud/manager.py:61-64 | the subscriber list becomes `RemoveSubscriber` of the old list; `cb` is no longer subscribed |
| `Manager.AddThenRemove` | custom_components/intesisaccloud/manager.py:56-64 | adding a new callback and removing it again restores the list |
| `Manager.Notifications` | custom_components/intesisaccloud/manager.py:69-70 | one fan-out awaits subscriber `i` as its `i`-th step, with the event's device id, and does nothing else |
| `Manager.NotifiedExactlyOnce` | custom_components/intesisaccloud/manager.py:69-70 | with no duplicate subscribers, each subscriber is awaited exactly once per fan-out, and no one else is |
| `Manager.IntesisManager.Notify` | custom_components/intesisaccloud/manager.py:94-95 | the loop appends to the log exactly the fan-out of the current subscribers, in order |
| `Manager.IntesisManager.AsyncUpdateCallback` | custom_components/intesisaccloud/manager.py:66-108 | the fan-out comes first; afterwards the belief equals the controller's liveness; a drop (belief true, controller down) schedules exactly one attempt, with retry count 0 and the device type's first delay, and logs it after the fan-out; any other event schedules nothing and logs only the fan-out, so a recovery sends no extra broadcast |
| `Manager.Pow2Monotone` | custom_components/intesisaccloud/manager.py:97 | `2**i <= 2**j` when `i <= j` |
| `Manager.Backoff` | custom_components/intesisaccloud/manager.py:88-97 | the wait after a failed attempt is `2**retries` or the cap, and always between 1 and 300 seconds |
| `Manager.BackoffUncapped` | custom_components/intesisaccloud/manager.py:97 | for attempts 0..8 the wait is exactly `2**retries` |
| `Manager.BackoffCapped` | custom_components/intesisaccloud/manager.py:88-97 | from attempt 9 on the wait is 300 seconds |
| `Manager.BackoffDoubles` | custom_components/intesisaccloud/manager.py:97 | below the cap each failure doubles the wait (1, 2, 4, ...) |
| `Manager.BackoffMonotone` | custom_components/intesisaccloud/manager.py:97 | the wait never shrinks as failures accumulate |
| `Manager.WellTimedBounded` | custom_components/intesisaccloud/manager.py:76-79 | every delay the supervisor schedules, first or backoff, is between 1 and 300 seconds |
| `Manager.FollowUp` | custom_components/intesisaccloud/manager.py:96-103 | an attempt schedules a follow-up exactly when it fails with a connection error; the follow-up has retry count `n + 1` and waits at most 300 seconds |
| `Manager.FollowUpWellTimed` | custom_components/intesisaccloud/manager.py:96-103 | every follow-up carries the backoff delay for its retry count, so a whole episode keeps the delay policy |
| `Manager.IntesisManager.TryConnect` | custom_components/intesisaccloud/manager.py:87-103 | connect first. On success: belief set, controller live, one broadcast with no device id, nothing scheduled. On a connection error: belief unchanged, attempt `n + 1` scheduled after `Backoff(n)`. On another error: the error escapes, nothing else happens. A failure leaves the controller's liveness as it was |
| `Manager.IntesisManager.Schedule` | custom_components/intesisaccloud/manager.py:103-105 | `async_call_later` appends the attempt to the pending queue and logs exactly that scheduling, keeping the delay bounds |
| `Manager.IntesisManager.FireScheduled` | custom_components/intesisaccloud/manager.py:103-105 | the scheduler runs one pending attempt: it leaves the queue, and `TryConnect` runs with its retry count; a failure leaves the controller's liveness as it was |
| `Manager.ReconnectionScenario` | custom_components/intesisaccloud/manager.py:30-105 | extending the drop-and-retry run of `tests/test_manager.py:56-91` with a real `async_connect` and a successful second retry: for a cloud device, connect, drop, one failed retry, then success gives: a first delay in [10, 30), a second delay of 1 second, and a connected supervisor whose last actions are one connect and one broadcast to each subscriber with no device id |
| `Manager.RecoveryByEventScenario` | custom_components/intesisaccloud/manager.py:73-108 | after a drop and a recovery seen through an event, the belief is set but the attempt for the drop is still pending; when it runs, it connects and broadcasts again |
| `Decimal.NatToString` | custom_components/intesisaccloud/switch.py:64-65 | `str(n)` is a non-empty run of digits with no leading zero (it starts with `0` exactly when `n` is 0), and has two or more digits exactly when `n >= 10` |
| `Decimal.StringToNatOfNatToString` | custom_components/intesisaccloud/switch.py:65 | reading `str(n)` back with `int()` gives `n` |
| `Decimal.NatToStringInjective` | custom_components/intesisaccloud/switch.py:65 | distinct zone indices render as distinct strings |
| `Switch.ZoneStatusKeyInjective` | custom_components/intesisaccloud/switch.py:71 | distinct zones read distinct `zone_status_<n>` keys |
| `Switch.Entity` | custom_components/intesisaccloud/switch.py:58-65 | the entity keeps the device id and zone index it was built for |
| `Switch.NewZoneSwitch` | custom_components/intesisaccloud/switch.py:58-65 | building a switch succeeds exactly when the device is in the table; the switch keeps the device id and zone it was given, its unique id is `UniqueId` of them and its name is `EntityName` of the device's `name` attribute and the zone |
| `Switch.UniqueIdFormat` | custom_components/intesisaccloud/switch.py:65 | a unique id is the device id, then `_zone_`, then a run of digits with no leading zero that `int()` reads back as the zone |
| `Switch.EntityNameFormat` | custom_components/intesisaccloud/switch.py:63-64 | a name is the rendered device name, then ` Zone `, then a run of digits with no leading zero that `int()` reads back as the zone |
| `Switch.ParseUniqueIdRoundTrip` | custom_components/intesisaccloud/switch.py:65 | a unique id `<device>_zone_<n>` can be parsed back into its device id and zone index |
| `Switch.UniqueIdInjective` | custom_components/intesisaccloud/switch.py:65 | distinct (device, zone) pairs give distinct unique ids |
| `Switch.ZoneCount` | custom_components/intesisaccloud/switch.py:31-33 | a missing `number_of_zones` counts as 0, a number counts as itself; the comparison with 0 raises exactly when the value is not a number |
| `Switch.DeviceZones` | custom_components/intesisaccloud/switch.py:37-49 | a device with zone count `n` yields at most `max(n, 0)` switches, all of that device and with zone index in `1..n` |
| `Switch.DeviceZonesMembers` | custom_components/intesisaccloud/switch.py:37-49 | a device contributes a switch exactly for each zone `1..n` whose status is not spill, built for that zone |
| `Switch.DeviceZonesAscending` | custom_components/intesisaccloud/switch.py:37 | within a device, switches come in strictly ascending zone order |
| `Switch.DiscoverFirstRaises` | custom_components/intesisaccloud/switch.py:29-33 | discovery over the first `k` devices raises exactly when one of their zone counts is not a number |
| `Switch.DiscoverRaises` | custom_components/intesisaccloud/switch.py:29-33 | discovery raises exactly when some device's zone count is not a number |
| `Switch.DiscoverFirstBuilt` | custom_components/intesisaccloud/switch.py:29-49 | every switch found among the first `k` devices is for a non-spill zone `1..number_of_zones` of one of them, whose zone count is a number, and is built for that zone |
| `Switch.DiscoverFirstOrdered` | custom_components/intesisaccloud/switch.py:29-49 | switches found among the first `k` devices come in device order, then zone order |
| `Switch.DiscoverFirstShape` | custom_components/intesisaccloud/switch.py:29-49 | every discovered switch belongs to a listed device whose zone count is a number, is for a non-spill zone in `1..number_of_zones`, and is built for it; switches come in device order, then zone order |
| `Switch.DiscoverFirstPrefix` | custom_components/intesisaccloud/switch.py:29-49 | the switches of the earlier devices are a prefix of the final list |
| `Switch.DiscoverFirstErrSticks` | custom_components/intesisaccloud/switch.py:29-33 | once one device's zone count raises, discovery as a whole raises that error |
| `Switch.DiscoverComplete` | custom_components/intesisaccloud/switch.py:29-49 | every non-spill zone `1..n` of every device yields its switch |
| `Switch.DiscoveredIdsDistinct` | custom_components/intesisaccloud/switch.py:29-65 | no two discovered switches share a unique id |
| `Switch.AsyncSetupEntry` | custom_components/intesisaccloud/switch.py:18-52 | the nested loop builds exactly the discovered list; `async_add_entities` is called once with it when it is non-empty and never when it is empty; a zone count that raises means no call and the error is raised |
| `Switch.IsOn` | custom_components/intesisaccloud/switch.py:67-71 | `is_on` has a value exactly when the switch's device is in the table; otherwise the lookup raises |
| `Switch.IsOnCases` | custom_components/intesisaccloud/switch.py:71-81 | on exactly for statuses 1, 7, 'on' and 'spill'; a missing status is off; a zone that turns spill after discovery reports on |
| `Switch.TurnOn` | custom_components/intesisaccloud/switch.py:83-86 | turning on issues exactly one controller command, first, and it sets this switch's own device and zone to `'on'`, and then writes the state |
| `Switch.TurnOff` | custom_components/intesisaccloud/switch.py:88-91 | turning off issues exactly one controller command, first, and it sets this switch's own device and zone to `'off'`, and then writes the state |
| `Switch.RunCommand` | custom_components/intesisaccloud/switch.py:85-86 | writing the state after a command does not change the device table |
| `Switch.ZoneStatusTakesEffect` | custom_components/intesisaccloud/switch.py:71 | a controller that records a status for a zone stores exactly that status there and leaves what every other zone reports unchanged |
| `Switch.TurnOnOffTakeEffect` | custom_components/intesisaccloud/switch.py:83-91 | after the whole command list of a turn-on, the zone's stored status is exactly `'on'` and it reports on; after a turn-off it is exactly `'off'` and it reports off; no other switch's state changes |
| `Switch.UpdateCallback` | custom_components/intesisaccloud/switch.py:101-104 | the callback schedules at most one forced refresh, and does so exactly when the event's device id is missing, empty or the switch's own |
| `Switch.RefreshedAppend` | custom_components/intesisaccloud/switch.py:101-104 | the switches refreshed from two lists together are those refreshed from each, in order |
| `Switch.UpdateCallbackTargets` | custom_components/intesisaccloud/switch.py:101-104 | over any list of switches, an event with no device id or an empty one refreshes all of them, in order; an event for a device refreshes exactly the switches of that device |
| `Switch.DeviceEventRefreshesItsZones` | custom_components/intesisaccloud/switch.py:29-49 | among the discovered switches, an event for a listed device refreshes exactly that device's zone switches, in zone order |
| `Switch.ExampleZones` | tests/test_switch.py:10-16 | the zones of the example device are switches for zones 1 and 2, named `Test AC Zone 1` and `Test AC Zone 2` |
| `Switch.DiscoveryExample` | tests/test_switch.py:7-37 | discovery of the example device yields `12345_zone_1` and `12345_zone_2`, in that order, and skips the spilling zone 3 |

## Left out

- Controller construction, the `hass.data` registry and entry unload in `__init__.py` are outside the model. They are foreign calls into the vendor library and the host platform.
- `__getattr__` delegation, `get_devices` and `get_device` are plain pass-throughs to the vendor library. Instead, `Switch` functions take the device table as a parameter.
- Interleaving: each relay call, each fan-out and each reconnection attempt is one atomic step. Other events that the host could deliver while the code awaits (`custom_components/intesisaccloud/manager.py:70`, `:90`, `:95`) are not modelled. `Manager.IntesisManager.AsyncUpdateCallback` compares the controller's liveness with the belief from before the fan-out.
- Real scheduling and coroutines: the host scheduler is modelled by the `pending` queue, and `FireScheduled` runs any pending attempt. The source hands the scheduler a coroutine object rather than a callable. Whether the host scheduler accepts that is not part of this model.
- Subscriber callbacks are opaque and modelled as effect-free. A callback that raises, or that changes the subscriber list while a fan-out is under way, is not modelled. This includes a callback raising a connection error inside `try_connect`, where it would be caught and rescheduled.
- The relay's `if self.controller` test is always true in the model, because the controller is a non-null object.
- `Manager.Controller.Connect` is a stand-in for the vendor library: success makes the controller live, and a failure leaves its liveness as it was. What the library really does to its own state is not modelled.
- Device types are modelled by kind (`IntesisHome`, `AnyWair`, `AirconWithMe`, or `Other`). The library's string values for them are not part of the model.
- Randomness: `random.randrange(10, 30)` is a nondeterministic choice in [10, 30). No distribution is modelled.
- Logging has no behavioural content and is left out.
- `async_write_ha_state` and `async_schedule_update_ha_state(True)` appear only as the effects `WriteHaState` and `ScheduleUpdateHaState(true)`.
- `async_added_to_hass` and `async_will_remove_from_hass` (`custom_components/intesisaccloud/switch.py:93-99`) subscribe and unsubscribe the switch through `add_update_callback` and `remove_update_callback` of the controller the switch holds. That controller is the raw vendor controller stored in `hass.data` (`custom_components/intesisaccloud/switch.py:24`, `custom_components/intesisaccloud/__init__.py:64`), not `IntesisManager`. Its callback registry is inside the vendor library and is not modelled. `Switch.UpdateCallback` and `Switch.Refreshed` model what happens once such a callback fires.
- Device attribute values are integers, strings or `None`. Python floats and booleans, which compare equal to integers, are not modelled.
- `Switch.TurnOnOffTakeEffect` and `Switch.ZoneStatusTakesEffect`: what `set_zone_status` does inside the controller is not known here. The lemma assumes a controller that stores the sent status under the zone's status key.
- The climate entity is not part of this model.
