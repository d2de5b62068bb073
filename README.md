# Waterguard LinkBox integration, modelled in Dafny

This project models the core of a Home Assistant integration for the Abra Waterguard LinkBox, a
water-leak hub with a wired leak tape, motorised shut-off valves and wireless leak, temperature,
humidity and battery sensors. The hub speaks a small and quirky subset of BACnet/IP: BVLL frames
(Annex J of ANSI/ASHRAE Standard 135) carrying ReadProperty and WriteProperty requests (clauses
15.5 and 15.9), with replies that the integration decodes by heuristics rather than by the tag
rules of clause 20.2.

The modules follow the program:

- `Bytes`, `Float32`, `Text`, `Wrappers`, `Status`: bytes, exact IEEE-754 single-precision
  decoding, string helpers, `Option`/`Result`, and the snapshot the hub returns (sections of
  optional readings).
- `Codec` (hub.py): the unsigned encoder, the ReadProperty and WriteProperty frames with their
  decoders, and the reply parser (error bit, water and wireless shapes, wired tag precedence,
  multi-state mapping).
- `Transport` and `Client` (hub.py): the UDP exchange as an oracle, and the hub client class with
  its water, valve, control, reset, device-info and wireless operations, the two-pass wireless
  discovery and the wireless read cadence.
- `Cache`, `StateMachines`, `Coordinator` (coordinator.py): the bounded per-entity reading cache,
  the alarm and valve state machine, and the update coordinator class with its cycle, valve
  disconnect tracking, alarm determination and interval switching.
- `Notifications` (notifications.py): the notification manager's alarm book (trigger with
  de-duplication, clear) and the checks that drive it.
- `BinarySensors`, `Sensors`, `Switches` (binary_sensor.py, sensor.py, switch.py): what each entity
  shows for a snapshot, and the state each remembers.
- `Const` (const.py): the object map and the state tables.
- `Twin` (test_device_communication.py): the stand-alone script's own frame builder and parser,
  proved against the hub's.
- `DeviceId` (discover_device_id.py): the device-id discovery script's frame, reply scanner and
  verification loop.
- `Discovery` (discovery.py): the Who-Is broadcast and the I-Am collecting protocol.

Modelling choices:

- The network is a parameter. A link maps a request and an attempt number to an optional reply, so
  the same request in one cycle gets the same reply on the same attempt. The device-id script's
  sender is a function from frames to optional replies.
- Time is an integer number of seconds, passed in. The "now" of one update cycle is one value.
- IEEE-754 single precision is decoded exactly (NaN, infinities and finite reals). An integral
  float written to the hub is written as an integer. A real written to the hub is given by its four
  single-precision bytes.
- Hub readings are reals. The branches of the Python code that only run on non-numeric readings
  (the `float()` conversion failing) cannot happen in the model, because the hub only ever stores
  numbers.
- `str(value)` in the sensors is the `Rendered` form, which keeps the number.
- The list `list(set(...))` of device ids is a set, because the list's order is not defined.
- The get_all_status dictionary always has its four sections (water, valve, device and wireless), so the coordinator's branch for empty
  hub data is reached only through the hub outcome parameter. The hub outcome is delivered data,
  nothing delivered, or an exception message.
- The coordinator holds an optional notification manager, which is absent until notifications are
  set up (on by default). When the manager is there, each cycle first triggers a `valve_alarm`
  for every newly disconnected valve and then runs the manager's complete check on the published
  snapshot and the coordinator's wireless data. The manager's `utcnow()` and the coordinator's
  `datetime.now()` are the same cycle time.
- A hub's device id is any integer. The object identifier `(8 << 22) | device_id` is packed into
  32 bits, which raises for a negative id or one of 2^32 or more. The device-info read and the
  status read then end with that error, and the model gives None for it.

## Model

| member | source | states |
|---|---|---|
| Codec.EncodeUnsigned | custom_components/waterguard_linkbox/hub.py:47-58 | one byte below 254, a 254 marker and two bytes below 65536, otherwise a 255 marker and three bytes |
| Codec.UnsignedRoundTrip | custom_components/waterguard_linkbox/hub.py:53-58 | decoding the encoded unsigned gives back every value below 2^24, and the marker byte announces the encoded length |
| Codec.UnsignedDropsHighByte | custom_components/waterguard_linkbox/hub.py:57-58 | from 2^24 on, the four-byte form keeps only the low 24 bits, so decoding gives the value mod 2^24 |
| Codec.ObjectId | custom_components/waterguard_linkbox/hub.py:78 | the object identifier is below 2^32 and splits back into its type (the high 10 bits) and its instance (the low 22 bits) |
| Codec.EncodeWriteValue | custom_components/waterguard_linkbox/hub.py:119-131 | the framed value is 4, 5 or 7 bytes as an integral value fits one, two or four bytes, and 7 bytes for a real |
| Codec.WithLength | custom_components/waterguard_linkbox/hub.py:89-90 | the length patch keeps every byte except 2-3, which hold the frame length big-endian |
| Codec.ReadPropertyRequest | custom_components/waterguard_linkbox/hub.py:60-92 | a read frame starts 81 0A, carries its own length in bytes 2-3 and service 0x0C at index 9, and is 17 bytes for a property below 254 |
| Codec.WritePropertyRequest | custom_components/waterguard_linkbox/hub.py:94-146 | a write frame starts 81 0A, carries its own length in bytes 2-3 and service 0x0F at index 9, followed by the framed value |
| Codec.FrameBodyLayout | custom_components/waterguard_linkbox/hub.py:65-87 | the unpatched frame: header bytes, service byte, tag 0x0C, the big-endian object id, tag 0x19 and the encoded property |
| Codec.FrameLayout | custom_components/waterguard_linkbox/hub.py:84-92 | after the length patch the frame holds its own length and still has every field at its fixed offset |
| Codec.ReadRequestRoundTrip | custom_components/waterguard_linkbox/hub.py:60-92 | decoding a read frame gives back its object type, instance and property |
| Codec.WriteValueRoundTrip | custom_components/waterguard_linkbox/hub.py:118-131 | decoding the framed value gives back the value written: integral reals as integers, other reals as their four bytes |
| Codec.WriteRequestRoundTrip | custom_components/waterguard_linkbox/hub.py:94-146 | decoding a write frame gives back its object, property and value |
| Codec.NumValvesFrame | custom_components/waterguard_linkbox/hub.py:60-92 | the frame that reads the valve count (object 13/3, property 85) byte for byte |
| Codec.Truncated | custom_components/waterguard_linkbox/hub.py:180-182 | a reply longer than 1024 bytes is cut to its first 1024 bytes, and a shorter one is kept whole |
| Codec.RejectsShortAndErrorReplies | custom_components/waterguard_linkbox/hub.py:175-193 | for `Codec.ParseValue` (`_parse_value`, hub.py:171-208): a reply shorter than 4 bytes, or with bit 0x02 set in byte 3 unless byte 3 is 0x17, gives no value |
| Codec.WirelessRouting | custom_components/waterguard_linkbox/hub.py:196-221 | for `Codec.ParseValue` and its test `Codec.IsWirelessResponse`: only analog inputs reach the wireless parser, and an analog reply of 22 bytes or more with header 81 0A 00 17 and 3E 44 at bytes 16-17 always reaches it, despite the error bit in its byte 3 |
| Codec.IgnoresBytesBeyond1024 | custom_components/waterguard_linkbox/hub.py:180-182 | for `Codec.ParseValue`: two replies that agree on their first 1024 bytes give the same value |
| Codec.LeakReadingIsZeroOrOne | custom_components/waterguard_linkbox/hub.py:313-330 | for `Codec.ParseWireless` (`_parse_wireless_sensor_response`, hub.py:307-400): a leak reading is only 0.0 or 1.0; on the water shape it is 1.0 exactly when byte 19 is 0x80 |
| Codec.WirelessRangesHold | custom_components/waterguard_linkbox/hub.py:358-389 | for `Codec.ParseWireless`: temperature, humidity and battery voltage readings lie in -50..100, 0..150 and 1.5..4.0 |
| Codec.OutputCodesForcedIntoRange | custom_components/waterguard_linkbox/hub.py:402-426 | for `Codec.MultiState` (`_apply_multi_state_mapping`): a multi-state output value is forced into 0..10, and 319 or any value out of range becomes 1; other object types pass unchanged |
| Codec.EnumeratedTagWins | custom_components/waterguard_linkbox/hub.py:227-232 | for `Codec.ParseWired` (`_parse_wired_sensor_value`, hub.py:223-305) and `Codec.MultiState`: the first 0x91 tag in the reply decides the value, then mapped by object type |
| Codec.UnsignedTagPrefersSpecialCodes | custom_components/waterguard_linkbox/hub.py:235-256 | for `Codec.ParseWired`: without an enumerated tag, the first 0x21 tag gives its two-byte value only when that is 319 or 1087, else its one-byte value |
| Codec.RealTagWithinRange | custom_components/waterguard_linkbox/hub.py:267-298 | for `Codec.ParseWired`: a real after the first 0x44 is accepted exactly when it is finite and inside the expected range |
| Codec.WaterShapeReading | custom_components/waterguard_linkbox/hub.py:313-330 | for `Codec.ParseValue` and `Codec.ParseWireless`: the 23-byte water shape on object type 0 reads 1.0 exactly when byte 19 is 0x80, else 0.0 |
| Float32.Decode | custom_components/waterguard_linkbox/hub.py:272 | big-endian IEEE-754 single: NaN or infinite exactly when the exponent is all ones, with the sign taken from the top bit |
| Float32.IntegerRoundTrip | custom_components/waterguard_linkbox/hub.py:348-360 | every whole number below 2^24, among them the leak readings 0.0 and 1.0 that the parser compares against, decodes back from its single-precision encoding exactly |
| Codec.IntegralRealWrittenAsInteger | custom_components/waterguard_linkbox/hub.py:119-130 | a real holding a whole number below 2^24 is encodable, counts as that integer, and is framed exactly as the integer would be |
| Const.ValveStatusLabel | custom_components/waterguard_linkbox/const.py:103-109 | the valve status table: 1 unknown, 2 closed, 3 open, 4 and 1087 disconnected, and no word for any other value |
| Transport.ReplyFromIsFirstAnswer | custom_components/waterguard_linkbox/hub.py:148-169 | the exchange gives the first attempt that was answered, and nothing only when every attempt went unanswered |
| Transport.ReplyFromAgrees | custom_components/waterguard_linkbox/hub.py:148-169 | two links that answer the same on every attempt give the same reply |
| Transport.SendRequest | custom_components/waterguard_linkbox/hub.py:148-169 | retries + 1 attempts, stopping at the first reply; no reply exactly when every attempt went unanswered |
| Client.Exchange | custom_components/waterguard_linkbox/hub.py:148-169 | a frame that decodes to a request gets the reply the device gives that request |
| Client.Fetch | custom_components/waterguard_linkbox/hub.py:60-92 | builds the read frame and returns the device's reply to that read request |
| Client.ReadObject | custom_components/waterguard_linkbox/hub.py:454-480 | the parsed present value of one object, read with two retries |
| Client.WaterSectionSnoc | custom_components/waterguard_linkbox/hub.py:458-476 | each water object adds its parsed reading under its key, except notification-class objects, which are skipped |
| Client.WaterStatusContents | custom_components/waterguard_linkbox/hub.py:454-480 | the water section has exactly the keys alarm, leak1 and reset_leak, each the reading of its object |
| Client.WaterObjectsAllRead | custom_components/waterguard_linkbox/hub.py:458-463 | the water read reaches objects 0/7, 0/9 and the type-14 reset object 14/10 |
| Client.TruncToInt | custom_components/waterguard_linkbox/hub.py:497 | truncation toward zero, as the integer conversion of the raw count does |
| Client.ValveCountCodes | custom_components/waterguard_linkbox/hub.py:497-508 | the raw valve count maps 2 to 1, 3 to 2 and 319 to 0 and passes every other value through |
| Client.RoundHalfEven | custom_components/waterguard_linkbox/hub.py:1089 | the rounded percentage is within one half of the exact value |
| Client.RoundHalfEvenMonotone | custom_components/waterguard_linkbox/hub.py:1089 | rounding never reverses the order of two values |
| Client.BatteryPercentage | custom_components/waterguard_linkbox/hub.py:1072-1089 | the battery percentage lies in 15..100: 100 from 3.3 V up and 15 at 2.2 V or below |
| Client.BatteryPercentageMonotone | custom_components/waterguard_linkbox/hub.py:1072-1089 | a higher voltage never gives a lower percentage |
| Client.WithBattery | custom_components/waterguard_linkbox/hub.py:894-897 | a battery percentage computed from battery_voltage is added, and every other reading is left as it was |
| Client.ReadKeysSnoc | custom_components/waterguard_linkbox/hub.py:911-945 | reading one more keyed object records its reading under its key |
| Client.SensorKeysDistinct | custom_components/waterguard_linkbox/hub.py:629-635 | the five wireless instances map to five different sensor keys |
| Client.ProbeReply | custom_components/waterguard_linkbox/hub.py:639-762 | a probe only accepts analog inputs (type 0) or multi-state values (type 13), records the object probed and its kind, and accepts nothing without a reply |
| Client.PassUntouched | custom_components/waterguard_linkbox/hub.py:639-762 | a pass leaves untouched every key that none of its instances maps to |
| Client.PassFound | custom_components/waterguard_linkbox/hub.py:644-647 | after a pass, a key found before is kept, and otherwise the key holds what probing its instance gave |
| Client.PassProbedIs | custom_components/waterguard_linkbox/hub.py:644-647 | a pass probes exactly the instances whose keys were not yet found, in order |
| Client.PassProbedSameForOtherKeys | custom_components/waterguard_linkbox/hub.py:644-647 | which objects a pass probes depends only on which keys are already found |
| Client.PassProbedNames | custom_components/waterguard_linkbox/hub.py:644-647 | an object of the pass's type is probed exactly when its key was not yet found |
| Client.PassProbedExcludes | custom_components/waterguard_linkbox/hub.py:644-647 | a pass probes no instance outside its list |
| Client.WirelessInstancesDistinct | custom_components/waterguard_linkbox/const.py:79-85 | the wireless instances 11..15 are distinct and in the scanned range |
| Client.DiscoveryIsTwoPasses | custom_components/waterguard_linkbox/hub.py:639-762 | for `Client.Discovery`, what `discover_wireless_sensors` finds and reads: discovery is the analog-input pass followed by the multi-state pass |
| Client.TwoPassesFound | custom_components/waterguard_linkbox/hub.py:639-762 | after both passes a key holds the analog answer when there is one, and otherwise the multi-state answer |
| Client.TwoPassesProbed | custom_components/waterguard_linkbox/hub.py:644-647 | every analog input is probed, and the multi-state object only when its analog input gave nothing |
| Client.DiscoveryPrecedence | custom_components/waterguard_linkbox/hub.py:729-746 | the analog pass wins, status entries only fill the gaps, and the entry records which kind answered |
| Client.DiscoveryReads | custom_components/waterguard_linkbox/hub.py:644-647 | for each wireless instance the analog input is always read, and the multi-state object exactly when the analog read gave nothing |
| Client.CandidateNames | custom_components/waterguard_linkbox/const.py:79-85 | the wireless objects in order leak1, leak2, temperature, humidity, battery_voltage, each with its candidate objects |
| Client.ActionCodesMatchControlTable | custom_components/waterguard_linkbox/hub.py:548-552 | every valve action code is in the valve control table of const.py and is labelled with that action |
| Client.Scan | custom_components/waterguard_linkbox/hub.py:639-762 | the scan fills a well-formed sensor table and equals the two-pass discovery |
| Client.ScanObjectType | custom_components/waterguard_linkbox/hub.py:639-762 | the loop over the wireless instances for one object type computes one discovery pass |
| Client.ProbeInstance | custom_components/waterguard_linkbox/hub.py:642-755 | an instance whose key is already found is skipped unread; otherwise its object is read, recorded as probed, and kept when the probe accepts it |
| Client.Hub.constructor | custom_components/waterguard_linkbox/hub.py:18-22 | a new hub client with no wireless attempts, no cached wireless data and no discovered sensors |
| Client.Hub.ReadWaterStatus | custom_components/waterguard_linkbox/hub.py:454-480 | the water section is the reading of every non-notification water object, and exactly those objects are read |
| Client.Hub.ReadValveStatus | custom_components/waterguard_linkbox/hub.py:482-540 | the remapped valve count; valve_status1 read only with at least one valve and valve_status2 only with at least two, None otherwise |
| Client.Hub.ControlValve | custom_components/waterguard_linkbox/hub.py:542-565 | an unknown action (case-insensitive) writes nothing and fails; a known one writes its code to the control object and succeeds exactly when the hub answers |
| Client.Hub.ResetWaterAlarm | custom_components/waterguard_linkbox/hub.py:567-583 | writes the reset value to the reset object with three retries and succeeds exactly when the hub answers |
| Client.Hub.ResetLeakAlarm | custom_components/waterguard_linkbox/hub.py:585-587 | the leak reset is the water reset with the default reset value 2 |
| Codec.DeviceObjectIdOf | custom_components/waterguard_linkbox/hub.py:78-79 | the device object identifier exists exactly for ids in 0..2^32-1; it keeps every bit of the id but bit 25, which the device type 8 sets in the type field, and sets that bit |
| Codec.DeviceObjectIdOfSmall | custom_components/waterguard_linkbox/hub.py:78 | an id below 2^22 gives the identifier of device-type object 8 with that instance |
| Client.DeviceRequest | custom_components/waterguard_linkbox/hub.py:60-92 | the read request for a 32-bit object identifier carries exactly that identifier as type and instance |
| Client.Hub.ReadDeviceInfo | custom_components/waterguard_linkbox/hub.py:589-611 | fails exactly when the device id does not pack into 32 bits; otherwise each device property is listed exactly when the hub answered its read of the device object, each with its fixed placeholder text |
| Client.Hub.DiscoverWirelessSensors | custom_components/waterguard_linkbox/hub.py:613-774 | the discovered table is the two-pass discovery, remembered for later reads, and the wireless cadence fields are kept |
| Client.Hub.GetWirelessSensorValues | custom_components/waterguard_linkbox/hub.py:776-830 | nothing without discovered sensors, else the readings of the discovered sensors |
| Client.Hub.ReadWirelessFromHub | custom_components/waterguard_linkbox/hub.py:911-945 | the readings of the five wireless objects, each with its expected range |
| Client.Hub.ScanForWirelessObjects | custom_components/waterguard_linkbox/hub.py:947-983 | under the deterministic link, the scan reads the same five wireless objects and so gives the same readings as the standard read |
| Client.Hub.ReadKeyed | custom_components/waterguard_linkbox/hub.py:911-945 | the loop over keyed objects gives the readings of those objects |
| Client.Hub.CollectWireless | custom_components/waterguard_linkbox/hub.py:855-876 | which readings a cycle collects, by the attempt counter mod 3, 6 and 12 and the force flag |
| Client.Hub.GatherWireless | custom_components/waterguard_linkbox/hub.py:878-897 | a forced read that collected nothing rediscovers the sensors and reads them; the battery percentage is then added |
| Client.Hub.ReadWirelessSensors | custom_components/waterguard_linkbox/hub.py:832-909 | a fresh cache (under 5 minutes, not forced) is returned unchanged; otherwise the attempt counter steps, and an unforced attempt not divisible by 3 returns the last data |
| Client.Hub.GetAllStatus | custom_components/waterguard_linkbox/hub.py:1034-1046 | fails, changing nothing, exactly when the device id does not pack; otherwise the snapshot holds the water section, the valve section as the valve read gives it, the device info as the device read gives it, and the wireless readings together with the hub's new wireless state |
| Cache.IndexOf | custom_components/waterguard_linkbox/coordinator.py:46 | the index of a reading with the timestamp, and none exactly when no reading has it |
| Cache.PutExistingInPlace | custom_components/waterguard_linkbox/coordinator.py:46 | a reading with an existing timestamp overwrites that entry in place and moves nothing |
| Cache.PutNewAppends | custom_components/waterguard_linkbox/coordinator.py:46 | a reading with a new timestamp is appended at the newest end |
| Cache.PutKeepsDistinct | custom_components/waterguard_linkbox/coordinator.py:40-53 | storing a reading keeps the timestamps of one key distinct |
| Cache.TrimKeepsNewest | custom_components/waterguard_linkbox/coordinator.py:48-53 | eviction keeps the newest max entries in arrival order and drops only from the oldest end |
| Cache.TrimKeepsDistinct | custom_components/waterguard_linkbox/coordinator.py:48-53 | eviction keeps the timestamps distinct |
| Cache.AddedValid | custom_components/waterguard_linkbox/coordinator.py:40-53 | after add_reading a key holds at most max entries with distinct timestamps |
| Cache.AddedHoldsReading | custom_components/waterguard_linkbox/coordinator.py:40-53 | the added reading can be found by its timestamp, and a new timestamp becomes the latest reading |
| Cache.FirstIndexIsOnly | custom_components/waterguard_linkbox/coordinator.py:46 | with distinct timestamps the entry found is the only one with that timestamp |
| Cache.PopPushRestores | custom_components/waterguard_linkbox/coordinator.py:61-64 | storing the newest reading again leaves a key's readings as they were |
| Cache.Evict | custom_components/waterguard_linkbox/coordinator.py:48-53 | the eviction loop removes oldest readings until at most max remain |
| Cache.EntityCache.constructor | custom_components/waterguard_linkbox/coordinator.py:34-38 | an empty cache with the given bound |
| Cache.EntityCache.Readings | custom_components/waterguard_linkbox/coordinator.py:40-53 | every key holds at most max readings with distinct timestamps |
| Cache.EntityCache.AddReading | custom_components/waterguard_linkbox/coordinator.py:40-53 | only the key's readings change, to the bounded store with the reading added |
| Cache.EntityCache.GetLatestReading | custom_components/waterguard_linkbox/coordinator.py:55-77 | the newest reading and its timestamp when the key has data, (None, None) otherwise; the cache is unchanged |
| Cache.EntityCache.Stats | custom_components/waterguard_linkbox/coordinator.py:79-82 | the reading count for every cached key, each at most the bound |
| StateMachines.ValveStateAgreesWithLabels | custom_components/waterguard_linkbox/coordinator.py:107-125 | for `StateMachines.ValveStateOf`, the mapping of `update_valve_state`: the valve state is open, closed or disconnected exactly when the status table labels the code so |
| StateMachines.StateMachine.constructor | custom_components/waterguard_linkbox/coordinator.py:88-94 | normal alarm, unknown valve, no timestamps |
| StateMachines.StateMachine.UpdateAlarmState | custom_components/waterguard_linkbox/coordinator.py:96-105 | reports a change exactly when the normalised alarm state differs, and only then records the new timestamp |
| StateMachines.StateMachine.UpdateValveState | custom_components/waterguard_linkbox/coordinator.py:107-125 | reports a change exactly when the normalised valve state differs (3 open, 2 closed, 4 and 1087 disconnected, else unknown), and only then records the timestamp |
| Coordinator.HubCountNever319 | custom_components/waterguard_linkbox/hub.py:497-508 | the hub never publishes 319 as the valve count |
| Coordinator.ValveProblemWithHubCount | custom_components/waterguard_linkbox/coordinator.py:408-413 | with the hub's count, a valve problem is a disconnected first valve, or two valves with a disconnected second valve |
| Coordinator.ConnectedValves | custom_components/waterguard_linkbox/coordinator.py:335-340 | the connected set only holds valve 1 and 2 |
| Coordinator.ReportedOnlyOnLoss | custom_components/waterguard_linkbox/coordinator.py:342-362 | a valve is reported only when it was connected before and is not now; a reconnected valve leaves the notified set |
| Coordinator.NotifiedTestRedundant | custom_components/waterguard_linkbox/coordinator.py:342-362 | when nothing previously connected is in the notified set, every lost valve is reported and the notified set stays apart from the connected one |
| Coordinator.Reports | custom_components/waterguard_linkbox/coordinator.py:342-362 | one report per cycle of a run of connected sets |
| Coordinator.ReportsFollowLoss | custom_components/waterguard_linkbox/coordinator.py:342-362 | each cycle reports only valves connected in the previous cycle and absent now |
| Coordinator.ReportedAgainOnlyAfterReconnect | custom_components/waterguard_linkbox/coordinator.py:342-362 | a valve reported twice was seen connected in some cycle in between |
| Coordinator.Clamp | custom_components/waterguard_linkbox/coordinator.py:474-479 | the clamped value lies in the range, equals the input inside it and the nearer bound outside it |
| Coordinator.DefaultOptions | custom_components/waterguard_linkbox/const.py:27-29 | without options the scan interval is 2 s and the fast poll interval 1 s |
| Coordinator.Prepared | custom_components/waterguard_linkbox/coordinator.py:249-254 | the published snapshot keeps water, valve and device, and takes the last wireless data when the hub sent none |
| Coordinator.RemapAgainLosesSecondValve | custom_components/waterguard_linkbox/coordinator.py:257-265 | remapping the hub's count again changes it exactly for the two-valve code, which is published as one valve |
| Coordinator.AsWrittenMissesSecondValveAlarm | custom_components/waterguard_linkbox/coordinator.py:257-265 | with two valves, the second disconnected and nothing else wrong, the corrected cycle sees an alarm and the cycle as written does not |
| Coordinator.PreparedKeepsHubCount | custom_components/waterguard_linkbox/coordinator.py:257-265 | the corrected preparation publishes the hub's count, two valves for the raw code 3 |
| Coordinator.Present | custom_components/waterguard_linkbox/coordinator.py:287-298 | the entries of a section whose value is not None |
| Coordinator.PrefixedMember | custom_components/waterguard_linkbox/coordinator.py:287-304 | a cache key with the section prefix stands for exactly one key of the section |
| Coordinator.StoredAddAll | custom_components/waterguard_linkbox/coordinator.py:287-304 | caching a section stores, for every key, what add_reading makes of it |
| Coordinator.AddAllStores | custom_components/waterguard_linkbox/coordinator.py:287-304 | every present reading of a section is added under its prefixed key, and other keys are untouched |
| Coordinator.AddAllBounded | custom_components/waterguard_linkbox/coordinator.py:287-304 | caching a section keeps every key within the bound |
| Coordinator.AddAllNothing | custom_components/waterguard_linkbox/coordinator.py:287-304 | caching an empty section changes nothing |
| Coordinator.AddAllStep | custom_components/waterguard_linkbox/coordinator.py:287-304 | caching one more reading of a section is one more add_reading |
| Coordinator.CachedWirelessAt | custom_components/waterguard_linkbox/coordinator.py:310-318 | a wireless name gets the latest cached reading exactly when the cache holds readings for it |
| Coordinator.CacheSection | custom_components/waterguard_linkbox/coordinator.py:287-304 | the caching loop stores every present reading of a section |
| Coordinator.LatestWireless | custom_components/waterguard_linkbox/coordinator.py:310-318 | the loop collects the latest cached reading of every wireless name and leaves the cache as it was |
| Coordinator.ForcedSyncOnlyWhenUncertain | custom_components/waterguard_linkbox/coordinator.py:137-142 | for `Coordinator.ValveAfter`, the valve state after the update and the re-read that `StateMachines.StateMachine.ShouldForceValveSync` (`should_force_valve_sync`) allows: the valve state is re-read only when the alarm is normal and the valve is unknown or disconnected |
| Coordinator.UpdateCoordinator.constructor | custom_components/waterguard_linkbox/coordinator.py:148-175 | the scan interval is the option or the default, polling starts at the scan interval, with no alarm and nothing cached |
| Coordinator.UpdateCoordinator.ProcessDataThroughCache | custom_components/waterguard_linkbox/coordinator.py:284-321 | every present reading is cached, and missing wireless data is filled from the latest cached wireless readings |
| Coordinator.UpdateCoordinator.ForceValveSync | custom_components/waterguard_linkbox/coordinator.py:427-443 | a re-read valve section with a first valve status sets the valve state from it |
| Coordinator.DisconnectAlarmsEffect | custom_components/waterguard_linkbox/coordinator.py:342-356 | no newly lost valve leaves the book alone; otherwise the book holds one valve_alarm, for the higher lost valve, and a send happens only for the lower one and only when no valve_alarm was active |
| Coordinator.UpdateCoordinator.AsyncSetupNotifications | custom_components/waterguard_linkbox/coordinator.py:177-184 | with the option on or unset, a fresh manager with an empty book, no last states and both channels on; with it off, no change |
| Coordinator.UpdateCoordinator.TrackValves | custom_components/waterguard_linkbox/coordinator.py:335-362 | reports the newly lost valves, triggers a valve_alarm for each of them in the manager, updates the notified set and replaces the previous set with the current one |
| Coordinator.UpdateCoordinator.UpdateStateMachine | custom_components/waterguard_linkbox/coordinator.py:323-374 | the alarm and valve states follow the snapshot, the disconnect sets are updated with their valve alarms, and the valve is re-read when uncertain |
| Coordinator.UpdateCoordinator.CheckAlarmConditions | custom_components/waterguard_linkbox/coordinator.py:445-460 | the alarm flag follows the snapshot and the interval changes only on an edge: fast when rising, scan when falling |
| Coordinator.UpdateCoordinator.UpdateOptions | custom_components/waterguard_linkbox/coordinator.py:466-491 | clamps scan into 1..300 and fast into 1..10, then polls at fast while an alarm is active and at scan otherwise |
| Coordinator.UpdateCoordinator.ProcessDelivered | custom_components/waterguard_linkbox/coordinator.py:249-272 | a delivered snapshot is prepared, cached, fed to the state machine and the interval logic, checked by the manager after the disconnect alarms, and published |
| Coordinator.UpdateCoordinator.AsyncUpdateData | custom_components/waterguard_linkbox/coordinator.py:229-282 | one cycle: counts the update, publishes delivered data after the manager's checks, keeps the previous snapshot and the manager on an empty reply or a timeout or connection error, and fails otherwise |
| Coordinator.UpdateCoordinator.RecordResult | custom_components/waterguard_linkbox/coordinator.py:229-282 | an updated cycle becomes the coordinator's data and marks the update successful; a failed one keeps the data and marks it failed |
| Notifications.TriggerSendsOnlyWhenNew | custom_components/waterguard_linkbox/notifications.py:243-275 | for `Notifications.Trigger` (`_trigger_alarm`): a trigger sends only for an inactive type; a repeat with a different value or sensor replaces the record without sending, and a same repeat only refreshes the timestamp |
| Notifications.ClearThenTriggerSends | custom_components/waterguard_linkbox/notifications.py:277-294 | for `Notifications.Clear` (`_clear_alarm`) with `Notifications.Trigger`: after a clear the next trigger of that type sends again, and clearing an inactive type changes nothing |
| Notifications.DecideIdempotent | custom_components/waterguard_linkbox/notifications.py:117-241 | running the same check twice leaves the same state as running it once |
| Notifications.DecideOthers | custom_components/waterguard_linkbox/notifications.py:117-241 | a check touches only its own alarm type and sends nothing when it clears; its type is active exactly when its condition holds |
| Notifications.ReadingRecord | custom_components/waterguard_linkbox/notifications.py:123-152 | a reading of at least 1.0 is an alarm; a missing or lower reading clears it |
| Notifications.ValveAlarmRecord | custom_components/waterguard_linkbox/notifications.py:183-199 | a valve alarm exactly when one of the valve statuses is 4; 1087 does not count |
| Notifications.LowBatteryRecord | custom_components/waterguard_linkbox/notifications.py:204-212 | low battery exactly when a battery voltage is present and below 2.5 |
| Notifications.ConnectionLostRecord | custom_components/waterguard_linkbox/notifications.py:234-241 | connection lost exactly when every section of the data is empty |
| Notifications.LeakTypes | custom_components/waterguard_linkbox/notifications.py:215-229 | the two wireless leaks are checked as wireless_leak_1 and wireless_leak_2 from readings leak1 and leak2 |
| Notifications.LeakChecksOthers | custom_components/waterguard_linkbox/notifications.py:215-229 | the leak loop touches no alarm type but the two wireless leaks |
| Notifications.LeakChecksActive | custom_components/waterguard_linkbox/notifications.py:215-229 | after the leak loop each wireless leak is active exactly when its reading is at least 1.0, with that reading stored |
| Notifications.SecondLeakPassSendsNothing | custom_components/waterguard_linkbox/notifications.py:155-168 | a second leak pass over the same readings sends nothing |
| Notifications.CheckAllActive | custom_components/waterguard_linkbox/notifications.py:100-115 | for `Notifications.CheckAll`, the full check of `async_check_alarms`: after a full check each alarm type is active exactly when its condition holds |
| Notifications.WirelessRecheckSendsNothing | custom_components/waterguard_linkbox/notifications.py:155-168 | the wireless check run after the water check re-checks the leaks and sends nothing more |
| Coordinator.AlarmAgreesWithNotifications | custom_components/waterguard_linkbox/coordinator.py:376-425 | for `Coordinator.AlarmActive` (`_determine_alarm_state`): the coordinator's alarm is active exactly when a water, leak, low-battery alarm or a valve problem is present |
| Coordinator.ValveConditionsDiffer | custom_components/waterguard_linkbox/notifications.py:183-199 | a valve at 1087 is an alarm for the coordinator but not a notification, and a second valve at 4 notifies with one valve counted |
| Notifications.NotificationManager.constructor | custom_components/waterguard_linkbox/notifications.py:80-91 | no active alarms, no last states, no sends, both channels on |
| Notifications.NotificationManager.TriggerAlarm | custom_components/waterguard_linkbox/notifications.py:243-275 | the active alarms and sends become the trigger's, and nothing else changes |
| Notifications.NotificationManager.ClearAlarm | custom_components/waterguard_linkbox/notifications.py:277-294 | the type is removed when active, and nothing else changes |
| Notifications.NotificationManager.Apply | custom_components/waterguard_linkbox/notifications.py:117-241 | triggers with a record or clears without one |
| Notifications.NotificationManager.CheckLeaks | custom_components/waterguard_linkbox/notifications.py:215-229 | the loop over leak indices 1 and 2 triggers or clears each wireless leak |
| Notifications.NotificationManager.CheckWaterAlarms | custom_components/waterguard_linkbox/notifications.py:117-168 | the water alarm, the tape leak and then the wireless leaks from the last wireless data |
| Notifications.NotificationManager.CheckValveAlarms | custom_components/waterguard_linkbox/notifications.py:170-199 | triggers or clears the valve alarm from the valve statuses |
| Notifications.NotificationManager.CheckWirelessAlarms | custom_components/waterguard_linkbox/notifications.py:201-229 | low battery and the wireless leaks |
| Notifications.NotificationManager.CheckConnectionStatus | custom_components/waterguard_linkbox/notifications.py:231-241 | triggers or clears connection lost |
| Notifications.NotificationManager.AsyncCheckAlarms | custom_components/waterguard_linkbox/notifications.py:100-115 | stores the wireless data and runs every check in order |
| Notifications.NotificationManager.ClearAllNotifications | custom_components/waterguard_linkbox/notifications.py:372-388 | the active alarms and last states are empty afterwards |
| Notifications.NotificationManager.UpdateNotificationSettings | custom_components/waterguard_linkbox/notifications.py:489-495 | sets both channel flags and nothing else |
| Notifications.DueAsWrittenRaises | custom_components/waterguard_linkbox/notifications.py:391-400 | for `Notifications.NotificationManager.DueAsWritten`, `is_notification_due` as written: with a channel on, an alarm recorded by the manager's checks (every active alarm between cycles) makes the check as written raise, and it never answers true |
| Notifications.NotificationDueCases | custom_components/waterguard_linkbox/notifications.py:391-400 | for `Notifications.NotificationManager.IsNotificationDue`, the corrected `is_notification_due`: due is false with both channels off or no active alarm, and otherwise true exactly when the record is more than a minute old |
| BinarySensors.IsWirelessByName | custom_components/waterguard_linkbox/binary_sensor.py:108 | the wireless sensors are exactly the keys starting with wireless_ |
| BinarySensors.CacheKeyIsStoredKey | custom_components/waterguard_linkbox/binary_sensor.py:112-119 | each sensor's cache key is the key its section's readings are cached under |
| BinarySensors.WithCache | custom_components/waterguard_linkbox/binary_sensor.py:130-132 | a missing current value falls back to the latest cached reading when the cache has one |
| BinarySensors.WaterStateOf | custom_components/waterguard_linkbox/binary_sensor.py:134-160 | None stays unknown, a value outside 0..10 or 0 is off, and a value in (0, 10] is on |
| BinarySensors.LeakStateOf | custom_components/waterguard_linkbox/binary_sensor.py:193-208 | a wireless leak is on exactly for values in 1..2 |
| BinarySensors.ValveDisconnectedIsValveProblem | custom_components/waterguard_linkbox/binary_sensor.py:163-181 | valve disconnected is on exactly when the coordinator sees a valve problem |
| BinarySensors.IsOnKeepsLastUnlessWirelessValue | custom_components/waterguard_linkbox/binary_sensor.py:106-110 | for `BinarySensors.IsOnOf`, the decision `BinarySensors.WaterguardBinarySensor.IsOn` returns: the last known state changes only for a wireless sensor with a value, and then to the shown state |
| BinarySensors.WirelessSleepKeepsState | custom_components/waterguard_linkbox/binary_sensor.py:184-212 | a wireless sensor that loses its value keeps showing the state it last computed |
| BinarySensors.WaterSensorState | custom_components/waterguard_linkbox/binary_sensor.py:134-160 | a water sensor shows unknown, on or off from its value or cached reading, and keeps no state |
| BinarySensors.IntermediateWaterValueOnWithoutAlarm | custom_components/waterguard_linkbox/binary_sensor.py:149-154 | an intermediate water reading of 0.5 shows on while the coordinator sees no alarm |
| BinarySensors.AvailabilityCases | custom_components/waterguard_linkbox/binary_sensor.py:227-269 | for `BinarySensors.AvailableOf`, which `BinarySensors.WaterguardBinarySensor.Available` applies to its coordinator and last state: unavailable without a snapshot, available after a failed update, water sensors with a value, wireless sensors with a value or a last state |
| BinarySensors.WaterguardBinarySensor.constructor | custom_components/waterguard_linkbox/binary_sensor.py:92-101 | a sensor for its key with no last known state |
| BinarySensors.WaterguardBinarySensor.IsOn | custom_components/waterguard_linkbox/binary_sensor.py:103-224 | returns the decided state and stores the new last known state, leaving the cache as it was |
| Sensors.IsWirelessByName | custom_components/waterguard_linkbox/sensor.py:81-88 | the wireless sensors are exactly the keys starting with wireless_ |
| Sensors.ValveDisplayAgreesWithStateMachine | custom_components/waterguard_linkbox/sensor.py:169-180 | the sensor shows open or closed exactly when the state machine says so, and only those update the last stable state |
| Sensors.ShownRun | custom_components/waterguard_linkbox/sensor.py:169-180 | one shown value per valve status code of a run |
| Sensors.MotionFollowsLastStable | custom_components/waterguard_linkbox/sensor.py:169-177 | a 319 code shows opening after closed, closing after open, else moving, from the last stable state before it |
| Sensors.LastStableAfterMotion | custom_components/waterguard_linkbox/sensor.py:169-180 | motion codes do not change the last stable state |
| Sensors.NativeValueRemembers | custom_components/waterguard_linkbox/sensor.py:158-162 | a present value is always shown; a wireless sensor remembers and shows it again while its value is missing |
| Sensors.NativeValueForms | custom_components/waterguard_linkbox/sensor.py:164-186 | the battery reading passes through as a number, the valve count and other wireless readings are shown as text |
| Sensors.SecondValveAvailability | custom_components/waterguard_linkbox/sensor.py:221-225 | for `Sensors.AvailableOf` (sensor.py:196-242), which `Sensors.WaterguardSensor.Available` applies to its coordinator and remembered value: after a successful update the second valve status is available exactly when two or more valves are counted |
| Sensors.SecondValveShownOnlyWhenCountKept | custom_components/waterguard_linkbox/coordinator.py:257-265 | with the hub reporting two valves, the remap as written hides the second valve status and the corrected one shows it |
| Sensors.WaterguardSensor.constructor | custom_components/waterguard_linkbox/sensor.py:118-131 | no last known value and no last stable state |
| Sensors.WaterguardSensor.NativeValue | custom_components/waterguard_linkbox/sensor.py:134-194 | returns the shown value and updates the remembered value and last stable state as the display rules say |
| Switches.ValveStatus | custom_components/waterguard_linkbox/switch.py:63-70 | the first valve status, or the newest cached valve_valve_status1 reading when it is missing |
| Switches.IsOnIsOpen | custom_components/waterguard_linkbox/switch.py:58-86 | for `Switches.IsOn` (`is_on`): the switch is on exactly when the valve status is 3 (open), and off without a snapshot |
| Switches.AvailableMeansConnected | custom_components/waterguard_linkbox/switch.py:131-159 | for `Switches.Available` (`available`): unavailable without a snapshot, available after a failed update, else available exactly when the system and first valve are connected and a valve is counted |
| Twin.PropertyIdIsTagged | test_device_communication.py:41-46 | the script's property identifier is tag 0x19 followed by the hub's encoding of the same unsigned, in all three lengths |
| Twin.RequestMatchesHub | test_device_communication.py:32-49 | for `Twin.CreateReadPropertyRequest` (`create_read_property_request`): the script builds the same read frame as the hub, byte for byte, for every property |
| Twin.WaterShapeFirst | test_device_communication.py:72-84 | for `Twin.ParseValue`: the water shape is recognised before the error bit and on every object type, 1.0 exactly for byte 19 = 0x80 |
| Twin.LeakOnlyZeroOrOne | test_device_communication.py:97-113 | a wireless leak is 0.0 or 1.0, and a NaN or infinite leak reads dry where the hub gives nothing |
| Twin.HumidityNarrowerThanHub | test_device_communication.py:97-113 | humidity is accepted only up to 100 where the hub accepts up to 150 |
| Twin.TaggedAgreesOffOutputs | test_device_communication.py:127-165 | the tag parser equals the hub's off multi-state outputs, and differs there only by the output mapping |
| Twin.OutputCodeRaw | test_device_communication.py:127-131 | an enumerated 255 from a multi-state output stays 255, where the hub shows 1 |
| Twin.AgreesWithHubElsewhere | test_device_communication.py:67-170 | for `Twin.ParseValue` (the script's `parse_value`, test_device_communication.py:67-170): outside the water and wireless shapes and the outputs, the script parses every reply up to 1024 bytes as the hub does |
| DeviceId.DeviceObjectId | discover_device_id.py:29 | the device object id exists exactly for ids below 2^32, keeps the id's low bits and has the device-type bit set |
| DeviceId.DeviceObjectIdFields | discover_device_id.py:29 | for a 22-bit id the object id is type 8 and that instance |
| DeviceId.FrameDetermined | discover_device_id.py:26-41 | the read frame is determined by its id and property and carries its own length |
| DeviceId.CreateReadPropertyPacket | discover_device_id.py:26-41 | a 16-byte frame with length 16, the device object id after tag 0x0C and 0x19 and the property last; none when the id or property does not fit |
| DeviceId.Ascii | discover_device_id.py:62 | ASCII bytes become their characters and other bytes the replacement character |
| DeviceId.NameIsFirstFit | discover_device_id.py:58-64 | for `DeviceId.NameFrom`, the name loop: the name is read at the first 0x75 tag whose length fits inside the reply |
| DeviceId.NoNameWithoutFit | discover_device_id.py:58-64 | for `DeviceId.NameFrom`: there is no name exactly when no 0x75 tag fits |
| DeviceId.ExtractDeviceInfo | discover_device_id.py:43-66 | the ids are the non-zero 22-bit instances after each 0x0C up to length - 4, without duplicates, and the name the first fitting string |
| DeviceId.Extend | discover_device_id.py:49-55 | one more scanned byte adds its instance exactly when it is a non-zero object id tag |
| DeviceId.VerifyDeviceId | discover_device_id.py:68-75 | verified exactly when the reply to the read of property 77 is longer than 6 bytes with byte 6 0x30 or 0x60 |
| DeviceId.DiscoverDevices | discover_device_id.py:77-122 | no devices without a probe reply; else exactly the verified ids of the reply, each once, with its name and port 47808 |
| DeviceId.VerifyEach | discover_device_id.py:95-118 | the loop keeps exactly the ids whose verification succeeded |
| DeviceId.VerifyNext | discover_device_id.py:104-118 | one id verified is appended with the target's address, port 47808 and the name, keeping the list free of duplicates; an id that fails is dropped |
| DeviceId.ReadPropertyPacket | discover_device_id.py:26-41 | for an id below 2^32, the read frame for that id and property |
| DeviceId.ProbeLayout | discover_device_id.py:83 | the probe is 17 bytes as its length field says, reads property 77 of the wildcard device instance |
| Discovery.WhoIsLength | custom_components/waterguard_linkbox/discovery.py:42 | the Who-Is packet is 12 bytes as its length field says, and a broadcast frame |
| Discovery.DeviceIdOf | custom_components/waterguard_linkbox/discovery.py:87-88 | the device id from bytes 12..15, fewer when the datagram is shorter, fits 32 bits |
| Discovery.ReceivedCases | custom_components/waterguard_linkbox/discovery.py:78-106 | for `Discovery.Received` (`datagram_received`, discovery.py:84-103) with its I-Am test `Discovery.IsIAm`: one datagram keeps the list duplicate-free and loses nothing, and adds its hub only when it is an I-Am |
| Discovery.ReceivedAllLists | custom_components/waterguard_linkbox/discovery.py:78-106 | after any datagrams each hub is listed once, exactly when some I-Am announced it |
| Discovery.DiscoveryProtocol.constructor | custom_components/waterguard_linkbox/discovery.py:75-76 | the protocol starts with the given hub list |
| Discovery.DiscoveryProtocol.DatagramReceived | custom_components/waterguard_linkbox/discovery.py:78-106 | the list grows by the announced hub exactly when the datagram is an I-Am from a hub not yet listed |
| Discovery.AsyncDiscoverHubs | custom_components/waterguard_linkbox/discovery.py:25-70 | the hubs returned are each listed once, exactly those the answers announced |

## Left out

- `async_discover_wireless_sensors` (coordinator.py:186-224, run at setup from `__init__.py`): the setup-time discovery that fills the coordinator's last wireless data and discovered sensors. The model's coordinator starts with no wireless data, which the first cycle's read then fills.
- Socket handling (`_find_available_port`, `_create_socket`, `test_connection`, `is_connected`), timeouts and the 5-second wait in hub discovery: these are I/O. The transport is the link oracle described above.
- Locks, executor jobs and the Home Assistant scheduler: one update cycle is one sequential method.
- `_send_notification`, `_send_mobile_notification`, `async_send_notification`, the event firing and the alarm message texts: these are delivery and formatting. The model records what would be sent, as the manager's outbox.
- `get_wireless_sensor_status`, `get_device_info` and the coordinator's cache statistics and cached-reading accessors: these are formatting or thin wrappers. The entities call the cache directly.
- `_discover_wireless_devices` returns nothing in the source, so the model's third wireless approach adds nothing. `_read_data_from_device` is never called.
- Encoding an arbitrary Python float into single precision for WriteProperty, with its rounding: the written real is given by its four bytes. Only whole numbers below 2^24, which are exact, have an encoder (`Float32.EncodeInteger`).
- Entities added at run time for discovered wireless sensors other than the fixed ones, and all setup in config_flow.py, services.py, diagnostics.py, entity.py, `__init__.py` and wireless_diagnostic.py: this is registration and user interface.
- The scripts' `main` functions, `send_packet` and `send_bacnet_request`, printing and logging: these are drivers and output.
- `DeviceId.ExtractDeviceInfo`: the returned ids are a set rather than a list, because `list(set(...))` has no defined order.
- Coordinator.UpdateCoordinator.ProcessDelivered: the cycle publishes the corrected count (`Prepared`), not the second remap of coordinator.py:257-265 (see Findings). So for a raw count 3 with valve_status1 = 3 and valve_status2 = 4, the model raises the alarm and switches to the fast interval, while the source counts one valve, sees no alarm and stays on the scan interval. `Coordinator.AsWrittenMissesSecondValveAlarm` states that difference.
- Coordinator.UpdateCoordinator.AsyncUpdateData: follows `ProcessDelivered`, so it has the same corrected count and the same difference from the source's alarm and interval for a second disconnected valve.
- Client.Hub.ScanForWirelessObjects: the link answers a repeated request the same way on the same attempt. So the fallback scan of hub.py:935-938 and 947-983 repeats reads that just gave nothing, and it cannot find anything. A sensor that wakes up between the two reads, which is what the fallback is for, is not captured.
- The notification manager's book is a value held by the manager. Its wireless data is a copy of the coordinator's dictionary rather than the shared object. The coordinator changes that object in place on the next cycle (coordinator.py:307), but `async_check_alarms` reassigns the manager's reference (notifications.py:103) before every read of it (notifications.py:112, 157), so each check sees the same values the copy holds.
- Notifications.NotificationManager.DueAsWritten: records carry no clock kind, so it raises for every active type. In the source a coordinator-made `valve_alarm` record holds a naive timestamp and would not raise, but only until the same cycle's check replaces or clears it (notifications.py:199-200, 262-266).
- `Client.ProbeReply`: its contract covers the entry's object and kind and the no-reply case, not the value ranges, which `Client.DiscoveryPrecedence` states for the whole scan.

## Findings

| source | as written | input that shows it | evidently intended | confidence | as-written member | corrected member |
|---|---|---|---|---|---|---|
| custom_components/waterguard_linkbox/coordinator.py:257-265 | the coordinator maps the valve count 2→1, 3→2, 319→0 again, but hub.py:497-508 already did, so a hub count of 2 valves is published as 1 | raw count 3: the hub reports 2, the coordinator publishes 1, and the second valve's sensors become unavailable | publish the hub's already interpreted count | not executed | Coordinator.PreparedAsWritten, Coordinator.RemapAgainLosesSecondValve, Coordinator.AsWrittenMissesSecondValveAlarm | Coordinator.Prepared, Coordinator.PreparedKeepsHubCount |
| custom_components/waterguard_linkbox/notifications.py:391-400 | `is_notification_due` subtracts a timezone-aware alarm timestamp (notifications.py:102) from the naive `datetime.now()`, which raises TypeError for every alarm recorded by the manager's checks (the state between cycles) while a channel is on | any alarm recorded by a check, with persistent or mobile notifications on | compare both timestamps in one clock and answer whether the alarm is more than a minute old | not executed | Notifications.NotificationManager.DueAsWritten, Notifications.DueAsWrittenRaises | Notifications.NotificationManager.IsNotificationDue, Notifications.NotificationDueCases |
