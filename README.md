# dali2mqtt brightness-state model

dali2mqtt is a bridge between a DALI lighting bus (IEC 62386, control
gear in part 102) and MQTT. This project models its brightness-state core
in Dafny and proves properties of that model. The model has three parts, on top of two shared modules.

- **`LampController`** (`lamp.dfy`) covers the lamp of `dali2mqtt/lamp.py`:
  - the bounds seeded from four bus queries, with the fallbacks 86 and 254;
  - the clamping level setter, which sends one DAPC (direct arc power
    control) command per integer assignment;
  - the `level_change_needed` predictor;
  - `off` and `actual_level`;
  - `add_associated_lamp`.

  The class `Lamp` holds the cached level and the list of associated lamps
  as fields that its methods update.
- **`LegacyLamp`** (`legacy_lamp.dfy`) covers the older lamp of `lamp.py`.
  Its setter raises `ValueError` on an out-of-range non-zero level instead
  of clamping, and its constructor assigns the level through that setter.
- **`Bridge`** (`bridge.dfy`) covers the sequential bookkeeping of
  `dali2mqtt/dali2mqtt.py`:
  - the scan of short addresses;
  - group decoding from the replies of QUERY GROUPS 0-7 and 8-15;
  - the linking of groups and members in `initialize_lamps`;
  - the OFF and brightness command handlers;
  - `retrieve_actual_level`;
  - the deduplicating refresh of associated lamps.

  The class `Bridge` holds the registry `all_lamps` and an outbox of
  published MQTT messages.
- **`Dali`** (`dali.dfy`) holds addresses and query values. Its `Bus`
  class logs every DAPC and OFF command sent, in order.
- **`Discovery`** (`discovery.dfy`) holds the Home Assistant discovery
  document both lamp classes build.

Python values that a query may return are `Value = Int(n) | NonInt(truthy)`.
`NonInt(false)` stands for `None`. Bus answers are parameters: values,
probe functions `nat -> PresenceAnswer`, group replies
`Lamp -> GroupAnswer`, and level readings `Lamp -> Value`. Topic
templates, `slugify`, the package version and the text of an address are
the uninterpreted functions and strings of `Discovery.Externals`.

`dali_scan` scans `range(0, 63)`, so it never probes short address 63,
which DALI allows (short addresses run from 0 to 63). `DaliScan` follows
the code as written. The corrected scan `DaliScanAll` covers all 64
addresses, and the finding below records the difference.

## Model

| member | source | states |
|---|---|---|
| Dali.Bus.Send | dali2mqtt/lamp.py:115 | Appends exactly the one command sent to the bus log, as every `driver.send` of a DAPC or OFF does. |
| LampController.Clamp | dali2mqtt/lamp.py:107-111 | A value below an integer minimum becomes the minimum, otherwise one above the maximum becomes the maximum. With ordered integer bounds the result lies within them. A value already in range is returned unchanged. |
| LampController.Committed | dali2mqtt/lamp.py:104-120 | The level the setter stores: 0 for 0 and for every non-integer, the clamped value for a non-zero integer. With ordered integer bounds it is 0 or within the bounds. |
| LampController.ChangeNeeded | dali2mqtt/lamp.py:122-134 | The predictor is true exactly when the value is an integer and is 0 or would be stored as a level other than the cached one. Predictor and setter therefore use the same clamp. |
| LampController.NoChangeAfterCommit | dali2mqtt/lamp.py:104-134 | Right after committing a non-zero integer, the predictor reports no change for the same value. |
| LampController.ClampIdempotent | dali2mqtt/lamp.py:107-111 | Clamping an already clamped value changes nothing when the bounds are ordered integers. |
| LampController.SeedMinLevel | dali2mqtt/lamp.py:53-55 | An integer reading is kept. Otherwise a truthy physical minimum is used, else 86, so a physical minimum of 0 or `None` also gives 86. A non-integer result only comes from a truthy non-integer physical minimum. |
| LampController.SeedMaxLevel | dali2mqtt/lamp.py:56-58 | An integer reading is kept, and any other reading becomes 254. |
| LampController.SetterFrames | dali2mqtt/lamp.py:113-120 | An integer assignment sends exactly one DAPC with the stored level. A non-integer assignment sends nothing. |
| LampController.Lamp.constructor | dali2mqtt/lamp.py:29-59 | Seeds the bounds from the readings and stores the actual-level reading through the setter: clamped and sent, or 0 and not sent for a non-integer. The associated lamps start empty (`None`). |
| LampController.Lamp.SetLevel | dali2mqtt/lamp.py:104-120 | Stores the committed level and appends exactly its frames to the bus log. With ordered integer bounds the level ends 0 or in range. After a non-zero integer the predictor reports no change. |
| LampController.Lamp.LevelChangeNeeded | dali2mqtt/lamp.py:122-134 | Reads only the lamp's fields. It is true exactly when the value is an integer that is 0 or would change the cached level. |
| LampController.Lamp.ActualLevel | dali2mqtt/lamp.py:91-97 | Stores an integer reading unclamped, or 0 for a non-integer. It changes only the level and sends nothing. |
| LampController.Lamp.Off | dali2mqtt/lamp.py:139-142 | Sends one OFF to the lamp's address and sets the level to 0 whatever it was before. A second call leaves the same lamp state. |
| LampController.Lamp.IsGroup | dali2mqtt/lamp.py:153-154 | True exactly when the lamp's address is a group address. |
| LampController.Lamp.AddAssociatedLamp | dali2mqtt/lamp.py:156-159 | Appends the lamp at the end, keeping order and duplicates, and changes nothing else. |
| LampController.Lamp.GenHaConfig | dali2mqtt/lamp.py:61-89 | The document's name is the friendly name, `obj_id` is `dali_light_` plus the device name, `bri_scl` is the maximum level, and the model is the driver's name. |
| Discovery.BuildConfig | dali2mqtt/lamp.py:61-89 | Every field of the document is determined by the lamp's fields, the base topic and the external templates. The topics depend on the device name only. |
| Discovery.ObjectIdsCollideIffNamesDo | dali2mqtt/lamp.py:65 | Two documents share an object id exactly when the lamps share a device name. |
| Discovery.SameDeviceNameSameTopics | dali2mqtt/lamp.py:63-88 | Two lamps whose friendly names slugify alike get the same object id and the same topics. Their documents differ at most in name, unique id and scale. |
| LegacyLamp.Accepts | lamp.py:81 | The setter accepts exactly 0 and the values between the bounds. |
| LegacyLamp.AcceptedIffClampKeeps | lamp.py:79-84 | The legacy setter accepts a value exactly when the clamping setter would store it unchanged. The two setters agree wherever the legacy one does not raise. |
| LegacyLamp.Lamp.constructor | lamp.py:20-38 | The field assignments of `__init__` before the level is set. |
| LegacyLamp.Lamp.Create | lamp.py:20-39 | Construction succeeds exactly when the initial level passes the setter's test. A failure sends nothing. A success stores the level exactly and sends one DAPC. |
| LegacyLamp.Lamp.SetLevel | lamp.py:79-84 | A refused value (non-zero and out of range) raises `ValueError` and changes neither the level nor the bus log. An accepted value is stored exactly and sent as one DAPC, so the level is 0 or within the bounds. |
| LegacyLamp.Lamp.GenHaConfig | lamp.py:42-72 | `bri_scl` is the maximum level and `obj_id` is `dali_light_` plus the device name, with the same document as the newer lamp. |
| Bridge.FoundSpec | dali2mqtt/dali2mqtt.py:76-88 | The addresses found below a limit are exactly those that answered yes, in strictly ascending order. |
| Bridge.ScanAddresses | dali2mqtt/dali2mqtt.py:77-85 | The probing loop returns the found addresses for its limit. A DALIError or a reply other than yes adds nothing. |
| Bridge.DaliScan | dali2mqtt/dali2mqtt.py:74-88 | The scan as written returns a strictly ascending list of exactly the addresses in 0..62 that answered yes. |
| Bridge.DaliScanAll | dali2mqtt/dali2mqtt.py:74-88 | The corrected scan returns a strictly ascending list of exactly the addresses in 0..63 that answered yes. |
| Bridge.ScanMissesAddress63 | dali2mqtt/dali2mqtt.py:77 | A ballast at short address 63 that answers yes is missed by the scan as written and found by the corrected one. |
| Bridge.BitTests | dali2mqtt/dali2mqtt.py:111-118 | The test `(m & 1 << i) == 1 << i` for groups 0-7 and the test `(m & 1 << i) != 0` for groups 8-15 both select bit `i`. |
| Bridge.MembersSpec | dali2mqtt/dali2mqtt.py:95-122 | A lamp is in a group's member list exactly when it occurs in the input and its bit for that group is set. |
| Bridge.MembersInInputOrder | dali2mqtt/dali2mqtt.py:95-122 | The k-th member of a group is the input lamp at the k-th of a strictly increasing list of input positions. |
| Bridge.MembersDistinct | dali2mqtt/dali2mqtt.py:95-122 | When no lamp occurs twice in the input, no member list holds a lamp twice. |
| Bridge.MembersOnlyOfGroups | dali2mqtt/dali2mqtt.py:110-122 | Only keys 0..15 can have members. |
| Bridge.ScanGroups | dali2mqtt/dali2mqtt.py:91-129 | Group `g` is a key exactly when some lamp is in it: bit `g` of the 0-7 reply for `g < 8`, bit `g - 8` of the 8-15 reply otherwise. Every list is non-empty and holds exactly its members in input order. A `None` lamp or a failed query joins no group. The key order lists every key once, in the order the keys were first added: by the position of the group's first member, and for groups with the same first member, in the order its bit loop reaches them. |
| Bridge.ScanLamp | dali2mqtt/dali2mqtt.py:96-127 | One lamp is appended to exactly the groups its replies select, or to none when it is `None` or a query raised. Keys stay listed once each. The old key order is kept as a prefix, and it is followed only by keys that were new, in the order the bit loop reaches them. |
| Bridge.FileLamp | dali2mqtt/dali2mqtt.py:108-122 | Over the eight bits, the lamp is appended to every group whose mask bit is set, after every list it already had, and to no other group. The old key order is kept as a prefix, and it is followed only by keys that were new, each once, in the order the bit loop reaches them: `i` before `i + 8`, round by round. |
| Bridge.FirstPositionSpec | dali2mqtt/dali2mqtt.py:95-127 | For a group with members, the first member position holds a lamp in the group, and no earlier input lamp is in it. |
| Bridge.OrderStep | dali2mqtt/dali2mqtt.py:95-127 | When one more lamp appends its new keys after the old ones in bit-loop order, the whole key order stays the order of first addition. |
| Bridge.FilingOrder | dali2mqtt/dali2mqtt.py:110-122 | The first `i` rounds keep the old key order as a prefix, and each key they list after it is reached by a bit below `i`, in increasing bit-loop order. |
| Bridge.RoundOrder | dali2mqtt/dali2mqtt.py:110-122 | Round `i` lists at most `i` and then `i + 8`, after the keys already listed. |
| Bridge.FileBit | dali2mqtt/dali2mqtt.py:110-122 | One round with the mask `1 << i` files the lamp under `i` and under `i + 8` as the two bits say. |
| Bridge.AddMember | dali2mqtt/dali2mqtt.py:114-116 | A missing key first gets an empty list and is listed at the end. Then the lamp is appended to the key's list. |
| Bridge.FilingSpec | dali2mqtt/dali2mqtt.py:110-122 | After the first `i` rounds, exactly the groups selected by bits below `i` have gained the lamp, and the keys stay listed once each. |
| Bridge.LinkMembers | dali2mqtt/dali2mqtt.py:222-223 | Every member gains the group once per occurrence in the member list, after its earlier associated lamps. |
| Bridge.GainedIsGroupsOf | dali2mqtt/dali2mqtt.py:212-223 | When no member list repeats a lamp, each lamp gains exactly the group lamps of the groups it belongs to, in the order the groups are linked. |
| Bridge.AttachGroup | dali2mqtt/dali2mqtt.py:220-223 | The group's associated lamps become its member list, and every member gains the group on top of what it had. |
| Bridge.Bridge.Announcement | dali2mqtt/dali2mqtt.py:159-192 | Six retained messages: the discovery document with the lamp's object id, the level, the maximum, the minimum, the physical minimum, and the state ON iff the level is above 0. |
| Bridge.Bridge.CreateMqttLamp | dali2mqtt/dali2mqtt.py:147-197 | Builds the lamp from its readings and registers it under its device name. It publishes the six retained messages: the discovery document, the level, the maximum, the minimum, the physical minimum, and the state ON iff the level is above 0. |
| Bridge.Bridge.LinkGroups | dali2mqtt/dali2mqtt.py:211-223 | One group lamp per key, in key order, none of them a member lamp, each with that key's group address (so `is_group` holds) and name. Its associated lamps equal the member list. Each member's associated lamps become the old list followed by the groups it gained. Registry, outbox and bus log grow by exactly the group lamps' registrations, announcements and constructor commands. |
| Bridge.Bridge.LinkGroup | dali2mqtt/dali2mqtt.py:212-223 | One round of the linking loop keeps both halves of the loop invariant. |
| Bridge.Bridge.RetrieveActualLevel | dali2mqtt/dali2mqtt.py:351-367 | Refreshes the cached level from the reading, then publishes the level and the state ON iff it is not 0. |
| Bridge.Bridge.OnCommand | dali2mqtt/dali2mqtt.py:237-257 | A payload other than OFF, or an unknown lamp, changes nothing. For OFF on a registered lamp, one OFF is sent and OFF is published, followed by the reports of the refresh of its associated lamps. Lamps around it keep their level unless refreshed. |
| Bridge.Bridge.SwitchOff | dali2mqtt/dali2mqtt.py:243-253 | `off()`, then the OFF publication, then the refresh of the associated lamps, with the resulting bus log, outbox and levels. |
| Bridge.Bridge.OffAndPublish | dali2mqtt/dali2mqtt.py:247-252 | Sends OFF, zeroes the level and publishes OFF. No lamp's associated lamps change. |
| Bridge.Bridge.OnBrightnessCommand | dali2mqtt/dali2mqtt.py:273-314 | An unknown lamp, an unparsable payload, or a value the predictor calls unneeded changes nothing. Otherwise it sends the DAPC of the committed level `c`, plus an OFF when `c` is 0. It then publishes the state ON iff `c` is not 0, the level `c`, and the refresh reports. |
| Bridge.Bridge.CommitBrightness | dali2mqtt/dali2mqtt.py:288-304 | The committing branch: setter, OFF at level 0, the two publications and the refresh, with the resulting bus log, outbox and levels. |
| Bridge.Bridge.CommitAndPublish | dali2mqtt/dali2mqtt.py:288-303 | Stores the committed level. It sends its DAPC, plus OFF when the level is 0. It publishes the state ON iff the level is not 0 and publishes the level. No associated lamps change. |
| Bridge.Bridge.OnBrightnessGetCommand | dali2mqtt/dali2mqtt.py:317-329 | An unknown lamp changes nothing. A registered lamp gets its read level and is reported with its level and state. No other lamp's level changes. |
| Bridge.NestedVisitSpec | dali2mqtt/dali2mqtt.py:345-349 | The nested loop keeps what was refreshed before and never refreshes a name twice. It adds only nested lamps not named like the source, and leaves none of those unrefreshed. |
| Bridge.VisitSpec | dali2mqtt/dali2mqtt.py:337-349 | The refresh reaches every associated lamp's name and refreshes no name twice. Besides the associated lamps it touches only, for a group source, their own associated lamps not named like the source. |
| Bridge.LampSourceVisitsAssociatedOnly | dali2mqtt/dali2mqtt.py:340-344 | For a source that is not a group, only its associated lamps are refreshed. |
| Bridge.Bridge.Refresh | dali2mqtt/dali2mqtt.py:342-343 | One `retrieve_actual_level` plus the record of its name keeps the refresh invariant. |
| Bridge.Bridge.RefreshNested | dali2mqtt/dali2mqtt.py:345-349 | The inner loop refreshes exactly the lamps `NestedVisit` selects, in order. |
| Bridge.Bridge.RefreshAssociated | dali2mqtt/dali2mqtt.py:341-349 | One round of the outer loop skips a name already refreshed. Otherwise it refreshes the lamp, then its nested lamps for a group source. |
| Bridge.Bridge.RefreshAll | dali2mqtt/dali2mqtt.py:339-349 | The outer loop refreshes exactly the lamps `Visit` selects, in order. |
| Bridge.Bridge.ExecuteUpdateAssociatedLamps | dali2mqtt/dali2mqtt.py:337-349 | Publishes the reports of exactly the refreshed lamps, in order. Each refreshed lamp gets its read level, and every other lamp around the source keeps its level. |
| Bridge.Bridge.UpdateAssociatedLamps | dali2mqtt/dali2mqtt.py:331-335 | For a lamp with associated lamps, runs the refresh at once. Otherwise it changes nothing. |

## Left out

- The MQTT client, its callbacks, subscriptions, will messages and the reconnect loop of `main`. They are network I/O. Publishing is appending to the bridge's outbox.
- Bridge.Bridge.UpdateAssociatedLamps: drops the one-second pause and the hand-off to the single worker thread, so the refresh runs at once. Timing and concurrency are not modelled.
- Driver selection and the Hasseb firmware check. They are hardware drivers and a float comparison.
- Argument parsing, configuration and devices-name file loading and saving, and logging. They are configuration and I/O. The friendly names of lamps and groups are a parameter.
- `slugify`, the topic templates, the payload constants, the package version and the text of an address. These are external code and constants, passed in as uninterpreted functions and strings.
- The bytes `json.dumps` produces. The discovery document is a record with one field per key.
- The regular expression that extracts the lamp name from a topic, and the `int(...)` decoding of the payload. The handlers receive the name and the already-parsed payload. For `on_message_cmd` that payload is only whether it equals OFF; for the brightness handler it is an `Option<int>`, `None` when `int()` raised.
- `__str__`, which only serves logging.
- The loop of `initialize_lamps` that creates one lamp per scanned address, and the final saving of the name file. Only the group-linking loop is modelled, starting from the dictionary `scan_groups` returns and the order in which `groups.items()` yields its keys.
- Bridge.Bridge.CreateMqttLamp: has no DALIError path, because the four bus queries are given as values and never raise. A `Lamp` whose construction raised would return `None`, and the linking loop would then fail on it. DALIError raised by the OFF or DAPC commands in the handlers is not modelled either.
- Bridge.Bridge.RetrieveActualLevel: does not model a DALIError from QUERY ACTUAL LEVEL. The reading is a value. In the source such an error is not caught (only `ValueError` is), so it would end the refresh loop early.
- Bridge.Bridge.LinkGroups: does not state that the group lamps are newly allocated objects. It does state that none of them is one of the member lamps. Each comes from `CreateMqttLamp`, which does promise a fresh lamp.
- LampController.Lamp.ActualLevel: takes the QUERY ACTUAL LEVEL reading as a parameter instead of querying the bus.
- The `isinstance(self.max_level, int)` test of the setter and the predictor is always true: the constructor only ever stores an integer maximum. The model types the maximum as an integer.
- Legacy `lamp.py` compares with Python's ordering, which the model restricts to integer levels and bounds.

## Findings

| source | as written | input that shows it | evidently intended | confidence | as-written member | corrected member |
|---|---|---|---|---|---|---|
| dali2mqtt/dali2mqtt.py:77 | `for lamp in range(0, 63)` probes short addresses 0 to 62 only | a ballast at short address 63 that answers QUERY CONTROL GEAR PRESENT with yes is not in the result | probe all 64 short addresses, `range(0, 64)` | not executed | Bridge.DaliScan (with Bridge.ScanMissesAddress63) | Bridge.DaliScanAll |
