# SolaX X1 Mini G3 → MQTT bridge, modelled in Dafny

The bridge polls a SolaX X1 Mini G3 inverter for its real-time register
payload (two integer arrays, `Data` and `Information`) and republishes the
readings on an MQTT broker in the Home Assistant discovery layout. Seventeen
sensor descriptors say which word of which array each reading comes from,
what it is divided by, and how it is interpreted: plain scaling, a 16-bit
two's-complement sign fix for power words, a lookup in the inverter's
operating-mode table, a firmware version, or the derived home-consumption
power (AC power minus signed feed-in power). At start-up every sensor is
announced once, retained, on its config topic; after that a loop fetches,
publishes one state per sensor, and sleeps — counting failed fetches and,
past three in a row, marking the operating-mode sensor "Offline".

Modules:

- `Options` — the `Option` type.
- `Text` — the string operations the identifiers are built from: character
  replacement, character removal and (ASCII) lower-casing, each with its
  specification and algebra (append, idempotence, what survives).
- `Registers` — 16-bit wrap-around, the sign fix and its inverse, the
  operating-mode table and its "Unknown" fallback.
- `Entities` — sensor descriptors, the seventeen-sensor table, identifiers
  and topics with their parser, and the value each sensor derives from a
  payload.
- `Discovery` — the discovery configuration of each sensor as a JSON object
  map, and the start-up announcements.
- `TableIds` — that the seventeen identifiers, state topics and config
  topics are pairwise distinct, proved through a small per-sensor signature
  (length and two characters) of each identifier.
- `TableFacts` — the shape of the table, the payload size it needs, and the
  home-consumption balance with worked examples.
- `Polling` — one pass of the loop (`Step`), runs of many passes (`Run`),
  and the whole program (`Start`).

Only the fetch results are parameters: a run is a sequence of fetch results
(`None` for a failed fetch). The broker and the clock are abstracted away:
publishing is an emitted list of messages (what is published, on which topic,
in what order), and the pause after each cycle is a tag saying which of the
two configured delays is used.

Where the code and its accompanying prose differ, the model follows the code:
identifiers keep spaces as underscores and carry the `solax_` prefix (except
home consumption); the sign fix is applied to the scaled value; the retry
counter is reset before the start-up gate is checked; "Offline" is published
on every failing cycle past the third, not only once; firmware versions keep
state class "measurement".

A payload without a `Data` array, or with an array too short for a word the
start-up gate or a sensor reads, makes the bridge raise an exception that
nothing catches: the program ends after publishing the sensors before the
failing one. The model keeps that path as `Polling.Outcome.Halted` (with the
messages already published) rather than excluding such payloads by a
precondition; the value derivation itself still requires a readable word.

## Model

| member | source | states |
|---|---|---|
| Text.ReplaceChar | solax.py:46 | `replace(" ", "_")`: each occurrence of one character becomes another; its properties are the Text.ReplaceChar… lemmas below |
| Text.DropChar | solax.py:46 | `replace("-", "")`: every occurrence of one character is removed; specified by Text.DropCharSpec |
| Text.Lower | solax.py:46 | `.lower()` on ASCII: each character goes through Text.LowerChar; its properties are the Text.Lower… lemmas below |
| Text.DropCharSpec | solax.py:46 | `replace("-", "")` removes every occurrence of the character and keeps every other character with its multiplicity |
| Text.LowerChar | solax.py:46 | an upper-case letter becomes its lower-case letter; every other character is unchanged |
| Text.ReplaceCharAbsent | solax.py:46 | replacing a character that does not occur changes nothing |
| Text.ReplaceCharRemoves | solax.py:46 | after replacement the replaced character no longer occurs (when it differs from its replacement) |
| Text.ReplaceCharAppend | solax.py:46 | replacement distributes over concatenation |
| Text.DropCharAbsent | solax.py:46 | removing a character that does not occur changes nothing |
| Text.DropCharAppend | solax.py:46 | removal distributes over concatenation |
| Text.LowerAppend | solax.py:46 | lower-casing distributes over concatenation |
| Text.LowerNormalises | solax.py:46 | the result has no upper-case letter, and a string is its own lower-case form exactly when it has none |
| Text.LowerKeepsAbsent | solax.py:46 | lower-casing does not introduce a character outside `a`–`z` that was absent |
| Text.LowerIdempotent | solax.py:46 | lower-casing twice is lower-casing once |
| Registers.Wrap16 | solax.py:112 | the 16-bit word of an integer lies in [0, 65536) and differs from it by a multiple of 65536 |
| Registers.SignFix | solax.py:112 | the result is the value or the value minus 65536, the value is kept exactly when it is below 32768, and a word in [0, 65536) lands in [-32768, 32768) |
| Registers.SignFixDecodesWrap | solax.py:112 | the sign fix inverts 16-bit wrap-around: every signed reading in [-32768, 32768) is recovered from its word |
| Registers.SignFixEncodesBack | solax.py:112 | every word in [0, 65536) decodes to a whole signed reading whose 16-bit word is the word again |
| Registers.StatusMapShape | solax.py:20-32 | the operating-mode table is defined exactly on the codes 0 to 10, and "Unknown" is none of its labels |
| Registers.StatusLabel | solax.py:147 | a whole value naming a code in the table gives that code's label; any other value gives "Unknown" |
| Registers.StatusLabelTotal | solax.py:147 | for an integer code, the label is the table's entry exactly when 0 ≤ code ≤ 10, and "Unknown" exactly otherwise |
| Entities.Slug | solax.py:46 | the identifier body: spaces to underscores, hyphens dropped, lower-cased; specified by the Entities.Slug… lemmas below |
| Entities.Id | solax.py:46 | `solax_` plus the identifier body, and the bare body for home consumption (line 153); specified by Entities.IdShape |
| Entities.Topic | solax.py:47 | `homeassistant/sensor/<id>/state`; inverted by Entities.TopicId (Entities.TopicRoundTrip) |
| Entities.ConfigTopic | solax.py:48 | `homeassistant/sensor/<id>/config`; injective in the identifier (Entities.ConfigTopicInjective) |
| Entities.SlugNormalised | solax.py:46 | the identifier body has no space, no hyphen and no upper-case letter, and is no longer than the name |
| Entities.SlugIdempotent | solax.py:46 | normalising an already normalised body changes nothing |
| Entities.SlugAppend | solax.py:46 | normalisation distributes over concatenation |
| Entities.SlugPerChar | solax.py:46 | for a name without hyphens, the body has the name's length and is the name mapped character by character |
| Entities.SlugOfHyphen | solax.py:46 | a lone hyphen normalises to nothing |
| Entities.SlugDropsHyphen | solax.py:46 | a hyphen between two parts disappears and the parts are normalised independently |
| Entities.SlugOneHyphen | solax.py:46 | a name with one hyphen gives a body one shorter, the characters after the hyphen shifted left by one |
| Entities.IdShape | solax.py:46 | the identifier is `solax_` plus the normalised name, without the prefix for home consumption (line 153), and contains no space, hyphen or upper-case letter |
| Entities.TopicId | solax.py:47 | parsing a topic yields an identifier only when the topic is the state topic built from that identifier |
| Entities.TopicRoundTrip | solax.py:47-48 | the state topic parses back to the identifier, the config topic does not parse as a state topic, and the two topics differ |
| Entities.TopicInjective | solax.py:47 | two sensors share a state topic exactly when they share an identifier |
| Entities.ConfigTopicInjective | solax.py:48 | two sensors share a config topic exactly when they share an identifier |
| Entities.EnergySensor | solax.py:89-98 | an energy sensor: device class "energy", unit "kWh", the given icon, index and factor, read from Data (its state class is Discovery.StateClass) |
| Entities.PowerSensor | solax.py:101-103 | a power sensor: device class "power", unit "W", factor 1, read from Data |
| Entities.FrequencySensor | solax.py:115-117 | a frequency sensor: device class "frequency", icon "mdi:music-clef-treble", factor 100, unit "Hz", read from Data |
| Entities.VoltageSensor | solax.py:120-122 | a voltage sensor: device class "voltage", icon "mdi:current-ac", factor 10, unit "V", read from Data |
| Entities.CurrentSensor | solax.py:125-127 | a current sensor: device class "current", icon "mdi:current-ac", factor 10, unit "A", read from Data |
| Entities.TemperatureSensor | solax.py:130-132 | a temperature sensor: device class "temperature", icon "mdi:thermometer", factor 1, unit "°C", read from Data |
| Entities.StatusSensor | solax.py:135-138 | the operating-mode sensor: no device class, icon "mdi:check", factor 1, no unit, read from Data |
| Entities.PowerCalcSensor | solax.py:150-156 | home consumption: a power sensor at the AC index that also reads the feed-in index, device class "power", unit "W", factor 1 |
| Entities.VersionSensor | solax.py:177-179 | a firmware version: no device class, icon "mdi:sync", factor 1, no unit, read from Information |
| Entities.Readable | solax.py:65 | the reads a sensor performs succeed: its section is in the payload and its index (and, for home consumption, the feed-in index, line 165) is within the array; when this fails the bridge raises (lines 65, 111, 146, 164-165) |
| Entities.Raw | solax.py:65 | the sensor's raw word `value[section][idx]` |
| Entities.Scale | solax.py:65 | a raw word divided by the sensor's factor |
| Entities.Derive | solax.py:63-167 | only the operating-mode sensor yields a label, always a table label or "Unknown"; a plain sensor's value times its factor is the raw word; a power sensor's value is its scaled word exactly when that is below 32768, and otherwise the scaled word minus 65536; home consumption is its scaled AC word minus the sign-fixed scaled feed-in word |
| Entities.PowerIsTwosComplement | solax.py:109-112 | with factor 1, a power word in [0, 65536) reads as a whole value in [-32768, 32768) whose 16-bit word is the raw word |
| Entities.PowerDecodesReading | solax.py:109-112 | a power word holding the 16-bit form of a signed reading publishes exactly that reading |
| Entities.StatusIsTotal | solax.py:144-147 | the operating-mode sensor publishes the table label for codes 0 to 10 and "Unknown" for every other code |
| Discovery.Nullable | solax.py:74-76 | an absent or empty optional field becomes JSON null; any other value is kept; the field is never the empty string |
| Discovery.BaseConfig | solax.py:67-86 | the base configuration has exactly the eight base keys; their values are stated on the full document by Discovery.ConfigDescribesSensor, Discovery.OptionalFieldsNeverEmpty, Discovery.StateClassByKind, Discovery.SharedDevice and Discovery.ConfigPointsAtState |
| Discovery.StateClass | solax.py:49 | `state_class` per variant: the default "measurement", "total_increasing" for energy (line 98), null for the operating mode (line 138); specified on the document by Discovery.StateClassByKind |
| Discovery.ConfigDescribesSensor | solax.py:71-73 | the document's `name`, `icon` and `unique_id` are the sensor's name, icon and identifier |
| Discovery.HaConfig | solax.py:169-186 | the configuration has the base keys plus `object_id` for home consumption and `entity_category` for versions, with the base values unchanged; `object_id` and `unique_id` are the identifier; versions are "diagnostic" |
| Discovery.StateClassByKind | solax.py:49 | state class is "total_increasing" exactly for energy sensors (line 98), null exactly for the operating mode (line 138), "measurement" otherwise |
| Discovery.OptionalFieldsNeverEmpty | solax.py:74-76 | device class and unit are null when absent or empty, are never published as empty strings, and a non-empty one is published as given |
| Discovery.SharedDevice | solax.py:77-83 | every sensor announces the same device block |
| Discovery.ConfigPointsAtState | solax.py:70-72 | the announced state topic is the sensor's state topic and parses back to the announced unique id |
| Discovery.Announcements | solax.py:263-270 | one announcement per sensor, in table order, retained, on the sensor's config topic, carrying its configuration |
| Discovery.AnnouncedStateTopic | solax.py:70 | the k-th announcement names the k-th sensor's state topic |
| TableIds.SignatureAt | solax.py:189-207 | each table entry's identifier has the length and marker characters listed for its position |
| TableIds.TableIdsDistinct | solax.py:189-207 | the seventeen sensors have pairwise distinct identifiers |
| TableIds.TableTopicsDistinct | solax.py:189-207 | the seventeen sensors have pairwise distinct state topics and pairwise distinct config topics |
| TableFacts.TableShape | solax.py:189-207 | exactly the versions read Information; power, home consumption and operating mode use factor 1; the operating mode is entry 10 and home consumption entry 16, each alone of its kind |
| TableFacts.TableReadableIff | solax.py:189-207 | every sensor can read a payload exactly when Data has more than 55 words and Information more than 6 |
| TableFacts.HomeConsumptionBalance | solax.py:163-167 | home consumption is the AC word minus the signed feed-in power, and equals published AC power minus published feed-in power when the AC word is below 32768 |
| TableFacts.ImportExample | solax.py:164-167 | feed-in word 40000 reads as −25536 W, so with 500 W of AC power the home consumes 26036 W |
| TableFacts.ExportExample | solax.py:164-167 | 300 W fed in out of 500 W of AC power leaves 200 W at home |
| TableFacts.AcNotSignFixed | solax.py:164 | the AC word inside home consumption is not sign-fixed: a word of 40000 reads −25536 W as AC power but counts 40000 W at home |
| Polling.GateReadable | solax.py:288 | the start-up check reads `Data[50]` and, only when that is 0, `Data[52]` (short-circuit `and`); used by Polling.StepHalts |
| Polling.Initializing | solax.py:288 | both energy words read 0: the inverter is still starting up; used by Polling.StepSuccess and Polling.DelayChoice |
| Polling.ReadablePrefix | solax.py:294-295 | the number of sensors, from the front of the table, that can read their words before the first that cannot, which is the one that raises |
| Polling.Step | solax.py:276-297 | one pass of the loop body; its behaviour is stated by Polling.StepFailure, Polling.StepSuccess, Polling.StepHalts and Polling.DelayChoice |
| Polling.Run | solax.py:274-297 | the loop over a sequence of fetch results, stopping at a cycle that raises; stated by Polling.RunAppend, Polling.Outage and Polling.OfflineOnlyOnStatusTopic |
| Polling.Start | solax.py:263-297 | the announcements, then the loop from counter 0; stated by Polling.StartAnnouncesFirst and Polling.StartStatesAnnounced |
| Polling.Telemetry | solax.py:294-296 | one message per sensor, in order, on the sensor's state topic, carrying its derived value |
| Polling.StepFailure | solax.py:278-285 | a failed fetch increments the counter; past 3 it publishes exactly one "Offline" to the status topic and backs off, otherwise it publishes nothing and waits the regular delay |
| Polling.StepSuccess | solax.py:286-296 | a fetched payload resets the counter; an initialising inverter publishes nothing and backs off; otherwise every sensor is published once in table order |
| Polling.StepHalts | solax.py:288 | a cycle ends the program exactly when the gate cannot read its words or, past the gate, some sensor cannot read its word |
| Polling.DelayChoice | solax.py:284-297 | the long delay follows exactly a failure past the retry limit or an initialising inverter |
| Polling.PublishedTopicsDistinct | solax.py:294-296 | with distinct identifiers, no cycle publishes two messages on one topic, including a cycle cut short |
| Polling.TablePublishesDistinctTopics | solax.py:294-296 | the bridge's own table never publishes two messages on one topic in a cycle |
| Polling.OfflineIsNotAStatus | solax.py:283 | "Offline" is neither "Unknown" nor a label of the operating-mode table |
| Polling.StepOfflineOnlyOnStatusTopic | solax.py:283 | within a cycle, an "Offline" message is always the outage message on the status topic |
| Polling.TelemetryNotOffline | solax.py:294-296 | no sensor message carries "Offline": a status is a table label or "Unknown" and every other sensor publishes a number |
| Polling.OfflineOnlyOnStatusTopic | solax.py:283 | in any run, every "Offline" message is the outage message on the status topic |
| Polling.RunAppend | solax.py:274-297 | running two stretches of fetches in turn is running them together, unless the first halts |
| Polling.Outage | solax.py:278-285 | n failures from counter r never halt, leave the counter at r + n, publish one "Offline" per cycle past the limit and nothing else, and back off on exactly those cycles |
| Polling.ThreeStrikes | solax.py:278-287 | three failures publish nothing, a fourth publishes exactly one "Offline", and a payload after that resets the counter |
| Polling.StepTopics | solax.py:283-296 | every message of a cycle goes to the state topic of one of the sensors |
| Polling.TelemetryTopics | solax.py:294-296 | telemetry of a readable front part of the table goes to those sensors' state topics |
| Polling.RunTopics | solax.py:274-297 | every message of a run goes to the state topic of one of the sensors |
| Polling.StartAnnouncesFirst | solax.py:263-272 | before polling, each sensor is announced once, retained, on its own config topic, and no two announcements share a topic |
| Polling.StatesAnnounced | solax.py:263-296 | every message a run publishes goes to a state topic that some start-up announcement names |
| Polling.StartStatesAnnounced | solax.py:263-296 | for the bridge's own table, nothing is published on a topic that was not announced |

## Left out

- Fetching the payload over HTTP (solax.py:210-221): a fetch is a parameter, `None` for any failure the fetcher swallows.
- Connecting to, publishing on and disconnecting from the broker (solax.py:224-246, 301): publishing is modelled as the ordered list of messages; a publish error the bridge logs and ignores is not modelled, and neither is a failed connection exiting with status 1.
- Reading configuration from the environment (solax.py:250-256): the two delays are the symbolic `TimeDelay` and `OfflineDelay`, not seconds.
- Serialising the configuration with `json.dumps` (solax.py:268): the configuration is a JSON value, not its text.
- Sleeping, `KeyboardInterrupt` and logging: no clock, no signal, no log output.
- Entities.Derive: values are exact rationals; Python's float division and its rounding (for factors 10 and 100) are not modelled.
- Text.Lower: lower-cases ASCII letters only; Python's Unicode case mapping is not modelled (every sensor name is ASCII).
- The payload is two arrays of integers; JSON values of other types (strings, floats, nested objects) and negative list indices are not modelled.
- Integer type of `idx`: the bridge annotates indices as `float` but passes integers; the model uses `nat`.
- Exceptions other than a missing array or a too-short array (for example a payload that is not a JSON object) are not modelled; those two end the program through `Outcome.Halted`.
