/**
 The Home Assistant MQTT discovery document each sensor announces at startup
 on its config topic (retained). The document is a JSON object, modelled as a
 map from keys to JSON values, so that a key that is absent and a key that is
 present with `null` stay distinct.
 */
module Discovery {
  import opened Options
  import opened Entities

  datatype Json = JNull | JStr(s: string) | JList(items: seq<Json>) | JObject(fields: map<string, Json>)

  /** The device every sensor belongs to. */
  const DeviceBlock: Json := JObject(map[
    "identifiers" := JList([JStr("Solax_X1_Mini_G3")]),
    "name" := JStr("SolaX"),
    "model" := JStr("X1 Mini G3"),
    "manufacturer" := JStr("SolaX"),
    "suggested_area" := JStr("Garage")
  ])

  /** The keys every discovery document has. */
  const BaseKeys: set<string> := {
    "state_topic", "name", "unique_id", "icon", "device_class",
    "state_class", "unit_of_measurement", "device"
  }

  /** An optional string as JSON: `null` when it is absent or empty, so never `""`. */
  function Nullable(o: Option<string>): (j: Json)
    ensures j != JStr("")
    ensures j == JNull <==> o == None || o == Some("")
    ensures j != JNull ==> j == JStr(o.value)
  {
    if o.Some? && o.value != "" then JStr(o.value) else JNull
  }

  /** `state_class`: energy counters only ever grow, operating modes have none, the rest are measurements. */
  function StateClass(k: Kind): Json {
    match k
    case Energy => JStr("total_increasing")
    case Status => JNull
    case _ => JStr("measurement")
  }

  /** The document every sensor variant starts from. */
  function BaseConfig(e: Entity): (cfg: map<string, Json>)
    ensures cfg.Keys == BaseKeys
  {
    map[
      "state_topic" := JStr(Topic(e)),
      "name" := JStr(e.name),
      "unique_id" := JStr(Id(e)),
      "icon" := JStr(e.icon),
      "device_class" := Nullable(e.deviceClass),
      "state_class" := StateClass(e.kind),
      "unit_of_measurement" := Nullable(e.unit),
      "device" := DeviceBlock
    ]
  }

  /** The keys a sensor's document has beyond the base ones. */
  function ExtraKeys(k: Kind): set<string> {
    if k.PowerCalc? then {"object_id"} else if k.Version? then {"entity_category"} else {}
  }

  /**
   The discovery document of a sensor: the base document, plus `object_id`
   (equal to the identifier) for home consumption and `entity_category`
   "diagnostic" for firmware versions. Every base key keeps its base value.
   */
  function HaConfig(e: Entity): (cfg: map<string, Json>)
    ensures cfg.Keys == BaseKeys + ExtraKeys(e.kind)
    ensures forall key :: key in BaseKeys ==> cfg[key] == BaseConfig(e)[key]
    ensures e.kind.PowerCalc? ==> cfg["object_id"] == cfg["unique_id"] == JStr(Id(e))
    ensures e.kind.Version? ==> cfg["entity_category"] == JStr("diagnostic")
  {
    var base := BaseConfig(e);
    match e.kind
    case PowerCalc(_) => base["object_id" := JStr(Id(e))]
    case Version => base["entity_category" := JStr("diagnostic")]
    case _ => base
  }

  /** `state_class` is "total_increasing" exactly for energy, null exactly for operating modes, else "measurement". */
  lemma StateClassByKind(e: Entity)
    ensures HaConfig(e)["state_class"] == JStr("total_increasing") <==> e.kind.Energy?
    ensures HaConfig(e)["state_class"] == JNull <==> e.kind.Status?
    ensures !e.kind.Energy? && !e.kind.Status? ==> HaConfig(e)["state_class"] == JStr("measurement")
  {
  }

  /** Device class and unit are null when absent or empty, and otherwise carry the sensor's own string. */
  lemma OptionalFieldsNeverEmpty(e: Entity)
    ensures HaConfig(e)["device_class"] != JStr("")
    ensures HaConfig(e)["unit_of_measurement"] != JStr("")
    ensures e.deviceClass.Some? && e.deviceClass.value != "" ==> HaConfig(e)["device_class"] == JStr(e.deviceClass.value)
    ensures e.unit.Some? && e.unit.value != "" ==> HaConfig(e)["unit_of_measurement"] == JStr(e.unit.value)
    ensures (e.deviceClass == None || e.deviceClass == Some("")) ==> HaConfig(e)["device_class"] == JNull
    ensures (e.unit == None || e.unit == Some("")) ==> HaConfig(e)["unit_of_measurement"] == JNull
  {
  }

  /** The document names the sensor, its icon and its identifier as they are. */
  lemma ConfigDescribesSensor(e: Entity)
    ensures HaConfig(e)["name"] == JStr(e.name)
    ensures HaConfig(e)["icon"] == JStr(e.icon)
    ensures HaConfig(e)["unique_id"] == JStr(Id(e))
  {
  }

  /** Every sensor reports the same device block. */
  lemma SharedDevice(a: Entity, b: Entity)
    ensures HaConfig(a)["device"] == HaConfig(b)["device"] == DeviceBlock
  {
  }

  /** The document's `state_topic` is the state topic keyed by its own `unique_id`. */
  lemma ConfigPointsAtState(e: Entity)
    ensures HaConfig(e)["state_topic"] == JStr(Topic(e))
    ensures TopicId(HaConfig(e)["state_topic"].s) == Some(HaConfig(e)["unique_id"].s)
  {
    TopicRoundTrip(e);
  }

  /** One retained announcement on a config topic. */
  datatype Announcement = Announcement(topic: string, config: map<string, Json>, retain: bool)

  /** The startup announcements, one per sensor in table order, each retained on the sensor's config topic. */
  function Announcements(es: seq<Entity>): (out: seq<Announcement>)
    ensures |out| == |es|
    ensures forall i :: 0 <= i < |es| ==>
      out[i].topic == ConfigTopic(es[i]) && out[i].config == HaConfig(es[i]) && out[i].retain
  {
    if es == [] then [] else [Announcement(ConfigTopic(es[0]), HaConfig(es[0]), true)] + Announcements(es[1..])
  }

  /** Some announcement names `t` as its sensor's state topic. */
  predicate Announced(ann: seq<Announcement>, t: string) {
    exists i :: 0 <= i < |ann| && "state_topic" in ann[i].config && ann[i].config["state_topic"] == JStr(t)
  }

  /** The k-th announcement tells the broker where the k-th sensor's states will appear. */
  lemma AnnouncedStateTopic(es: seq<Entity>, k: nat)
    requires k < |es|
    ensures "state_topic" in Announcements(es)[k].config
    ensures Announcements(es)[k].config["state_topic"] == JStr(Topic(es[k]))
  {
    ConfigPointsAtState(es[k]);
  }
}
