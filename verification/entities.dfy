/**
 Sensor descriptors of the SolaX X1 Mini G3 bridge: how each sensor reads its
 value out of the inverter's real-time payload, and the identifier and MQTT
 topics derived from its name.
 */
module Entities {
  import opened Options
  import opened Text
  import opened Registers

  /** The two integer arrays of the real-time payload. */
  datatype Section = Data | Information

  /** The sensor variants; `PowerCalc` carries the index of its feed-in word. */
  datatype Kind =
    | Energy
    | Power
    | Frequency
    | Voltage
    | Current
    | Temperature
    | Status
    | PowerCalc(idx2: nat)
    | Version

  type Factor = n: int | n > 0 witness 1

  /** One sensor: the arguments the base constructor stores. */
  datatype Entity = Entity(
    name: string,
    kind: Kind,
    deviceClass: Option<string>,
    icon: string,
    idx: nat,
    factor: Factor,
    unit: Option<string>,
    section: Section)

  /** The decoded JSON body of one fetch: each section's integers. */
  type Payload = map<Section, seq<int>>

  /** A published state: a number, or a label for operating modes. */
  datatype Value = Number(x: real) | Label(text: string)

  // One constructor per sensor variant, with the constants each variant fixes.

  function EnergySensor(name: string, icon: string, idx: nat, factor: Factor): Entity {
    Entity(name, Energy, Some("energy"), icon, idx, factor, Some("kWh"), Data)
  }

  function PowerSensor(name: string, icon: string, idx: nat): Entity {
    Entity(name, Power, Some("power"), icon, idx, 1, Some("W"), Data)
  }

  function FrequencySensor(name: string, idx: nat): Entity {
    Entity(name, Frequency, Some("frequency"), "mdi:music-clef-treble", idx, 100, Some("Hz"), Data)
  }

  function VoltageSensor(name: string, idx: nat): Entity {
    Entity(name, Voltage, Some("voltage"), "mdi:current-ac", idx, 10, Some("V"), Data)
  }

  function CurrentSensor(name: string, idx: nat): Entity {
    Entity(name, Current, Some("current"), "mdi:current-ac", idx, 10, Some("A"), Data)
  }

  function TemperatureSensor(name: string, idx: nat): Entity {
    Entity(name, Temperature, Some("temperature"), "mdi:thermometer", idx, 1, Some("°C"), Data)
  }

  function StatusSensor(name: string, idx: nat): Entity {
    Entity(name, Status, None, "mdi:check", idx, 1, None, Data)
  }

  /** Home consumption: AC power at `idx1` minus the signed feed-in power at `idx2`. */
  function PowerCalcSensor(name: string, icon: string, idx1: nat, idx2: nat): Entity {
    Entity(name, PowerCalc(idx2), Some("power"), icon, idx1, 1, Some("W"), Data)
  }

  function VersionSensor(name: string, idx: nat): Entity {
    Entity(name, Version, None, "mdi:sync", idx, 1, None, Information)
  }

  // The sensors of the X1 Mini G3, one constant each.

  const InverterTemperature: Entity := TemperatureSensor("Inverter Temperature", 55)
  const EnergyToday: Entity := EnergySensor("Energy Today", "mdi:solar-panel", 13, 10)
  const EnergyTotal: Entity := EnergySensor("Energy Total", "mdi:chart-line", 11, 10)
  const DcVoltage1: Entity := VoltageSensor("DC Voltage 1", 3)
  const DcCurrent1: Entity := CurrentSensor("DC Current 1", 5)
  const DcPower1: Entity := PowerSensor("DC Power 1", "mdi:power-socket-de", 7)
  const AcOutputVoltage: Entity := VoltageSensor("AC Output Voltage", 0)
  const AcCurrent: Entity := CurrentSensor("AC Current", 1)
  const AcPower: Entity := PowerSensor("AC Power", "mdi:solar-panel", 2)
  const AcFrequency: Entity := FrequencySensor("AC Frequency", 9)
  /** The operating-mode sensor; the bridge publishes "Offline" to its topic. */
  const OperationMode: Entity := StatusSensor("Inverter Operation Mode", 10)
  const FeedInPower: Entity := PowerSensor("Feed-in Power", "mdi:transmission-tower", 48)
  const FeedInEnergy: Entity := EnergySensor("Feed-in Energy", "mdi:home-export-outline", 50, 100)
  const ConsumeEnergy: Entity := EnergySensor("Consume Energy", "mdi:home-import-outline", 52, 100)
  const VersionDsp: Entity := VersionSensor("Inverter Version DSP", 4)
  const VersionArm: Entity := VersionSensor("Inverter Version ARM", 6)
  const HomeConsumption: Entity := PowerCalcSensor("Home Consumption Power", "mdi:home", 2, 48)

  /** Every sensor, in publishing order. */
  const Table: seq<Entity> := [
    InverterTemperature, EnergyToday, EnergyTotal, DcVoltage1, DcCurrent1, DcPower1,
    AcOutputVoltage, AcCurrent, AcPower, AcFrequency, OperationMode, FeedInPower,
    FeedInEnergy, ConsumeEnergy, VersionDsp, VersionArm, HomeConsumption
  ]

  // ---------------------------------------------------------------------------
  // Identity and topics

  /** The name with spaces turned into underscores, hyphens dropped, lower-cased. */
  function Slug(name: string): string {
    Lower(DropChar(ReplaceChar(name, ' ', '_'), '-'))
  }

  /** A slug has no spaces, no hyphens, no upper-case letters, and is no longer than the name. */
  lemma SlugNormalised(name: string)
    ensures ' ' !in Slug(name) && '-' !in Slug(name)
    ensures NoUpper(Slug(name))
    ensures |Slug(name)| <= |name|
  {
    var spaced := ReplaceChar(name, ' ', '_');
    var dropped := DropChar(spaced, '-');
    ReplaceCharSpec(name, ' ', '_');
    DropCharSpec(spaced, '-');
    ReplaceCharRemoves(name, ' ', '_');
    assert multiset(dropped)[' '] == multiset(spaced)[' '] == 0;
    LowerKeepsAbsent(dropped, ' ');
    LowerKeepsAbsent(dropped, '-');
    LowerNormalises(dropped);
    LowerSpec(dropped);
  }

  const IdPrefix: string := "solax_"
  const TopicPrefix: string := "homeassistant/sensor/"
  const StateSuffix: string := "/state"
  const ConfigSuffix: string := "/config"

  /** The stable identifier; home consumption overrides it without the prefix. */
  function Id(e: Entity): string {
    if e.kind.PowerCalc? then Slug(e.name) else IdPrefix + Slug(e.name)
  }

  function Topic(e: Entity): string {
    TopicPrefix + Id(e) + StateSuffix
  }

  function ConfigTopic(e: Entity): string {
    TopicPrefix + Id(e) + ConfigSuffix
  }

  /** Reads the identifier back out of a state topic; `None` for any other string. */
  function TopicId(t: string): (r: Option<string>)
    ensures r.Some? ==> t == TopicPrefix + r.value + StateSuffix
  {
    if |t| >= |TopicPrefix| + |StateSuffix|
       && t[..|TopicPrefix|] == TopicPrefix
       && t[|t| - |StateSuffix|..] == StateSuffix
    then
      var id := t[|TopicPrefix|..|t| - |StateSuffix|];
      assert t == t[..|TopicPrefix|] + id + t[|t| - |StateSuffix|..];
      Some(id)
    else None
  }

  /** The slug is a fixed point of itself: identifiers are already normalised names. */
  lemma SlugIdempotent(name: string)
    ensures Slug(Slug(name)) == Slug(name)
  {
    var s := Slug(name);
    SlugNormalised(name);
    ReplaceCharAbsent(s, ' ', '_');
    DropCharAbsent(s, '-');
    LowerNormalises(s);
  }

  /** What one name character becomes in the slug (hyphens aside). */
  function SlugChar(c: char): char {
    LowerChar(if c == ' ' then '_' else c)
  }

  /** The slug of a concatenation is the concatenation of the slugs. */
  lemma SlugAppend(a: string, b: string)
    ensures Slug(a + b) == Slug(a) + Slug(b)
  {
    ReplaceCharAppend(a, b, ' ', '_');
    DropCharAppend(ReplaceChar(a, ' ', '_'), ReplaceChar(b, ' ', '_'), '-');
    LowerAppend(DropChar(ReplaceChar(a, ' ', '_'), '-'), DropChar(ReplaceChar(b, ' ', '_'), '-'));
  }

  /** A name without hyphens keeps its length, each character mapped on its own. */
  lemma SlugPerChar(name: string)
    requires '-' !in name
    ensures |Slug(name)| == |name|
    ensures forall k :: 0 <= k < |name| ==> Slug(name)[k] == SlugChar(name[k])
  {
    var spaced := ReplaceChar(name, ' ', '_');
    ReplaceCharSpec(name, ' ', '_');
    LowerSpec(spaced);
    assert '-' !in spaced by {
      forall k | 0 <= k < |spaced| ensures spaced[k] != '-' {
        assert name[k] != '-';
      }
    }
    DropCharAbsent(spaced, '-');
  }

  lemma SlugOfHyphen()
    ensures Slug("-") == []
  {
    var h: string := "-";
    ReplaceCharAbsent(h, ' ', '_');
    assert DropChar(h, '-') == DropChar([], '-') == [];
  }

  /** A hyphen contributes nothing to the slug. */
  lemma SlugDropsHyphen(a: string, b: string)
    ensures Slug(a + "-" + b) == Slug(a) + Slug(b)
  {
    SlugAppend(a + "-", b);
    SlugAppend(a, "-");
    SlugOfHyphen();
  }

  /** A name with one hyphen, at `k`, loses that character and maps the others one by one. */
  lemma SlugOneHyphen(name: string, k: nat)
    requires k < |name| && name[k] == '-'
    requires '-' !in name[..k] && '-' !in name[k + 1..]
    ensures |Slug(name)| == |name| - 1
    ensures forall i :: 0 <= i < k ==> Slug(name)[i] == SlugChar(name[i])
    ensures forall i :: k < i < |name| ==> Slug(name)[i - 1] == SlugChar(name[i])
  {
    var a, b := name[..k], name[k + 1..];
    assert name == a + "-" + b;
    SlugDropsHyphen(a, b);
    SlugPerChar(a);
    SlugPerChar(b);
    forall i | k < i < |name| ensures Slug(name)[i - 1] == SlugChar(name[i]) {
      assert name[i] == b[i - k - 1];
    }
  }

  /** The identifier is `solax_` plus the slug, except for home consumption, which has no prefix. */
  lemma IdShape(e: Entity)
    ensures e.kind.PowerCalc? ==> Id(e) == Lower(DropChar(ReplaceChar(e.name, ' ', '_'), '-'))
    ensures !e.kind.PowerCalc? ==> Id(e) == "solax_" + Lower(DropChar(ReplaceChar(e.name, ' ', '_'), '-'))
    ensures ' ' !in Id(e) && '-' !in Id(e) && NoUpper(Id(e))
  {
    var s := Slug(e.name);
    SlugNormalised(e.name);
    if !e.kind.PowerCalc? {
      assert Id(e) == IdPrefix + s;
      forall i | 0 <= i < |Id(e)| ensures !IsUpper(Id(e)[i]) && Id(e)[i] != ' ' && Id(e)[i] != '-' {
        if i >= |IdPrefix| {
          assert Id(e)[i] == s[i - |IdPrefix|];
        }
      }
    }
  }

  /** A state topic gives back exactly the identifier it was built from, and a config topic is not a state topic. */
  lemma TopicRoundTrip(e: Entity)
    ensures TopicId(Topic(e)) == Some(Id(e))
    ensures TopicId(ConfigTopic(e)).None?
    ensures Topic(e) != ConfigTopic(e)
  {
    var t := Topic(e);
    assert t[..|TopicPrefix|] == TopicPrefix;
    assert t[|t| - |StateSuffix|..] == StateSuffix;
    assert t[|TopicPrefix|..|t| - |StateSuffix|] == Id(e);
    var c := ConfigTopic(e);
    assert c[|c| - 1] == 'g';
    if |c| >= |TopicPrefix| + |StateSuffix| {
      assert c[|c| - |StateSuffix|..] != StateSuffix by {
        assert c[|c| - |StateSuffix|..][|StateSuffix| - 1] == 'g';
      }
    }
  }

  /** Two sensors share a state topic exactly when they share an identifier. */
  lemma TopicInjective(a: Entity, b: Entity)
    ensures Topic(a) == Topic(b) <==> Id(a) == Id(b)
  {
    TopicRoundTrip(a);
    TopicRoundTrip(b);
  }

  /** Two sensors share a config topic exactly when they share an identifier. */
  lemma ConfigTopicInjective(a: Entity, b: Entity)
    ensures ConfigTopic(a) == ConfigTopic(b) <==> Id(a) == Id(b)
  {
    var ta, tb := ConfigTopic(a), ConfigTopic(b);
    if ta == tb {
      assert ta[|TopicPrefix|..|ta| - |ConfigSuffix|] == Id(a);
      assert tb[|TopicPrefix|..|tb| - |ConfigSuffix|] == Id(b);
    }
  }

  // ---------------------------------------------------------------------------
  // Value derivation

  /** The reads a sensor performs exist: its section is present and its indices are in range. */
  predicate Readable(e: Entity, p: Payload) {
    && e.section in p
    && e.idx < |p[e.section]|
    && (e.kind.PowerCalc? ==> e.kind.idx2 < |p[e.section]|)
  }

  /** The sensor's raw register word. */
  function Raw(e: Entity, p: Payload): int
    requires Readable(e, p)
  {
    p[e.section][e.idx]
  }

  /** A raw word divided by the sensor's factor. */
  function Scale(e: Entity, raw: int): real {
    raw as real / e.factor as real
  }

  /**
   The state a sensor publishes for payload `p`: the scaled word; for power,
   the scaled word with the 16-bit sign fix; for the operating mode, its label;
   for home consumption, AC power (no sign fix) minus signed feed-in power.
   */
  function Derive(e: Entity, p: Payload): (v: Value)
    requires Readable(e, p)
    ensures v.Label? <==> e.kind.Status?
    ensures v.Label? ==> v.text == UnknownStatus || v.text in StatusMap.Values
    ensures (e.kind.Energy? || e.kind.Frequency? || e.kind.Voltage? || e.kind.Current?
             || e.kind.Temperature? || e.kind.Version?)
            ==> v.x * e.factor as real == Raw(e, p) as real
    ensures e.kind.Power? ==> v.x * e.factor as real == Raw(e, p) as real
                              || v.x * e.factor as real == (Raw(e, p) - WordSize * e.factor) as real
    ensures e.kind.Power? ==> (v.x == Scale(e, Raw(e, p)) <==> Scale(e, Raw(e, p)) < SignBit as real)
    ensures e.kind.PowerCalc? ==>
      v.x == Scale(e, Raw(e, p)) - SignFix(Scale(e, p[e.section][e.kind.idx2]))
  {
    var raw := Raw(e, p);
    match e.kind
    case Status => Label(StatusLabel(Scale(e, raw)))
    case Power => Number(SignFix(Scale(e, raw)))
    case PowerCalc(idx2) =>
      Number(Scale(e, raw) - SignFix(Scale(e, p[e.section][idx2])))
    case _ => Number(Scale(e, raw))
  }

  /**
   A power sensor with factor 1 reading a 16-bit word publishes the whole
   number in [-32768, 32768) whose two's-complement word is that word.
   */
  lemma PowerIsTwosComplement(e: Entity, p: Payload)
    requires e.kind.Power? && e.factor == 1 && Readable(e, p)
    requires 0 <= Raw(e, p) < WordSize
    ensures var x := Derive(e, p).x;
      && x == x.Floor as real
      && -SignBit <= x.Floor < SignBit
      && Wrap16(x.Floor) == Raw(e, p)
  {
    SignFixEncodesBack(Raw(e, p));
  }

  /** Conversely, a power sensor with factor 1 reading the word of a signed reading `s` publishes `s`. */
  lemma PowerDecodesReading(e: Entity, p: Payload, s: int)
    requires e.kind.Power? && e.factor == 1 && Readable(e, p)
    requires -SignBit <= s < SignBit && Raw(e, p) == Wrap16(s)
    ensures Derive(e, p) == Number(s as real)
  {
    SignFixDecodesWrap(s);
  }

  /** An operating-mode sensor with factor 1 labels codes 0..10 from the table and every other code "Unknown". */
  lemma StatusIsTotal(e: Entity, p: Payload)
    requires e.kind.Status? && e.factor == 1 && Readable(e, p)
    ensures 0 <= Raw(e, p) <= 10 ==> Derive(e, p) == Label(StatusMap[Raw(e, p)])
    ensures !(0 <= Raw(e, p) <= 10) ==> Derive(e, p) == Label(UnknownStatus)
  {
    StatusLabelTotal(Raw(e, p));
  }
}
