/**
 The seventeen sensors of the table have pairwise different identifiers, so
 each publishes to a topic of its own. The proof records, for every
 identifier, its length and two of its characters, and checks that these
 signatures already tell the identifiers apart.
 */
module TableIds {
  import opened Text
  import opened Entities

  /** `id` has the length and characters recorded in `sig`; the last one only when `full`. */
  predicate HasSignature(id: string, sig: (nat, char, char), full: bool) {
    && |id| == sig.0 >= 7
    && id[6] == sig.1
    && (full ==> id[sig.0 - 3] == sig.2)
  }

  /**
   Length, seventh character and third-to-last character of each table
   identifier, in table order; the two feed-in identifiers are told apart by
   the first two alone, so their third entry is unused.
   */
  const IdSignatures: seq<(nat, char, char)> := [
    (26, 'i', 'u'), (18, 'e', 'd'), (18, 'e', 't'), (18, 'd', 'e'), (18, 'd', 't'),
    (16, 'd', 'r'), (23, 'a', 'a'), (16, 'a', 'e'), (14, 'a', 'w'), (18, 'a', 'n'),
    (29, 'i', 'o'), (18, 'f', ' '), (19, 'f', ' '), (20, 'c', 'r'), (26, 'i', 'd'),
    (26, 'i', 'a'), (22, 'o', 'w')
  ]

  /** The table positions whose names contain a hyphen. */
  predicate Hyphenated(k: nat) {
    k == 11 || k == 12
  }

  /** A prefixed identifier of a hyphen-free name has the length and characters the name dictates. */
  lemma PrefixedSignature(e: Entity, name: string, sig: (nat, char, char))
    requires e.name == name && !e.kind.PowerCalc?
    requires '-' !in name && |name| >= 3
    requires |name| + 6 == sig.0 && SlugChar(name[0]) == sig.1
    requires SlugChar(name[|name| - 3]) == sig.2
    ensures HasSignature(Id(e), sig, true)
  {
    SlugPerChar(name);
  }

  /** The unprefixed identifier of a hyphen-free name has the length and characters the name dictates. */
  lemma BareSignature(e: Entity, name: string, sig: (nat, char, char))
    requires e.name == name && e.kind.PowerCalc?
    requires '-' !in name && |name| >= 7
    requires |name| == sig.0 && SlugChar(name[6]) == sig.1
    requires SlugChar(name[|name| - 3]) == sig.2
    ensures HasSignature(Id(e), sig, true)
  {
    SlugPerChar(name);
  }

  /** A prefixed identifier of a name with a hyphen at position 4 has the length and seventh character it dictates. */
  lemma HyphenatedSignature(e: Entity, name: string, sig: (nat, char, char))
    requires e.name == name && !e.kind.PowerCalc?
    requires |name| > 4 && name[4] == '-'
    requires '-' !in name[..4] && '-' !in name[5..]
    requires |name| + 5 == sig.0 && SlugChar(name[0]) == sig.1
    ensures HasSignature(Id(e), sig, false)
  {
    SlugOneHyphen(name, 4);
  }

  lemma InverterTemperatureSignature()
    ensures HasSignature(Id(Table[0]), IdSignatures[0], true)
  {
    PrefixedSignature(Table[0], "Inverter Temperature", IdSignatures[0]);
  }

  lemma EnergyTodaySignature()
    ensures HasSignature(Id(Table[1]), IdSignatures[1], true)
  {
    PrefixedSignature(Table[1], "Energy Today", IdSignatures[1]);
  }

  lemma EnergyTotalSignature()
    ensures HasSignature(Id(Table[2]), IdSignatures[2], true)
  {
    PrefixedSignature(Table[2], "Energy Total", IdSignatures[2]);
  }

  lemma DcVoltage1Signature()
    ensures HasSignature(Id(Table[3]), IdSignatures[3], true)
  {
    PrefixedSignature(Table[3], "DC Voltage 1", IdSignatures[3]);
  }

  lemma DcCurrent1Signature()
    ensures HasSignature(Id(Table[4]), IdSignatures[4], true)
  {
    PrefixedSignature(Table[4], "DC Current 1", IdSignatures[4]);
  }

  lemma DcPower1Signature()
    ensures HasSignature(Id(Table[5]), IdSignatures[5], true)
  {
    PrefixedSignature(Table[5], "DC Power 1", IdSignatures[5]);
  }

  lemma AcOutputVoltageSignature()
    ensures HasSignature(Id(Table[6]), IdSignatures[6], true)
  {
    PrefixedSignature(Table[6], "AC Output Voltage", IdSignatures[6]);
  }

  lemma AcCurrentSignature()
    ensures HasSignature(Id(Table[7]), IdSignatures[7], true)
  {
    PrefixedSignature(Table[7], "AC Current", IdSignatures[7]);
  }

  lemma AcPowerSignature()
    ensures HasSignature(Id(Table[8]), IdSignatures[8], true)
  {
    PrefixedSignature(Table[8], "AC Power", IdSignatures[8]);
  }

  lemma AcFrequencySignature()
    ensures HasSignature(Id(Table[9]), IdSignatures[9], true)
  {
    PrefixedSignature(Table[9], "AC Frequency", IdSignatures[9]);
  }

  lemma OperationModeSignature()
    ensures HasSignature(Id(Table[10]), IdSignatures[10], true)
  {
    PrefixedSignature(Table[10], "Inverter Operation Mode", IdSignatures[10]);
  }

  lemma FeedInPowerSignature()
    ensures HasSignature(Id(Table[11]), IdSignatures[11], false)
  {
    HyphenatedSignature(Table[11], "Feed-in Power", IdSignatures[11]);
  }

  lemma FeedInEnergySignature()
    ensures HasSignature(Id(Table[12]), IdSignatures[12], false)
  {
    HyphenatedSignature(Table[12], "Feed-in Energy", IdSignatures[12]);
  }

  lemma ConsumeEnergySignature()
    ensures HasSignature(Id(Table[13]), IdSignatures[13], true)
  {
    PrefixedSignature(Table[13], "Consume Energy", IdSignatures[13]);
  }

  lemma VersionDspSignature()
    ensures HasSignature(Id(Table[14]), IdSignatures[14], true)
  {
    PrefixedSignature(Table[14], "Inverter Version DSP", IdSignatures[14]);
  }

  lemma VersionArmSignature()
    ensures HasSignature(Id(Table[15]), IdSignatures[15], true)
  {
    PrefixedSignature(Table[15], "Inverter Version ARM", IdSignatures[15]);
  }

  lemma HomeConsumptionSignature()
    ensures HasSignature(Id(Table[16]), IdSignatures[16], true)
  {
    BareSignature(Table[16], "Home Consumption Power", IdSignatures[16]);
  }

  /** The identifier at position `k` of the table has the signature recorded for it. */
  lemma SignatureAt(k: nat)
    requires k < |Table|
    ensures HasSignature(Id(Table[k]), IdSignatures[k], !Hyphenated(k))
  {
    if k == 0 {
      InverterTemperatureSignature();
    } else if k == 1 {
      EnergyTodaySignature();
    } else if k == 2 {
      EnergyTotalSignature();
    } else if k == 3 {
      DcVoltage1Signature();
    } else if k == 4 {
      DcCurrent1Signature();
    } else if k == 5 {
      DcPower1Signature();
    } else if k == 6 {
      AcOutputVoltageSignature();
    } else if k == 7 {
      AcCurrentSignature();
    } else if k == 8 {
      AcPowerSignature();
    } else if k == 9 {
      AcFrequencySignature();
    } else if k == 10 {
      OperationModeSignature();
    } else if k == 11 {
      FeedInPowerSignature();
    } else if k == 12 {
      FeedInEnergySignature();
    } else if k == 13 {
      ConsumeEnergySignature();
    } else if k == 14 {
      VersionDspSignature();
    } else if k == 15 {
      VersionArmSignature();
    } else {
      HomeConsumptionSignature();
    }
  }

  /** The signatures tell every two table positions apart. */
  lemma SignaturesDistinct()
    ensures forall i, j :: 0 <= i < j < |IdSignatures| ==>
      var a, b := IdSignatures[i], IdSignatures[j];
      a.0 != b.0 || a.1 != b.1 || (!Hyphenated(i) && !Hyphenated(j) && a.2 != b.2)
  {
  }

  /** No two sensors share an identifier. */
  lemma TableIdsDistinct()
    ensures forall i, j :: 0 <= i < j < |Table| ==> Id(Table[i]) != Id(Table[j])
  {
    SignaturesDistinct();
    forall i, j | 0 <= i < j < |Table| ensures Id(Table[i]) != Id(Table[j]) {
      SignatureAt(i);
      SignatureAt(j);
    }
  }

  /** Hence no two sensors share a state topic or a config topic. */
  lemma TableTopicsDistinct()
    ensures forall i, j :: 0 <= i < j < |Table| ==> Topic(Table[i]) != Topic(Table[j])
    ensures forall i, j :: 0 <= i < j < |Table| ==> ConfigTopic(Table[i]) != ConfigTopic(Table[j])
  {
    TableIdsDistinct();
    forall i, j | 0 <= i < j < |Table| ensures Topic(Table[i]) != Topic(Table[j]) {
      TopicInjective(Table[i], Table[j]);
    }
    forall i, j | 0 <= i < j < |Table| ensures ConfigTopic(Table[i]) != ConfigTopic(Table[j]) {
      ConfigTopicInjective(Table[i], Table[j]);
    }
  }
}
