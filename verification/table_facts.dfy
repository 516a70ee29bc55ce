/**
 Facts about the seventeen-sensor table: which variant reads which section with
 which factor, what a payload must hold for every sensor to be readable, and
 how the home-consumption sensor relates to the two power sensors it combines.
 */
module TableFacts {
  import opened Registers
  import opened Entities

  /**
   Firmware versions, and only they, read the Information section; the power
   variants and the operating mode use factor 1, so the sign fix and the
   status lookup see the raw word; the operating mode sits at position 10 and
   home consumption at 16, each the only sensor of its variant.
   */
  lemma TableShape()
    ensures forall k :: 0 <= k < |Table| ==>
      (Table[k].section == Information <==> Table[k].kind.Version?)
    ensures forall k :: 0 <= k < |Table| ==>
      (Table[k].kind.Power? || Table[k].kind.PowerCalc? || Table[k].kind.Status?) ==> Table[k].factor == 1
    ensures forall k :: 0 <= k < |Table| ==> (Table[k].kind.Status? <==> k == 10)
    ensures forall k :: 0 <= k < |Table| ==> (Table[k].kind.PowerCalc? <==> k == 16)
    ensures Table[10] == OperationMode && Table[16] == HomeConsumption
  {
  }

  /** Every sensor can read `p` exactly when Data has indices up to 55 and Information up to 6. */
  lemma TableReadableIff(p: Payload)
    ensures (forall k :: 0 <= k < |Table| ==> Readable(Table[k], p))
        <==> (Data in p && |p[Data]| > 55 && Information in p && |p[Information]| > 6)
  {
    if forall k :: 0 <= k < |Table| ==> Readable(Table[k], p) {
      assert Readable(Table[0], p);
      assert Readable(Table[15], p);
    }
  }

  /**
   Home consumption is the AC power word, taken as it is, minus the signed
   feed-in power: when the AC word is below 32768 this is AC power minus
   feed-in power as the two power sensors publish them.
   */
  lemma HomeConsumptionBalance(p: Payload)
    requires Readable(HomeConsumption, p)
    ensures Readable(AcPower, p) && Readable(FeedInPower, p)
    ensures Derive(HomeConsumption, p).x == Raw(AcPower, p) as real - Derive(FeedInPower, p).x
    ensures Raw(AcPower, p) < SignBit ==>
      Derive(HomeConsumption, p).x == Derive(AcPower, p).x - Derive(FeedInPower, p).x
  {
  }

  /** A payload with the given AC power and feed-in words, every other word zero. */
  function PowerPayload(ac: int, feedIn: int): Payload {
    map[
      Data := seq(56, i => if i == 2 then ac else if i == 48 then feedIn else 0),
      Information := seq(7, i => 0)
    ]
  }

  /** Importing: feed-in word 40000 reads as -25536 W, so 500 W of AC power means 26036 W consumed at home. */
  lemma ImportExample()
    ensures Derive(AcPower, PowerPayload(500, 40000)) == Number(500.0)
    ensures Derive(FeedInPower, PowerPayload(500, 40000)) == Number(-25536.0)
    ensures Derive(HomeConsumption, PowerPayload(500, 40000)) == Number(26036.0)
  {
    var p := PowerPayload(500, 40000);
    assert p[Data][2] == 500 && p[Data][48] == 40000;
  }

  /** Exporting: 300 W fed in out of 500 W of AC power leaves 200 W consumed at home. */
  lemma ExportExample()
    ensures Derive(FeedInPower, PowerPayload(500, 300)) == Number(300.0)
    ensures Derive(HomeConsumption, PowerPayload(500, 300)) == Number(200.0)
  {
    var p := PowerPayload(500, 300);
    assert p[Data][2] == 500 && p[Data][48] == 300;
  }

  /** The AC word is not sign-fixed: an AC word of 40000 with nothing fed in counts fully as consumption. */
  lemma AcNotSignFixed()
    ensures Derive(AcPower, PowerPayload(40000, 0)) == Number(-25536.0)
    ensures Derive(HomeConsumption, PowerPayload(40000, 0)) == Number(40000.0)
  {
    var p := PowerPayload(40000, 0);
    assert p[Data][2] == 40000 && p[Data][48] == 0;
  }
}
