/**
 The bridge's polling loop. Each cycle either fails to fetch a payload or
 receives one; a failure counts towards the retry limit and, past it, marks the
 operating-mode sensor "Offline"; a payload resets the counter and, unless the
 inverter is still initialising, publishes every sensor once in table order.
 The cycle also chooses which of the two configured delays to sleep for.
 Reading a word the payload does not hold raises an exception in the bridge
 and nothing catches it, so such a cycle ends the program.
 */
module Polling {
  import opened Options
  import opened Registers
  import opened Entities
  import opened TableIds
  import Discovery

  /** Consecutive failed fetches tolerated before the inverter is declared offline. */
  const RetryLimit: nat := 3

  const OfflineText: string := "Offline"

  /** Which configured pause follows a cycle: the regular one or the long back-off. */
  datatype Delay = TimeDelay | OfflineDelay

  datatype Message = Message(topic: string, value: Value)

  /** A cycle that completed: the retry counter after it, what it published and how long it sleeps. */
  datatype Cycle = Cycle(retries: nat, published: seq<Message>, delay: Delay)

  /** A cycle either completes, or raises after publishing some messages and ends the program. */
  datatype Outcome = Next(cycle: Cycle) | Halted(partial: seq<Message>) {
    /** What the cycle published, whether it completed or halted. */
    function Published(): seq<Message> {
      match this
      case Next(c) => c.published
      case Halted(m) => m
    }
  }

  const OfflineMessage: Message := Message(Topic(OperationMode), Label(OfflineText))

  /** The start-up check reads Data[50] and, only when that is zero, Data[52]. */
  predicate GateReadable(p: Payload) {
    Data in p && |p[Data]| > 50 && (p[Data][50] == 0 ==> |p[Data]| > 52)
  }

  /** Both energy counters read zero: the inverter has not finished starting up. */
  predicate Initializing(p: Payload)
    requires GateReadable(p)
  {
    p[Data][50] == 0 && p[Data][52] == 0
  }

  /** How many sensors at the front of `es` can read `p`, stopping at the first that cannot. */
  function ReadablePrefix(es: seq<Entity>, p: Payload): (n: nat)
    ensures n <= |es|
    ensures forall i :: 0 <= i < n ==> Readable(es[i], p)
    ensures n < |es| ==> !Readable(es[n], p)
  {
    if es == [] || !Readable(es[0], p) then 0 else 1 + ReadablePrefix(es[1..], p)
  }

  /** One state message per sensor, in order, each carrying the value derived from `p`. */
  function Telemetry(es: seq<Entity>, p: Payload): (out: seq<Message>)
    requires forall i :: 0 <= i < |es| ==> Readable(es[i], p)
    ensures |out| == |es|
    ensures forall i :: 0 <= i < |es| ==> out[i] == Message(Topic(es[i]), Derive(es[i], p))
  {
    if es == [] then [] else [Message(Topic(es[0]), Derive(es[0], p))] + Telemetry(es[1..], p)
  }

  /** One pass of the loop body over `sensors`, given the retry counter and the fetch result (None on failure). */
  function Step(sensors: seq<Entity>, retries: nat, fetched: Option<Payload>): Outcome {
    match fetched
    case None =>
      if retries + 1 > RetryLimit then Next(Cycle(retries + 1, [OfflineMessage], OfflineDelay))
      else Next(Cycle(retries + 1, [], TimeDelay))
    case Some(p) =>
      if !GateReadable(p) then Halted([])
      else if Initializing(p) then Next(Cycle(0, [], OfflineDelay))
      else
        var n := ReadablePrefix(sensors, p);
        if n == |sensors| then Next(Cycle(0, Telemetry(sensors, p), TimeDelay))
        else Halted(Telemetry(sensors[..n], p))
  }

  /** A failed fetch bumps the counter; past the limit it publishes only "Offline", to the status topic. */
  lemma StepFailure(sensors: seq<Entity>, retries: nat)
    ensures Step(sensors, retries, None).Next?
    ensures Step(sensors, retries, None).cycle.retries == retries + 1
    ensures retries + 1 > RetryLimit ==>
      Step(sensors, retries, None).cycle.published == [Message(Topic(OperationMode), Label("Offline"))]
    ensures retries + 1 <= RetryLimit ==> Step(sensors, retries, None).cycle.published == []
    ensures Step(sensors, retries, None).cycle.delay == OfflineDelay <==> retries + 1 > RetryLimit
  {
  }

  /** A payload the gate can read always resets the counter; an initialising inverter publishes nothing. */
  lemma StepSuccess(sensors: seq<Entity>, retries: nat, p: Payload)
    requires GateReadable(p)
    ensures Step(sensors, retries, Some(p)).Next? ==> Step(sensors, retries, Some(p)).cycle.retries == 0
    ensures Initializing(p) ==> Step(sensors, retries, Some(p)) == Next(Cycle(0, [], OfflineDelay))
    ensures !Initializing(p) && (forall k :: 0 <= k < |sensors| ==> Readable(sensors[k], p)) ==>
      Step(sensors, retries, Some(p)).Next? && Step(sensors, retries, Some(p)).cycle.published == Telemetry(sensors, p)
  {
  }

  /** A cycle ends the program exactly when the payload lacks a word the gate or a sensor reads. */
  lemma StepHalts(sensors: seq<Entity>, retries: nat, fetched: Option<Payload>)
    ensures Step(sensors, retries, fetched).Halted? <==>
      fetched.Some? && (!GateReadable(fetched.value) ||
        (!Initializing(fetched.value) && exists k :: 0 <= k < |sensors| && !Readable(sensors[k], fetched.value)))
  {
    if fetched.Some? && GateReadable(fetched.value) && !Initializing(fetched.value) {
      var p := fetched.value;
      var n := ReadablePrefix(sensors, p);
      if n < |sensors| {
        assert !Readable(sensors[n], p);
      }
    }
  }

  /** The long back-off follows exactly the cycles past the retry limit and the initialising ones. */
  lemma DelayChoice(sensors: seq<Entity>, retries: nat, fetched: Option<Payload>)
    ensures Step(sensors, retries, fetched).Next? ==>
      (Step(sensors, retries, fetched).cycle.delay == OfflineDelay <==>
        (fetched.None? && retries >= RetryLimit) ||
        (fetched.Some? && GateReadable(fetched.value) && Initializing(fetched.value)))
  {
  }

  /** Sensors with pairwise distinct identifiers. */
  predicate DistinctIds(sensors: seq<Entity>) {
    forall i, j :: 0 <= i < j < |sensors| ==> Id(sensors[i]) != Id(sensors[j])
  }

  /** Whatever a cycle publishes, including a halted one, goes to distinct state topics. */
  lemma PublishedTopicsDistinct(sensors: seq<Entity>, retries: nat, fetched: Option<Payload>)
    requires DistinctIds(sensors)
    ensures var ms := Step(sensors, retries, fetched).Published();
      forall i, j :: 0 <= i < j < |ms| ==> ms[i].topic != ms[j].topic
  {
    forall i, j | 0 <= i < j < |sensors| ensures Topic(sensors[i]) != Topic(sensors[j]) {
      TopicInjective(sensors[i], sensors[j]);
    }
  }

  /** The bridge's own table satisfies that: its cycles never publish two values to one topic. */
  lemma TablePublishesDistinctTopics(retries: nat, fetched: Option<Payload>)
    ensures var ms := Step(Table, retries, fetched).Published();
      forall i, j :: 0 <= i < j < |ms| ==> ms[i].topic != ms[j].topic
  {
    TableIdsDistinct();
    PublishedTopicsDistinct(Table, retries, fetched);
  }

  /** A firmware status never reads "Offline", so only the outage path publishes it. */
  lemma OfflineIsNotAStatus()
    ensures OfflineText != UnknownStatus
    ensures OfflineText !in StatusMap.Values
  {
    StatusMapShape();
  }

  // ---------------------------------------------------------------------------
  // Runs of the loop

  /**
   What a sequence of cycles leaves behind: the final counter, everything
   published in order, the pause after each completed cycle, and whether a
   cycle ended the program.
   */
  datatype Trace = Trace(retries: nat, published: seq<Message>, delays: seq<Delay>, halted: bool)

  /** Runs the loop over the given fetch results, stopping at the first cycle that halts. */
  function Run(sensors: seq<Entity>, retries: nat, fetches: seq<Option<Payload>>): Trace
    decreases |fetches|
  {
    if fetches == [] then Trace(retries, [], [], false)
    else match Step(sensors, retries, fetches[0])
      case Halted(m) => Trace(retries, m, [], true)
      case Next(c) =>
        var t := Run(sensors, c.retries, fetches[1..]);
        Trace(t.retries, c.published + t.published, [c.delay] + t.delays, t.halted)
  }

  /** Running two stretches of fetches in turn is running them together, unless the first halts. */
  lemma {:induction false} RunAppend(sensors: seq<Entity>, retries: nat, a: seq<Option<Payload>>, b: seq<Option<Payload>>)
    requires !Run(sensors, retries, a).halted
    decreases |a|
    ensures var ta := Run(sensors, retries, a);
      var tb := Run(sensors, ta.retries, b);
      Run(sensors, retries, a + b) == Trace(tb.retries, ta.published + tb.published, ta.delays + tb.delays, tb.halted)
  {
    if a == [] {
      assert a + b == b;
    } else {
      RunHalts(sensors, retries, a);
      var c := Step(sensors, retries, a[0]).cycle;
      assert (a + b)[0] == a[0];
      assert (a + b)[1..] == a[1..] + b;
      RunStep(sensors, retries, a);
      RunStep(sensors, retries, a + b);
      RunAppend(sensors, c.retries, a[1..], b);
      var ta' := Run(sensors, c.retries, a[1..]);
      var tb := Run(sensors, ta'.retries, b);
      ConcatAssoc(c.published, ta'.published, tb.published);
      ConcatAssoc([c.delay], ta'.delays, tb.delays);
    }
  }

  /** Associativity of concatenation, proved on its own so that RunAppend's proof stays small. */
  lemma ConcatAssoc<T>(x: seq<T>, y: seq<T>, z: seq<T>)
    ensures x + (y + z) == (x + y) + z
  {
  }

  /** A run halts at its first cycle exactly when that cycle halts, keeping what the cycle published. */
  lemma RunHalts(sensors: seq<Entity>, retries: nat, fetches: seq<Option<Payload>>)
    requires fetches != []
    ensures Step(sensors, retries, fetches[0]).Halted? ==>
      Run(sensors, retries, fetches) == Trace(retries, Step(sensors, retries, fetches[0]).partial, [], true)
  {
  }

  /** `n` failed fetches in a row. */
  function Failures(n: nat): seq<Option<Payload>> {
    seq(n, i => None)
  }

  /** How many of `n` further failures, starting from counter `r`, go past the retry limit. */
  function OfflineCycles(r: nat, n: nat): nat {
    if r >= RetryLimit then n else if r + n <= RetryLimit then 0 else r + n - RetryLimit
  }

  /**
   An outage of `n` cycles starting from counter `r` never halts, leaves the
   counter at `r + n`, publishes one "Offline" per cycle past the limit and
   nothing else, and backs off on exactly those cycles.
   */
  lemma {:induction false} Outage(sensors: seq<Entity>, r: nat, n: nat)
    ensures var t := Run(sensors, r, Failures(n));
      && !t.halted
      && t.retries == r + n
      && t.published == seq(OfflineCycles(r, n), i => OfflineMessage)
      && |t.delays| == n
      && forall i :: 0 <= i < n ==> (t.delays[i] == OfflineDelay <==> r + i + 1 > RetryLimit)
    decreases n
  {
    if n > 0 {
      StepFailure(sensors, r);
      var c := Step(sensors, r, None).cycle;
      assert c.delay == OfflineDelay <==> r + 1 > RetryLimit;
      assert Failures(n)[1..] == Failures(n - 1);
      RunStep(sensors, r, Failures(n));
      Outage(sensors, r + 1, n - 1);
      OfflineCyclesStep(r, n);
      var t := Run(sensors, r + 1, Failures(n - 1));
      var ds := [c.delay] + t.delays;
      forall i | 0 <= i < n ensures ds[i] == OfflineDelay <==> r + i + 1 > RetryLimit {
        if i > 0 {
          assert ds[i] == t.delays[i - 1];
        }
      }
    }
  }

  /** A completed first cycle puts its messages and pause in front of those of the rest. */
  lemma RunStep(sensors: seq<Entity>, retries: nat, fetches: seq<Option<Payload>>)
    requires fetches != [] && Step(sensors, retries, fetches[0]).Next?
    ensures var c := Step(sensors, retries, fetches[0]).cycle;
      var t := Run(sensors, c.retries, fetches[1..]);
      Run(sensors, retries, fetches) == Trace(t.retries, c.published + t.published, [c.delay] + t.delays, t.halted)
  {
  }

  /** The outage messages of one more failure followed by the rest. */
  lemma OfflineCyclesStep(r: nat, n: nat)
    requires n > 0
    ensures (if r + 1 > RetryLimit then [OfflineMessage] else []) + seq(OfflineCycles(r + 1, n - 1), i => OfflineMessage)
         == seq(OfflineCycles(r, n), i => OfflineMessage)
  {
  }

  /**
   Three failed fetches publish nothing; the fourth publishes exactly one
   "Offline" to the status topic; a good payload afterwards resets the counter.
   */
  lemma ThreeStrikes(sensors: seq<Entity>, p: Payload)
    requires GateReadable(p)
    ensures Run(sensors, 0, Failures(3)).published == []
    ensures Run(sensors, 0, Failures(4)).published == [Message(Topic(OperationMode), Label("Offline"))]
    ensures !Run(sensors, 0, Failures(4) + [Some(p)]).halted ==> Run(sensors, 0, Failures(4) + [Some(p)]).retries == 0
  {
    Outage(sensors, 0, 3);
    Outage(sensors, 0, 4);
    RunAppend(sensors, 0, Failures(4), [Some(p)]);
  }

  /** Within one cycle, an "Offline" message can only be the outage message. */
  lemma StepOfflineOnlyOnStatusTopic(sensors: seq<Entity>, retries: nat, fetched: Option<Payload>)
    ensures var ms := Step(sensors, retries, fetched).Published();
      forall m :: m in ms && m.value == Label(OfflineText) ==> m == OfflineMessage
  {
    if fetched.Some? && GateReadable(fetched.value) && !Initializing(fetched.value) {
      var n := ReadablePrefix(sensors, fetched.value);
      TelemetryNotOffline(sensors, n, fetched.value);
      if n == |sensors| {
        assert sensors[..n] == sensors;
      }
    }
  }

  /** No sensor message carries "Offline". */
  lemma TelemetryNotOffline(sensors: seq<Entity>, n: nat, p: Payload)
    requires n <= |sensors| && forall i :: 0 <= i < n ==> Readable(sensors[i], p)
    ensures forall m :: m in Telemetry(sensors[..n], p) ==> m.value != Label(OfflineText)
  {
    OfflineIsNotAStatus();
    var ms := Telemetry(sensors[..n], p);
    forall m | m in ms ensures m.value != Label(OfflineText) {
      var i :| 0 <= i < |ms| && ms[i] == m;
      assert m.value == Derive(sensors[i], p);
    }
  }

  /** Every "Offline" message of any run goes to the operating-mode topic. */
  lemma {:induction false} OfflineOnlyOnStatusTopic(sensors: seq<Entity>, retries: nat, fetches: seq<Option<Payload>>)
    ensures forall m :: m in Run(sensors, retries, fetches).published && m.value == Label(OfflineText) ==>
      m == OfflineMessage
    decreases |fetches|
  {
    if fetches != [] {
      StepOfflineOnlyOnStatusTopic(sensors, retries, fetches[0]);
      match Step(sensors, retries, fetches[0])
      case Halted(ms) =>
      case Next(c) =>
        OfflineOnlyOnStatusTopic(sensors, c.retries, fetches[1..]);
    }
  }

  /** `t` is the state topic of one of `sensors`. */
  predicate SensorTopic(sensors: seq<Entity>, t: string) {
    exists k :: 0 <= k < |sensors| && t == Topic(sensors[k])
  }

  /** Every message of a cycle goes to the state topic of one of the sensors, the status sensor included. */
  lemma StepTopics(sensors: seq<Entity>, retries: nat, fetched: Option<Payload>)
    requires OperationMode in sensors
    ensures var ms := Step(sensors, retries, fetched).Published();
      forall m :: m in ms ==> SensorTopic(sensors, m.topic)
  {
    var k :| 0 <= k < |sensors| && sensors[k] == OperationMode;
    assert SensorTopic(sensors, OfflineMessage.topic);
    if fetched.Some? && GateReadable(fetched.value) && !Initializing(fetched.value) {
      var n := ReadablePrefix(sensors, fetched.value);
      TelemetryTopics(sensors, n, fetched.value);
      if n == |sensors| {
        assert sensors[..n] == sensors;
      }
    }
  }

  /** The telemetry of any readable front part of `sensors` goes to their state topics. */
  lemma TelemetryTopics(sensors: seq<Entity>, n: nat, p: Payload)
    requires n <= |sensors| && forall i :: 0 <= i < n ==> Readable(sensors[i], p)
    ensures forall m :: m in Telemetry(sensors[..n], p) ==> SensorTopic(sensors, m.topic)
  {
    var ms := Telemetry(sensors[..n], p);
    forall m | m in ms ensures SensorTopic(sensors, m.topic) {
      var i :| 0 <= i < |ms| && ms[i] == m;
      assert m.topic == Topic(sensors[i]);
    }
  }

  /** The same holds for every message of a run. */
  lemma {:induction false} RunTopics(sensors: seq<Entity>, retries: nat, fetches: seq<Option<Payload>>)
    requires OperationMode in sensors
    ensures forall m :: m in Run(sensors, retries, fetches).published ==> SensorTopic(sensors, m.topic)
    decreases |fetches|
  {
    if fetches != [] {
      StepTopics(sensors, retries, fetches[0]);
      match Step(sensors, retries, fetches[0])
      case Halted(ms) =>
      case Next(c) =>
        RunTopics(sensors, c.retries, fetches[1..]);
    }
  }

  // ---------------------------------------------------------------------------
  // The whole program

  /** What the program does with a working broker: announce every sensor, then poll from counter 0. */
  datatype Session = Session(announcements: seq<Discovery.Announcement>, trace: Trace)

  function Start(fetches: seq<Option<Payload>>): Session {
    Session(Discovery.Announcements(Table), Run(Table, 0, fetches))
  }

  /** Before the first poll every sensor is announced once, retained, on its own config topic. */
  lemma StartAnnouncesFirst(fetches: seq<Option<Payload>>)
    ensures var s := Start(fetches);
      && |s.announcements| == |Table|
      && (forall i :: 0 <= i < |Table| ==> s.announcements[i].retain && s.announcements[i].topic == ConfigTopic(Table[i]))
      && (forall i, j :: 0 <= i < j < |Table| ==> s.announcements[i].topic != s.announcements[j].topic)
  {
    TableTopicsDistinct();
  }

  /** Every state message a run publishes goes to a topic that the announcement of some sensor names. */
  lemma StatesAnnounced(sensors: seq<Entity>, fetches: seq<Option<Payload>>)
    requires OperationMode in sensors
    ensures var ann := Discovery.Announcements(sensors);
      forall m :: m in Run(sensors, 0, fetches).published ==>
        Discovery.Announced(ann, m.topic)
  {
    var ann := Discovery.Announcements(sensors);
    RunTopics(sensors, 0, fetches);
    forall m | m in Run(sensors, 0, fetches).published
      ensures Discovery.Announced(ann, m.topic)
    {
      var k :| 0 <= k < |sensors| && m.topic == Topic(sensors[k]);
      Discovery.AnnouncedStateTopic(sensors, k);
    }
  }

  /** In particular, for the bridge's own table, nothing is published to a topic that was not announced. */
  lemma StartStatesAnnounced(fetches: seq<Option<Payload>>)
    ensures var s := Start(fetches);
      forall m :: m in s.trace.published ==>
        Discovery.Announced(s.announcements, m.topic)
  {
    assert Table[10] == OperationMode;
    StatesAnnounced(Table, fetches);
  }
}
