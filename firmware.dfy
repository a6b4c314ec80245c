/**
 * The ESP32 firmware's main loop (main.cpp `loop()`): a 30-second gate for
 * the temperature/humidity publish and edge detection with a 50 ms debounce
 * on two reed switches and a PIR sensor. `millis()`, the pin readings and the
 * DHT11 result are inputs; published (topic, payload) pairs are the output.
 * `unsigned long` is 32 bits on the ESP32, so time differences wrap.
 */
module Firmware {
  import opened Wrappers
  import Topics

  newtype u32 = x: int | 0 <= x < 0x1_0000_0000

  const TempHumTopic: string := "home/status/esp32_1"
  const Door1Topic: string := "home/alerts/door1"
  const Door2Topic: string := "home/alerts/door2"
  const MotionTopic: string := "home/alerts/motion1"

  const TempHumIntervalMs: u32 := 30000
  const DebounceMs: u32 := 50

  /** A `digitalRead` result. */
  datatype Level = Low | High

  datatype Publish = Publish(topic: string, payload: string)

  /** `now - since` in `unsigned long` arithmetic: the true difference, plus 2^32 when it is negative. */
  function Elapsed(now: u32, since: u32): (d: u32)
    ensures since <= now ==> d as int == now as int - since as int
    ensures now < since ==> d as int == now as int - since as int + 0x1_0000_0000
  {
    ((now as int - since as int) % 0x1_0000_0000) as u32
  }

  /** The temperature/humidity gate: more than 30 s since the last attempt. */
  predicate ClimateDue(lastPublish: u32, now: u32)
  {
    Elapsed(now, lastPublish) > TempHumIntervalMs
  }

  /** One input's memory: the last level published and when. */
  datatype Debouncer = Debouncer(level: Level, changedAt: u32)

  /** A reading is published when it differs from the last one and more than 50 ms have passed. */
  predicate Fires(d: Debouncer, reading: Level, now: u32)
  {
    reading != d.level && Elapsed(now, d.changedAt) > DebounceMs
  }

  /** The memory after one poll: the reading and the time when it fires, unchanged otherwise. */
  function Polled(d: Debouncer, reading: Level, now: u32): (next: Debouncer)
    ensures next != d <==> Fires(d, reading, now)
    ensures next.level == reading || next == d
    ensures Fires(d, reading, now) ==> next == Debouncer(reading, now)
  {
    if Fires(d, reading, now) then Debouncer(reading, now) else d
  }

  /** A reed switch shorts to ground when the door is closed. */
  function ReedPayload(level: Level): (s: string)
    ensures s == "CLOSED" <==> level == Low
    ensures s == "CLOSED" || s == "OPEN"
  {
    if level == Low then "CLOSED" else "OPEN"
  }

  function PirPayload(level: Level): (s: string)
    ensures s == "MOTION" <==> level == High
    ensures s == "MOTION" || s == "CLEAR"
  {
    if level == High then "MOTION" else "CLEAR"
  }

  /** What one poll of an input publishes. */
  function Edge(d: Debouncer, reading: Level, now: u32, topic: string, payload: string): (out: seq<Publish>)
    ensures |out| <= 1
    ensures out != [] <==> Fires(d, reading, now)
    ensures out != [] ==> out[0] == Publish(topic, payload)
  {
    if Fires(d, reading, now) then [Publish(topic, payload)] else []
  }

  /** What the climate block publishes: nothing unless the gate is open and the sensor read succeeds. */
  function ClimateOut(lastPublish: u32, now: u32, climate: Option<string>): (out: seq<Publish>)
    ensures |out| <= 1
    ensures out != [] <==> ClimateDue(lastPublish, now) && climate.Some?
    ensures out != [] ==> out[0] == Publish(TempHumTopic, climate.value)
  {
    if ClimateDue(lastPublish, now) && climate.Some? then [Publish(TempHumTopic, climate.value)] else []
  }

  predicate DeviceTopic(topic: string)
  {
    topic == TempHumTopic || topic == Door1Topic || topic == Door2Topic || topic == MotionTopic
  }

  /** The globals of main.cpp and the messages handed to `mqttPublish` so far. */
  class Device {
    var lastTempHumPublish: u32
    var lastDoor1Change: u32
    var lastDoor2Change: u32
    var lastPirChange: u32
    var lastDoor1State: Level
    var lastDoor2State: Level
    var lastPirState: Level
    var published: seq<Publish>

    ghost predicate Valid()
      reads this
    {
      forall i :: 0 <= i < |published| ==> DeviceTopic(published[i].topic)
    }

    function Door1(): Debouncer reads this { Debouncer(lastDoor1State, lastDoor1Change) }
    function Door2(): Debouncer reads this { Debouncer(lastDoor2State, lastDoor2Change) }
    function Pir(): Debouncer reads this { Debouncer(lastPirState, lastPirChange) }

    /** The initial values of the globals: doors read open (pull-up), no motion. */
    constructor ()
      ensures Valid() && published == []
      ensures lastTempHumPublish == 0
      ensures Door1() == Debouncer(High, 0) && Door2() == Debouncer(High, 0) && Pir() == Debouncer(Low, 0)
    {
      lastTempHumPublish := 0;
      lastDoor1Change, lastDoor2Change, lastPirChange := 0, 0, 0;
      lastDoor1State, lastDoor2State, lastPirState := High, High, Low;
      published := [];
    }

    /**
     * One pass of `loop()` at time `now` with the three pin readings and the
     * DHT11 result that would be read (None when it reads NaN). The gate
     * timestamp advances whenever the gate opens, even if the read fails.
     */
    method Loop(now: u32, door1: Level, door2: Level, pir: Level, climate: Option<string>)
      requires Valid()
      modifies this
      ensures Valid()
      ensures lastTempHumPublish == if ClimateDue(old(lastTempHumPublish), now) then now else old(lastTempHumPublish)
      ensures Door1() == Polled(old(Door1()), door1, now)
      ensures Door2() == Polled(old(Door2()), door2, now)
      ensures Pir() == Polled(old(Pir()), pir, now)
      ensures published == old(published)
        + ClimateOut(old(lastTempHumPublish), now, climate)
        + Edge(old(Door1()), door1, now, Door1Topic, ReedPayload(door1))
        + Edge(old(Door2()), door2, now, Door2Topic, ReedPayload(door2))
        + Edge(old(Pir()), pir, now, MotionTopic, PirPayload(pir))
    {
      if Elapsed(now, lastTempHumPublish) > TempHumIntervalMs {
        lastTempHumPublish := now;
        if climate.Some? {
          published := published + [Publish(TempHumTopic, climate.value)];
        }
      }
      PollDoor1(now, door1);
      PollDoor2(now, door2);
      PollPir(now, pir);
    }

    method PollDoor1(now: u32, door1State: Level)
      requires Valid()
      modifies this`lastDoor1Change, this`lastDoor1State, this`published
      ensures Valid()
      ensures Door1() == Polled(old(Door1()), door1State, now)
      ensures published == old(published) + Edge(old(Door1()), door1State, now, Door1Topic, ReedPayload(door1State))
    {
      if door1State != lastDoor1State && Elapsed(now, lastDoor1Change) > DebounceMs {
        lastDoor1Change := now;
        lastDoor1State := door1State;
        var stateStr := if door1State == Low then "CLOSED" else "OPEN";
        published := published + [Publish(Door1Topic, stateStr)];
      }
    }

    method PollDoor2(now: u32, door2State: Level)
      requires Valid()
      modifies this`lastDoor2Change, this`lastDoor2State, this`published
      ensures Valid()
      ensures Door2() == Polled(old(Door2()), door2State, now)
      ensures published == old(published) + Edge(old(Door2()), door2State, now, Door2Topic, ReedPayload(door2State))
    {
      if door2State != lastDoor2State && Elapsed(now, lastDoor2Change) > DebounceMs {
        lastDoor2Change := now;
        lastDoor2State := door2State;
        var stateStr := if door2State == Low then "CLOSED" else "OPEN";
        published := published + [Publish(Door2Topic, stateStr)];
      }
    }

    method PollPir(now: u32, pirState: Level)
      requires Valid()
      modifies this`lastPirChange, this`lastPirState, this`published
      ensures Valid()
      ensures Pir() == Polled(old(Pir()), pirState, now)
      ensures published == old(published) + Edge(old(Pir()), pirState, now, MotionTopic, PirPayload(pirState))
    {
      if pirState != lastPirState && Elapsed(now, lastPirChange) > DebounceMs {
        lastPirChange := now;
        lastPirState := pirState;
        var stateStr := if pirState == High then "MOTION" else "CLEAR";
        published := published + [Publish(MotionTopic, stateStr)];
      }
    }
  }

  // ---------------------------------------------------------------------------
  // Properties of the timing logic

  /**
   * The difference is taken modulo 2^32, so it is the time that really
   * passed (below 2^32 ms) even when `millis()` wrapped in between; both
   * gates therefore keep working across the 49.7-day wrap.
   */
  lemma ElapsedAcrossWrap(since: u32, d: int)
    requires 0 <= d < 0x1_0000_0000
    ensures var now := ((since as int + d) % 0x1_0000_0000) as u32;
      && Elapsed(now, since) as int == d
      && (ClimateDue(since, now) <==> d > TempHumIntervalMs as int)
      && forall level, reading :: Fires(Debouncer(level, since), reading, now) <==> reading != level && d > DebounceMs as int
  {
  }

  /** Once published, the same level is not published again, however much later it is read. */
  lemma NoRepeatOfSameLevel(d: Debouncer, reading: Level, now: u32, later: u32)
    requires Fires(d, reading, now)
    ensures !Fires(Polled(d, reading, now), reading, later)
  {
  }

  /**
   * A level change within 50 ms of the last publish is not remembered by this
   * poll; a level that persists is published on the first poll after the window.
   */
  lemma BounceSuppressed(d: Debouncer, reading: Level, now: u32)
    requires Elapsed(now, d.changedAt) <= DebounceMs
    ensures Polled(d, reading, now) == d
  {
  }

  // ---------------------------------------------------------------------------
  // The backend accepts every topic the device publishes

  /** Each device topic carries the routed prefix the backend expects and a non-empty id segment. */
  lemma DeviceTopicsRouted(topic: string)
    requires DeviceTopic(topic)
    ensures Topics.Classify(topic) == (if topic == TempHumTopic then Topics.StatusTopic else Topics.AlertTopic)
    ensures topic == TempHumTopic ==> Topics.ThirdSegment(topic) == Some("esp32_1")
    ensures topic == Door1Topic ==> Topics.ThirdSegment(topic) == Some("door1")
    ensures topic == Door2Topic ==> Topics.ThirdSegment(topic) == Some("door2")
    ensures topic == MotionTopic ==> Topics.ThirdSegment(topic) == Some("motion1")
  {
    Topics.PrefixesExclusive(topic);
    if topic == TempHumTopic {
      assert topic == Topics.StatusPrefix + "esp32_1";
      Topics.RoutedIdentifier(Topics.StatusPrefix, "esp32_1", "");
    } else if topic == Door1Topic {
      assert topic == Topics.AlertPrefix + "door1";
      Topics.RoutedIdentifier(Topics.AlertPrefix, "door1", "");
    } else if topic == Door2Topic {
      assert topic == Topics.AlertPrefix + "door2";
      Topics.RoutedIdentifier(Topics.AlertPrefix, "door2", "");
    } else {
      assert topic == Topics.AlertPrefix + "motion1";
      Topics.RoutedIdentifier(Topics.AlertPrefix, "motion1", "");
    }
  }

  /** Everything a device has published so far reaches a status or alert handler with an id. */
  lemma PublishedRoutable(dev: Device, i: int)
    requires dev.Valid() && 0 <= i < |dev.published|
    ensures Topics.Classify(dev.published[i].topic) != Topics.OtherTopic
    ensures Topics.ThirdSegment(dev.published[i].topic).Some?
    ensures Topics.ThirdSegment(dev.published[i].topic).value != []
  {
    DeviceTopicsRouted(dev.published[i].topic);
  }
}
