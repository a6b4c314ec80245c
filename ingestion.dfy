/**
 * The backend's MQTT ingestion (`MqttService.handleMessage`): a status
 * message upserts the latest reading of one device, an alert message
 * appends one event to the log, each success is broadcast on a WebSocket
 * destination, and every exception is caught and logged.
 *
 * The repositories and the broadcaster are the fields `store`, `log` and
 * `sent` of class `MqttService`. Their failures, the clock and the JSON
 * parser are inputs (`Env`). The value-level functions `StatusStep`,
 * `AlertStep` and `Dispatch` specify the class's methods, and the lemmas
 * below them state what one message or two messages in a row do.
 */
module Ingestion {
  import opened Wrappers
  import opened Topics

  /** `LocalDateTime.now()`, as an instant supplied by the caller. */
  type Timestamp = int

  /** A temperature or humidity value as Jackson's `asDouble` returns it; never computed on. */
  type Reading = real

  /** The `Status` entity: one row per device id, every field nullable in Java. */
  datatype Status = Status(id: string, temperature: Option<Reading>, humidity: Option<Reading>, lastUpdated: Option<Timestamp>)

  /** `new Status()`: no field set yet (the null id is written as ""; it is overwritten before use). */
  const BlankStatus: Status := Status("", None, None, None)

  /** The `Event` entity: an id assigned by the database when inserted, and the time of construction. */
  datatype Event = Event(id: nat, eventType: string, sensor: string, payload: string, timestamp: Timestamp)

  /** What `convertAndSend` carries, and where to. */
  datatype Body = StatusBody(status: Status) | EventBody(event: Event)
  datatype Broadcast = Broadcast(destination: string, body: Body)

  const StatusDestination: string := "/topic/status"
  const AlertDestination: string := "/topic/alerts"

  /** What `objectMapper.readTree` gives: it throws, or a tree whose `temp`/`hum` members may be missing. */
  datatype Json = NotJson | JsonTree(temp: Option<Reading>, hum: Option<Reading>)

  /**
   * Everything outside the service for one message: the clock, the JSON
   * parser, and whether `findById`, `save` or `convertAndSend` throws.
   */
  datatype Env = Env(now: Timestamp, readTree: string -> Json, findFails: bool, saveFails: bool, sendFails: bool)

  /** The exceptions `handleMessage` catches and logs. */
  datatype ErrorKind =
    | PayloadDecodeError  // readTree throws, or json.get("temp"/"hum") is null
    | MalformedTopic      // split("/")[2] is out of bounds
    | StorageError        // findById or save throws
    | BroadcastError      // convertAndSend throws (after the save)

  /** What became of one message: handled, not addressed to the service, or an exception was logged. */
  datatype Report = Handled | Ignored | Logged(error: ErrorKind)

  /** The three stores and the identity counter of the events table. */
  datatype Backend = Backend(store: map<string, Status>, log: seq<Event>, sent: seq<Broadcast>, nextEventId: nat)

  /** Every row is keyed by its own id and fully written; event ids increase and stay below the counter. */
  ghost predicate Consistent(b: Backend)
  {
    && (forall k :: k in b.store ==> Complete(b.store[k], k))
    && (forall i :: 0 <= i < |b.log| ==> b.log[i].id < b.nextEventId)
    && (forall i, j :: 0 <= i < j < |b.log| ==> b.log[i].id < b.log[j].id)
  }

  predicate Complete(s: Status, id: string)
  {
    s.id == id && s.temperature.Some? && s.humidity.Some? && s.lastUpdated.Some?
  }

  /** The setters of `handleStatus`: the result does not depend on the prior row at all. */
  function Upserted(prior: Status, id: string, temp: Reading, hum: Reading, now: Timestamp): (s: Status)
    ensures s == Status(id, Some(temp), Some(hum), Some(now))
  {
    prior.(id := id).(temperature := Some(temp)).(humidity := Some(hum)).(lastUpdated := Some(now))
  }

  /** A status message gets through parsing, splitting, reading and saving. */
  predicate StatusSaves(topic: string, payload: string, env: Env)
  {
    && env.readTree(payload).JsonTree?
    && env.readTree(payload).temp.Some?
    && env.readTree(payload).hum.Some?
    && ThirdSegment(topic).Some?
    && !env.findFails
    && !env.saveFails
  }

  /** The row such a message saves: its id segment, its two readings and the time of handling. */
  function SavedRow(topic: string, payload: string, env: Env): Status
    requires StatusSaves(topic, payload, env)
  {
    var json := env.readTree(payload);
    Status(ThirdSegment(topic).value, json.temp, json.hum, Some(env.now))
  }

  /** An alert gets through splitting and saving. */
  predicate AlertSaves(topic: string, env: Env)
  {
    ThirdSegment(topic).Some? && !env.saveFails
  }

  /** The event such an alert appends: the next id, type and payload both the payload, the sensor segment. */
  function AppendedEvent(b: Backend, topic: string, payload: string, env: Env): Event
    requires AlertSaves(topic, env)
  {
    Event(b.nextEventId, payload, ThirdSegment(topic).value, payload, env.now)
  }

  /**
   * `handleStatus`: the state afterwards and the exception thrown, if any.
   * A message that is not saved changes nothing; a saved one upserts its
   * row and is broadcast unless the broadcast itself throws.
   */
  function StatusStep(b: Backend, topic: string, payload: string, env: Env): (r: (Backend, Option<ErrorKind>))
    ensures r.0.log == b.log && r.0.nextEventId == b.nextEventId
    ensures !StatusSaves(topic, payload, env) ==> r.0 == b && r.1.Some? && r.1 != Some(BroadcastError)
    ensures StatusSaves(topic, payload, env) ==>
      var row := SavedRow(topic, payload, env);
      && r.0.store == b.store[row.id := row]
      && r.1 == (if env.sendFails then Some(BroadcastError) else None)
      && r.0.sent == (if env.sendFails then b.sent else b.sent + [Broadcast(StatusDestination, StatusBody(row))])
  {
    match env.readTree(payload)
    case NotJson => (b, Some(PayloadDecodeError))
    case JsonTree(temp, hum) =>
      match ThirdSegment(topic)
      case None => (b, Some(MalformedTopic))
      case Some(deviceId) =>
        if env.findFails then (b, Some(StorageError))
        else if temp.None? || hum.None? then (b, Some(PayloadDecodeError))
        else
          var prior := if deviceId in b.store then b.store[deviceId] else BlankStatus;
          var status := Upserted(prior, deviceId, temp.value, hum.value, env.now);
          if env.saveFails then (b, Some(StorageError))
          else
            var saved := b.(store := b.store[deviceId := status]);
            if env.sendFails then (saved, Some(BroadcastError))
            else (saved.(sent := b.sent + [Broadcast(StatusDestination, StatusBody(status))]), None)
  }

  /**
   * `handleAlert`: the state afterwards and the exception thrown, if any.
   * An alert that is not saved changes nothing; a saved one appends its
   * event and is broadcast unless the broadcast itself throws.
   */
  function AlertStep(b: Backend, topic: string, payload: string, env: Env): (r: (Backend, Option<ErrorKind>))
    ensures r.0.store == b.store
    ensures !AlertSaves(topic, env) ==> r.0 == b && r.1.Some? && r.1 != Some(BroadcastError)
    ensures AlertSaves(topic, env) ==>
      var event := AppendedEvent(b, topic, payload, env);
      && r.0.log == b.log + [event]
      && r.0.nextEventId == b.nextEventId + 1
      && r.1 == (if env.sendFails then Some(BroadcastError) else None)
      && r.0.sent == (if env.sendFails then b.sent else b.sent + [Broadcast(AlertDestination, EventBody(event))])
  {
    match ThirdSegment(topic)
    case None => (b, Some(MalformedTopic))
    case Some(sensor) =>
      if env.saveFails then (b, Some(StorageError))
      else
        var event := Event(b.nextEventId, payload, sensor, payload, env.now);
        var saved := b.(log := b.log + [event], nextEventId := b.nextEventId + 1);
        if env.sendFails then (saved, Some(BroadcastError))
        else (saved.(sent := b.sent + [Broadcast(AlertDestination, EventBody(event))]), None)
  }

  /** The catch-all of `handleMessage`: an exception becomes a logged report. */
  function Caught(r: (Backend, Option<ErrorKind>)): (c: (Backend, Report))
    ensures c.0 == r.0 && c.1 != Ignored
    ensures c.1 == Handled <==> r.1 == None
    ensures r.1.Some? ==> c.1 == Logged(r.1.value)
  {
    match r.1
    case None => (r.0, Handled)
    case Some(e) => (r.0, Logged(e))
  }

  /**
   * `handleMessage`. Whatever the message, the log and the broadcasts only
   * grow, by at most one entry each; a broadcast is made exactly when the
   * message is handled; no row is ever removed; and consistency is kept.
   */
  function Dispatch(b: Backend, topic: string, payload: string, env: Env): (r: (Backend, Report))
    ensures Classify(topic) == OtherTopic ==> r == (b, Ignored)
    ensures b.log <= r.0.log && |r.0.log| <= |b.log| + 1
    ensures b.sent <= r.0.sent && |r.0.sent| <= |b.sent| + 1
    ensures |r.0.sent| == |b.sent| + 1 <==> r.1 == Handled
    ensures b.store.Keys <= r.0.store.Keys && |r.0.store.Keys - b.store.Keys| <= 1
    ensures Consistent(b) ==> Consistent(r.0)
  {
    if StartsWith(topic, StatusPrefix) then
      var r := StatusStep(b, topic, payload, env);
      assert StatusSaves(topic, payload, env) ==> r.0.store.Keys - b.store.Keys <= {SavedRow(topic, payload, env).id};
      Caught(r)
    else if StartsWith(topic, AlertPrefix) then Caught(AlertStep(b, topic, payload, env))
    else (b, Ignored)
  }

  // ---------------------------------------------------------------------------
  // The service object

  class MqttService {
    var store: map<string, Status>
    var log: seq<Event>
    var sent: seq<Broadcast>
    var nextEventId: nat

    function State(): Backend
      reads this
    {
      Backend(store, log, sent, nextEventId)
    }

    ghost predicate Valid()
      reads this
    {
      Consistent(State())
    }

    /**
     * The service over repositories that already hold `persisted` (an empty
     * database is `Backend(map[], [], [], 1)`); nothing has been broadcast yet.
     */
    constructor (persisted: Backend)
      requires Consistent(persisted) && persisted.sent == []
      ensures Valid()
      ensures State() == persisted
    {
      store, log, sent, nextEventId := persisted.store, persisted.log, [], persisted.nextEventId;
    }

    /** Never throws: every message leaves the service valid and ready for the next one. */
    method HandleMessage(topic: string, payload: string, env: Env) returns (report: Report)
      requires Valid()
      modifies this
      ensures Valid()
      ensures (State(), report) == Dispatch(old(State()), topic, payload, env)
    {
      if StartsWith(topic, StatusPrefix) {
        var failure := HandleStatus(topic, payload, env);
        report := if failure.Some? then Logged(failure.value) else Handled;
      } else if StartsWith(topic, AlertPrefix) {
        var failure := HandleAlert(topic, payload, env);
        report := if failure.Some? then Logged(failure.value) else Handled;
      } else {
        report := Ignored;
      }
    }

    method HandleStatus(topic: string, payload: string, env: Env) returns (failure: Option<ErrorKind>)
      modifies this
      ensures (State(), failure) == StatusStep(old(State()), topic, payload, env)
    {
      var json := env.readTree(payload);
      if json.NotJson? {
        return Some(PayloadDecodeError);
      }
      var segment := ThirdSegment(topic);
      if segment.None? {
        return Some(MalformedTopic);
      }
      var deviceId := segment.value;
      if env.findFails {
        return Some(StorageError);
      }
      var status := if deviceId in store then store[deviceId] else BlankStatus;
      status := status.(id := deviceId);
      if json.temp.None? {
        return Some(PayloadDecodeError);
      }
      status := status.(temperature := json.temp);
      if json.hum.None? {
        return Some(PayloadDecodeError);
      }
      status := status.(humidity := json.hum);
      status := status.(lastUpdated := Some(env.now));
      if env.saveFails {
        return Some(StorageError);
      }
      store := store[deviceId := status];
      if env.sendFails {
        return Some(BroadcastError);
      }
      sent := sent + [Broadcast(StatusDestination, StatusBody(status))];
      failure := None;
    }

    method HandleAlert(topic: string, payload: string, env: Env) returns (failure: Option<ErrorKind>)
      modifies this
      ensures (State(), failure) == AlertStep(old(State()), topic, payload, env)
    {
      var segment := ThirdSegment(topic);
      if segment.None? {
        return Some(MalformedTopic);
      }
      var sensor := segment.value;
      var event := Event(0, payload, sensor, payload, env.now);
      if env.saveFails {
        return Some(StorageError);
      }
      event := event.(id := nextEventId);
      log := log + [event];
      nextEventId := nextEventId + 1;
      if env.sendFails {
        return Some(BroadcastError);
      }
      sent := sent + [Broadcast(AlertDestination, EventBody(event))];
      failure := None;
    }
  }

  // ---------------------------------------------------------------------------
  // What one message does

  /** A status message that is saved maps its id to `(temp, hum, now)`, keeps every other key and broadcasts that row. */
  lemma StatusUpsert(b: Backend, topic: string, payload: string, env: Env)
    requires StartsWith(topic, StatusPrefix)
    requires env.readTree(payload).JsonTree? && env.readTree(payload).temp.Some? && env.readTree(payload).hum.Some?
    requires ThirdSegment(topic).Some?
    requires !env.findFails && !env.saveFails && !env.sendFails
    ensures var id := ThirdSegment(topic).value;
      var json := env.readTree(payload);
      var saved := Status(id, json.temp, json.hum, Some(env.now));
      var r := Dispatch(b, topic, payload, env);
      && r.1 == Handled
      && r.0.store == b.store[id := saved]
      && (forall k :: k != id && k in b.store ==> k in r.0.store && r.0.store[k] == b.store[k])
      && r.0.log == b.log
      && r.0.sent == b.sent + [Broadcast(StatusDestination, StatusBody(saved))]
  {
  }

  /**
   * A status message that is not JSON, lacks `temp` or `hum`, has no id
   * segment, or whose read or save fails changes nothing and broadcasts
   * nothing; only a failing broadcast leaves the saved row in place. The
   * exception logged is the first one the statements raise, in order:
   * parse, split, find, member access, save, broadcast.
   */
  lemma StatusFailure(b: Backend, topic: string, payload: string, env: Env)
    requires StartsWith(topic, StatusPrefix)
    ensures var json := env.readTree(payload);
      var r := Dispatch(b, topic, payload, env);
      && (json.NotJson? || json.temp.None? || json.hum.None? || ThirdSegment(topic).None?
            || env.findFails || env.saveFails
          ==> r.0 == b && r.1.Logged? && r.1.error != BroadcastError)
      && (json.NotJson? ==> r.1 == Logged(PayloadDecodeError))
      && (json.JsonTree? && ThirdSegment(topic).None? ==> r.1 == Logged(MalformedTopic))
      && (json.JsonTree? && ThirdSegment(topic).Some? && env.findFails ==> r.1 == Logged(StorageError))
      && (json.JsonTree? && ThirdSegment(topic).Some? && !env.findFails && (json.temp.None? || json.hum.None?)
          ==> r.1 == Logged(PayloadDecodeError))
      && (json.JsonTree? && ThirdSegment(topic).Some? && !env.findFails && json.temp.Some? && json.hum.Some? && env.saveFails
          ==> r.1 == Logged(StorageError))
      && (r.1 == Logged(BroadcastError) ==>
            && StatusSaves(topic, payload, env)
            && r.0.store == b.store[SavedRow(topic, payload, env).id := SavedRow(topic, payload, env)]
            && r.0 == b.(store := r.0.store)
            && r.0.sent == b.sent)
  {
  }

  /** An alert appends one event whose type and payload are both the payload, and broadcasts it. */
  lemma AlertAppend(b: Backend, topic: string, payload: string, env: Env)
    requires StartsWith(topic, AlertPrefix)
    requires ThirdSegment(topic).Some?
    requires !env.saveFails && !env.sendFails
    ensures var event := Event(b.nextEventId, payload, ThirdSegment(topic).value, payload, env.now);
      var r := Dispatch(b, topic, payload, env);
      && r.1 == Handled
      && r.0.log == b.log + [event]
      && r.0.store == b.store
      && r.0.sent == b.sent + [Broadcast(AlertDestination, EventBody(event))]
  {
    PrefixesExclusive(topic);
  }

  /**
   * An alert without an id segment or whose save fails changes nothing and
   * is logged with that exception; a failing broadcast keeps the appended
   * event and sends nothing.
   */
  lemma AlertFailure(b: Backend, topic: string, payload: string, env: Env)
    requires StartsWith(topic, AlertPrefix)
    ensures var r := Dispatch(b, topic, payload, env);
      && (ThirdSegment(topic).None? ==> r == (b, Logged(MalformedTopic)))
      && (ThirdSegment(topic).Some? && env.saveFails ==> r == (b, Logged(StorageError)))
      && (ThirdSegment(topic).Some? && !env.saveFails && env.sendFails ==>
            && r.1 == Logged(BroadcastError)
            && r.0 == b.(log := b.log + [AppendedEvent(b, topic, payload, env)], nextEventId := b.nextEventId + 1))
  {
    PrefixesExclusive(topic);
  }

  /**
   * A routed topic with nothing but slashes after the prefix changes nothing
   * and is logged as malformed, unless it is a status topic whose payload
   * does not parse: `readTree` runs before the split.
   */
  lemma MissingSegment(b: Backend, topic: string, payload: string, env: Env)
    requires StartsWith(topic, StatusPrefix) || StartsWith(topic, AlertPrefix)
    requires forall i :: |StatusPrefix| <= i < |topic| ==> topic[i] == Slash
    ensures var r := Dispatch(b, topic, payload, env);
      && r.0 == b && r.1.Logged?
      && (StartsWith(topic, AlertPrefix) || env.readTree(payload).JsonTree? ==> r.1 == Logged(MalformedTopic))
      && (StartsWith(topic, StatusPrefix) && env.readTree(payload).NotJson? ==> r.1 == Logged(PayloadDecodeError))
  {
    PrefixesExclusive(topic);
    ThirdSegmentAfterPrefix(topic);
    var rest := topic[|StatusPrefix|..];
    assert forall i :: 0 <= i < |rest| ==> rest[i] == topic[i + |StatusPrefix|];
  }

  // ---------------------------------------------------------------------------
  // What two messages in a row do

  /**
   * Last write wins: once a status message for a device is saved, that
   * device's row is exactly what this message alone would have written,
   * whatever an earlier message for the device did or what was there
   * before; this holds even when the broadcast of the second message throws.
   */
  lemma LastWriteWins(b: Backend, topic1: string, payload1: string, env1: Env,
                      topic2: string, payload2: string, env2: Env)
    requires StartsWith(topic1, StatusPrefix) && StartsWith(topic2, StatusPrefix)
    requires ThirdSegment(topic1) == ThirdSegment(topic2)
    requires StatusSaves(topic2, payload2, env2)
    ensures ThirdSegment(topic2).Some?
    ensures var id := ThirdSegment(topic2).value;
      var after := Dispatch(Dispatch(b, topic1, payload1, env1).0, topic2, payload2, env2).0;
      && id in after.store
      && after.store[id] == Dispatch(b, topic2, payload2, env2).0.store[id]
      && after.store[id] == SavedRow(topic2, payload2, env2)
  {
    var mid := Dispatch(b, topic1, payload1, env1).0;
    assert Dispatch(mid, topic2, payload2, env2) == Caught(StatusStep(mid, topic2, payload2, env2));
    assert Dispatch(b, topic2, payload2, env2) == Caught(StatusStep(b, topic2, payload2, env2));
  }

  /**
   * Alerts are not deduplicated: the same alert delivered twice gives two
   * entries with distinct ids, equal in everything but id and timestamp.
   */
  lemma AlertsNotDeduplicated(b: Backend, topic: string, payload: string, env1: Env, env2: Env)
    requires StartsWith(topic, AlertPrefix) && ThirdSegment(topic).Some?
    requires !env1.saveFails && !env2.saveFails
    ensures var twice := Dispatch(Dispatch(b, topic, payload, env1).0, topic, payload, env2).0;
      && |twice.log| == |b.log| + 2
      && twice.log[..|b.log|] == b.log
      && twice.log[|b.log|].id != twice.log[|b.log| + 1].id
      && twice.log[|b.log|].(id := 0, timestamp := 0) == twice.log[|b.log| + 1].(id := 0, timestamp := 0)
  {
    PrefixesExclusive(topic);
  }
}
