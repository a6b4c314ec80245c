/**
 * The dashboard's pure logic (App.tsx): the list updaters run on each
 * WebSocket message, the event-to-camera mapping and the event-type badge.
 * Case conversion is ASCII only.
 */
module Dashboard {
  import opened Wrappers

  /** The `Status` interface as received on `/topic/status`. */
  datatype StatusItem = StatusItem(id: string, temperature: Option<real>, humidity: Option<real>, lastUpdated: Option<string>)

  /** The `EventItem` interface as received on `/topic/alerts`; every field may be undefined. */
  datatype EventItem = EventItem(id: Option<int>, eventType: Option<string>, sensor: Option<string>,
                                 payload: Option<string>, timestamp: Option<string>)

  /** How many events the list keeps. */
  const MaxEvents: nat := 50

  // ---------------------------------------------------------------------------
  // The `/topic/status` updater

  /** `prev.findIndex((s) => s.id === id)`: the first index with that id, or -1. */
  function FindIndex(list: seq<StatusItem>, id: string): (i: int)
    ensures -1 <= i < |list|
    ensures 0 <= i ==> list[i].id == id && forall j :: 0 <= j < i ==> list[j].id != id
    ensures i == -1 <==> forall j :: 0 <= j < |list| ==> list[j].id != id
  {
    if list == [] then -1
    else if list[0].id == id then 0
    else
      var k := FindIndex(list[1..], id);
      if k < 0 then -1 else k + 1
  }

  /** Replace the first entry with the same id, or append at the end. */
  function UpsertStatus(prev: seq<StatusItem>, body: StatusItem): (next: seq<StatusItem>)
    ensures (exists j :: 0 <= j < |prev| && prev[j].id == body.id) ==>
      var i := FindIndex(prev, body.id);
      && |next| == |prev|
      && next[i] == body
      && forall j :: 0 <= j < |prev| && j != i ==> next[j] == prev[j]
    ensures (forall j :: 0 <= j < |prev| ==> prev[j].id != body.id) ==> next == prev + [body]
  {
    var idx := FindIndex(prev, body.id);
    if idx >= 0 then prev[idx := body] else prev + [body]
  }

  predicate UniqueIds(list: seq<StatusItem>)
  {
    forall i, j :: 0 <= i < j < |list| ==> list[i].id != list[j].id
  }

  /** Ids unique before stay unique after, and the new record is the one entry with its id. */
  lemma UpsertKeepsIdsUnique(prev: seq<StatusItem>, body: StatusItem)
    requires UniqueIds(prev)
    ensures var next := UpsertStatus(prev, body);
      && UniqueIds(next)
      && exists i :: 0 <= i < |next| && next[i] == body
  {
    var next := UpsertStatus(prev, body);
    var idx := FindIndex(prev, body.id);
    if idx >= 0 {
      assert next[idx] == body;
    } else {
      assert next[|prev|] == body;
    }
  }

  /** Receiving the same status twice gives the same list as receiving it once. */
  lemma UpsertIdempotent(prev: seq<StatusItem>, body: StatusItem)
    ensures UpsertStatus(UpsertStatus(prev, body), body) == UpsertStatus(prev, body)
  {
    var once := UpsertStatus(prev, body);
    var i := FindIndex(prev, body.id);
    if i >= 0 {
      assert FindIndex(once, body.id) == i;
    } else {
      assert once[|prev|] == body;
      assert FindIndex(once, body.id) == |prev|;
    }
  }

  // ---------------------------------------------------------------------------
  // The `/topic/alerts` updater

  /** `[body, ...prev].slice(0, 50)`. */
  function PrependEvent(prev: seq<EventItem>, body: EventItem): (next: seq<EventItem>)
    ensures |next| == if |prev| + 1 < MaxEvents then |prev| + 1 else MaxEvents
    ensures next[0] == body
    ensures next[1..] == prev[..|next| - 1]
  {
    var all := [body] + prev;
    all[..if |all| < MaxEvents then |all| else MaxEvents]
  }

  /** Events arriving one after another appear newest first, the oldest falling off past 50. */
  lemma LatestEventsFirst(prev: seq<EventItem>, first: EventItem, second: EventItem)
    ensures var all := [second, first] + prev;
      PrependEvent(PrependEvent(prev, first), second) == all[..if |all| < MaxEvents then |all| else MaxEvents]
  {
    var once := PrependEvent(prev, first);
    var all := [second, first] + prev;
    assert once == all[1..][..|once|];
  }

  // ---------------------------------------------------------------------------
  // ASCII case conversion (`toLowerCase`, `toUpperCase`)

  function LowerChar(c: char): char
  {
    if 'A' <= c <= 'Z' then (c as int + 32) as char else c
  }

  function UpperChar(c: char): char
  {
    if 'a' <= c <= 'z' then (c as int - 32) as char else c
  }

  function Lower(s: string): (r: string)
    ensures |r| == |s| && forall i :: 0 <= i < |s| ==> r[i] == LowerChar(s[i])
  {
    if s == [] then [] else [LowerChar(s[0])] + Lower(s[1..])
  }

  function Upper(s: string): (r: string)
    ensures |r| == |s| && forall i :: 0 <= i < |s| ==> r[i] == UpperChar(s[i])
  {
    if s == [] then [] else [UpperChar(s[0])] + Upper(s[1..])
  }

  /** Lower-casing forgets any earlier case change, and so does upper-casing. */
  lemma CaseNormalised(s: string)
    ensures Lower(Upper(s)) == Lower(s) && Lower(Lower(s)) == Lower(s)
    ensures Upper(Lower(s)) == Upper(s) && Upper(Upper(s)) == Upper(s)
  {
  }

  // ---------------------------------------------------------------------------
  // `handleCameraForEvent`

  datatype Camera = Room1 | Room2 | Room3 | Room4

  /** The camera an event makes blink, if any (the sensor is compared lower-cased, the type upper-cased). */
  function CameraFor(event: EventItem): (c: Option<Camera>)
    ensures c != Some(Room4)
    ensures c == Some(Room1) <==> Lower(event.sensor.GetOr("")) == "door1" && Upper(event.eventType.GetOr("")) == "OPEN"
    ensures c == Some(Room2) <==> Lower(event.sensor.GetOr("")) == "door2" && Upper(event.eventType.GetOr("")) == "OPEN"
    ensures c == Some(Room3) <==> Lower(event.sensor.GetOr("")) == "motion1" && Upper(event.eventType.GetOr("")) == "MOTION"
  {
    var sensor := Lower(event.sensor.GetOr(""));
    var kind := Upper(event.eventType.GetOr(""));
    if sensor == "door1" && kind == "OPEN" then Some(Room1)
    else if sensor == "motion1" && kind == "MOTION" then Some(Room3)
    else if sensor == "door2" && kind == "OPEN" then Some(Room2)
    else None
  }

  /** The mapping ignores case: two events whose sensor and type differ only in case pick the same camera. */
  lemma CameraIgnoresCase(e1: EventItem, e2: EventItem)
    requires Lower(e1.sensor.GetOr("")) == Lower(e2.sensor.GetOr(""))
    requires Upper(e1.eventType.GetOr("")) == Upper(e2.eventType.GetOr(""))
    ensures CameraFor(e1) == CameraFor(e2)
  {
  }

  /** In particular, upper-casing the sensor and lower-casing the type changes nothing. */
  lemma CameraIgnoresCaseChange(event: EventItem, sensor: string, kind: string)
    requires event.sensor == Some(sensor) && event.eventType == Some(kind)
    ensures CameraFor(event.(sensor := Some(Upper(sensor)), eventType := Some(Lower(kind)))) == CameraFor(event)
  {
    CaseNormalised(sensor);
    CaseNormalised(kind);
    CameraIgnoresCase(event.(sensor := Some(Upper(sensor)), eventType := Some(Lower(kind))), event);
  }

  // ---------------------------------------------------------------------------
  // `renderEventTypeBadge`

  datatype Badge = OpenBadge | ClosedBadge | MotionBadge | PlainBadge(text: string)

  /** The text the badge shows. */
  function Label(b: Badge): string
  {
    match b
    case OpenBadge => "OPEN"
    case ClosedBadge => "CLOSED"
    case MotionBadge => "MOTION"
    case PlainBadge(text) => text
  }

  /**
   * The three known types get their own badge; any other type is shown
   * upper-cased in a plain badge, and a missing or empty type as "EVENT".
   */
  function BadgeFor(event: EventItem): (b: Badge)
    ensures var kind := Upper(event.eventType.GetOr(""));
      && Label(b) == (if kind == "" then "EVENT" else kind)
      && (b.PlainBadge? <==> kind != "OPEN" && kind != "CLOSED" && kind != "MOTION")
  {
    var kind := Upper(event.eventType.GetOr(""));
    if kind == "OPEN" then OpenBadge
    else if kind == "CLOSED" then ClosedBadge
    else if kind == "MOTION" then MotionBadge
    else PlainBadge(if kind == "" then "EVENT" else kind)
  }
}
