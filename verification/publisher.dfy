/** The sensor publisher: one reader per configured sensor. A reader binds a node and a
    publisher, then waits for three kinds of event: a reconnect request from the log
    callback, cancellation, and its sample timer. Time is an integer count of
    milliseconds; every call into the library, the sensor or the retry loop is an
    input of the event that makes it. The retry loop's answer is `None` when it never
    returns: it ignores cancellation, so the reader is then stuck inside it for good. */
module Publisher {
  import opened Wrappers
  import opened Strings
  import opened Wire
  import opened Ros
  import Messages
  import PublisherConfig

  type SensorConfig = PublisherConfig.SensorConfig
  type ValueMap = map<string, Value>

  // ---------------------------------------------------------------------------
  // The log callback

  /** A log line that reports a failed dial to the master. */
  predicate IsDialError(msg: string) {
    Contains(msg, "got an error") && Contains(msg, "dial tcp")
  }

  datatype OnLogResult = OnLogResult(logged: Logged, reconnect: bool)

  /** Forward the line to the matching logger level, then request a reconnect on a dial
      error. A fatal line ends the process before the test is reached. */
  function OnLog(level: LogLevel, msg: string): (r: OnLogResult)
    ensures r.reconnect <==> !level.LevelFatal? && IsDialError(msg)
    ensures level.LevelFatal? ==> r.logged == Exited(msg)
    ensures level.LevelUnknown? ==> r.logged == UnknownLevelReported(level.code, msg)
    ensures !level.LevelFatal? && !level.LevelUnknown? ==> r.logged == LoggedAt(level, msg)
  {
    match level
    case LevelFatal => OnLogResult(Exited(msg), false)
    case LevelUnknown(code) => OnLogResult(UnknownLevelReported(code, msg), IsDialError(msg))
    case _ => OnLogResult(LoggedAt(level, msg), IsDialError(msg))
  }

  // ---------------------------------------------------------------------------
  // Reader state

  /** What a reader did, in order. `Stopped` is the reader's completion signal. A
      `Write` of `None` writes a nil message. */
  datatype Effect =
    | ClosePublisher(publisher: Publisher)
    | CloseNode(node: Node)
    | Write(publisher: Publisher, msg: Option<Typed>)
    | DroppedWithoutPublisher
    | ReadFailed(err: string)
    | ConvertFailed(error: Error)
    | TypeLookupFailed(error: Error)
    | PublisherCreateFailed(creation: PublisherCreation)
    | RateDefaulted
    | Stopped

  /** A reader. `timer` is the deadline of the sample timer, or `None` once the timer has
      fired and was not re-armed: it then never fires again. `lastReconnect` is when the
      reader started or when its last accepted reconnect finished. `blocked` marks a
      reader inside a retry loop that never returns. */
  datatype Reader = Reader(
    sensor: SensorConfig,
    primaryUri: string,
    host: string,
    publisher: Option<Publisher>,
    node: Option<Node>,
    lastReconnect: int,
    timer: Option<int>,
    running: bool,
    blocked: bool)

  datatype Stepped = Stepped(reader: Reader, effects: seq<Effect>)

  /** The publisher, then the node, each only if present. */
  function Teardown(publisher: Option<Publisher>, node: Option<Node>): (r: seq<Effect>)
    ensures |r| == (if publisher.Some? then 1 else 0) + (if node.Some? then 1 else 0)
    ensures publisher.Some? ==> r[0] == ClosePublisher(publisher.value)
    ensures node.Some? ==> r[|r| - 1] == CloseNode(node.value)
    ensures forall i | 0 <= i < |r| :: r[i].ClosePublisher? || r[i].CloseNode?
  {
    (if publisher.Some? then [ClosePublisher(publisher.value)] else [])
      + (if node.Some? then [CloseNode(node.value)] else [])
  }

  /** (Re)bind the reader: close the old publisher and drop it, close the old node, then
      wait for the retry loop. If it never returns (`None`) the reader is blocked, still
      referring to the closed node. Otherwise bind its node and create a publisher for
      the configured type; an unregistered type or a failed creation leaves the reader
      without a publisher, and is the only thing logged after the teardown. */
  function Connect(r: Reader, node: Option<Node>, creation: PublisherCreation): (c: Stepped)
    ensures c.reader.blocked <==> node.None?
    ensures node.Some? ==> c.reader.node == node
    ensures node.None? ==> c.reader.node == r.node && c.effects == Teardown(r.publisher, r.node)
    ensures c.reader.publisher.Some? <==>
      node.Some? && Messages.GetMessageType(r.sensor.typeName).Ok? && creation.PublisherCreated?
    ensures c.reader.publisher.Some? ==> c.reader.publisher.value == Publisher(r.sensor.topic, creation.handle)
    ensures |Teardown(r.publisher, r.node)| <= |c.effects| <= |Teardown(r.publisher, r.node)| + 1
    ensures c.effects[..|Teardown(r.publisher, r.node)|] == Teardown(r.publisher, r.node)
    ensures forall i | |Teardown(r.publisher, r.node)| <= i < |c.effects| ::
      c.effects[i].TypeLookupFailed? || c.effects[i].PublisherCreateFailed?
    ensures c.reader.(publisher := r.publisher, node := r.node, blocked := r.blocked) == r
  {
    var closing := Teardown(r.publisher, r.node);
    match node
    case None => Stepped(r.(publisher := None, blocked := true), closing)
    case Some(n) =>
      var bound := r.(publisher := None, node := Some(n), blocked := false);
      match Messages.GetMessageType(r.sensor.typeName)
      case Err(e) => Stepped(bound, closing + [TypeLookupFailed(e)])
      case Ok(_) =>
        match creation
        case PublisherCreated(h) => Stepped(bound.(publisher := Some(Publisher(r.sensor.topic, h))), closing)
        case _ => Stepped(bound, closing + [PublisherCreateFailed(creation)])
  }

  /** A sample rate of zero is replaced by one sample per second. */
  function EffectiveRate(rate: real): (r: real)
    ensures r != 0.0
    ensures rate == 0.0 ==> r == 1.0
    ensures rate != 0.0 ==> r == rate
  {
    if rate == 0.0 then 1.0 else rate
  }

  /** Conversion of a real to an integer, rounding toward zero. */
  function Truncate(x: real): int {
    if x >= 0.0 then x.Floor else -((-x).Floor)
  }

  const OneSecondNs: int := 1_000_000_000
  const OneMillisecondNs: int := 1_000_000
  const Int64Min: int := -0x8000_0000_0000_0000
  const Int64Max: int := 0x7FFF_FFFF_FFFF_FFFF

  /** Two's-complement wrap-around of an integer to 64 bits, as a Go `int64` product
      overflows. */
  function WrapInt64(x: int): (w: int)
    ensures Int64Min <= w <= Int64Max
    ensures (w - x) % 0x1_0000_0000_0000_0000 == 0
    ensures Int64Min <= x <= Int64Max ==> w == x
  {
    var m := x % 0x1_0000_0000_0000_0000;
    if m > Int64Max then m - 0x1_0000_0000_0000_0000 else m
  }

  /** Go's conversion of a float to `time.Duration`, an `int64`: toward zero when the
      result fits, and the value amd64 produces, the least `int64`, when it does not. */
  function DurationOf(x: real): (n: int)
    ensures Int64Min <= n <= Int64Max
    ensures Int64Min <= Truncate(x) <= Int64Max ==> n == Truncate(x)
  {
    var t := Truncate(x);
    if Int64Min <= t <= Int64Max then t else Int64Min
  }

  /** The first timer delay as written, in nanoseconds: `1 / rate` is converted to whole
      seconds before it is scaled, and the scaling is an `int64` product that wraps. */
  function FirstDelayNs(rate: real): int
    requires rate != 0.0
  {
    WrapInt64(DurationOf(1.0 / rate) * OneSecondNs)
  }

  /** The first timer delay on the millisecond clock: a timer armed with a delay of zero
      or less fires at once, and a positive delay is rounded up to whole milliseconds.
      Every rate above one sample per second gives zero, and a rate whose whole seconds
      keep the product within `int64` gives those seconds exactly. */
  function FirstDelayMs(rate: real): (d: int)
    requires rate != 0.0
    ensures d >= 0
    ensures rate >= 1.0 ==> d <= OneSecondMs
    ensures rate > 1.0 ==> d == 0
    ensures 0.0 < rate && Truncate(1.0 / rate) * OneSecondNs <= Int64Max ==> d == Truncate(1.0 / rate) * OneSecondMs
  {
    var q := 1.0 / rate;
    assert rate > 1.0 ==> 0.0 < q < 1.0;
    assert rate >= 1.0 ==> 0.0 < q <= 1.0;
    assert 0.0 < rate ==> 0.0 < q;
    var ns := FirstDelayNs(rate);
    if ns <= 0 then 0 else (ns + OneMillisecondNs - 1) / OneMillisecondNs
  }

  /** As written, a reader sampling once every 10^10 seconds asks for a first delay of
      10^19 nanoseconds; the `int64` product wraps to a negative duration, so the first
      tick fires at once rather than after some three centuries. */
  lemma FirstDelayWraps()
    ensures FirstDelayNs(1.0 / 10_000_000_000.0) == 10_000_000_000_000_000_000 - 0x1_0000_0000_0000_0000
    ensures FirstDelayMs(1.0 / 10_000_000_000.0) == 0
  {
    assert 1.0 / (1.0 / 10_000_000_000.0) == 10_000_000_000.0;
  }

  /** The reader as it enters its loop: bound by `Connect`, then the rate defaulted (the
      warning follows whatever `Connect` logged), the debounce clock started at `now`,
      and the timer armed with the first delay. A reader whose first retry never
      returns gets no further. */
  function Start(s: SensorConfig, primaryUri: string, host: string, node: Option<Node>, creation: PublisherCreation, now: int): (r: Stepped)
    ensures r.reader.running
    ensures r.reader.blocked <==> node.None?
    ensures node.None? ==> r.reader.publisher.None? && r.reader.timer.None? && r.effects == []
    ensures node.Some? ==>
      && r.reader.node == node
      && r.reader.sensor.sampleRate == EffectiveRate(s.sampleRate)
      && r.reader.lastReconnect == now
      && r.reader.timer == Some(now + FirstDelayMs(EffectiveRate(s.sampleRate)))
    ensures r.reader.publisher.Some? <==>
      node.Some? && Messages.GetMessageType(s.typeName).Ok? && creation.PublisherCreated?
  {
    var initial := Reader(s, primaryUri, host, None, None, now, None, true, false);
    var c := Connect(initial, node, creation);
    if c.reader.blocked then c
    else
      var rate := EffectiveRate(s.sampleRate);
      var warn := if s.sampleRate == 0.0 then [RateDefaulted] else [];
      Stepped(c.reader.(sensor := s.(sampleRate := rate), lastReconnect := now, timer := Some(now + FirstDelayMs(rate))),
              c.effects + warn)
  }

  /** What a starting reader logs: at most one connection failure, then the rate
      warning, which comes last and only when the rate was zero and the retry loop
      returned. */
  lemma {:induction false} StartWarnsLast(s: SensorConfig, primaryUri: string, host: string, node: Option<Node>,
                                          creation: PublisherCreation, now: int)
    ensures var r := Start(s, primaryUri, host, node, creation, now);
      && |r.effects| <= 2
      && ((node.Some? && s.sampleRate == 0.0) <==> |r.effects| > 0 && r.effects[|r.effects| - 1] == RateDefaulted)
      && forall i | 0 <= i < |r.effects| - 1 :: r.effects[i].TypeLookupFailed? || r.effects[i].PublisherCreateFailed?
  {
    var initial := Reader(s, primaryUri, host, None, None, now, None, true, false);
    var c := Connect(initial, node, creation);
    assert Teardown(None, None) == [];
    assert |c.effects| <= 1 && forall i | 0 <= i < |c.effects| :: !c.effects[i].RateDefaulted?;
  }

  // ---------------------------------------------------------------------------
  // Events

  datatype Event =
    /** A reconnect request taken from the queue at `at`; if accepted, the retry loop
        answers `node` and the reconnect finishes at `finishedAt`. */
    | ReconnectRequested(at: int, node: Option<Node>, creation: PublisherCreation, finishedAt: int)
    | Cancelled
    /** The sample timer fires at `at`, and the sensor answers `reading`; a nil readings
        map is `Ok(None)`. */
    | TimerFired(at: int, reading: Result<Option<ValueMap>, string>)

  /** A reader that is waiting in its loop, rather than stopped or stuck in a retry. */
  predicate Waiting(r: Reader) {
    r.running && !r.blocked
  }

  /** A reconnect request is acted on only a full second after the previous one finished. */
  predicate ReconnectAccepted(r: Reader, e: Event) {
    Waiting(r) && e.ReconnectRequested? && e.at - r.lastReconnect >= OneSecondMs
  }

  /** The timer can only fire when armed and due. */
  predicate TimerDue(r: Reader, e: Event) {
    Waiting(r) && e.TimerFired? && r.timer.Some? && r.timer.value <= e.at
  }

  /** The sensor's reading converted to the configured message type. */
  function Convert(r: Reader, m: Option<ValueMap>): Result<Option<Typed>, Error> {
    Messages.ConvertToRosMsg(r.sensor.typeName, m)
  }

  /** The tick as written: a read or conversion error skips the rest of the tick,
      including the re-arm, so the timer is left disarmed; a converted message (nil for
      a nil reading) is written if there is a publisher and dropped otherwise, and the
      timer is re-armed one second later whatever the sample rate. */
  function Tick(r: Reader, at: int, reading: Result<Option<ValueMap>, string>): (s: Stepped)
    ensures |s.effects| == 1
    ensures reading.Err? ==> s.effects[0] == ReadFailed(reading.error)
    ensures reading.Ok? && Convert(r, reading.value).Err? ==> s.effects[0] == ConvertFailed(Convert(r, reading.value).error)
    ensures s.effects[0].Write? <==> reading.Ok? && Convert(r, reading.value).Ok? && r.publisher.Some?
    ensures s.effects[0].Write? ==> s.effects[0] == Write(r.publisher.value, Convert(r, reading.value).value)
    ensures s.reader.timer.Some? <==> reading.Ok? && Convert(r, reading.value).Ok?
    ensures s.reader.timer.Some? ==> s.reader.timer.value == at + OneSecondMs
    ensures s.reader.(timer := r.timer) == r
  {
    match reading
    case Err(e) => Stepped(r.(timer := None), [ReadFailed(e)])
    case Ok(m) =>
      match Convert(r, m)
      case Err(e) => Stepped(r.(timer := None), [ConvertFailed(e)])
      case Ok(d) =>
        var out := if r.publisher.Some? then Write(r.publisher.value, d) else DroppedWithoutPublisher;
        Stepped(r.(timer := Some(at + OneSecondMs)), [out])
  }

  /** One event, as written. Events that cannot happen (a stopped or stuck reader, a
      timer not armed or not yet due) change nothing. */
  function Step(r: Reader, e: Event): (s: Stepped)
    ensures !Waiting(r) ==> s == Stepped(r, [])
    ensures e.ReconnectRequested? && !ReconnectAccepted(r, e) ==> s == Stepped(r, [])
    ensures ReconnectAccepted(r, e) && e.node.Some? ==>
      && Waiting(s.reader)
      && s.reader.node == e.node
      && s.reader.lastReconnect == e.finishedAt
      && s.reader.timer == r.timer
    ensures ReconnectAccepted(r, e) && e.node.None? ==>
      && s.reader.running && s.reader.blocked
      && s.effects == Teardown(r.publisher, r.node)
    ensures Waiting(r) && e.Cancelled? ==>
      && !s.reader.running
      && s.effects == Teardown(r.publisher, r.node) + [Stopped]
    ensures e.TimerFired? && !TimerDue(r, e) ==> s == Stepped(r, [])
    ensures TimerDue(r, e) ==> s == Tick(r, e.at, e.reading)
    ensures s.reader.running ==> r.running
  {
    if !Waiting(r) then Stepped(r, [])
    else
      match e
      case ReconnectRequested(at, node, creation, finishedAt) =>
        if at - r.lastReconnect < OneSecondMs then Stepped(r, [])
        else
          var c := Connect(r, node, creation);
          if c.reader.blocked then c else Stepped(c.reader.(lastReconnect := finishedAt), c.effects)
      case Cancelled =>
        Stepped(r.(running := false), Teardown(r.publisher, r.node) + [Stopped])
      case TimerFired(at, reading) =>
        if r.timer.None? || at < r.timer.value then Stepped(r, [])
        else Tick(r, at, reading)
  }

  /** A run of events, as written. */
  function Run(r: Reader, events: seq<Event>): (s: Stepped)
    decreases |events|
  {
    if |events| == 0 then Stepped(r, [])
    else
      var first := Step(r, events[0]);
      var rest := Run(first.reader, events[1..]);
      Stepped(rest.reader, first.effects + rest.effects)
  }

  /** No message is written. */
  predicate NoWrites(effects: seq<Effect>) {
    forall i | 0 <= i < |effects| :: !effects[i].Write?
  }

  /** Once the timer is disarmed it stays disarmed, and the reader never writes again,
      whatever events follow: reconnects, further requests, or nothing at all. */
  lemma {:induction false} DisarmedReaderNeverWrites(r: Reader, events: seq<Event>)
    requires r.timer.None?
    ensures Run(r, events).reader.timer.None?
    ensures NoWrites(Run(r, events).effects)
    decreases |events|
  {
    if |events| > 0 {
      var first := Step(r, events[0]);
      assert NoWrites(first.effects);
      DisarmedReaderNeverWrites(first.reader, events[1..]);
      var rest := Run(first.reader, events[1..]);
      assert Run(r, events).effects == first.effects + rest.effects;
    }
  }

  /** A single failed sensor read stops a running reader's publishing for good. */
  lemma {:induction false} ReadErrorStallsReader(r: Reader, at: int, err: string, later: seq<Event>)
    requires Waiting(r) && r.timer.Some? && r.timer.value <= at
    ensures var s := Step(r, TimerFired(at, Err(err)));
      && Waiting(s.reader)
      && s.reader.timer.None?
      && NoWrites(Run(s.reader, later).effects)
  {
    var s := Step(r, TimerFired(at, Err(err)));
    DisarmedReaderNeverWrites(s.reader, later);
  }

  /** A reader stuck in the retry loop takes no further event: it neither writes, nor
      reconnects, nor stops when cancelled, and gives no completion signal. */
  lemma {:induction false} BlockedReaderIgnoresEvents(r: Reader, events: seq<Event>)
    requires r.blocked
    ensures Run(r, events) == Stepped(r, [])
    decreases |events|
  {
    if |events| > 0 {
      assert Step(r, events[0]) == Stepped(r, []);
      BlockedReaderIgnoresEvents(r, events[1..]);
    }
  }

  /** A reader whose master answers at start and that is then cancelled closes exactly
      what it bound, the publisher only if the type is registered and creation
      succeeded, and signals completion last. */
  lemma {:induction false} StartThenCancel(s: SensorConfig, primaryUri: string, host: string, node: Node,
                                           creation: PublisherCreation, now: int)
    ensures var st := Start(s, primaryUri, host, Some(node), creation, now);
      var stop := Step(st.reader, Cancelled);
      && !stop.reader.running
      && (Messages.GetMessageType(s.typeName).Ok? && creation.PublisherCreated? ==>
            stop.effects == [ClosePublisher(Publisher(s.topic, creation.handle)), CloseNode(node), Stopped])
      && (Messages.GetMessageType(s.typeName).Err? || !creation.PublisherCreated? ==>
            stop.effects == [CloseNode(node), Stopped])
  {
    var st := Start(s, primaryUri, host, Some(node), creation, now);
    assert Waiting(st.reader);
  }

  /** A nil readings map under a registered type publishes a nil message and keeps the
      timer running, like any other converted reading. */
  lemma {:induction false} NilReadingWritesNilMessage(r: Reader, at: int)
    requires Messages.GetMessageType(r.sensor.typeName).Ok? && r.publisher.Some?
    ensures Tick(r, at, Ok(None)).effects == [Write(r.publisher.value, None)]
    ensures Tick(r, at, Ok(None)).reader.timer == Some(at + OneSecondMs)
  {
    Messages.ConvertNilReadings(r.sensor.typeName);
  }

  // ---------------------------------------------------------------------------
  // The corrected tick

  /** The sample period the configuration asks for: `1 / rate` seconds, in whole
      milliseconds; a negative rate fires at once. */
  function PeriodMs(rate: real): (p: int)
    ensures rate > 0.0 ==> p >= 0 && p as real <= 1000.0 / rate < p as real + 1.0
    ensures rate <= 0.0 ==> p == 0
  {
    if rate > 0.0 then (1000.0 / rate).Floor else 0
  }

  /** The tick with the timer re-armed on every outcome, at the configured period. */
  function TickIntended(r: Reader, at: int, reading: Result<Option<ValueMap>, string>): (s: Stepped)
    ensures s.reader.timer == Some(at + PeriodMs(r.sensor.sampleRate))
    ensures s.effects == Tick(r, at, reading).effects
    ensures s.reader == Tick(r, at, reading).reader.(timer := Some(at + PeriodMs(r.sensor.sampleRate)))
  {
    var t := Tick(r, at, reading);
    Stepped(t.reader.(timer := Some(at + PeriodMs(r.sensor.sampleRate))), t.effects)
  }

  /** The start with the first deadline one period away. */
  function StartIntended(s: SensorConfig, primaryUri: string, host: string, node: Option<Node>, creation: PublisherCreation, now: int): (r: Stepped)
    ensures node.Some? ==> Waiting(r.reader) && r.reader.timer == Some(now + PeriodMs(EffectiveRate(s.sampleRate)))
    ensures r.effects == Start(s, primaryUri, host, node, creation, now).effects
  {
    var st := Start(s, primaryUri, host, node, creation, now);
    if st.reader.blocked then st
    else Stepped(st.reader.(timer := Some(now + PeriodMs(st.reader.sensor.sampleRate))), st.effects)
  }

  /** One event with the corrected tick. */
  function StepIntended(r: Reader, e: Event): (s: Stepped)
    ensures TimerDue(r, e) ==> s == TickIntended(r, e.at, e.reading)
    ensures !TimerDue(r, e) ==> s == Step(r, e)
  {
    if TimerDue(r, e) then TickIntended(r, e.at, e.reading) else Step(r, e)
  }

  function RunIntended(r: Reader, events: seq<Event>): (s: Stepped)
    decreases |events|
  {
    if |events| == 0 then Stepped(r, [])
    else
      var first := StepIntended(r, events[0]);
      var rest := RunIntended(first.reader, events[1..]);
      Stepped(rest.reader, first.effects + rest.effects)
  }

  /** With the corrected tick a reader waiting in its loop always has its timer armed. */
  lemma {:induction false} IntendedReaderStaysArmed(r: Reader, events: seq<Event>)
    requires Waiting(r) ==> r.timer.Some?
    ensures Waiting(RunIntended(r, events).reader) ==> RunIntended(r, events).reader.timer.Some?
    decreases |events|
  {
    if |events| > 0 {
      var first := StepIntended(r, events[0]);
      assert Waiting(first.reader) ==> first.reader.timer.Some?;
      IntendedReaderStaysArmed(first.reader, events[1..]);
    }
  }

  /** With the corrected tick a failed read is only a lost sample: the next due tick with
      a convertible reading and a bound publisher writes it. */
  lemma IntendedReaderRecovers(r: Reader, at: int, err: string, later: int, m: Option<ValueMap>)
    requires Waiting(r) && r.timer.Some? && r.timer.value <= at && r.publisher.Some?
    requires later >= at + PeriodMs(r.sensor.sampleRate)
    ensures var s := StepIntended(r, TimerFired(at, Err(err)));
      var c := Messages.ConvertToRosMsg(r.sensor.typeName, m);
      c.Ok? ==> StepIntended(s.reader, TimerFired(later, Ok(m))).effects == [Write(r.publisher.value, c.value)]
  {
  }

  /** As written, a reader configured for two samples per second fires its first tick at
      once and every later tick a full second apart; the configured period is half a
      second. */
  lemma CadenceIgnoresRate(r: Reader, at: int, m: Option<ValueMap>)
    requires r.sensor.sampleRate == 2.0
    requires Messages.ConvertToRosMsg(r.sensor.typeName, m).Ok?
    ensures FirstDelayMs(2.0) == 0
    ensures Tick(r, at, Ok(m)).reader.timer == Some(at + 1000)
    ensures PeriodMs(2.0) == 500
    ensures TickIntended(r, at, Ok(m)).reader.timer == Some(at + 500)
  {
  }

  // ---------------------------------------------------------------------------
  // The component

  /** A reader to be started for a sensor, with the component's address and host. */
  datatype Spawn = Spawn(sensor: SensorConfig, primaryUri: string, host: string)

  /** The sensors whose dependency lookup succeeds, in configuration order; the others
      are logged and skipped. */
  function Spawns(sensors: seq<SensorConfig>, primaryUri: string, host: string, deps: set<string>): (r: seq<Spawn>)
    ensures |r| <= |sensors|
    ensures forall i | 0 <= i < |r| ::
      r[i].primaryUri == primaryUri && r[i].host == host && r[i].sensor.name in deps && r[i].sensor in sensors
    decreases |sensors|
  {
    if |sensors| == 0 then []
    else
      var rest := Spawns(sensors[1..], primaryUri, host, deps);
      assert forall i | 0 <= i < |rest| :: rest[i].sensor in sensors;
      if sensors[0].name in deps then [Spawn(sensors[0], primaryUri, host)] + rest else rest
  }

  /** One reader per configured entry whose lookup succeeds: an entry listed twice starts
      two readers, and an entry whose lookup fails starts none. */
  lemma {:induction false} SpawnsCount(sensors: seq<SensorConfig>, primaryUri: string, host: string, deps: set<string>)
    ensures forall s: SensorConfig ::
      multiset(Spawns(sensors, primaryUri, host, deps))[Spawn(s, primaryUri, host)]
        == if s.name in deps then multiset(sensors)[s] else 0
    decreases |sensors|
  {
    if |sensors| > 0 {
      SpawnsCount(sensors[1..], primaryUri, host, deps);
      assert sensors == [sensors[0]] + sensors[1..];
    }
  }

  /** Readers start in configuration order: one more entry at the end of the list adds
      its reader, if any, after all the others. */
  lemma {:induction false} SpawnsAppend(sensors: seq<SensorConfig>, s: SensorConfig, primaryUri: string, host: string, deps: set<string>)
    ensures Spawns(sensors + [s], primaryUri, host, deps)
      == Spawns(sensors, primaryUri, host, deps) + (if s.name in deps then [Spawn(s, primaryUri, host)] else [])
    decreases |sensors|
  {
    if |sensors| == 0 {
      assert sensors + [s] == [s];
    } else {
      assert (sensors + [s])[1..] == sensors[1..] + [s];
      SpawnsAppend(sensors[1..], s, primaryUri, host, deps);
    }
  }

  /** Cancel every reader; the effects of those that stop. */
  function StopAll(readers: seq<Reader>): seq<Effect>
    decreases |readers|
  {
    if |readers| == 0 then []
    else Step(readers[0], Cancelled).effects + StopAll(readers[1..])
  }

  /** The number of completion signals among some effects. */
  function StopSignals(effects: seq<Effect>): nat
    decreases |effects|
  {
    if |effects| == 0 then 0 else (if effects[0].Stopped? then 1 else 0) + StopSignals(effects[1..])
  }

  lemma {:induction false} StopSignalsAppend(a: seq<Effect>, b: seq<Effect>)
    ensures StopSignals(a + b) == StopSignals(a) + StopSignals(b)
    decreases |a|
  {
    if |a| == 0 {
      assert a + b == b;
    } else {
      assert (a + b)[1..] == a[1..] + b;
      StopSignalsAppend(a[1..], b);
    }
  }

  /** A teardown contains no completion signal. */
  lemma {:induction false} TeardownSilent(publisher: Option<Publisher>, node: Option<Node>)
    ensures StopSignals(Teardown(publisher, node)) == 0
  {
    var td := Teardown(publisher, node);
    if |td| > 0 {
      assert !td[0].Stopped?;
      if |td| > 1 {
        assert !td[1..][0].Stopped?;
        assert td[1..][1..] == [];
        assert StopSignals(td[1..]) == StopSignals(td[1..][1..]) == 0;
      } else {
        assert td[1..] == [];
      }
    }
  }

  /** The number of running readers: each holds one count of the wait group. */
  function Running(readers: seq<Reader>): nat
    decreases |readers|
  {
    if |readers| == 0 then 0 else (if readers[0].running then 1 else 0) + Running(readers[1..])
  }

  /** A running reader stuck in the retry loop. */
  predicate Stuck(r: Reader) {
    r.running && r.blocked
  }

  /** The number of stuck readers. */
  function StuckCount(readers: seq<Reader>): nat
    decreases |readers|
  {
    if |readers| == 0 then 0 else (if Stuck(readers[0]) then 1 else 0) + StuckCount(readers[1..])
  }

  /** Cancelling gives exactly one completion signal per running reader that is not
      stuck, after its publisher and node are closed; a stuck reader never signals. */
  lemma {:induction false} StopAllWaitsForEveryReader(readers: seq<Reader>)
    ensures StopSignals(StopAll(readers)) + StuckCount(readers) == Running(readers)
    ensures StuckCount(readers) == 0 <==> forall i | 0 <= i < |readers| :: !Stuck(readers[i])
    decreases |readers|
  {
    if |readers| > 0 {
      var first := Step(readers[0], Cancelled);
      StopAllWaitsForEveryReader(readers[1..]);
      StopSignalsAppend(first.effects, StopAll(readers[1..]));
      if Waiting(readers[0]) {
        StopSignalsAppend(Teardown(readers[0].publisher, readers[0].node), [Stopped]);
        TeardownSilent(readers[0].publisher, readers[0].node);
      }
      assert forall i | 1 <= i < |readers| :: readers[i] == readers[1..][i - 1];
    }
  }

  /** Close, and the first half of a reconfiguration: cancel every reader and wait for
      each running one to signal completion. `None` means the wait never returns, which
      happens exactly when some running reader is stuck in the retry loop. */
  function CancelAndWait(readers: seq<Reader>): (r: Option<seq<Effect>>)
    ensures r.Some? <==> forall i | 0 <= i < |readers| :: !Stuck(readers[i])
    ensures r.Some? ==> StopSignals(r.value) == Running(readers)
    ensures r.None? ==> StopSignals(StopAll(readers)) < Running(readers)
  {
    StopAllWaitsForEveryReader(readers);
    var effects := StopAll(readers);
    if StopSignals(effects) == Running(readers) then Some(effects) else None
  }

  /** Reconfiguration stops every existing reader before any new one starts, then starts
      one reader per sensor whose lookup succeeds. */
  datatype Reconfigured = Reconfigured(stopping: seq<Effect>, spawned: seq<Spawn>)

  function Reconfigure(readers: seq<Reader>, sensors: seq<SensorConfig>, primaryUri: string, host: string, deps: set<string>): (r: Option<Reconfigured>)
    ensures r.Some? <==> forall i | 0 <= i < |readers| :: !Stuck(readers[i])
    ensures r.Some? ==> StopSignals(r.value.stopping) == Running(readers)
    ensures r.Some? ==> forall i | 0 <= i < |r.value.spawned| ::
      r.value.spawned[i].primaryUri == primaryUri && r.value.spawned[i].host == host
    ensures r.Some? ==> forall s: SensorConfig ::
      multiset(r.value.spawned)[Spawn(s, primaryUri, host)] == if s.name in deps then multiset(sensors)[s] else 0
  {
    SpawnsCount(sensors, primaryUri, host, deps);
    match CancelAndWait(readers)
    case None => None
    case Some(stopping) => Some(Reconfigured(stopping, Spawns(sensors, primaryUri, host, deps)))
  }

  // ---------------------------------------------------------------------------
  // Cancellation of a stuck reader

  /** As written, a reader whose master never answers at start blocks every later close:
      whatever events follow, cancelling and waiting never returns. */
  lemma {:induction false} CloseHangsWhileRetrying(s: SensorConfig, primaryUri: string, host: string,
                                                   creation: PublisherCreation, now: int, events: seq<Event>)
    ensures var r := Run(Start(s, primaryUri, host, None, creation, now).reader, events).reader;
      Stuck(r) && CancelAndWait([r]).None?
  {
    var st := Start(s, primaryUri, host, None, creation, now);
    BlockedReaderIgnoresEvents(st.reader, events);
  }

  /** One event when the retry loop also gives up on cancellation: a stuck reader then
      returns from the loop with no node, has nothing left to close, and signals
      completion; every other case is as written. */
  function StepCancellable(r: Reader, e: Event): (s: Stepped)
    ensures Stuck(r) && e.Cancelled? ==> !s.reader.running && StopSignals(s.effects) == 1
    ensures !(Stuck(r) && e.Cancelled?) ==> s == Step(r, e)
  {
    if Stuck(r) && e.Cancelled? then
      var s := Stepped(r.(running := false, blocked := false, node := None), [Stopped]);
      assert StopSignals(s.effects) == 1 by { assert s.effects[1..] == []; }
      s
    else Step(r, e)
  }

  /** Cancel every reader with the cancellable retry loop. */
  function StopAllCancellable(readers: seq<Reader>): seq<Effect>
    decreases |readers|
  {
    if |readers| == 0 then []
    else StepCancellable(readers[0], Cancelled).effects + StopAllCancellable(readers[1..])
  }

  /** With the cancellable retry loop every running reader signals completion, so closing
      and reconfiguring always return. */
  lemma {:induction false} CancellableStopWaitsForEveryReader(readers: seq<Reader>)
    ensures StopSignals(StopAllCancellable(readers)) == Running(readers)
    decreases |readers|
  {
    if |readers| > 0 {
      var first := StepCancellable(readers[0], Cancelled);
      CancellableStopWaitsForEveryReader(readers[1..]);
      StopSignalsAppend(first.effects, StopAllCancellable(readers[1..]));
      if Waiting(readers[0]) {
        StopSignalsAppend(Teardown(readers[0].publisher, readers[0].node), [Stopped]);
        TeardownSilent(readers[0].publisher, readers[0].node);
      }
    }
  }
}
