/**
 * The session logic held in the firmware's globals: the connect request and
 * connection flags, the write-characteristic handle, the query timer, and the
 * single-slot notification buffer with its "new data" flag. Transport events
 * are inputs of a pure step function; a sent command is an output frame.
 */
module Session {
  import opened Bytes
  import opened Results
  import opened FrameCodec
  import opened Presenter
  import opened AsWritten

  const TARGET_DEVICE_NAME: string := "WT-0001"
  const QUERY_INTERVAL_MS: U32 := 60000

  /** The longest value a BLE attribute can carry (section 3.2.9 of the ATT protocol, Bluetooth Core). */
  const MAX_ATT_VALUE_LEN: nat := 512

  /** The bytes of one notification, as the BLE stack can deliver them. */
  type AttValue = s: seq<Byte> | |s| <= MAX_ATT_VALUE_LEN

  /** The firmware's globals that the core reads and writes. */
  datatype State = State(
    doConnect: bool,
    connected: bool,
    writeCharacteristic: bool,   // pRemoteCharacteristicWrite != nullptr
    lastQueryMillis: U32,
    lastNotification: seq<Byte>,
    newDataAvailable: bool)

  /** The globals at power-on. */
  const Boot: State := State(false, false, false, 0, [], false)

  /** One scan result: the advertised name, when the device advertises one. */
  datatype Advertisement = Advertisement(name: Option<string>)

  /** How connectToServer ends: the step at which it gave up, or Ready when every step succeeded. */
  datatype ConnectOutcome = LinkFailed | ServiceMissing | WriteCharMissing | NotifyCharMissing | Ready

  /** What loop() shows for a drained notification. */
  datatype Report = Decoded(view: StatusView) | Undecodable(raw: seq<Byte>)

  /** Frames handed to the write characteristic, in order, and the report shown, if any. */
  datatype Output = Output(sent: seq<seq<Byte>>, report: Option<Report>)

  datatype Transition = Transition(next: State, out: Output)

  /**
   * Everything that can happen to the session, one at a time. `Tick` is one
   * pass of loop(); the two callbacks arrive only between passes.
   */
  datatype Event =
    | Notification(data: AttValue)
    | LinkLost
    | Tick(scan: seq<Advertisement>, outcome: ConnectOutcome, connectMillis: U32, nowMillis: U32)

  // ---------------------------------------------------------------------------
  // Callbacks
  // ---------------------------------------------------------------------------

  predicate IsTarget(adv: Advertisement)
  {
    adv.name == Some(TARGET_DEVICE_NAME)
  }

  predicate TargetAdvertised(scan: seq<Advertisement>)
  {
    exists i :: 0 <= i < |scan| && IsTarget(scan[i])
  }

  /** The scan callback: the fridge's name requests a connection; every other device is ignored. */
  function OnResult(s: State, adv: Advertisement): (r: State)
    ensures r.doConnect <==> s.doConnect || IsTarget(adv)
    ensures r.(doConnect := s.doConnect) == s
  {
    if IsTarget(adv) then s.(doConnect := true) else s
  }

  lemma TargetAdvertisedUncons(scan: seq<Advertisement>)
    requires |scan| > 0
    ensures TargetAdvertised(scan) <==> IsTarget(scan[0]) || TargetAdvertised(scan[1..])
  {
  }

  /** A blocking scan delivering `scan` to the scan callback in order. */
  function Scan(s: State, scan: seq<Advertisement>): (r: State)
    ensures r.doConnect <==> s.doConnect || TargetAdvertised(scan)
    ensures r.(doConnect := s.doConnect) == s
    decreases |scan|
  {
    if |scan| == 0 then s
    else
      TargetAdvertisedUncons(scan);
      Scan(OnResult(s, scan[0]), scan[1..])
  }

  /** The client callback on disconnect: only the connection flag drops; the write handle is kept. */
  function OnDisconnect(s: State): (r: State)
    ensures !r.connected
    ensures r.(connected := s.connected) == s
  {
    s.(connected := false)
  }

  /** The notify callback: the buffer is replaced by the new bytes and the flag raised. */
  function NotifyCallback(s: State, data: AttValue): (r: State)
    ensures r.lastNotification == data && r.newDataAvailable
    ensures r.(lastNotification := s.lastNotification, newDataAvailable := s.newDataAvailable) == s
  {
    s.(lastNotification := data, newDataAvailable := true)
  }

  /** Two notifications before a drain leave only the second. */
  lemma LatestNotificationWins(s: State, a: AttValue, b: AttValue)
    ensures NotifyCallback(NotifyCallback(s, a), b) == NotifyCallback(s, b)
  {
  }

  // ---------------------------------------------------------------------------
  // connectToServer and loop()
  // ---------------------------------------------------------------------------

  /**
   * The effect of connectToServer on the globals, given how far it got. On
   * success the bind command is sent and the timer is rewound by one interval
   * so that the first query is due at once.
   */
  function ConnectToServer(s: State, outcome: ConnectOutcome, nowMillis: U32): (r: (State, seq<seq<Byte>>))
    ensures r.0.connected <==> s.connected || outcome == Ready
    ensures outcome == Ready ==>
      && r.1 == [BuildBindCommand([])]
      && r.0.writeCharacteristic
      && r.0.lastQueryMillis == WrapSub32(nowMillis, QUERY_INTERVAL_MS)
    ensures outcome != Ready ==> r.1 == [] && r.0.lastQueryMillis == s.lastQueryMillis
    ensures outcome == WriteCharMissing ==> !r.0.writeCharacteristic
    ensures outcome == NotifyCharMissing ==> r.0.writeCharacteristic
    ensures outcome == LinkFailed || outcome == ServiceMissing ==> r.0 == s
    ensures r.0.doConnect == s.doConnect
    ensures r.0.lastNotification == s.lastNotification
    ensures r.0.newDataAvailable == s.newDataAvailable
  {
    match outcome
    case LinkFailed => (s, [])
    case ServiceMissing => (s, [])
    case WriteCharMissing => (s.(writeCharacteristic := false), [])
    case NotifyCharMissing => (s.(writeCharacteristic := true), [])
    case Ready =>
      (s.(writeCharacteristic := true, connected := true,
          lastQueryMillis := WrapSub32(nowMillis, QUERY_INTERVAL_MS)),
       [BuildBindCommand([])])
  }

  /** The query gate of loop(): connected, a write handle, and a full interval elapsed on the wrapping clock. */
  predicate QueryDue(s: State, nowMillis: U32)
  {
    s.connected && s.writeCharacteristic && WrapSub32(nowMillis, s.lastQueryMillis) >= QUERY_INTERVAL_MS
  }

  /** What loop() does with a drained buffer. */
  function Render(data: seq<Byte>): (r: Report)
    ensures r.Decoded? <==> Decode(data).Success?
    ensures r.Decoded? ==> r.view == Present(Decode(data).value)
    ensures r.Undecodable? ==> r.raw == data
    ensures |data| < TWO16 + 2 ==>
      && (r.Decoded? <==> DecodeAsWritten(data).Success?)
      && (r.Decoded? ==> r.view == Present(DecodeAsWritten(data).value))
  {
    AgreesWhenShort(data);
    match Decode(data)
    case Success(st) => Decoded(Present(st))
    case Failure(_) => Undecodable(data)
  }

  lemma AgreesWhenShort(data: seq<Byte>)
    ensures |data| < TWO16 + 2 ==> DecodeAsWritten(data) == Decode(data)
  {
    if |data| < TWO16 + 2 {
      AsWrittenAgreesBelowWrap(data);
    }
  }

  /** Whether a loop pass with these scan results calls connectToServer. */
  predicate AttemptsConnect(s: State, scan: seq<Advertisement>)
  {
    s.doConnect || (!s.connected && TargetAdvertised(scan))
  }

  /**
   * One pass of loop(): scan when idle, connect when requested, send a query
   * when due, then drain and show the notification buffer. `connectMillis` is
   * the clock read inside connectToServer, `nowMillis` the one before the gate.
   */
  function LoopPass(s: State, scan: seq<Advertisement>, outcome: ConnectOutcome,
                    connectMillis: U32, nowMillis: U32): (t: Transition)
    ensures BuildBindCommand([]) in t.out.sent <==> AttemptsConnect(s, scan) && outcome == Ready
    ensures t.next.connected <==> s.connected || (AttemptsConnect(s, scan) && outcome == Ready)
    ensures BuildQueryCommand([]) in t.out.sent ==>
      t.next.connected && t.next.writeCharacteristic && t.next.lastQueryMillis == nowMillis
    ensures BuildQueryCommand([]) in t.out.sent && BuildBindCommand([]) !in t.out.sent ==>
      WrapSub32(nowMillis, s.lastQueryMillis) >= QUERY_INTERVAL_MS
    ensures !AttemptsConnect(s, scan) ==>
      && (BuildQueryCommand([]) in t.out.sent <==> QueryDue(s, nowMillis))
      && (!QueryDue(s, nowMillis) ==> t.next.lastQueryMillis == s.lastQueryMillis)
    ensures AttemptsConnect(s, scan) ==>
      (BuildQueryCommand([]) in t.out.sent <==> QueryDue(ConnectToServer(s, outcome, connectMillis).0, nowMillis))
    ensures !AttemptsConnect(s, scan) ==> t.next.writeCharacteristic == s.writeCharacteristic
    ensures AttemptsConnect(s, scan) ==>
      t.next.writeCharacteristic == ConnectToServer(s, outcome, connectMillis).0.writeCharacteristic
    ensures BuildQueryCommand([]) !in t.out.sent ==>
      t.next.lastQueryMillis ==
        (if AttemptsConnect(s, scan) then ConnectToServer(s, outcome, connectMillis).0.lastQueryMillis
         else s.lastQueryMillis)
    ensures forall f :: f in t.out.sent ==> f == BuildBindCommand([]) || f == BuildQueryCommand([])
    ensures |t.out.sent| <= 2
    ensures |t.out.sent| == 2 ==> t.out.sent == [BuildBindCommand([]), BuildQueryCommand([])]
    ensures !t.next.doConnect && !t.next.newDataAvailable
    ensures t.next.lastNotification == s.lastNotification
    ensures t.out.report.Some? <==> s.newDataAvailable
    ensures s.newDataAvailable ==> t.out.report == Some(Render(s.lastNotification))
  {
    var bind := BuildBindCommand([]);
    var query := BuildQueryCommand([]);
    assert bind != query;
    // 1) scan only while neither connected nor about to connect
    var s1 := if !s.connected && !s.doConnect then Scan(s, scan) else s;
    // 2) connect when requested; the request is cleared whatever the outcome
    var c := if s1.doConnect then ConnectToServer(s1, outcome, connectMillis) else (s1, []);
    var s2 := c.0.(doConnect := false);
    // 3) periodic query
    var due := QueryDue(s2, nowMillis);
    var s3 := if due then s2.(lastQueryMillis := nowMillis) else s2;
    var sent := c.1 + (if due then [query] else []);
    // 4) drain the notification buffer; the flag is cleared before decoding
    var report := if s3.newDataAvailable then Some(Render(s3.lastNotification)) else None;
    Transition(s3.(newDataAvailable := false), Output(sent, report))
  }

  /** One event applied to the session. */
  function Step(s: State, e: Event): (t: Transition)
    ensures e.Notification? ==> t.next == NotifyCallback(s, e.data) && t.out == Output([], None)
    ensures e.LinkLost? ==> t.next == OnDisconnect(s) && t.out == Output([], None)
  {
    match e
    case Notification(data) => Transition(NotifyCallback(s, data), Output([], None))
    case LinkLost => Transition(OnDisconnect(s), Output([], None))
    case Tick(scan, outcome, connectMillis, nowMillis) =>
      LoopPass(s, scan, outcome, connectMillis, nowMillis)
  }

  /** A sequence of events applied in order: the final state and one output per event. */
  function Run(s: State, events: seq<Event>): (r: (State, seq<Output>))
    ensures |r.1| == |events|
    decreases |events|
  {
    if |events| == 0 then (s, [])
    else
      var t := Step(s, events[0]);
      var rest := Run(t.next, events[1..]);
      (rest.0, [t.out] + rest.1)
  }

  // ---------------------------------------------------------------------------
  // Properties
  // ---------------------------------------------------------------------------

  /**
   * Rewinding the timer by one interval on connect makes the query due at
   * any later reading less than 2^32 - 60000 ms after the connect reading.
   */
  lemma RewoundTimerIsDue(connectMillis: U32, nowMillis: U32)
    requires WrapSub32(nowMillis, connectMillis) < TWO32 - QUERY_INTERVAL_MS
    ensures WrapSub32(nowMillis, WrapSub32(connectMillis, QUERY_INTERVAL_MS))
      == WrapSub32(nowMillis, connectMillis) + QUERY_INTERVAL_MS
  {
  }

  /**
   * First contact: an idle session that sees the fridge and connects sends
   * exactly the bind command and then, in the same pass, the first query.
   */
  lemma FirstContact(s: State, scan: seq<Advertisement>, connectMillis: U32, nowMillis: U32)
    requires !s.connected && !s.doConnect && TargetAdvertised(scan)
    requires WrapSub32(nowMillis, connectMillis) < TWO32 - QUERY_INTERVAL_MS
    ensures var t := LoopPass(s, scan, Ready, connectMillis, nowMillis);
      && t.out.sent == [BuildBindCommand([]), BuildQueryCommand([])]
      && t.next.connected && t.next.writeCharacteristic
      && t.next.lastQueryMillis == nowMillis
  {
  }

  /**
   * With the clock read as `true time mod 2^32`, the gate opens exactly when
   * at least one interval of true time has passed since the last query, as
   * long as less than 2^32 ms (about 49.7 days) have passed.
   */
  lemma QueryGateMatchesTrueTime(s: State, lastTrue: nat, nowTrue: nat)
    requires s.connected && s.writeCharacteristic
    requires s.lastQueryMillis == lastTrue % TWO32
    requires lastTrue <= nowTrue < lastTrue + TWO32
    ensures QueryDue(s, nowTrue % TWO32) <==> nowTrue - lastTrue >= QUERY_INTERVAL_MS
  {
  }

  /**
   * What every state reachable from power-on satisfies: no connect request
   * survives a loop pass, a connection always has its write handle, and the
   * buffer holds at most one attribute value.
   */
  predicate WellFormed(s: State)
  {
    && !s.doConnect
    && (s.connected ==> s.writeCharacteristic)
    && |s.lastNotification| <= MAX_ATT_VALUE_LEN
  }

  lemma StepKeepsWellFormed(s: State, e: Event)
    requires WellFormed(s)
    ensures WellFormed(Step(s, e).next)
  {
  }

  /** Every run from a well-formed state, and so every run from Boot, stays well-formed. */
  lemma {:induction false} RunKeepsWellFormed(s: State, events: seq<Event>)
    requires WellFormed(s)
    ensures WellFormed(Run(s, events).0)
    decreases |events|
  {
    if |events| > 0 {
      StepKeepsWellFormed(s, events[0]);
      RunKeepsWellFormed(Step(s, events[0]).next, events[1..]);
    }
  }

  lemma BootIsWellFormed()
    ensures WellFormed(Boot)
  {
  }

  /**
   * In every state reachable from Boot, the report a loop pass shows is the
   * one the firmware's decoder as written would produce: the buffer is never
   * long enough for the 16-bit checksum offset to wrap.
   */
  lemma ReachableReportsMatchFirmware(events: seq<Event>, p: Event)
    requires p.Tick?
    ensures var s := Run(Boot, events).0;
      var out := Step(s, p).out;
      out.report.Some? ==>
        && (out.report.value.Decoded? <==> DecodeAsWritten(s.lastNotification).Success?)
        && (out.report.value.Decoded? ==> out.report.value.view == Present(DecodeAsWritten(s.lastNotification).value))
  {
    RunKeepsWellFormed(Boot, events);
    PassDrains(Run(Boot, events).0, p);
  }

  function Notifications(events: seq<Event>): nat
  {
    if |events| == 0 then 0
    else (if events[0].Notification? then 1 else 0) + Notifications(events[1..])
  }

  function ReportsShown(outs: seq<Output>): nat
  {
    if |outs| == 0 then 0
    else (if outs[0].report.Some? then 1 else 0) + ReportsShown(outs[1..])
  }

  function Pending(s: State): nat
  {
    if s.newDataAvailable then 1 else 0
  }

  /**
   * Each arrival is shown at most once: reports shown plus a still-pending
   * buffer never exceed the notifications received plus one pending at start.
   */
  lemma {:induction false} EachNotificationShownAtMostOnce(s: State, events: seq<Event>)
    ensures ReportsShown(Run(s, events).1) + Pending(Run(s, events).0)
      <= Notifications(events) + Pending(s)
    decreases |events|
  {
    if |events| > 0 {
      var t := Step(s, events[0]);
      EachNotificationShownAtMostOnce(t.next, events[1..]);
      assert Run(s, events).1 == [t.out] + Run(t.next, events[1..]).1;
      assert ([t.out] + Run(t.next, events[1..]).1)[1..] == Run(t.next, events[1..]).1;
    }
  }

  /** The byte strings a run may show: the buffer at the start and every notified payload. */
  function Arrivals(s: State, events: seq<Event>): set<seq<Byte>>
  {
    {s.lastNotification} + set e | e in events && e.Notification? :: e.data
  }

  /**
   * Nothing is shown that did not arrive: every report of a run renders the
   * buffer held at the start or the payload of one of its notifications, and
   * the final buffer is one of them too.
   */
  lemma {:induction false} ReportsComeFromArrivals(s: State, events: seq<Event>)
    ensures Run(s, events).0.lastNotification in Arrivals(s, events)
    ensures var outs := Run(s, events).1;
      forall k :: 0 <= k < |outs| && outs[k].report.Some? ==>
        exists d :: d in Arrivals(s, events) && outs[k].report == Some(Render(d))
    decreases |events|
  {
    if |events| > 0 {
      var t := Step(s, events[0]);
      var rest := events[1..];
      ReportsComeFromArrivals(t.next, rest);
      assert events == [events[0]] + rest;
      RunCons(s, events[0], rest);
      assert t.next.lastNotification in Arrivals(s, events);
      assert Arrivals(t.next, rest) <= Arrivals(s, events) by {
        forall e | e in rest
          ensures e in events
        {
        }
      }
      var outs := Run(s, events).1;
      assert outs[0] == t.out;
      if t.out.report.Some? {
        assert events[0].Tick?;
        assert t.out.report == Some(Render(s.lastNotification));
      }
      forall k | 1 <= k < |outs| && outs[k].report.Some?
        ensures exists d :: d in Arrivals(s, events) && outs[k].report == Some(Render(d))
      {
        assert outs[k] == Run(t.next, rest).1[k - 1];
      }
    }
  }

  /**
   * Single-slot overwrite: two notifications before a pass leave only the
   * second to be shown, and the next pass shows nothing.
   */
  lemma SecondNotificationOverwritesFirst(s: State, a: AttValue, b: AttValue, p1: Event, p2: Event)
    requires p1.Tick? && p2.Tick?
    ensures var outs := Run(s, [Notification(a), Notification(b), p1, p2]).1;
      && outs[0].report == None && outs[1].report == None
      && outs[2].report == Some(Render(b))
      && outs[3].report == None
  {
    var s1 := NotifyCallback(s, a);
    var s2 := NotifyCallback(s1, b);
    var quiet := Output([], None);
    TwoPassesAfterArrival(s2, p1, p2);
    NotificationThenRun(s1, b, [p1, p2]);
    NotificationThenRun(s, a, [Notification(b), p1, p2]);
    assert [Notification(b)] + [p1, p2] == [Notification(b), p1, p2];
    assert [Notification(a)] + [Notification(b), p1, p2] == [Notification(a), Notification(b), p1, p2];
  }

  /** A notification at the head of a run shows nothing and hands the callback's state on. */
  lemma NotificationThenRun(s: State, d: AttValue, rest: seq<Event>)
    ensures Run(s, [Notification(d)] + rest).1 == [Output([], None)] + Run(NotifyCallback(s, d), rest).1
  {
    RunCons(s, Notification(d), rest);
  }

  lemma TwoPassesAfterArrival(s: State, p1: Event, p2: Event)
    requires p1.Tick? && p2.Tick?
    requires s.newDataAvailable
    ensures var outs := Run(s, [p1, p2]).1;
      outs[0].report == Some(Render(s.lastNotification)) && outs[1].report == None
  {
    var t1 := Step(s, p1);
    PassDrains(s, p1);
    PassDrains(t1.next, p2);
    RunCons(t1.next, p2, []);
    RunCons(s, p1, [p2]);
    assert [p1] + [p2] == [p1, p2];
    assert [p2] + [] == [p2];
  }

  /** A loop pass shows the buffer exactly when the flag was up, and always lowers the flag. */
  lemma PassDrains(s: State, p: Event)
    requires p.Tick?
    ensures Step(s, p).out.report == (if s.newDataAvailable then Some(Render(s.lastNotification)) else None)
    ensures !Step(s, p).next.newDataAvailable
  {
  }

  lemma RunCons(s: State, e: Event, rest: seq<Event>)
    ensures Run(s, [e] + rest) == (Run(Step(s, e).next, rest).0, [Step(s, e).out] + Run(Step(s, e).next, rest).1)
  {
  }
}
