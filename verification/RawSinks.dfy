/** `raw_sink`: every registered point is accounted for. */
module RawSinks {
  import opened Basics

  /** What the store acknowledged for one window. `transit` holds, per stored point, the
      acknowledgement less the event time (ms). */
  datatype RawWindow = RawWindow(lastAckMs: nat, transit: seq<nat>, failed: nat, inFlight: nat)

  /** A message to the store: the event times of its points, by window end. */
  type Message = map<nat, seq<nat>>

  /** The gauges of one window. */
  datatype Report = Report(end: nat, points: nat, failed: nat, unacknowledged: nat, completeMs: nat)

  /** The sink; `registered` counts the points ever sent per window and `reports` is what it
      has reported so far. */
  datatype Sink = Sink(
    windows: map<nat, RawWindow>,
    inFlight: map<nat, Message>,
    nextId: nat,
    emittedUntil: nat,
    sentUntilMs: nat,
    registered: map<nat, nat>,
    reports: seq<Report>)

  const Idle := Sink(map[], map[], 0, 0, 0, map[], [])
  const NewWindow := RawWindow(0, [], 0, 0)

  function WindowOf(windows: map<nat, RawWindow>, end: nat): RawWindow {
    if end in windows then windows[end] else NewWindow
  }

  function EndOf(size: nat, time: nat): nat
    requires size > 0
  {
    time / size * size + size
  }

  /** The points whose window has not been passed, by window end. */
  function ByWindow(times: seq<nat>, size: nat, emittedUntil: nat): Message
    requires size > 0
  {
    if times == [] then map[]
    else
      var time := times[|times| - 1];
      var rest := ByWindow(times[..|times| - 1], size, emittedUntil);
      var end := EndOf(size, time);
      if end > emittedUntil then rest[end := (if end in rest then rest[end] else []) + [time]] else rest
  }

  function Latest(times: seq<nat>, until: nat): nat {
    if times == [] then until else Max(Latest(times[..|times| - 1], until), times[|times| - 1])
  }

  function CountOne(w: RawWindow): RawWindow {
    w.(inFlight := w.inFlight + 1)
  }

  /** One more message in flight for each window it lists. */
  function Counted(windows: map<nat, RawWindow>, msg: Message): map<nat, RawWindow> {
    map end | end in windows.Keys + msg.Keys ::
      if end in msg then CountOne(WindowOf(windows, end)) else windows[end]
  }

  /** Every open window a message lists is settled. */
  function Settled(windows: map<nat, RawWindow>, msg: Message, now: nat, stored: bool): map<nat, RawWindow> {
    map end | end in windows :: if end in msg then Settle(windows[end], msg[end], now, stored) else windows[end]
  }

  /** Register a message about to go to the store. */
  ghost function AfterSend(s: Sink, times: seq<nat>, size: nat): Sink
    requires size > 0
  {
    var msg := ByWindow(times, size, s.emittedUntil);
    s.(windows := Counted(s.windows, msg),
       inFlight := s.inFlight[s.nextId := msg],
       nextId := s.nextId + 1,
       sentUntilMs := Latest(times, s.sentUntilMs),
       registered := map end | end in s.registered.Keys + msg.Keys :: CountIn(s.registered, end) + PointsAt(end)(msg))
  }

  ghost function CountIn(m: map<nat, nat>, end: nat): nat {
    if end in m then m[end] else 0
  }

  /** One answered message as one window sees it. */
  function Settle(w: RawWindow, times: seq<nat>, now: nat, stored: bool): RawWindow {
    var waiting := if w.inFlight == 0 then 0 else w.inFlight - 1;
    if stored then
      RawWindow(Max(w.lastAckMs, now), w.transit + Transit(times, now), w.failed, waiting)
    else
      RawWindow(w.lastAckMs, w.transit, w.failed + |times|, waiting)
  }

  function Transit(times: seq<nat>, now: nat): (r: seq<nat>)
    ensures |r| == |times|
  {
    seq(|times|, i requires 0 <= i < |times| => if times[i] <= now then now - times[i] else 0)
  }

  /** The store answered message `id`; an unknown id changes nothing. */
  ghost function AfterAnswer(s: Sink, id: nat, now: nat, stored: bool): Sink {
    if id !in s.inFlight then s
    else
      var msg := s.inFlight[id];
      s.(windows := Settled(s.windows, msg, now, stored),
         inFlight := s.inFlight - {id})
  }

  /** The windows the source has moved past with no message waiting, or ten graces old. */
  ghost function Ready(s: Sink, now: nat, grace: nat): set<nat> {
    set end | end in s.windows
      && (end <= s.sentUntilMs || end + grace <= now)
      && (s.windows[end].inFlight == 0 || end + 10 * grace <= now)
  }

  ghost function CountAt(end: nat): Message -> nat {
    (msg: Message) => if end in msg then 1 else 0
  }

  ghost function PointsAt(end: nat): Message -> nat {
    (msg: Message) => if end in msg then |msg[end]| else 0
  }

  /** The points of a window still waiting for the store. */
  ghost function Unacknowledged(inFlight: map<nat, Message>, end: nat): nat {
    MapSum(inFlight, PointsAt(end))
  }

  ghost function ReportOf(s: Sink, end: nat, now: nat, clock: nat): Report
    requires end in s.windows
  {
    var w := s.windows[end];
    var waiting := Unacknowledged(s.inFlight, end);
    Report(end, |w.transit|, w.failed, waiting, if waiting > 0 then Min(now, clock) else w.lastAckMs)
  }

  /** Report one window and forget it. */
  ghost function ReportOne(s: Sink, end: nat, now: nat, clock: nat): Sink
    requires end in s.windows
  {
    s.(windows := s.windows - {end},
       emittedUntil := Max(s.emittedUntil, end),
       reports := s.reports + [ReportOf(s, end, now, clock)])
  }

  /** Report the windows in `ends`, by increasing end. */
  ghost function ReportAll(s: Sink, ends: set<nat>, now: nat, clock: nat): Sink
    requires ends <= s.windows.Keys
    decreases |ends|
  {
    if ends == {} then s
    else
      var end := Least(ends);
      ReportAll(ReportOne(s, end, now, clock), ends - {end}, now, clock)
  }

  ghost function Least(ends: set<nat>): (r: nat)
    requires ends != {}
    ensures r in ends && forall e :: e in ends ==> r <= e
    decreases |ends|
  {
    var x :| x in ends;
    if ends == {x} then x
    else
      assert ends - {x} != {} by { assert ends == (ends - {x}) + {x}; }
      var rest := Least(ends - {x});
      assert forall e :: e in ends ==> e == x || e in ends - {x};
      Min(x, rest)
  }

  ghost function AfterCheck(s: Sink, now: nat, clock: nat, grace: nat): Sink {
    ReportAll(s, Ready(s, now, grace), now, clock)
  }

  // ---------- the accounting invariant ----------

  /** Every entry of a message holds a point, and has been registered. */
  ghost predicate MessageOk(msg: Message, registered: map<nat, nat>) {
    forall end :: end in msg ==> msg[end] != [] && end in registered
  }

  ghost predicate MessagesOk(s: Sink) {
    forall id :: id in s.inFlight ==> id < s.nextId && MessageOk(s.inFlight[id], s.registered)
  }

  /** An open window counts the unanswered messages that list it, and its points are stored,
      failed or waiting. */
  ghost predicate OpenOk(s: Sink, end: nat) {
    && end in s.windows && end in s.registered
    && s.windows[end].inFlight == MapSum(s.inFlight, CountAt(end))
    && |s.windows[end].transit| + s.windows[end].failed + Unacknowledged(s.inFlight, end) == s.registered[end]
  }

  /** A report adds up to the points sent for its window, which is closed for good. */
  ghost predicate ReportOk(s: Sink, r: Report) {
    && r.end !in s.windows && r.end <= s.emittedUntil && r.end in s.registered
    && r.points + r.failed + r.unacknowledged == s.registered[r.end]
  }

  ghost predicate Reported(s: Sink, end: nat) {
    exists i :: 0 <= i < |s.reports| && s.reports[i].end == end
  }

  ghost predicate Accounted(s: Sink) {
    && MessagesOk(s)
    && (forall end :: end in s.windows ==> OpenOk(s, end))
    && (forall i :: 0 <= i < |s.reports| ==> ReportOk(s, s.reports[i]))
    && (forall i, j :: 0 <= i < j < |s.reports| ==> s.reports[i].end != s.reports[j].end)
    && (forall end :: end in s.registered ==> end in s.windows || Reported(s, end))
  }

  lemma {:induction false} ByWindowOk(times: seq<nat>, size: nat, emittedUntil: nat)
    requires size > 0
    ensures forall end :: end in ByWindow(times, size, emittedUntil) ==>
      end > emittedUntil && ByWindow(times, size, emittedUntil)[end] != []
    decreases |times|
  {
    hide EndOf;
    if times != [] {
      ByWindowOk(times[..|times| - 1], size, emittedUntil);
    }
  }

  lemma {:induction false} SendKeeps(s: Sink, times: seq<nat>, size: nat)
    requires size > 0 && Accounted(s)
    ensures Accounted(AfterSend(s, times, size))
  {
    hide ByWindow, Latest;
    ByWindowOk(times, size, s.emittedUntil);
    var msg := ByWindow(times, size, s.emittedUntil);
    var t := AfterSend(s, times, size);
    forall id | id in t.inFlight
      ensures id < t.nextId && MessageOk(t.inFlight[id], t.registered)
    {
      assert id != s.nextId ==> MessageOk(s.inFlight[id], s.registered);
    }
    forall end | end in t.windows
      ensures OpenOk(t, end)
    {
      SendOpenOk(s, times, size, end);
    }
    forall i | 0 <= i < |t.reports|
      ensures ReportOk(t, t.reports[i])
    {
      assert ReportOk(s, s.reports[i]);
    }
    forall end | end in t.registered
      ensures end in t.windows || Reported(t, end)
    {
      if end in s.registered && end !in s.windows {
        assert Reported(s, end);
      }
    }
  }

  lemma {:induction false} SendOpenOk(s: Sink, times: seq<nat>, size: nat, end: nat)
    requires size > 0 && Accounted(s) && end in AfterSend(s, times, size).windows
    ensures OpenOk(AfterSend(s, times, size), end)
  {
    hide ByWindow, Latest, Accounted, MapSum;
    ByWindowOk(times, size, s.emittedUntil);
    var msg := ByWindow(times, size, s.emittedUntil);
    SendSums(s, msg, end);
    if end in s.windows {
      assert OpenOk(s, end) by { OpenIsOk(s, end); }
    } else {
      NothingWaits(s, end);
    }
  }

  lemma {:induction false} OpenIsOk(s: Sink, end: nat)
    requires Accounted(s) && end in s.windows
    ensures OpenOk(s, end)
  {
    hide OpenOk;
  }

  lemma {:induction false} SendSums(s: Sink, msg: Message, end: nat)
    requires Accounted(s)
    ensures MapSum(s.inFlight[s.nextId := msg], CountAt(end)) == MapSum(s.inFlight, CountAt(end)) + CountAt(end)(msg)
    ensures MapSum(s.inFlight[s.nextId := msg], PointsAt(end)) == MapSum(s.inFlight, PointsAt(end)) + PointsAt(end)(msg)
  {
    hide MapSum;
    assert s.nextId !in s.inFlight;
    MapSumUpdate(s.inFlight, s.nextId, msg, CountAt(end));
    MapSumUpdate(s.inFlight, s.nextId, msg, PointsAt(end));
  }

  /** A window beyond `emittedUntil` that is not open has never been sent. */
  lemma {:induction false} NothingWaits(s: Sink, end: nat)
    requires Accounted(s) && end !in s.windows && end > s.emittedUntil
    ensures end !in s.registered
    ensures MapSum(s.inFlight, CountAt(end)) == 0 && MapSum(s.inFlight, PointsAt(end)) == 0
  {
    assert forall id :: id in s.inFlight ==> MessageOk(s.inFlight[id], s.registered);
    MapSumZero(s.inFlight, CountAt(end));
    MapSumZero(s.inFlight, PointsAt(end));
  }

  /** An answered message counts down every window it lists: the saturating subtraction
      never saturates. */
  lemma {:induction false} AnswerCountsDown(s: Sink, id: nat, end: nat)
    requires Accounted(s) && id in s.inFlight && end in s.inFlight[id] && end in s.windows
    ensures s.windows[end].inFlight > 0
  {
    assert OpenOk(s, end);
    MapSumRemove(s.inFlight, id, CountAt(end));
  }

  lemma {:induction false} AnsweredKeeps(s: Sink, id: nat, now: nat, stored: bool)
    requires Accounted(s)
    ensures Accounted(AfterAnswer(s, id, now, stored))
  {
    hide Transit;
    if id in s.inFlight {
      var t := AfterAnswer(s, id, now, stored);
      forall end | end in t.windows
        ensures OpenOk(t, end)
      {
        assert OpenOk(s, end);
        MapSumRemove(s.inFlight, id, CountAt(end));
        MapSumRemove(s.inFlight, id, PointsAt(end));
        if end in s.inFlight[id] {
          AnswerCountsDown(s, id, end);
        }
      }
      forall i | 0 <= i < |t.reports|
        ensures ReportOk(t, t.reports[i])
      {
        assert ReportOk(s, s.reports[i]);
      }
      forall end | end in t.registered
        ensures end in t.windows || Reported(t, end)
      {
        assert end in s.windows || Reported(s, end);
      }
      assert MessagesOk(t);
    }
  }

  /** Reporting one open window: it is reported for the first time, in full. */
  lemma {:induction false} ReportOneKeeps(s: Sink, end: nat, now: nat, clock: nat)
    requires Accounted(s) && end in s.windows
    ensures Accounted(ReportOne(s, end, now, clock))
  {
    var t := ReportOne(s, end, now, clock);
    assert OpenOk(s, end);
    forall i | 0 <= i < |t.reports|
      ensures ReportOk(t, t.reports[i])
      ensures i < |s.reports| ==> t.reports[i] == s.reports[i] && t.reports[i].end != end
    {
      if i < |s.reports| {
        assert ReportOk(s, s.reports[i]);
      }
    }
    forall e | e in t.windows
      ensures OpenOk(t, e)
    {
      assert OpenOk(s, e);
    }
    forall e | e in t.registered
      ensures e in t.windows || Reported(t, e)
    {
      if e == end {
        assert t.reports[|s.reports|].end == end;
      } else if e !in s.windows {
        var i :| 0 <= i < |s.reports| && s.reports[i].end == e;
        assert t.reports[i].end == e;
      }
    }
  }

  lemma {:induction false} ReportAllKeeps(s: Sink, ends: set<nat>, now: nat, clock: nat)
    requires Accounted(s) && ends <= s.windows.Keys
    ensures Accounted(ReportAll(s, ends, now, clock))
    ensures ReportAll(s, ends, now, clock).windows == s.windows - ends
    ensures s.reports <= ReportAll(s, ends, now, clock).reports
    ensures ReportAll(s, ends, now, clock).inFlight == s.inFlight
    ensures ReportAll(s, ends, now, clock).registered == s.registered
    decreases |ends|
  {
    hide Accounted, ReportOf;
    if ends == {} {
      assert s.windows - ends == s.windows;
    } else {
      var end := Least(ends);
      var t := ReportOne(s, end, now, clock);
      ReportOneKeeps(s, end, now, clock);
      ReportAllKeeps(t, ends - {end}, now, clock);
      assert s.windows - {end} - (ends - {end}) == s.windows - ends;
    }
  }

  // ---------- every run ----------

  datatype Event =
    | SendPoints(times: seq<nat>)
    | Answer(id: nat, now: nat, stored: bool)
    | Check(now: nat, clock: nat)

  ghost function Run(events: seq<Event>, size: nat, grace: nat): Sink
    requires size > 0
  {
    if events == [] then Idle
    else
      var s := Run(events[..|events| - 1], size, grace);
      match events[|events| - 1]
      case SendPoints(times) => AfterSend(s, times, size)
      case Answer(id, now, stored) => AfterAnswer(s, id, now, stored)
      case Check(now, clock) => AfterCheck(s, now, clock, grace)
  }

  /** In every run: in-flight counts are exact, every report adds up to the points sent for
      its window, and each window is reported at most once, although a report may overtake
      an older window that is still open. */
  lemma {:induction false} RunIsAccounted(events: seq<Event>, size: nat, grace: nat)
    requires size > 0
    ensures Accounted(Run(events, size, grace))
    decreases |events|
  {
    hide Accounted, AfterSend, AfterAnswer, ReportAll;
    if events == [] {
      IdleAccounted();
    } else {
      var s := Run(events[..|events| - 1], size, grace);
      RunIsAccounted(events[..|events| - 1], size, grace);
      match events[|events| - 1]
      case SendPoints(times) => SendKeeps(s, times, size);
      case Answer(id, now, stored) => AnsweredKeeps(s, id, now, stored);
      case Check(now, clock) => ReportAllKeeps(s, Ready(s, now, grace), now, clock);
    }
  }

  lemma {:induction false} IdleAccounted()
    ensures Accounted(Idle)
  {
  }

  /** Report `i` is that of window `end`, and accounts for every point sent for it. */
  ghost predicate ReportedInFull(s: Sink, i: int, end: nat) {
    && 0 <= i < |s.reports| && s.reports[i].end == end && end in s.registered
    && s.reports[i].points + s.reports[i].failed + s.reports[i].unacknowledged == s.registered[end]
  }

  /** Shutdown reports every window that is left: together with the earlier reports, every
      window that was ever sent is reported exactly once, with all its points. */
  lemma {:induction false} ShutdownReportsAll(events: seq<Event>, size: nat, grace: nat, clock: nat)
    requires size > 0
    requires forall end :: end in Run(events, size, grace).windows ==> end + 10 * grace <= U64_MAX
    ensures var s := AfterCheck(Run(events, size, grace), U64_MAX, clock, grace);
      && s.windows == map[]
      && s.registered == Run(events, size, grace).registered
      && forall end :: end in s.registered ==> exists i :: ReportedInFull(s, i, end)
  {
    hide Run;
    RunIsAccounted(events, size, grace);
    var before := Run(events, size, grace);
    var ready := Ready(before, U64_MAX, grace);
    assert ready == before.windows.Keys;
    ReportAllKeeps(before, ready, U64_MAX, clock);
    var s := AfterCheck(before, U64_MAX, clock, grace);
    assert s.windows == map[];
    forall end | end in s.registered
      ensures exists i :: ReportedInFull(s, i, end)
    {
      var i :| 0 <= i < |s.reports| && s.reports[i].end == end;
      assert ReportOk(s, s.reports[i]);
      assert ReportedInFull(s, i, end);
    }
  }

  // ---------- which points are registered ----------

  /** How many of some points fall into a window. */
  function Times(times: seq<nat>, size: nat, end: nat): nat
    requires size > 0
  {
    if times == [] then 0
    else Times(times[..|times| - 1], size, end) + if EndOf(size, times[|times| - 1]) == end then 1 else 0
  }

  /** How many points a run sent for a window. */
  ghost function SentFor(events: seq<Event>, size: nat, end: nat): nat
    requires size > 0
  {
    if events == [] then 0
    else
      SentFor(events[..|events| - 1], size, end)
      + if events[|events| - 1].SendPoints? then Times(events[|events| - 1].times, size, end) else 0
  }

  lemma {:induction false} ByWindowCounts(times: seq<nat>, size: nat, emittedUntil: nat, end: nat)
    requires size > 0
    ensures PointsAt(end)(ByWindow(times, size, emittedUntil)) == if end > emittedUntil then Times(times, size, end) else 0
    decreases |times|
  {
    hide EndOf;
    if times != [] {
      ByWindowCounts(times[..|times| - 1], size, emittedUntil, end);
    }
  }

  /** A point is registered exactly when its window ends after the last one reported. */
  lemma {:induction false} SendRegisters(s: Sink, times: seq<nat>, size: nat, end: nat)
    requires size > 0
    ensures CountIn(AfterSend(s, times, size).registered, end)
         == CountIn(s.registered, end) + if end > s.emittedUntil then Times(times, size, end) else 0
  {
    ByWindowCounts(times, size, s.emittedUntil, end);
    hide ByWindow, Latest, Counted, Times;
  }

  /** No point of a send falls into a window that ends at or before the last one reported. */
  ghost predicate NoneOvertaken(s: Sink, times: seq<nat>, size: nat)
    requires size > 0
  {
    forall i :: 0 <= i < |times| ==> EndOf(size, times[i]) > s.emittedUntil
  }

  ghost predicate NeverOvertaken(events: seq<Event>, size: nat, grace: nat)
    requires size > 0
  {
    events == [] || (
      var init, last := events[..|events| - 1], events[|events| - 1];
      NeverOvertaken(init, size, grace) && (last.SendPoints? ==> NoneOvertaken(Run(init, size, grace), last.times, size)))
  }

  lemma {:induction false} TimesThere(times: seq<nat>, size: nat, i: nat)
    requires size > 0 && i < |times|
    ensures Times(times, size, EndOf(size, times[i])) > 0
    decreases |times|
  {
    hide EndOf;
    if i < |times| - 1 {
      TimesThere(times[..|times| - 1], size, i);
    }
  }

  lemma {:induction false} TimesCome(times: seq<nat>, size: nat, end: nat)
    requires size > 0 && Times(times, size, end) > 0
    ensures exists i :: 0 <= i < |times| && EndOf(size, times[i]) == end
    decreases |times|
  {
    hide EndOf;
    if EndOf(size, times[|times| - 1]) != end {
      TimesCome(times[..|times| - 1], size, end);
      var i :| 0 <= i < |times| - 1 && EndOf(size, times[..|times| - 1][i]) == end;
      assert EndOf(size, times[i]) == end;
    }
  }

  /** A send registers all of its points exactly when none is overtaken. */
  lemma {:induction false} AllRegisteredWhen(s: Sink, times: seq<nat>, size: nat)
    requires size > 0
    ensures NoneOvertaken(s, times, size) <==> forall end: nat :: end <= s.emittedUntil ==> Times(times, size, end) == 0
  {
    hide EndOf, Times;
    if NoneOvertaken(s, times, size) {
      forall end: nat | end <= s.emittedUntil
        ensures Times(times, size, end) == 0
      {
        if Times(times, size, end) > 0 {
          TimesCome(times, size, end);
        }
      }
    } else {
      var i :| 0 <= i < |times| && EndOf(size, times[i]) <= s.emittedUntil;
      TimesThere(times, size, i);
    }
  }

  /** Every point sent is registered, window by window. */
  ghost predicate AllRegistered(events: seq<Event>, size: nat, grace: nat)
    requires size > 0
  {
    forall end: nat :: CountIn(Run(events, size, grace).registered, end) == SentFor(events, size, end)
  }

  lemma {:induction false} ReportsKeepRegistered(s: Sink, ends: set<nat>, now: nat, clock: nat)
    requires ends <= s.windows.Keys
    ensures ReportAll(s, ends, now, clock).registered == s.registered
    decreases |ends|
  {
    hide ReportOf;
    if ends != {} {
      ReportsKeepRegistered(ReportOne(s, Least(ends), now, clock), ends - {Least(ends)}, now, clock);
    }
  }

  /** One event registers what a send has beyond the last report, and nothing else. */
  lemma {:induction false} EventRegisters(events: seq<Event>, size: nat, grace: nat, end: nat)
    requires size > 0 && events != []
    ensures var init, last := events[..|events| - 1], events[|events| - 1];
      var s := Run(init, size, grace);
      CountIn(Run(events, size, grace).registered, end) == CountIn(s.registered, end)
        + if last.SendPoints? && end > s.emittedUntil then Times(last.times, size, end) else 0
  {
    hide AfterSend, ReportAll, Times, CountIn;
    var s := Run(events[..|events| - 1], size, grace);
    match events[|events| - 1]
    case SendPoints(times) => SendRegisters(s, times, size, end);
    case Answer(id, now, stored) =>
    case Check(now, clock) => ReportsKeepRegistered(s, Ready(s, now, grace), now, clock);
  }

  lemma {:induction false} RegisteredAtMost(events: seq<Event>, size: nat, grace: nat, end: nat)
    requires size > 0
    ensures CountIn(Run(events, size, grace).registered, end) <= SentFor(events, size, end)
    decreases |events|
  {
    hide Run, Times;
    if events == [] {
      NothingRegistered(size, grace, end);
    } else {
      RegisteredAtMost(events[..|events| - 1], size, grace, end);
      EventRegisters(events, size, grace, end);
    }
  }

  lemma {:induction false} NothingRegistered(size: nat, grace: nat, end: nat)
    requires size > 0
    ensures CountIn(Run([], size, grace).registered, end) == 0
  {
  }

  /** What one event adds for a window: registered, and sent. */
  lemma {:induction false} OneMoreEvent(events: seq<Event>, size: nat, grace: nat, end: nat)
    requires size > 0 && events != []
    ensures var init, last := events[..|events| - 1], events[|events| - 1];
      var s := Run(init, size, grace);
      var sent := if last.SendPoints? then Times(last.times, size, end) else 0;
      && CountIn(s.registered, end) <= SentFor(init, size, end)
      && SentFor(events, size, end) == SentFor(init, size, end) + sent
      && CountIn(Run(events, size, grace).registered, end) == CountIn(s.registered, end) + if end > s.emittedUntil then sent else 0
  {
    hide Run, Times, CountIn;
    EventRegisters(events, size, grace, end);
    RegisteredAtMost(events[..|events| - 1], size, grace, end);
  }

  lemma {:induction false} OneMoreRegistered(events: seq<Event>, size: nat, grace: nat)
    requires size > 0 && events != []
    ensures var init, last := events[..|events| - 1], events[|events| - 1];
      AllRegistered(events, size, grace)
      <==> AllRegistered(init, size, grace) && (last.SendPoints? ==> NoneOvertaken(Run(init, size, grace), last.times, size))
  {
    hide Run, Times, CountIn, SentFor, NoneOvertaken;
    var init, last := events[..|events| - 1], events[|events| - 1];
    var s := Run(init, size, grace);
    if last.SendPoints? {
      AllRegisteredWhen(s, last.times, size);
    }
    if AllRegistered(events, size, grace) {
      forall end: nat
        ensures CountIn(s.registered, end) == SentFor(init, size, end)
        ensures last.SendPoints? && end <= s.emittedUntil ==> Times(last.times, size, end) == 0
      {
        OneMoreEvent(events, size, grace, end);
      }
    }
    if AllRegistered(init, size, grace) && (last.SendPoints? ==> NoneOvertaken(s, last.times, size)) {
      forall end: nat
        ensures CountIn(Run(events, size, grace).registered, end) == SentFor(events, size, end)
      {
        OneMoreEvent(events, size, grace, end);
      }
    }
  }

  /** A run registers every point it sends exactly when no point is ever overtaken: when each
      window ends after the last one reported at the time of the send. */
  lemma {:induction false} RegisteredExactlyWhen(events: seq<Event>, size: nat, grace: nat)
    requires size > 0
    ensures AllRegistered(events, size, grace) <==> NeverOvertaken(events, size, grace)
    decreases |events|
  {
    hide Run, CountIn, NoneOvertaken, AllRegistered;
    if events == [] {
      NothingSent(size, grace);
    } else {
      RegisteredExactlyWhen(events[..|events| - 1], size, grace);
      OneMoreRegistered(events, size, grace);
    }
  }

  lemma {:induction false} NothingSent(size: nat, grace: nat)
    requires size > 0
    ensures AllRegistered([], size, grace)
  {
  }

  /** Points sent in time order, and no window reported before the source has moved past it. */
  ghost predicate Timely(events: seq<Event>, size: nat, grace: nat)
    requires size > 0
  {
    events == [] || (
      var init, last := events[..|events| - 1], events[|events| - 1];
      var s := Run(init, size, grace);
      && Timely(init, size, grace)
      && (last.SendPoints? ==> forall i :: 0 <= i < |last.times| ==> last.times[i] >= s.sentUntilMs)
      && (last.Check? ==> forall end :: end in Ready(s, last.now, grace) ==> end <= s.sentUntilMs))
  }

  lemma {:induction false} ReportsMove(s: Sink, ends: set<nat>, now: nat, clock: nat)
    requires ends <= s.windows.Keys && s.emittedUntil <= s.sentUntilMs && forall end :: end in ends ==> end <= s.sentUntilMs
    ensures var t := ReportAll(s, ends, now, clock); t.sentUntilMs == s.sentUntilMs && t.emittedUntil <= t.sentUntilMs
    decreases |ends|
  {
    hide ReportOf;
    if ends != {} {
      ReportsMove(ReportOne(s, Least(ends), now, clock), ends - {Least(ends)}, now, clock);
    }
  }

  lemma {:induction false} LatestGrows(times: seq<nat>, until: nat)
    ensures Latest(times, until) >= until
    decreases |times|
  {
    if times != [] {
      LatestGrows(times[..|times| - 1], until);
    }
  }

  lemma {:induction false} TimelyIsBehind(events: seq<Event>, size: nat, grace: nat)
    requires size > 0 && Timely(events, size, grace)
    ensures Run(events, size, grace).emittedUntil <= Run(events, size, grace).sentUntilMs
    decreases |events|
  {
    hide ReportAll, ByWindow, Counted, Settled, Latest;
    if events != [] {
      var init := events[..|events| - 1];
      var s := Run(init, size, grace);
      TimelyIsBehind(init, size, grace);
      match events[|events| - 1]
      case SendPoints(times) => LatestGrows(times, s.sentUntilMs);
      case Answer(id, now, stored) =>
      case Check(now, clock) => ReportsMove(s, Ready(s, now, grace), now, clock);
    }
  }

  lemma {:induction false} EndsLater(size: nat, time: nat)
    requires size > 0
    ensures EndOf(size, time) > time
  {
    assert time == time / size * size + time % size;
  }

  /** A timely run registers every point. */
  lemma {:induction false} TimelyRunsRegisterAll(events: seq<Event>, size: nat, grace: nat)
    requires size > 0 && Timely(events, size, grace)
    ensures AllRegistered(events, size, grace)
  {
    TimelyIsNeverOvertaken(events, size, grace);
    hide *;
    RegisteredExactlyWhen(events, size, grace);
  }

  lemma {:induction false} TimelyIsNeverOvertaken(events: seq<Event>, size: nat, grace: nat)
    requires size > 0 && Timely(events, size, grace)
    ensures NeverOvertaken(events, size, grace)
    decreases |events|
  {
    hide Run, EndOf, Ready;
    if events != [] {
      var init, last := events[..|events| - 1], events[|events| - 1];
      TimelyIsNeverOvertaken(init, size, grace);
      TimelyIsBehind(init, size, grace);
      if last.SendPoints? {
        forall i | 0 <= i < |last.times|
          ensures EndOf(size, last.times[i]) > Run(init, size, grace).emittedUntil
        {
          EndsLater(size, last.times[i]);
        }
      }
    }
  }

  // ---------- the sink ----------

  class RawSink {
    const windowMs: nat
    const graceMs: nat
    var windows: map<nat, RawWindow>
    var inFlight: map<nat, Message>
    var nextId: nat
    var emittedUntil: nat
    var sentUntilMs: nat
    ghost var registered: map<nat, nat>
    ghost var reports: seq<Report>

    ghost function State(): Sink
      reads this
    {
      Sink(windows, inFlight, nextId, emittedUntil, sentUntilMs, registered, reports)
    }

    ghost predicate Valid()
      reads this
    {
      windowMs > 0 && Accounted(State())
    }

    constructor (windowMs: nat, graceMs: nat)
      ensures Valid() && State() == Idle && this.windowMs == Max(windowMs, 1) && this.graceMs == graceMs
    {
      this.windowMs, this.graceMs := Max(windowMs, 1), graceMs;
      windows, inFlight, nextId, emittedUntil, sentUntilMs := map[], map[], 0, 0, 0;
      registered, reports := map[], [];
    }

    /** Register a message about to go to the store; returns its id. */
    method Send(times: seq<nat>) returns (id: nat)
      requires Valid()
      modifies this
      ensures Valid()
      ensures id == old(nextId) && State() == AfterSend(old(State()), times, windowMs)
    {
      hide Accounted, EndOf;
      ghost var before := State();
      var msg: Message := map[];
      assert times[..0] == [];
      for n := 0 to |times|
        invariant msg == ByWindow(times[..n], windowMs, before.emittedUntil)
        invariant sentUntilMs == Latest(times[..n], before.sentUntilMs)
        invariant State() == before.(sentUntilMs := sentUntilMs)
      {
        assert times[..n + 1][..n] == times[..n];
        sentUntilMs := Max(sentUntilMs, times[n]);
        var end := EndOf(windowMs, times[n]);
        if end > emittedUntil {
          msg := msg[end := (if end in msg then msg[end] else []) + [times[n]]];
        }
      }
      assert times[..|times|] == times;
      hide ByWindow, Latest;
      SendKeeps(before, times, windowMs);
      windows := CountSent(windows, msg);
      id := nextId;
      nextId := nextId + 1;
      inFlight := inFlight[id := msg];
      registered := AfterSend(before, times, windowMs).registered;
    }

    /** The store answered message `id` at `nowMs`. */
    method Answered(id: nat, nowMs: nat, stored: bool)
      requires Valid()
      modifies this
      ensures Valid()
      ensures State() == AfterAnswer(old(State()), id, nowMs, stored)
    {
      hide Accounted, Settled;
      AnsweredKeeps(State(), id, nowMs, stored);
      if id in inFlight {
        windows := SettleAll(windows, inFlight[id], nowMs, stored);
        inFlight := inFlight - {id};
      }
    }

    /** Report the windows that are ready; `clockMs` is the real time when `nowMs` is the
        shutdown time. */
    method Due(nowMs: nat, clockMs: nat) returns (out: seq<Report>)
      requires Valid()
      modifies this
      ensures Valid()
      ensures State() == AfterCheck(old(State()), nowMs, clockMs, graceMs)
      ensures reports == old(reports) + out
    {
      hide Accounted, ReportAll;
      ghost var before := State();
      var ready := set end | end in windows
        && (end <= sentUntilMs || end + graceMs <= nowMs)
        && (windows[end].inFlight == 0 || end + 10 * graceMs <= nowMs);
      assert ready == Ready(before, nowMs, graceMs);
      out := [];
      assert reports + [] == reports;
      while ready != {}
        invariant ready <= windows.Keys && windowMs > 0
        invariant Accounted(State())
        invariant ReportAll(State(), ready, nowMs, clockMs) == AfterCheck(before, nowMs, clockMs, graceMs)
        invariant reports == old(reports) + out
        decreases |ready|
      {
        var end := FirstOf(ready);
        ReportOneKeeps(State(), end, nowMs, clockMs);
        ReportFirst(State(), ready, end, nowMs, clockMs);
        var w := windows[end];
        var waiting := Waiting(inFlight, end);
        var report := Report(end, |w.transit|, w.failed, waiting, if waiting > 0 then Min(nowMs, clockMs) else w.lastAckMs);
        windows := windows - {end};
        emittedUntil := Max(emittedUntil, end);
        out := out + [report];
        reports := reports + [report];
        ready := ready - {end};
      }
      ReportNone(State(), nowMs, clockMs);
    }
  }

  lemma {:induction false} ReportFirst(s: Sink, ends: set<nat>, end: nat, now: nat, clock: nat)
    requires ends <= s.windows.Keys && end in ends && forall e :: e in ends ==> end <= e
    ensures ends - {end} <= ReportOne(s, end, now, clock).windows.Keys
    ensures ReportAll(s, ends, now, clock) == ReportAll(ReportOne(s, end, now, clock), ends - {end}, now, clock)
  {
    assert Least(ends) == end;
  }

  lemma {:induction false} ReportNone(s: Sink, now: nat, clock: nat)
    ensures ReportAll(s, {}, now, clock) == s
  {
  }

  /** One more message in flight for each window it lists. */
  method CountSent(windows: map<nat, RawWindow>, msg: Message) returns (r: map<nat, RawWindow>)
    ensures r == Counted(windows, msg)
  {
    hide CountedPart, CountOne;
    r := windows;
    var rest := msg.Keys;
    CountedStart(windows);
    assert msg.Keys - rest == {};
    while rest != {}
      invariant rest <= msg.Keys
      invariant CountedPart(r, windows, msg.Keys - rest)
      decreases |rest|
    {
      var end :| end in rest;
      CountedStep(r, windows, msg.Keys - rest, end);
      assert msg.Keys - (rest - {end}) == msg.Keys - rest + {end};
      r := r[end := CountOne(WindowOf(r, end))];
      rest := rest - {end};
    }
    assert msg.Keys - rest == msg.Keys;
    CountedIs(windows, msg, r);
  }

  /** `r` is `windows` with the windows in `done` counted. */
  ghost predicate CountedPart(r: map<nat, RawWindow>, windows: map<nat, RawWindow>, done: set<nat>) {
    && r.Keys == windows.Keys + done
    && forall end :: end in r ==> r[end] == if end in done then CountOne(WindowOf(windows, end)) else windows[end]
  }

  lemma {:induction false} CountedStart(windows: map<nat, RawWindow>)
    ensures CountedPart(windows, windows, {})
  {
  }

  lemma {:induction false} CountedStep(r: map<nat, RawWindow>, windows: map<nat, RawWindow>, done: set<nat>, end: nat)
    requires CountedPart(r, windows, done) && end !in done
    ensures CountedPart(r[end := CountOne(WindowOf(r, end))], windows, done + {end})
  {
    hide CountOne;
  }

  lemma {:induction false} CountedIs(windows: map<nat, RawWindow>, msg: Message, r: map<nat, RawWindow>)
    requires CountedPart(r, windows, msg.Keys)
    ensures r == Counted(windows, msg)
  {
    hide CountOne, WindowOf;
  }

  /** Settle every window a message lists that is still open. */
  method SettleAll(windows: map<nat, RawWindow>, msg: Message, now: nat, stored: bool) returns (r: map<nat, RawWindow>)
    ensures r == Settled(windows, msg, now, stored)
  {
    hide Settle, Settled;
    r := windows;
    var rest := msg.Keys;
    while rest != {}
      invariant rest <= msg.Keys
      invariant r.Keys == windows.Keys
      invariant forall end :: end in r ==>
        r[end] == if end in msg && end !in rest then Settle(windows[end], msg[end], now, stored) else windows[end]
      decreases |rest|
    {
      var end :| end in rest;
      if end in r {
        r := r[end := Settle(r[end], msg[end], now, stored)];
      }
      rest := rest - {end};
    }
    SettledIs(windows, msg, now, stored, r);
  }

  lemma {:induction false} SettledIs(windows: map<nat, RawWindow>, msg: Message, now: nat, stored: bool, r: map<nat, RawWindow>)
    requires r.Keys == windows.Keys
    requires forall end :: end in r ==> r[end] == if end in msg then Settle(windows[end], msg[end], now, stored) else windows[end]
    ensures r == Settled(windows, msg, now, stored)
  {
    hide Settle;
  }

  /** The points of window `end` in all unanswered messages. */
  method Waiting(inFlight: map<nat, Message>, end: nat) returns (n: nat)
    ensures n == Unacknowledged(inFlight, end)
  {
    n := 0;
    var rest := inFlight;
    while rest != map[]
      invariant n + MapSum(rest, PointsAt(end)) == Unacknowledged(inFlight, end)
      decreases |rest|
    {
      var id :| id in rest;
      MapSumRemove(rest, id, PointsAt(end));
      SmallerMap(rest, id);
      if end in rest[id] {
        n := n + |rest[id][end]|;
      }
      rest := rest - {id};
    }
  }

  method FirstOf(ends: set<nat>) returns (first: nat)
    requires ends != {}
    ensures first in ends && forall e :: e in ends ==> first <= e
  {
    first :| first in ends;
    var rest := ends - {first};
    while rest != {}
      invariant rest <= ends && first in ends
      invariant forall e :: e in ends && e !in rest ==> first <= e
      decreases |rest|
    {
      var e :| e in rest;
      rest := rest - {e};
      if e < first {
        first := e;
      }
    }
  }
}
