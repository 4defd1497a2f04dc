/** What each report of the raw sink says. */
module RawReports {
  import opened Basics
  import opened RawSinks

  /** The window of a point is the one it falls into. */
  lemma {:induction false} WindowOfTime(size: nat, time: nat, end: nat)
    requires size > 0
    ensures EndOf(size, time) == end <==> time < end <= time + size && end % size == 0
  {
    NextEnd(time, size, end);
  }

  // ---------- a run, by its events ----------

  /** How many messages were sent; they are numbered from 0. */
  ghost function Sends(events: seq<Event>): nat {
    if events == [] then 0 else Sends(events[..|events| - 1]) + if events[|events| - 1].SendPoints? then 1 else 0
  }

  /** The registered points of message `id` in a window: those that fall into it, if it ended after
      the last one reported when the message was sent. */
  ghost function PointsOf(events: seq<Event>, size: nat, grace: nat, id: nat, end: nat): nat
    requires size > 0
  {
    if events == [] then 0
    else
      var init, last := events[..|events| - 1], events[|events| - 1];
      if last.SendPoints? && id == Sends(init) then
        if end > Run(init, size, grace).emittedUntil then Times(last.times, size, end) else 0
      else PointsOf(init, size, grace, id, end)
  }

  /** Message `id` was answered after it was sent. */
  ghost predicate Answered(events: seq<Event>, id: nat) {
    events != [] && (
      var init, last := events[..|events| - 1], events[|events| - 1];
      Answered(init, id) || (last.Answer? && last.id == id && id < Sends(init)))
  }

  /** An answer to a message that waits for one. */
  ghost predicate Answers(events: seq<Event>, event: Event) {
    event.Answer? && event.id < Sends(events) && !Answered(events, event.id)
  }

  /** The points of a window in messages that were answered as stored, or as failed. */
  ghost function AnsweredAs(events: seq<Event>, size: nat, grace: nat, end: nat, stored: bool): nat
    requires size > 0
  {
    if events == [] then 0
    else
      var init, last := events[..|events| - 1], events[|events| - 1];
      AnsweredAs(init, size, grace, end, stored)
      + if Answers(init, last) && last.stored == stored then PointsOf(init, size, grace, last.id, end) else 0
  }

  /** The points of a window in the first `n` messages that were not answered. */
  ghost function WaitingUpTo(events: seq<Event>, size: nat, grace: nat, end: nat, n: nat): nat
    requires size > 0
  {
    if n == 0 then 0
    else WaitingUpTo(events, size, grace, end, n - 1) + if Answered(events, n - 1) then 0 else PointsOf(events, size, grace, n - 1, end)
  }

  ghost function Waiting(events: seq<Event>, size: nat, grace: nat, end: nat): nat
    requires size > 0
  {
    WaitingUpTo(events, size, grace, end, Sends(events))
  }

  /** The latest time at which a message with points of the window was answered as stored, or 0. */
  ghost function LatestStored(events: seq<Event>, size: nat, grace: nat, end: nat): nat
    requires size > 0
  {
    if events == [] then 0
    else
      var init, last := events[..|events| - 1], events[|events| - 1];
      var before := LatestStored(init, size, grace, end);
      if Answers(init, last) && last.stored && PointsOf(init, size, grace, last.id, end) > 0 then Max(before, last.now) else before
  }

  // ---------- the messages in flight ----------

  ghost predicate FlightAgrees(s: Sink, events: seq<Event>, size: nat, grace: nat)
    requires size > 0
  {
    && s.nextId == Sends(events)
    && (forall id: nat :: id in s.inFlight <==> id < Sends(events) && !Answered(events, id))
    && forall id, end :: id in s.inFlight ==> PointsAt(end)(s.inFlight[id]) == PointsOf(events, size, grace, id, end)
  }

  lemma {:induction false} NotAnsweredYet(events: seq<Event>, id: nat)
    requires id >= Sends(events)
    ensures !Answered(events, id)
    decreases |events|
  {
    if events != [] {
      NotAnsweredYet(events[..|events| - 1], id);
    }
  }

  lemma {:induction false} FlightAfterSend(s: Sink, events: seq<Event>, size: nat, grace: nat)
    requires size > 0 && events != [] && events[|events| - 1].SendPoints?
    requires s == Run(events[..|events| - 1], size, grace) && FlightAgrees(s, events[..|events| - 1], size, grace)
    ensures FlightAgrees(AfterSend(s, events[|events| - 1].times, size), events, size, grace)
  {
    hide Run, ByWindow, Counted, Latest, Times;
    var init, times := events[..|events| - 1], events[|events| - 1].times;
    NotAnsweredYet(init, s.nextId);
    forall end: nat
      ensures PointsAt(end)(ByWindow(times, size, s.emittedUntil)) == if end > s.emittedUntil then Times(times, size, end) else 0
    {
      ByWindowCounts(times, size, s.emittedUntil, end);
    }
  }

  lemma {:induction false} FlightAfterAnswer(s: Sink, events: seq<Event>, size: nat, grace: nat)
    requires size > 0 && events != [] && events[|events| - 1].Answer?
    requires FlightAgrees(s, events[..|events| - 1], size, grace)
    ensures var last := events[|events| - 1];
      FlightAgrees(AfterAnswer(s, last.id, last.now, last.stored), events, size, grace)
  {
    hide Run, Settled;
  }

  lemma {:induction false} ReportsKeepFlight(s: Sink, ends: set<nat>, now: nat, clock: nat)
    requires ends <= s.windows.Keys
    ensures ReportAll(s, ends, now, clock).inFlight == s.inFlight
    ensures ReportAll(s, ends, now, clock).nextId == s.nextId
    ensures ReportAll(s, ends, now, clock).sentUntilMs == s.sentUntilMs
    decreases |ends|
  {
    hide ReportOf;
    if ends != {} {
      ReportsKeepFlight(ReportOne(s, Least(ends), now, clock), ends - {Least(ends)}, now, clock);
    }
  }

  lemma {:induction false} FlightAfterCheck(s: Sink, events: seq<Event>, size: nat, grace: nat)
    requires size > 0 && events != [] && events[|events| - 1].Check?
    requires FlightAgrees(s, events[..|events| - 1], size, grace)
    ensures var last := events[|events| - 1];
      FlightAgrees(AfterCheck(s, last.now, last.clock, grace), events, size, grace)
  {
    hide Run, ReportAll, Ready;
    var last := events[|events| - 1];
    ReportsKeepFlight(s, Ready(s, last.now, grace), last.now, last.clock) by { ReadyIsOpen(s, last.now, grace); }
    ReadyIsOpen(s, last.now, grace);
  }

  lemma {:induction false} ReadyIsOpen(s: Sink, now: nat, grace: nat)
    ensures Ready(s, now, grace) <= s.windows.Keys
  {
  }

  /** In every run the messages in flight are those sent and not answered, with their points. */
  lemma {:induction false} FlightIsRun(events: seq<Event>, size: nat, grace: nat)
    requires size > 0
    ensures FlightAgrees(Run(events, size, grace), events, size, grace)
    decreases |events|
  {
    hide FlightAgrees, AfterSend, AfterAnswer, AfterCheck;
    if events == [] {
      NothingInFlight(size, grace);
    } else {
      FlightIsRun(events[..|events| - 1], size, grace);
      var s := Run(events[..|events| - 1], size, grace);
      match events[|events| - 1]
      case SendPoints(_) => FlightAfterSend(s, events, size, grace);
      case Answer(_, _, _) => FlightAfterAnswer(s, events, size, grace);
      case Check(_, _) => FlightAfterCheck(s, events, size, grace);
    }
  }

  lemma {:induction false} NothingInFlight(size: nat, grace: nat)
    requires size > 0
    ensures FlightAgrees(Idle, [], size, grace)
  {
  }

  /** A sum over messages numbered below `n` is the sum number by number. */
  lemma {:induction false} WaitingIsSum(m: map<nat, Message>, events: seq<Event>, size: nat, grace: nat, end: nat, n: nat)
    requires size > 0
    requires forall id: nat :: id in m <==> id < n && !Answered(events, id)
    requires forall id :: id in m ==> PointsAt(end)(m[id]) == PointsOf(events, size, grace, id, end)
    ensures MapSum(m, PointsAt(end)) == WaitingUpTo(events, size, grace, end, n)
    decreases n
  {
    hide Answered, PointsOf;
    if n == 0 {
      assert m == map[];
    } else if n - 1 in m {
      var last: nat := n - 1;
      MapSumRemove(m, last, PointsAt(end));
      WaitingIsSum(m - {last}, events, size, grace, end, last);
    } else {
      WaitingIsSum(m, events, size, grace, end, n - 1);
    }
  }

  lemma {:induction false} UnacknowledgedIsWaiting(events: seq<Event>, size: nat, grace: nat, end: nat)
    requires size > 0
    ensures Unacknowledged(Run(events, size, grace).inFlight, end) == Waiting(events, size, grace, end)
  {
    FlightIsRun(events, size, grace);
    hide Run, Answered, PointsOf, PointsAt, Sends;
    WaitingIsSum(Run(events, size, grace).inFlight, events, size, grace, end, Sends(events));
  }

  // ---------- the open windows ----------

  /** An open window holds what was answered of its points. */
  ghost predicate WindowAgrees(w: RawWindow, events: seq<Event>, size: nat, grace: nat, end: nat)
    requires size > 0
  {
    && |w.transit| == AnsweredAs(events, size, grace, end, true)
    && w.failed == AnsweredAs(events, size, grace, end, false)
    && w.lastAckMs == LatestStored(events, size, grace, end)
  }

  /** A window that no message in flight has points of, and that is not open, has had no answer. */
  ghost predicate WindowsAgree(s: Sink, events: seq<Event>, size: nat, grace: nat)
    requires size > 0
  {
    && (forall end :: end in s.windows ==> WindowAgrees(s.windows[end], events, size, grace, end))
    && forall end: nat :: end !in s.windows && end > s.emittedUntil ==> WindowAgrees(NewWindow, events, size, grace, end)
  }

  lemma {:induction false} SendKeepsWindow(w: RawWindow, events: seq<Event>, size: nat, grace: nat, end: nat)
    requires size > 0 && events != [] && !events[|events| - 1].Answer?
    ensures WindowAgrees(w, events, size, grace, end) <==> WindowAgrees(w, events[..|events| - 1], size, grace, end)
  {
    hide PointsOf, Answered, Sends;
  }

  lemma {:induction false} WindowsAfterSend(s: Sink, events: seq<Event>, size: nat, grace: nat)
    requires size > 0 && events != [] && events[|events| - 1].SendPoints?
    requires WindowsAgree(s, events[..|events| - 1], size, grace)
    ensures WindowsAgree(AfterSend(s, events[|events| - 1].times, size), events, size, grace)
  {
    var times := events[|events| - 1].times;
    ByWindowOk(times, size, s.emittedUntil);
    hide ByWindow, Latest, AnsweredAs, LatestStored;
    var t := AfterSend(s, times, size);
    forall end | end in t.windows
      ensures WindowAgrees(t.windows[end], events, size, grace, end)
    {
      SendKeepsWindow(t.windows[end], events, size, grace, end);
      assert end !in s.windows ==> WindowAgrees(NewWindow, events[..|events| - 1], size, grace, end);
    }
    forall end: nat | end !in t.windows && end > t.emittedUntil
      ensures WindowAgrees(NewWindow, events, size, grace, end)
    {
      SendKeepsWindow(NewWindow, events, size, grace, end);
    }
  }

  /** What an answer to a waiting message adds. */
  lemma {:induction false} AnswerAdds(events: seq<Event>, size: nat, grace: nat, end: nat)
    requires size > 0 && events != [] && events[|events| - 1].Answer?
    ensures var init, last := events[..|events| - 1], events[|events| - 1];
      var points := if Answers(init, last) then PointsOf(init, size, grace, last.id, end) else 0;
      && AnsweredAs(events, size, grace, end, true) == AnsweredAs(init, size, grace, end, true) + (if last.stored then points else 0)
      && AnsweredAs(events, size, grace, end, false) == AnsweredAs(init, size, grace, end, false) + (if last.stored then 0 else points)
      && LatestStored(events, size, grace, end) ==
           (if last.stored && points > 0 then Max(LatestStored(init, size, grace, end), last.now) else LatestStored(init, size, grace, end))
  {
    hide PointsOf, Answered, Sends;
  }

  lemma {:induction false} SettledAgrees(w: RawWindow, times: seq<nat>, events: seq<Event>, size: nat, grace: nat, end: nat)
    requires size > 0 && events != [] && events[|events| - 1].Answer?
    requires WindowAgrees(w, events[..|events| - 1], size, grace, end)
    requires Answers(events[..|events| - 1], events[|events| - 1])
    requires |times| == PointsOf(events[..|events| - 1], size, grace, events[|events| - 1].id, end)
    ensures var last := events[|events| - 1];
      WindowAgrees(if times != [] then Settle(w, times, last.now, last.stored) else w, events, size, grace, end)
  {
    hide PointsOf, Answers, AnsweredAs, LatestStored, Transit;
    AnswerAdds(events, size, grace, end);
  }

  lemma {:induction false} UnansweredAgrees(w: RawWindow, events: seq<Event>, size: nat, grace: nat, end: nat)
    requires size > 0 && events != [] && events[|events| - 1].Answer?
    requires WindowAgrees(w, events[..|events| - 1], size, grace, end)
    requires !Answers(events[..|events| - 1], events[|events| - 1]) || PointsOf(events[..|events| - 1], size, grace, events[|events| - 1].id, end) == 0
    ensures WindowAgrees(w, events, size, grace, end)
  {
    hide PointsOf, Answers, AnsweredAs, LatestStored;
    AnswerAdds(events, size, grace, end);
  }

  lemma {:induction false} WindowAfterAnswer(s: Sink, events: seq<Event>, size: nat, grace: nat, end: nat)
    requires size > 0 && events != [] && events[|events| - 1].Answer?
    requires Accounted(s) && FlightAgrees(s, events[..|events| - 1], size, grace) && WindowsAgree(s, events[..|events| - 1], size, grace)
    ensures var last := events[|events| - 1];
      var t := AfterAnswer(s, last.id, last.now, last.stored);
      && (end in t.windows ==> WindowAgrees(t.windows[end], events, size, grace, end))
      && (end !in t.windows && end > t.emittedUntil ==> WindowAgrees(NewWindow, events, size, grace, end))
  {
    var init, last := events[..|events| - 1], events[|events| - 1];
    assert last.id in s.inFlight <==> Answers(init, last);
    assert last.id in s.inFlight ==> MessageOk(s.inFlight[last.id], s.registered);
    hide WindowAgrees, OpenOk, ReportOk, PointsOf, Answers, Answered, Sends, Settle, MapSum;
    if last.id in s.inFlight {
      var msg := s.inFlight[last.id];
      assert PointsAt(end)(msg) == PointsOf(init, size, grace, last.id, end);
      if end in s.windows {
        SettledAgrees(s.windows[end], if end in msg then msg[end] else [], events, size, grace, end);
      } else if end > s.emittedUntil {
        assert end !in msg by { NotListed(s, last.id, end); }
        UnansweredAgrees(NewWindow, events, size, grace, end);
      }
    } else {
      if end in s.windows {
        UnansweredAgrees(s.windows[end], events, size, grace, end);
      } else if end > s.emittedUntil {
        UnansweredAgrees(NewWindow, events, size, grace, end);
      }
    }
  }

  lemma {:induction false} NotListed(s: Sink, id: nat, end: nat)
    requires Accounted(s) && id in s.inFlight && end !in s.windows && end > s.emittedUntil
    ensures end !in s.inFlight[id]
  {
    hide MapSum, PointsAt, CountAt;
    NothingWaits(s, end);
    assert MessageOk(s.inFlight[id], s.registered);
  }

  lemma {:induction false} WindowsAfterAnswer(s: Sink, events: seq<Event>, size: nat, grace: nat)
    requires size > 0 && events != [] && events[|events| - 1].Answer?
    requires Accounted(s) && FlightAgrees(s, events[..|events| - 1], size, grace) && WindowsAgree(s, events[..|events| - 1], size, grace)
    ensures var last := events[|events| - 1];
      WindowsAgree(AfterAnswer(s, last.id, last.now, last.stored), events, size, grace)
  {
    hide Accounted, FlightAgrees, WindowAgrees, AfterAnswer;
    var last := events[|events| - 1];
    var t := AfterAnswer(s, last.id, last.now, last.stored);
    forall end | end in t.windows
      ensures WindowAgrees(t.windows[end], events, size, grace, end)
    {
      WindowAfterAnswer(s, events, size, grace, end);
    }
    forall end: nat | end !in t.windows && end > t.emittedUntil
      ensures WindowAgrees(NewWindow, events, size, grace, end)
    {
      WindowAfterAnswer(s, events, size, grace, end);
    }
  }

  // ---------- the reports ----------

  /** A report made after `events`: what was stored, failed and is waiting of the points registered for
      its window, and when the last of them was stored, or the report made. */
  ghost predicate ReportTrue(r: Report, events: seq<Event>, size: nat, grace: nat, now: nat, clock: nat)
    requires size > 0
  {
    && r.points == AnsweredAs(events, size, grace, r.end, true)
    && r.failed == AnsweredAs(events, size, grace, r.end, false)
    && r.unacknowledged == Waiting(events, size, grace, r.end)
    && r.completeMs == if r.unacknowledged > 0 then Min(now, clock) else LatestStored(events, size, grace, r.end)
  }

  ghost predicate ReportsTrue(reports: seq<Report>, events: seq<Event>, size: nat, grace: nat, now: nat, clock: nat)
    requires size > 0
  {
    forall i :: 0 <= i < |reports| ==> ReportTrue(reports[i], events, size, grace, now, clock)
  }

  lemma {:induction false} ReportOfTrue(s: Sink, events: seq<Event>, size: nat, grace: nat, end: nat, now: nat, clock: nat)
    requires size > 0 && end in s.windows && WindowAgrees(s.windows[end], events, size, grace, end)
    requires Unacknowledged(s.inFlight, end) == Waiting(events, size, grace, end)
    ensures ReportTrue(ReportOf(s, end, now, clock), events, size, grace, now, clock)
  {
    hide AnsweredAs, LatestStored, Unacknowledged, Waiting;
  }

  ghost predicate WaitingAgrees(s: Sink, events: seq<Event>, size: nat, grace: nat)
    requires size > 0
  {
    forall end: nat :: Unacknowledged(s.inFlight, end) == Waiting(events, size, grace, end)
  }

  lemma {:induction false} ReportAllTrue(s: Sink, events: seq<Event>, size: nat, grace: nat, ends: set<nat>, now: nat, clock: nat)
    requires size > 0 && ends <= s.windows.Keys && WindowsAgree(s, events, size, grace) && WaitingAgrees(s, events, size, grace)
    ensures var t := ReportAll(s, ends, now, clock);
      && WindowsAgree(t, events, size, grace)
      && s.reports <= t.reports && ReportsTrue(t.reports[|s.reports|..], events, size, grace, now, clock)
    decreases |ends|
  {
    hide WindowAgrees, ReportOf, ReportTrue, Unacknowledged, Waiting;
    if ends == {} {
      assert s.reports[|s.reports|..] == [];
    } else {
      var end := Least(ends);
      var one := ReportOne(s, end, now, clock);
      ReportOfTrue(s, events, size, grace, end, now, clock);
      ReportAllTrue(one, events, size, grace, ends - {end}, now, clock);
      NewReports(s.reports, ReportOf(s, end, now, clock), ReportAll(s, ends, now, clock).reports, events, size, grace, now, clock);
    }
  }

  lemma {:induction false} NewReports(before: seq<Report>, r: Report, after: seq<Report>, events: seq<Event>, size: nat, grace: nat, now: nat, clock: nat)
    requires size > 0 && before + [r] <= after && ReportTrue(r, events, size, grace, now, clock)
    requires ReportsTrue(after[|before| + 1..], events, size, grace, now, clock)
    ensures before <= after && ReportsTrue(after[|before|..], events, size, grace, now, clock)
  {
    hide ReportTrue;
    var all := after[|before|..];
    assert all[0] == r;
    assert forall i :: 1 <= i < |all| ==> all[i] == after[|before| + 1..][i - 1];
  }

  lemma {:induction false} WindowsAfterCheck(s: Sink, events: seq<Event>, size: nat, grace: nat)
    requires size > 0 && events != [] && events[|events| - 1].Check?
    requires WindowsAgree(s, events[..|events| - 1], size, grace) && WaitingAgrees(s, events[..|events| - 1], size, grace)
    ensures var init, last := events[..|events| - 1], events[|events| - 1];
      var t := AfterCheck(s, last.now, last.clock, grace);
      && WindowsAgree(t, events, size, grace)
      && s.reports <= t.reports && ReportsTrue(t.reports[|s.reports|..], init, size, grace, last.now, last.clock)
  {
    var init, last := events[..|events| - 1], events[|events| - 1];
    ReadyIsOpen(s, last.now, grace);
    ReportAllTrue(s, init, size, grace, Ready(s, last.now, grace), last.now, last.clock);
    hide WindowAgrees, ReportTrue, Ready, ReportAll, WaitingAgrees;
    var t := AfterCheck(s, last.now, last.clock, grace);
    forall end | end in t.windows
      ensures WindowAgrees(t.windows[end], events, size, grace, end)
    {
      SendKeepsWindow(t.windows[end], events, size, grace, end);
    }
    forall end: nat | end !in t.windows && end > t.emittedUntil
      ensures WindowAgrees(NewWindow, events, size, grace, end)
    {
      SendKeepsWindow(NewWindow, events, size, grace, end);
    }
  }

  lemma {:induction false} WindowsAreRun(events: seq<Event>, size: nat, grace: nat)
    requires size > 0
    ensures WindowsAgree(Run(events, size, grace), events, size, grace)
    ensures WaitingAgrees(Run(events, size, grace), events, size, grace)
    decreases |events|
  {
    hide WindowsAgree, Accounted, FlightAgrees, AfterSend, AfterAnswer, AfterCheck, Unacknowledged, Waiting;
    forall end: nat
      ensures Unacknowledged(Run(events, size, grace).inFlight, end) == Waiting(events, size, grace, end)
    {
      UnacknowledgedIsWaiting(events, size, grace, end);
    }
    if events == [] {
      NoWindows(size, grace);
    } else {
      var init := events[..|events| - 1];
      WindowsAreRun(init, size, grace);
      RunIsAccounted(init, size, grace);
      FlightIsRun(init, size, grace);
      var s := Run(init, size, grace);
      match events[|events| - 1]
      case SendPoints(_) => WindowsAfterSend(s, events, size, grace);
      case Answer(_, _, _) => WindowsAfterAnswer(s, events, size, grace);
      case Check(_, _) => WindowsAfterCheck(s, events, size, grace);
    }
  }

  lemma {:induction false} NoWindows(size: nat, grace: nat)
    requires size > 0
    ensures WindowsAgree(Idle, [], size, grace)
  {
  }

  /** In every run each check adds true reports: of the registered points of its window each counts
      those whose message was answered as stored, those answered as failed and those still
      unanswered, and it is complete at the latest storing answer if none is left waiting. */
  lemma {:induction false} ReportsTellTheTruth(events: seq<Event>, size: nat, grace: nat, n: nat)
    requires size > 0 && n < |events| && events[n].Check?
    ensures var before, after := Run(events[..n], size, grace).reports, Run(events[..n + 1], size, grace).reports;
      before <= after && ReportsTrue(after[|before|..], events[..n], size, grace, events[n].now, events[n].clock)
  {
    hide WindowsAgree, ReportsTrue, AfterCheck, WaitingAgrees;
    WindowsAreRun(events[..n], size, grace);
    assert events[..n + 1][..n] == events[..n];
    WindowsAfterCheck(Run(events[..n], size, grace), events[..n + 1], size, grace);
  }

  /** Only checks report. */
  lemma {:induction false} OnlyChecksReport(events: seq<Event>, size: nat, grace: nat)
    requires size > 0 && events != [] && !events[|events| - 1].Check?
    ensures Run(events, size, grace).reports == Run(events[..|events| - 1], size, grace).reports
  {
    hide ByWindow, Counted, Settled, Latest;
  }

  // ---------- which windows a check reports ----------

  /** Some point sent is at or after a time. */
  ghost predicate SentAt(events: seq<Event>, t: nat) {
    exists n, i :: 0 <= n < |events| && events[n].SendPoints? && 0 <= i < |events[n].times| && events[n].times[i] >= t
  }

  lemma {:induction false} SentAtPush(events: seq<Event>, t: nat)
    requires events != []
    ensures var init, last := events[..|events| - 1], events[|events| - 1];
      SentAt(events, t) <==> SentAt(init, t) || (last.SendPoints? && exists i :: 0 <= i < |last.times| && last.times[i] >= t)
  {
    var init := events[..|events| - 1];
    assert forall n :: 0 <= n < |init| ==> init[n] == events[n];
  }

  lemma {:induction false} LatestReaches(times: seq<nat>, until: nat, t: nat)
    ensures Latest(times, until) >= t <==> until >= t || exists i :: 0 <= i < |times| && times[i] >= t
    decreases |times|
  {
    if times != [] {
      LatestReaches(times[..|times| - 1], until, t);
      assert forall i :: 0 <= i < |times| - 1 ==> times[..|times| - 1][i] == times[i];
    }
  }

  lemma {:induction false} SentUntilIs(events: seq<Event>, size: nat, grace: nat, t: nat)
    requires size > 0 && t > 0
    ensures Run(events, size, grace).sentUntilMs >= t <==> SentAt(events, t)
    decreases |events|
  {
    hide ByWindow, Counted, Settled, Latest, ReportAll, Ready, SentAt;
    if events == [] {
      assert !SentAt([], t) by { NothingSentAt(t); }
    } else {
      var init := events[..|events| - 1];
      var s := Run(init, size, grace);
      SentUntilIs(init, size, grace, t);
      SentAtPush(events, t);
      match events[|events| - 1]
      case SendPoints(times) => LatestReaches(times, s.sentUntilMs, t);
      case Answer(_, _, _) =>
      case Check(now, clock) =>
        ReadyIsOpen(s, now, grace);
        ReportsKeepFlight(s, Ready(s, now, grace), now, clock);
    }
  }

  lemma {:induction false} NothingSentAt(t: nat)
    ensures !SentAt([], t)
  {
  }

  /** The points registered for a window. */
  ghost function Registered(events: seq<Event>, size: nat, grace: nat, end: nat): nat
    requires size > 0
  {
    if events == [] then 0
    else
      var init, last := events[..|events| - 1], events[|events| - 1];
      Registered(init, size, grace, end)
      + if last.SendPoints? && end > Run(init, size, grace).emittedUntil then Times(last.times, size, end) else 0
  }

  lemma {:induction false} RegisteredIs(events: seq<Event>, size: nat, grace: nat, end: nat)
    requires size > 0
    ensures CountIn(Run(events, size, grace).registered, end) == Registered(events, size, grace, end)
    decreases |events|
  {
    hide Run, Times;
    if events == [] {
      NothingRegistered(size, grace, end);
    } else {
      RegisteredIs(events[..|events| - 1], size, grace, end);
      EventRegisters(events, size, grace, end);
    }
  }

  ghost predicate AllPositive(registered: map<nat, nat>) {
    forall end :: end in registered ==> registered[end] > 0
  }

  lemma {:induction false} RegisteredPositive(events: seq<Event>, size: nat, grace: nat)
    requires size > 0
    ensures AllPositive(Run(events, size, grace).registered)
    decreases |events|
  {
    hide ByWindow, Counted, Settled, Latest, ReportAll, Ready;
    if events != [] {
      var init := events[..|events| - 1];
      var s := Run(init, size, grace);
      RegisteredPositive(init, size, grace);
      match events[|events| - 1]
      case SendPoints(times) => ByWindowOk(times, size, s.emittedUntil);
      case Answer(_, _, _) =>
      case Check(now, clock) =>
        ReadyIsOpen(s, now, grace);
        ReportsKeepRegistered(s, Ready(s, now, grace), now, clock);
    }
  }

  /** A window is open exactly when points were registered for it and it was not reported. */
  lemma {:induction false} OpenExactlyWhen(events: seq<Event>, size: nat, grace: nat, end: nat)
    requires size > 0
    ensures var s := Run(events, size, grace);
      end in s.windows <==> Registered(events, size, grace, end) > 0 && !Reported(s, end)
  {
    RunIsAccounted(events, size, grace);
    RegisteredIs(events, size, grace, end);
    RegisteredPositive(events, size, grace);
    hide Run, Registered;
    var s := Run(events, size, grace);
    if end in s.windows {
      assert OpenOk(s, end);
      assert forall i :: 0 <= i < |s.reports| && ReportOk(s, s.reports[i]) ==> s.reports[i].end != end;
    }
  }

  /** No message in flight has points of a window exactly when its counter is 0. */
  lemma {:induction false} NoneInFlight(s: Sink, end: nat)
    requires Accounted(s) && end in s.windows
    ensures s.windows[end].inFlight == 0 <==> Unacknowledged(s.inFlight, end) == 0
  {
    assert OpenOk(s, end);
    hide Accounted;
    SumsVanish(s, end);
  }

  lemma {:induction false} SumsVanish(s: Sink, end: nat)
    requires Accounted(s)
    ensures MapSum(s.inFlight, CountAt(end)) == 0 <==> MapSum(s.inFlight, PointsAt(end)) == 0
  {
    forall id | id in s.inFlight
      ensures CountAt(end)(s.inFlight[id]) == 0 <==> PointsAt(end)(s.inFlight[id]) == 0
    {
      assert MessageOk(s.inFlight[id], s.registered);
    }
    hide CountAt, PointsAt, Accounted;
    BothVanish(s.inFlight, CountAt(end), PointsAt(end));
  }

  lemma {:induction false} BothVanish(m: map<nat, Message>, f: Message -> nat, g: Message -> nat)
    requires forall id :: id in m ==> (f(m[id]) == 0 <==> g(m[id]) == 0)
    ensures MapSum(m, f) == 0 <==> MapSum(m, g) == 0
    decreases |m|
  {
    if m != map[] {
      var k :| k in m;
      SmallerMap(m, k);
      MapSumRemove(m, k, f);
      MapSumRemove(m, k, g);
      BothVanish(m - {k}, f, g);
    }
  }

  /** A window that a check at `now` reports: points were registered for it and it was not reported; a
      point at or after its end was sent, or it ended a grace ago; and none of its points waits for
      an answer, or it ended ten graces ago. */
  ghost predicate Due(events: seq<Event>, size: nat, grace: nat, end: nat, now: nat)
    requires size > 0
  {
    && Registered(events, size, grace, end) > 0 && !Reported(Run(events, size, grace), end)
    && (SentAt(events, end) || end + grace <= now)
    && (Waiting(events, size, grace, end) == 0 || end + 10 * grace <= now)
  }

  lemma {:induction false} ReadyIsDue(events: seq<Event>, size: nat, grace: nat, end: nat, now: nat)
    requires size > 0 && end > 0
    ensures end in Ready(Run(events, size, grace), now, grace) <==> Due(events, size, grace, end, now)
  {
    OpenExactlyWhen(events, size, grace, end);
    SentUntilIs(events, size, grace, end);
    UnacknowledgedIsWaiting(events, size, grace, end);
    RunIsAccounted(events, size, grace);
    hide Run, Registered, SentAt, Waiting, Accounted, Reported, Unacknowledged;
    var s := Run(events, size, grace);
    if end in s.windows {
      NoneInFlight(s, end);
    }
  }

  lemma {:induction false} ReportAllReports(s: Sink, ends: set<nat>, now: nat, clock: nat, end: nat)
    requires ends <= s.windows.Keys
    ensures Reported(ReportAll(s, ends, now, clock), end) <==> Reported(s, end) || end in ends
    decreases |ends|
  {
    hide ReportOf, Reported;
    if ends != {} {
      var least := Least(ends);
      ReportOneReports(s, least, now, clock, end);
      ReportAllReports(ReportOne(s, least, now, clock), ends - {least}, now, clock, end);
    }
  }

  lemma {:induction false} ReportOneReports(s: Sink, end: nat, now: nat, clock: nat, e: nat)
    requires end in s.windows
    ensures Reported(ReportOne(s, end, now, clock), e) <==> Reported(s, e) || e == end
  {
    var t := ReportOne(s, end, now, clock);
    assert t.reports[|s.reports|].end == end;
    assert forall i :: 0 <= i < |s.reports| ==> t.reports[i] == s.reports[i];
  }

  /** In every run a check reports exactly the windows that are due. */
  lemma {:induction false} CheckReportsExactly(events: seq<Event>, size: nat, grace: nat, n: nat, end: nat)
    requires size > 0 && n < |events| && events[n].Check? && end > 0
    ensures Reported(Run(events[..n + 1], size, grace), end) <==>
      Reported(Run(events[..n], size, grace), end) || Due(events[..n], size, grace, end, events[n].now)
  {
    ReadyIsDue(events[..n], size, grace, end, events[n].now);
    assert events[..n + 1][..n] == events[..n];
    hide Due, Reported, Ready, ReportAll;
    var s := Run(events[..n], size, grace);
    ReadyIsOpen(s, events[n].now, grace);
    ReportAllReports(s, Ready(s, events[n].now, grace), events[n].now, events[n].clock, end);
  }
}
