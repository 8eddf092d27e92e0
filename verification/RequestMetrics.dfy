/** Timing and token accounting of one request (core/request_metrics.py). */
module RequestMetrics {
  import opened Options

  datatype Phase = Preparing | ModelWait | ResponseProcessing | Tools | Saving

  const PHASES: seq<Phase> := [Preparing, ModelWait, ResponseProcessing, Tools, Saving]

  datatype Status = Completed | Blocked | Failed | Cancelled | TimedOut

  datatype TokenUsage = TokenUsage(input: nat, output: nat)

  /** What a model call reports: no usage, something that is not a usage, or a usage. */
  datatype Report = Missing | Malformed | Reported(usage: TokenUsage)

  datatype Snapshot = Snapshot(
    duration: real, status: Status, usage: Option<TokenUsage>, phases: seq<(Phase, real)>)

  datatype Metrics = Metrics(
    started: real, phase: Phase, phaseTick: real, totals: map<Phase, real>,
    calls: nat, complete: bool, input: nat, output: nat, snapshot: Option<Snapshot>)
  {
    predicate Valid() { forall p :: p in totals }
  }

  function NotNegative(x: real): (r: real)
    ensures r >= 0.0 && r >= x
  {
    if x < 0.0 then 0.0 else x
  }

  lemma EveryPhaseListed(totals: map<Phase, real>)
    requires forall p :: p in PHASES ==> p in totals
    ensures forall p: Phase :: p in totals
  {
    forall p: Phase ensures p in PHASES {
      match p {
        case Preparing => assert PHASES[0] == p;
        case ModelWait => assert PHASES[1] == p;
        case ResponseProcessing => assert PHASES[2] == p;
        case Tools => assert PHASES[3] == p;
        case Saving => assert PHASES[4] == p;
      }
    }
  }

  function Start(tick: real): (m: Metrics)
    ensures m.Valid()
  {
    var totals := map[Preparing := 0.0, ModelWait := 0.0, ResponseProcessing := 0.0, Tools := 0.0, Saving := 0.0];
    EveryPhaseListed(totals);
    Metrics(tick, Preparing, tick, totals, 0, true, 0, 0, None)
  }

  function ClosePhase(m: Metrics, now: real): map<Phase, real>
    requires m.Valid()
  {
    m.totals[m.phase := m.totals[m.phase] + NotNegative(now - m.phaseTick)]
  }

  function MarkPhase(m: Metrics, phase: Phase, now: real): Metrics
    requires m.Valid()
  {
    if m.snapshot.Some? || phase == m.phase then m
    else m.(totals := ClosePhase(m, now), phase := phase, phaseTick := now)
  }

  function RecordUsage(m: Metrics, report: Report): Metrics {
    if m.snapshot.Some? then m
    else match report
      case Missing => m.(calls := m.calls + 1, complete := false)
      case Malformed => m.(calls := m.calls + 1)
      case Reported(u) => m.(calls := m.calls + 1, input := m.input + u.input, output := m.output + u.output)
  }

  function Positive(totals: map<Phase, real>, phases: seq<Phase>): seq<(Phase, real)>
    requires forall p :: p in phases ==> p in totals
  {
    if phases == [] then []
    else
      var p := phases[|phases| - 1];
      Positive(totals, phases[..|phases| - 1]) + if totals[p] > 0.0 then [(p, totals[p])] else []
  }

  function Stop(m: Metrics, status: Status, now: real): Metrics
    requires m.Valid()
  {
    if m.snapshot.Some? then m
    else
      var totals := ClosePhase(m, now);
      var usage := if m.calls > 0 && m.complete then Some(TokenUsage(m.input, m.output)) else None;
      m.(totals := totals,
         snapshot := Some(Snapshot(NotNegative(now - m.started), status, usage, Positive(totals, PHASES))))
  }

  // ---- runs ----

  datatype Event = Mark(phase: Phase, now: real) | Record(report: Report) | Finish(status: Status, now: real)

  function Next(m: Metrics, e: Event): (n: Metrics)
    requires m.Valid()
    ensures n.Valid()
  {
    match e
    case Mark(phase, now) => MarkPhase(m, phase, now)
    case Record(report) => RecordUsage(m, report)
    case Finish(status, now) => Stop(m, status, now)
  }

  function Run(tick: real, events: seq<Event>): (m: Metrics)
    ensures m.Valid()
  {
    if events == [] then Start(tick) else Next(Run(tick, events[..|events| - 1]), events[|events| - 1])
  }

  /** The time by which a reading of the clock went back behind the last one that was used. */
  function Regression(m: Metrics, e: Event): real {
    if m.snapshot.Some? || e.Record? || (e.Mark? && e.phase == m.phase) then 0.0
    else NotNegative(m.phaseTick - e.now)
  }

  function Regressions(tick: real, events: seq<Event>): real {
    if events == [] then 0.0
    else
      var n := |events| - 1;
      Regressions(tick, events[..n]) + Regression(Run(tick, events[..n]), events[n])
  }

  function SumTotals(totals: map<Phase, real>): real
    requires forall p :: p in totals
  {
    totals[Preparing] + totals[ModelWait] + totals[ResponseProcessing] + totals[Tools] + totals[Saving]
  }

  function SumPhases(phases: seq<(Phase, real)>): real {
    if phases == [] then 0.0 else SumPhases(phases[..|phases| - 1]) + phases[|phases| - 1].1
  }

  /** The last reading of the clock that was used. */
  function LastReading(tick: real, events: seq<Event>): real {
    if events == [] then tick
    else
      var n := |events| - 1;
      var m, e := Run(tick, events[..n]), events[n];
      if m.snapshot.Some? || e.Record? || (e.Mark? && e.phase == m.phase) then LastReading(tick, events[..n]) else e.now
  }

  lemma CloseAddsTime(m: Metrics, now: real)
    requires m.Valid()
    ensures SumTotals(ClosePhase(m, now)) == SumTotals(m.totals) + now - m.phaseTick + NotNegative(m.phaseTick - now)
    ensures (forall p :: m.totals[p] >= 0.0) ==> forall p :: ClosePhase(m, now)[p] >= 0.0
  {
    match m.phase
    case Preparing =>
    case ModelWait =>
    case ResponseProcessing =>
    case Tools =>
    case Saving =>
  }

  lemma PositiveKeepsSum(totals: map<Phase, real>)
    requires forall p :: p in totals && totals[p] >= 0.0
    ensures SumPhases(Positive(totals, PHASES)) == SumTotals(totals)
  {
    assert PHASES[..4] == [Preparing, ModelWait, ResponseProcessing, Tools];
    assert PHASES[..4][..3] == [Preparing, ModelWait, ResponseProcessing];
    assert PHASES[..4][..3][..2] == [Preparing, ModelWait];
    assert PHASES[..4][..3][..2][..1] == [Preparing];
    SumPositive(totals, [], Preparing);
    SumPositive(totals, [Preparing], ModelWait);
    SumPositive(totals, [Preparing, ModelWait], ResponseProcessing);
    SumPositive(totals, [Preparing, ModelWait, ResponseProcessing], Tools);
    SumPositive(totals, [Preparing, ModelWait, ResponseProcessing, Tools], Saving);
  }

  lemma SumPositive(totals: map<Phase, real>, phases: seq<Phase>, p: Phase)
    requires forall q :: q in totals && totals[q] >= 0.0
    ensures SumPhases(Positive(totals, phases + [p])) == SumPhases(Positive(totals, phases)) + totals[p]
  {
    var before := Positive(totals, phases);
    assert (phases + [p])[..|phases|] == phases;
    assert (before + [(p, totals[p])])[..|before|] == before;
    assert before + [] == before;
  }

  /** Time is conserved over every run: the totals account for all the time between the start
      and the last reading used, plus every step by which the clock went backwards.  The
      snapshot's duration is the time to the reading at which it was made. */
  lemma {:induction false} RunConservesTime(tick: real, events: seq<Event>)
    ensures var m := Run(tick, events);
            && m.started == tick && (forall p :: m.totals[p] >= 0.0) && Regressions(tick, events) >= 0.0
            && SumTotals(m.totals) == LastReading(tick, events) - tick + Regressions(tick, events)
            && (m.snapshot.None? ==> m.phaseTick == LastReading(tick, events))
            && (m.snapshot.Some? ==>
                 && m.snapshot.value.duration == NotNegative(LastReading(tick, events) - tick)
                 && SumPhases(m.snapshot.value.phases) == SumTotals(m.totals))
    decreases |events|
  {
    hide Positive, SumPhases;
    if events != [] {
      var n := |events| - 1;
      var m, e := Run(tick, events[..n]), events[n];
      RunConservesTime(tick, events[..n]);
      if m.snapshot.None? && !e.Record? {
        CloseAddsTime(m, e.now);
        PositiveKeepsSum(ClosePhase(m, e.now));
      }
    }
  }

  /** The phase durations of a snapshot sum to its duration exactly when the clock never went
      backwards or no phase took any time; a monotone clock is enough. */
  lemma PhasesSumToDuration(tick: real, events: seq<Event>)
    requires Run(tick, events).snapshot.Some?
    ensures var s := Run(tick, events).snapshot.value;
            SumPhases(s.phases) == s.duration <==> Regressions(tick, events) == 0.0 || SumPhases(s.phases) == 0.0
  {
    RunConservesTime(tick, events);
  }

  // ---- which phase the time belongs to ----

  /** The time `phase` gets from the events on, when `current` is running since `last`: a stretch
      lasts from the reading that began it to the mark of another phase or to the finish, and
      counts as nothing when the clock went backwards. */
  function Spent(phase: Phase, current: Phase, last: real, events: seq<Event>): real
    decreases |events|
  {
    if events == [] then 0.0
    else match events[0]
      case Record(_) => Spent(phase, current, last, events[1..])
      case Mark(next, now) =>
        if next == current then Spent(phase, current, last, events[1..])
        else Stretch(phase, current, last, now) + Spent(phase, next, now, events[1..])
      case Finish(_, now) => Stretch(phase, current, last, now)
  }

  function Stretch(phase: Phase, current: Phase, last: real, now: real): real {
    if phase == current && now > last then now - last else 0.0
  }

  /** The first finish among the events. */
  function FirstFinish(events: seq<Event>): Option<(Status, real)> {
    if events == [] then None
    else match events[0]
      case Finish(status, now) => Some((status, now))
      case _ => FirstFinish(events[1..])
  }

  function RunFrom(m: Metrics, events: seq<Event>): (after: Metrics)
    requires m.Valid()
    ensures after.Valid()
    decreases |events|
  {
    if events == [] then m else RunFrom(Next(m, events[0]), events[1..])
  }

  lemma {:induction false} RunFromExtends(m: Metrics, events: seq<Event>, e: Event)
    requires m.Valid()
    ensures RunFrom(m, events + [e]) == Next(RunFrom(m, events), e)
    decreases |events|
  {
    hide Next;
    if events == [] {
      assert ([] + [e])[1..] == [];
      assert RunFrom(m, [] + [e]) == RunFrom(Next(m, e), []);
    } else {
      assert (events + [e])[1..] == events[1..] + [e];
      RunFromExtends(Next(m, events[0]), events[1..], e);
    }
  }

  lemma {:induction false} RunFromStart(tick: real, events: seq<Event>)
    ensures Run(tick, events) == RunFrom(Start(tick), events)
    decreases |events|
  {
    hide Next, Start;
    if events != [] {
      var n := |events| - 1;
      RunFromStart(tick, events[..n]);
      RunFromExtends(Start(tick), events[..n], events[n]);
      assert events == events[..n] + [events[n]];
    }
  }

  lemma {:induction false} FinishedStays(m: Metrics, events: seq<Event>)
    requires m.Valid() && m.snapshot.Some?
    ensures RunFrom(m, events) == m
    decreases |events|
  {
    if events != [] { FinishedStays(m, events[1..]); }
  }

  lemma NextTime(m: Metrics, phase: Phase, e: Event)
    requires m.Valid() && m.snapshot.None?
    ensures var n := Next(m, e);
            if e.Record? || (e.Mark? && e.phase == m.phase)
            then n.snapshot.None? && n.totals == m.totals && n.phase == m.phase && n.phaseTick == m.phaseTick
            else && n.totals[phase] == m.totals[phase] + Stretch(phase, m.phase, m.phaseTick, e.now)
                 && (e.Mark? ==> n.snapshot.None? && n.phase == e.phase && n.phaseTick == e.now)
                 && (e.Finish? ==> n.snapshot.Some?)
  {
    hide Positive;
  }

  lemma {:induction false} TimeFrom(m: Metrics, phase: Phase, events: seq<Event>)
    requires m.Valid() && m.snapshot.None?
    ensures RunFrom(m, events).totals[phase] == m.totals[phase] + Spent(phase, m.phase, m.phaseTick, events)
    decreases |events|
  {
    hide Next, Stretch;
    if events != [] {
      var n := Next(m, events[0]);
      NextTime(m, phase, events[0]);
      if n.snapshot.Some? { FinishedStays(n, events[1..]); } else { TimeFrom(n, phase, events[1..]); }
    }
  }

  /** Every phase is credited with exactly its own stretches. */
  lemma TimeIsCredited(tick: real, events: seq<Event>, phase: Phase)
    ensures Run(tick, events).totals[phase] == Spent(phase, Preparing, tick, events)
  {
    RunFromStart(tick, events);
    TimeFrom(Start(tick), phase, events);
  }

  /** A phase is shown when it took time. */
  function Shown(phase: Phase, time: real): seq<(Phase, real)> {
    if time > 0.0 then [(phase, time)] else []
  }

  lemma PositiveShows(totals: map<Phase, real>, phases: seq<Phase>, p: Phase)
    requires forall q :: q in totals
    ensures Positive(totals, phases + [p]) == Positive(totals, phases) + Shown(p, totals[p])
  {
    assert (phases + [p])[..|phases|] == phases;
  }

  lemma NothingShown(totals: map<Phase, real>)
    ensures Positive(totals, []) == []
  {
  }

  lemma PhasesShown(totals: map<Phase, real>)
    requires forall q :: q in totals
    ensures Positive(totals, PHASES) ==
            Shown(Preparing, totals[Preparing]) + Shown(ModelWait, totals[ModelWait])
            + Shown(ResponseProcessing, totals[ResponseProcessing]) + Shown(Tools, totals[Tools])
            + Shown(Saving, totals[Saving])
  {
    hide Shown, Positive;
    var one, two := [Preparing], [Preparing, ModelWait];
    var three, four := [Preparing, ModelWait, ResponseProcessing], [Preparing, ModelWait, ResponseProcessing, Tools];
    assert PHASES == four + [Saving] && four == three + [Tools] && three == two + [ResponseProcessing];
    assert two == one + [ModelWait] && one == [] + [Preparing];
    PositiveShows(totals, four, Saving);
    PositiveShows(totals, three, Tools);
    PositiveShows(totals, two, ResponseProcessing);
    PositiveShows(totals, one, ModelWait);
    PositiveShows(totals, [], Preparing);
    NothingShown(totals);
    assert [] + Shown(Preparing, totals[Preparing]) == Shown(Preparing, totals[Preparing]);
  }

  lemma {:induction false} SnapshotFrom(m: Metrics, events: seq<Event>)
    requires m.Valid() && m.snapshot.None?
    ensures var s, finish := RunFrom(m, events).snapshot, FirstFinish(events);
            && (s.Some? <==> finish.Some?)
            && (s.Some? ==>
                 && s.value.status == finish.value.0
                 && s.value.duration == (if finish.value.1 > m.started then finish.value.1 - m.started else 0.0)
                 && s.value.phases == Positive(RunFrom(m, events).totals, PHASES))
    decreases |events|
  {
    hide Positive, ClosePhase;
    if events != [] {
      var n := Next(m, events[0]);
      if n.snapshot.Some? { FinishedStays(n, events[1..]); } else { SnapshotFrom(n, events[1..]); }
    }
  }

  /** The whole snapshot by the events alone: it is made at the first finish, keeps its status,
      lasts from the start to it, and shows each phase that took time, in the order of the phases. */
  lemma SnapshotIsExact(tick: real, events: seq<Event>)
    ensures var s, finish := Run(tick, events).snapshot, FirstFinish(events);
            var spent := (p: Phase) => Spent(p, Preparing, tick, events);
            && (s.Some? <==> finish.Some?)
            && (s.Some? ==>
                 && s.value.status == finish.value.0
                 && s.value.duration == (if finish.value.1 > tick then finish.value.1 - tick else 0.0)
                 && s.value.phases == Shown(Preparing, spent(Preparing)) + Shown(ModelWait, spent(ModelWait))
                      + Shown(ResponseProcessing, spent(ResponseProcessing)) + Shown(Tools, spent(Tools))
                      + Shown(Saving, spent(Saving)))
  {
    hide Positive, Shown, Spent;
    RunFromStart(tick, events);
    SnapshotFrom(Start(tick), events);
    PhasesShown(Run(tick, events).totals);
    TimeIsCredited(tick, events, Preparing);
    TimeIsCredited(tick, events, ModelWait);
    TimeIsCredited(tick, events, ResponseProcessing);
    TimeIsCredited(tick, events, Tools);
    TimeIsCredited(tick, events, Saving);
  }

  // ---- tokens ----

  /** The reports recorded before the first finish. */
  function Reports(events: seq<Event>): seq<Report> {
    if events == [] then []
    else match events[0]
      case Finish(_, _) => []
      case Record(r) => [r] + Reports(events[1..])
      case Mark(_, _) => Reports(events[1..])
  }

  predicate Finished(events: seq<Event>) {
    exists i :: 0 <= i < |events| && events[i].Finish?
  }

  function InputSum(reports: seq<Report>): nat {
    if reports == [] then 0
    else
      var last := reports[|reports| - 1];
      InputSum(reports[..|reports| - 1]) + if last.Reported? then last.usage.input else 0
  }

  function OutputSum(reports: seq<Report>): nat {
    if reports == [] then 0
    else
      var last := reports[|reports| - 1];
      OutputSum(reports[..|reports| - 1]) + if last.Reported? then last.usage.output else 0
  }

  lemma {:induction false} ReportsExtend(events: seq<Event>, e: Event)
    ensures Reports(events + [e]) == Reports(events) + if e.Record? && !Finished(events) then [e.report] else []
    decreases |events|
  {
    if events != [] {
      assert (events + [e])[1..] == events[1..] + [e];
      ReportsExtend(events[1..], e);
      if i :| 0 <= i < |events[1..]| && events[1..][i].Finish? { assert events[i + 1].Finish?; }
      if i :| 0 <= i < |events| && events[i].Finish? && i > 0 { assert events[1..][i - 1].Finish?; }
    } else {
      assert ([] + [e])[1..] == [];
    }
  }

  lemma FinishedExtends(events: seq<Event>, e: Event)
    ensures Finished(events + [e]) <==> Finished(events) || e.Finish?
  {
    if i :| 0 <= i < |events| && events[i].Finish? { assert (events + [e])[i].Finish?; }
    if e.Finish? { assert (events + [e])[|events|].Finish?; }
  }

  lemma SumsExtend(reports: seq<Report>, r: Report)
    ensures var (usage, more) := (if r.Reported? then r.usage else TokenUsage(0, 0), reports + [r]);
            && InputSum(more) == InputSum(reports) + usage.input
            && OutputSum(more) == OutputSum(reports) + usage.output
            && (Missing in more <==> Missing in reports || r == Missing)
  {
    assert (reports + [r])[..|reports|] == reports;
  }

  /** The counters are the exact sums of what was reported before the request finished; the
      snapshot gives them exactly when some call was recorded and none lacked its usage.  A
      malformed report counts as a call. */
  lemma {:induction false} UsageIsExact(tick: real, events: seq<Event>)
    ensures var m, reports := Run(tick, events), Reports(events);
            && (m.snapshot.Some? <==> Finished(events))
            && m.calls == |reports| && (m.complete <==> Missing !in reports)
            && m.input == InputSum(reports) && m.output == OutputSum(reports)
            && (m.snapshot.Some? ==>
                 m.snapshot.value.usage ==
                 if reports != [] && Missing !in reports
                 then Some(TokenUsage(InputSum(reports), OutputSum(reports))) else None)
    decreases |events|
  {
    hide ClosePhase, Positive, NotNegative;
    if events != [] {
      var n := |events| - 1;
      UsageIsExact(tick, events[..n]);
      ReportsExtend(events[..n], events[n]);
      FinishedExtends(events[..n], events[n]);
      assert events == events[..n] + [events[n]];
      if events[n].Record? { SumsExtend(Reports(events[..n]), events[n].report); }
      assert Reports(events[..n]) + [] == Reports(events[..n]);
      hide Reports, Finished, InputSum, OutputSum;
    }
  }

  /** Once finished, nothing that is called later changes anything. */
  lemma {:induction false} FinishedIsFinal(tick: real, events: seq<Event>, later: seq<Event>)
    requires Run(tick, events).snapshot.Some?
    ensures Run(tick, events + later) == Run(tick, events)
    decreases |later|
  {
    if later == [] {
      assert events + later == events;
    } else {
      var n := |later| - 1;
      FinishedIsFinal(tick, events, later[..n]);
      assert (events + later)[..|events + later| - 1] == events + later[..n];
    }
  }

  // ---- the object ----

  class RequestMeter {
    var metrics: Metrics

    ghost predicate Valid()
      reads this
    {
      metrics.Valid()
    }

    constructor (tick: real)
      ensures Valid() && metrics == Run(tick, [])
    {
      metrics := Start(tick);
    }

    method Mark(phase: Phase, now: real)
      requires Valid()
      modifies this
      ensures Valid() && metrics == Next(old(metrics), Event.Mark(phase, now))
    {
      if metrics.snapshot.Some? || phase == metrics.phase { return; }
      var spent := NotNegative(now - metrics.phaseTick);
      metrics := metrics.(totals := metrics.totals[metrics.phase := metrics.totals[metrics.phase] + spent]);
      metrics := metrics.(phase := phase, phaseTick := now);
    }

    method Record(report: Report) returns (accepted: bool)
      requires Valid()
      modifies this
      ensures Valid() && metrics == Next(old(metrics), Event.Record(report))
      ensures accepted <==> old(metrics).snapshot.Some? || !report.Malformed?
    {
      if metrics.snapshot.Some? { return true; }
      metrics := metrics.(calls := metrics.calls + 1);
      match report {
        case Missing => metrics := metrics.(complete := false);
        case Malformed => return false;
        case Reported(u) =>
          metrics := metrics.(input := metrics.input + u.input, output := metrics.output + u.output);
      }
      return true;
    }

    method Finish(status: Status, now: real) returns (snapshot: Snapshot)
      requires Valid()
      modifies this
      ensures Valid() && metrics == Next(old(metrics), Event.Finish(status, now))
      ensures metrics.snapshot == Some(snapshot)
      ensures old(metrics).snapshot.Some? ==> snapshot == old(metrics).snapshot.value
    {
      if metrics.snapshot.Some? { return metrics.snapshot.value; }
      var spent := NotNegative(now - metrics.phaseTick);
      metrics := metrics.(totals := metrics.totals[metrics.phase := metrics.totals[metrics.phase] + spent]);
      var usage := if metrics.calls > 0 && metrics.complete
                   then Some(TokenUsage(metrics.input, metrics.output)) else None;
      snapshot := Snapshot(NotNegative(now - metrics.started), status, usage, Positive(metrics.totals, PHASES));
      metrics := metrics.(snapshot := Some(snapshot));
    }
  }
}
