/** Safety incidents: the cached severity and throttle, and the escalation of repeated criticals. */
module Incidents {
  import opened Common

  const CASCADE_THRESHOLD := 3
  const CASCADE_WINDOW := 60.0

  datatype Severity = Warning | Critical | Emergency {
    function Rank(): nat {
      match this
      case Warning => 1
      case Critical => 2
      case Emergency => 3
    }
  }

  datatype Status = Open | Resolved

  datatype Incident = Incident(severity: Severity, status: Status)

  type Id = string
  type Incidents = map<Id, Incident>

  predicate IsOpen(incidents: Incidents, id: Id) {
    id in incidents && incidents[id].status.Open?
  }

  function MultiplierFor(active: Option<Severity>): real {
    match active
    case None => 1.0
    case Some(Warning) => 0.5
    case Some(_) => 0.0
  }

  /** The severity recomputed from scratch: the highest among open incidents, if any is open. */
  ghost predicate IsHighest(incidents: Incidents, active: Option<Severity>) {
    match active
    case None => forall id :: id in incidents ==> !IsOpen(incidents, id)
    case Some(severity) =>
      && (exists id :: IsOpen(incidents, id) && incidents[id].severity == severity)
      && (forall id :: IsOpen(incidents, id) ==> incidents[id].severity.Rank() <= severity.Rank())
  }

  lemma {:induction false} HighestIsUnique(incidents: Incidents, a: Option<Severity>, b: Option<Severity>)
    requires IsHighest(incidents, a) && IsHighest(incidents, b)
    ensures a == b
  {
    if a.Some? {
      var id :| IsOpen(incidents, id) && incidents[id].severity == a.value;
      assert id in incidents;
    }
    if b.Some? {
      var id :| IsOpen(incidents, id) && incidents[id].severity == b.value;
      assert id in incidents;
    }
  }

  // ----- The history, which the controller itself does not keep ---------------------------------

  /** A report carries its time, its new id, and the id that an escalation would get. */
  datatype Event = Report(severity: Severity, now: real, id: Id, cascadeId: Id) | Resolve(id: Id)

  /** The times no more than a window before `now`. */
  function InWindow(times: seq<real>, now: real): (r: seq<real>)
    ensures |r| <= |times|
  {
    if times == [] then []
    else (if times[0] >= now - CASCADE_WINDOW then [times[0]] else []) + InWindow(times[1..], now)
  }

  /** Three criticals in the window, this one included, escalate. */
  predicate Escalates(earlier: seq<real>, now: real) {
    |InWindow(earlier + [now], now)| >= CASCADE_THRESHOLD
  }

  /** The times of all criticals since the last escalation, however old. */
  function Criticals(history: seq<Event>): seq<real> {
    if history == [] then []
    else
      var earlier, e := Criticals(history[..|history| - 1]), history[|history| - 1];
      if !(e.Report? && e.severity.Critical?) then earlier
      else if Escalates(earlier, e.now) then []
      else earlier + [e.now]
  }

  function AfterEvent(incidents: Incidents, earlier: seq<real>, e: Event): Incidents {
    match e
    case Report(severity, now, id, cascadeId) =>
      var reported := incidents[id := Incident(severity, Open)];
      if severity.Critical? && Escalates(earlier, now) then reported[cascadeId := Incident(Emergency, Open)]
        else reported
    case Resolve(id) =>
      if id in incidents then incidents[id := incidents[id].(status := Resolved)] else incidents
  }

  function IncidentsOf(history: seq<Event>): Incidents {
    if history == [] then map[]
    else
      var before := history[..|history| - 1];
      AfterEvent(IncidentsOf(before), Criticals(before), history[|history| - 1])
  }

  /** Reports bring new ids, and the clock does not run backwards. */
  ghost predicate CanFollow(history: seq<Event>, e: Event) {
    e.Report? ==>
      && e.id !in IncidentsOf(history) && e.cascadeId !in IncidentsOf(history) && e.id != e.cascadeId
      && (Criticals(history) != [] ==> Criticals(history)[|Criticals(history)| - 1] <= e.now)
  }

  ghost predicate WellFormed(history: seq<Event>) {
    history != [] ==>
      && WellFormed(history[..|history| - 1])
      && CanFollow(history[..|history| - 1], history[|history| - 1])
  }

  // ----- Windows -------------------------------------------------------------------------------

  ghost predicate Ascending(times: seq<real>) {
    forall i, j :: 0 <= i <= j < |times| ==> times[i] <= times[j]
  }

  lemma Regroup(a: seq<real>, b: seq<real>, c: seq<real>)
    ensures a + b + c == a + (b + c)
  {
  }

  lemma {:induction false} InWindowAppend(a: seq<real>, b: seq<real>, now: real)
    ensures InWindow(a + b, now) == InWindow(a, now) + InWindow(b, now)
  {
    if a == [] {
      assert a + b == b;
    } else {
      assert (a + b)[0] == a[0] && (a + b)[1..] == a[1..] + b;
      InWindowAppend(a[1..], b, now);
      Regroup(if a[0] >= now - CASCADE_WINDOW then [a[0]] else [], InWindow(a[1..], now), InWindow(b, now));
    }
  }

  /** What an earlier pruning dropped is outside every later window. */
  lemma {:induction false} PruningLosesNothing(times: seq<real>, pruned: real, now: real)
    requires pruned <= now
    ensures InWindow(InWindow(times, pruned), now) == InWindow(times, now)
  {
    if times != [] {
      PruningLosesNothing(times[1..], pruned, now);
      var kept := if times[0] >= pruned - CASCADE_WINDOW then [times[0]] else [];
      InWindowAppend(kept, InWindow(times[1..], pruned), now);
    }
  }

  lemma {:induction false} NoneInWindow(times: seq<real>, now: real)
    requires forall i :: 0 <= i < |times| ==> times[i] < now - CASCADE_WINDOW
    ensures InWindow(times, now) == []
  {
    if times != [] {
      NoneInWindow(times[1..], now);
    }
  }

  /** With an honest clock, a critical escalates exactly when the second one before it is still in the window. */
  lemma {:induction false} EscalatesIff(earlier: seq<real>, now: real)
    requires Ascending(earlier) && (earlier != [] ==> earlier[|earlier| - 1] <= now)
    ensures Escalates(earlier, now) <==> |earlier| >= 2 && earlier[|earlier| - 2] >= now - CASCADE_WINDOW
  {
    var n := |earlier|;
    InWindowAppend(earlier, [now], now);
    if n >= 2 {
      assert earlier == earlier[..n - 2] + earlier[n - 2..];
      assert earlier == earlier[..n - 1] + earlier[n - 1..];
      InWindowAppend(earlier[..n - 2], earlier[n - 2..], now);
      InWindowAppend(earlier[..n - 1], earlier[n - 1..], now);
      if earlier[n - 2] >= now - CASCADE_WINDOW {
      } else {
        NoneInWindow(earlier[..n - 1], now);
      }
    }
  }

  lemma {:induction false} CriticalsAscend(history: seq<Event>)
    requires WellFormed(history)
    ensures Ascending(Criticals(history))
  {
    if history != [] {
      CriticalsAscend(history[..|history| - 1]);
    }
  }

  /** The times the controller keeps: those in the window of the latest critical. */
  function Pruned(times: seq<real>): seq<real> {
    if times == [] then [] else InWindow(times, times[|times| - 1])
  }

  lemma {:induction false} PruneStep(earlier: seq<real>, now: real)
    requires earlier != [] ==> earlier[|earlier| - 1] <= now
    ensures InWindow(Pruned(earlier) + [now], now) == InWindow(earlier + [now], now) == Pruned(earlier + [now])
  {
    InWindowAppend(Pruned(earlier), [now], now);
    InWindowAppend(earlier, [now], now);
    if earlier != [] {
      PruningLosesNothing(earlier, earlier[|earlier| - 1], now);
    }
  }

  // ----- The controller ------------------------------------------------------------------------

  function HigherOf(active: Option<Severity>, severity: Severity): Option<Severity> {
    if active.None? || severity.Rank() > active.value.Rank() then Some(severity) else active
  }

  lemma {:induction false} HigherAfterOpening(
    incidents: Incidents, active: Option<Severity>, id: Id, severity: Severity)
    requires IsHighest(incidents, active) && id !in incidents
    ensures IsHighest(incidents[id := Incident(severity, Open)], HigherOf(active, severity))
  {
    var grown := incidents[id := Incident(severity, Open)];
    assert IsOpen(grown, id) && grown[id].severity == severity;
    forall other | IsOpen(grown, other) && other != id ensures IsOpen(incidents, other) {
    }
    if active.Some? {
      var top :| IsOpen(incidents, top) && incidents[top].severity == active.value;
      assert IsOpen(grown, top) && grown[top].severity == active.value;
    }
  }

  lemma {:induction false} HighestIgnoresResolved(
    incidents: Incidents, active: Option<Severity>, id: Id, severity: Severity)
    requires IsHighest(incidents, active) && id !in incidents
    ensures IsHighest(incidents[id := Incident(severity, Resolved)], active)
  {
    var now := incidents[id := Incident(severity, Resolved)];
    assert forall other :: IsOpen(now, other) <==> IsOpen(incidents, other);
    if active.Some? {
      var top :| IsOpen(incidents, top) && incidents[top].severity == active.value;
      assert IsOpen(now, top) && now[top].severity == active.value;
    }
  }

  /** Looking at one more incident. */
  lemma {:induction false} LookStep(incidents: Incidents, todo: set<Id>, highest: Option<Severity>, id: Id)
    requires id in todo && id in incidents && IsHighest(incidents - todo, highest)
    ensures IsHighest(incidents - (todo - {id}),
                      if incidents[id].status.Open? then HigherOf(highest, incidents[id].severity) else highest)
  {
    var looked := incidents - todo;
    assert incidents - (todo - {id}) == looked[id := incidents[id]];
    if incidents[id].status.Open? {
      HigherAfterOpening(looked, highest, id, incidents[id].severity);
    } else {
      HighestIgnoresResolved(looked, highest, id, incidents[id].severity);
    }
  }

  /** What the controller keeps is what the whole history says. */
  ghost predicate Agrees(history: seq<Event>, incidents: Incidents, times: seq<real>) {
    && WellFormed(history)
    && incidents == IncidentsOf(history)
    && times == Pruned(Criticals(history))
  }

  lemma {:induction false} AgreesAfterCritical(
    history: seq<Event>, incidents: Incidents, times: seq<real>, now: real, id: Id, cascadeId: Id)
    requires Agrees(history, incidents, times) && CanFollow(history, Report(Critical, now, id, cascadeId))
    ensures var kept := InWindow(times + [now], now);
            var reported := incidents[id := Incident(Critical, Open)];
            if |kept| >= CASCADE_THRESHOLD then
              Agrees(history + [Report(Critical, now, id, cascadeId)], reported[cascadeId := Incident(Emergency, Open)],
                     [])
            else
              Agrees(history + [Report(Critical, now, id, cascadeId)], reported, kept)
  {
    PruneStep(Criticals(history), now);
  }

  class IncidentController {
    var incidents: Incidents
    var activeSeverity: Option<Severity>
    var multiplier: real
    var cascadeTimestamps: seq<real>
    ghost var history: seq<Event>

    /** The caches agree with what recomputing them from all that has happened would give. */
    ghost predicate Valid()
      reads this
    {
      && Agrees(history, incidents, cascadeTimestamps)
      && IsHighest(incidents, activeSeverity)
      && multiplier == MultiplierFor(activeSeverity)
    }

    constructor ()
      ensures Valid() && history == []
    {
      incidents, activeSeverity, multiplier, cascadeTimestamps := map[], None, 1.0, [];
      history := [];
    }

    method ReportIncident(severity: Severity, now: real, id: Id, cascadeId: Id)
      requires Valid() && CanFollow(history, Report(severity, now, id, cascadeId))
      modifies this
      ensures Valid() && history == old(history) + [Report(severity, now, id, cascadeId)]
    {
      ghost var e := Report(severity, now, id, cascadeId);
      if severity.Critical? {
        AgreesAfterCritical(history, incidents, cascadeTimestamps, now, id, cascadeId);
      }
      history := history + [e];
      OpenIncident(severity, now, id, cascadeId);
    }

    /** File the incident, escalate, and ratchet the severity up. */
    method OpenIncident(severity: Severity, now: real, id: Id, cascadeId: Id)
      requires id !in incidents && cascadeId !in incidents && id != cascadeId
      requires IsHighest(incidents, activeSeverity) && multiplier == MultiplierFor(activeSeverity)
      modifies this`incidents, this`activeSeverity, this`multiplier, this`cascadeTimestamps
      ensures IsHighest(incidents, activeSeverity) && multiplier == MultiplierFor(activeSeverity)
      ensures var kept := InWindow(old(cascadeTimestamps) + [now], now);
              var reported := old(incidents)[id := Incident(severity, Open)];
              if !severity.Critical? then
                incidents == reported && cascadeTimestamps == old(cascadeTimestamps)
              else if |kept| >= CASCADE_THRESHOLD then
                incidents == reported[cascadeId := Incident(Emergency, Open)] && cascadeTimestamps == []
              else
                incidents == reported && cascadeTimestamps == kept
    {
      HigherAfterOpening(incidents, activeSeverity, id, severity);
      incidents := incidents[id := Incident(severity, Open)];
      match severity {
        case Warning => multiplier := Min(multiplier, 0.5);
        case Critical => HandleCritical(now, cascadeId);
        case Emergency => multiplier := 0.0;
      }
      activeSeverity := HigherOf(activeSeverity, severity);
    }

    method HandleCritical(now: real, cascadeId: Id)
      requires cascadeId !in incidents
      requires IsHighest(incidents, HigherOf(activeSeverity, Critical))
      modifies this`multiplier, this`incidents, this`activeSeverity, this`cascadeTimestamps
      ensures multiplier == 0.0
      ensures IsHighest(incidents, HigherOf(activeSeverity, Critical))
      ensures var kept := InWindow(old(cascadeTimestamps) + [now], now);
              if |kept| >= CASCADE_THRESHOLD then
                cascadeTimestamps == [] && incidents == old(incidents)[cascadeId := Incident(Emergency, Open)]
              else
                cascadeTimestamps == kept && incidents == old(incidents)
    {
      multiplier := 0.0;
      cascadeTimestamps := cascadeTimestamps + [now];
      cascadeTimestamps := InWindow(cascadeTimestamps, now);
      if |cascadeTimestamps| >= CASCADE_THRESHOLD {
        HigherAfterOpening(incidents, HigherOf(activeSeverity, Critical), cascadeId, Emergency);
        cascadeTimestamps := [];
        incidents := incidents[cascadeId := Incident(Emergency, Open)];
        activeSeverity := HigherOf(activeSeverity, Emergency);
      }
    }

    method ResolveIncident(id: Id)
      requires Valid()
      modifies this
      ensures Valid() && history == old(history) + [Resolve(id)]
    {
      history := history + [Resolve(id)];
      if id !in incidents {
        return;
      }
      incidents := incidents[id := incidents[id].(status := Resolved)];
      RecalculateActiveSeverity();
    }

    method RecalculateActiveSeverity()
      modifies this`activeSeverity, this`multiplier
      ensures IsHighest(incidents, activeSeverity)
      ensures multiplier == MultiplierFor(activeSeverity)
    {
      var highest: Option<Severity> := None;
      var todo := incidents.Keys;
      while todo != {}
        invariant todo <= incidents.Keys
        invariant IsHighest(incidents - todo, highest)
      {
        var id :| id in todo;
        LookStep(incidents, todo, highest, id);
        if incidents[id].status.Open? {
          highest := HigherOf(highest, incidents[id].severity);
        }
        todo := todo - {id};
      }
      assert incidents - todo == incidents;
      activeSeverity := highest;
      multiplier := if highest.None? then 1.0 else if highest.value.Warning? then 0.5 else 0.0;
    }

    /** New orders are blocked exactly while a critical or an emergency is open. */
    method IsPaused() returns (paused: bool)
      requires Valid()
      ensures paused <==> exists id :: IsOpen(incidents, id) && !incidents[id].severity.Warning?
      ensures paused <==> multiplier == 0.0
    {
      paused := activeSeverity == Some(Critical) || activeSeverity == Some(Emergency);
    }
  }

  // ----- What the history guarantees -----------------------------------------------------------

  /** A critical opens an emergency just when it is the third in the window since the last escalation. */
  lemma {:induction false} EscalationIsAtTheThird(history: seq<Event>, e: Event)
    requires WellFormed(history + [e]) && e.Report? && e.severity.Critical?
    ensures var earlier := Criticals(history);
            e.cascadeId in IncidentsOf(history + [e]) <==>
              |earlier| >= 2 && earlier[|earlier| - 2] >= e.now - 60.0
  {
    assert (history + [e])[..|history|] == history;
    CriticalsAscend(history);
    EscalatesIff(Criticals(history), e.now);
  }

  /** An incident stays open until it is resolved itself, whatever else is reported and resolved. */
  lemma {:induction false} StaysOpen(history: seq<Event>, later: seq<Event>, id: Id)
    requires WellFormed(history + later) && IsOpen(IncidentsOf(history), id)
    requires Resolve(id) !in later
    ensures IsOpen(IncidentsOf(history + later), id)
    ensures IncidentsOf(history + later)[id].severity == IncidentsOf(history)[id].severity
  {
    if later == [] {
      assert history + later == history;
    } else {
      var n := |later| - 1;
      assert (history + later)[..|history + later| - 1] == history + later[..n];
      StaysOpen(history, later[..n], id);
    }
  }

  /**
   So after an escalation trading stays blocked, though every reported incident be resolved, until the
   escalation is.
   */
  lemma {:induction false} EscalationOutlivesItsCauses(
    history: seq<Event>, e: Event, later: seq<Event>, active: Option<Severity>)
    requires WellFormed(history + [e] + later) && e.Report? && e.severity.Critical?
    requires Escalates(Criticals(history), e.now) && Resolve(e.cascadeId) !in later
    requires IsHighest(IncidentsOf(history + [e] + later), active)
    ensures active == Some(Emergency) && MultiplierFor(active) == 0.0
  {
    assert (history + [e])[..|history|] == history;
    StaysOpen(history + [e], later, e.cascadeId);
    var incidents := IncidentsOf(history + [e] + later);
    assert IsOpen(incidents, e.cascadeId) && incidents[e.cascadeId].severity == Emergency;
  }

  /** After an escalation the count starts afresh: the next two criticals do not escalate, however close together. */
  lemma {:induction false} StartsAfresh(history: seq<Event>, e: Event, later: seq<Event>, f: Event)
    requires WellFormed(history + [e] + later + [f])
    requires IsCritical(e) && Escalates(Criticals(history), e.now)
    requires IsCritical(f) && CriticalCount(later) <= 1
    ensures f.cascadeId !in IncidentsOf(history + [e] + later + [f])
  {
    assert (history + [e])[..|history|] == history;
    assert (history + [e] + later + [f])[..|history + [e] + later|] == history + [e] + later;
    NoMoreThanCounted(history + [e], later);
    EscalationIsAtTheThird(history + [e] + later, f);
  }

  predicate IsCritical(e: Event) {
    e.Report? && e.severity.Critical?
  }

  function CriticalCount(events: seq<Event>): nat {
    if events == [] then 0
    else CriticalCount(events[..|events| - 1]) + if IsCritical(events[|events| - 1]) then 1 else 0
  }

  lemma {:induction false} NoMoreThanCounted(history: seq<Event>, later: seq<Event>)
    ensures |Criticals(history + later)| <= |Criticals(history)| + CriticalCount(later)
  {
    if later == [] {
      assert history + later == history;
    } else {
      var n := |later| - 1;
      assert (history + later)[..|history + later| - 1] == history + later[..n];
      NoMoreThanCounted(history, later[..n]);
    }
  }

  /**
   What one event does to the incidents: a report opens its own, at its severity; a resolution closes its own, and
   only that. A critical that does not escalate, like every other report, opens nothing else.
   */
  lemma {:induction false} EventEffects(history: seq<Event>, e: Event)
    requires WellFormed(history + [e])
    ensures var before, after := IncidentsOf(history), IncidentsOf(history + [e]);
            && (e.Report? ==> IsOpen(after, e.id) && after[e.id].severity == e.severity)
            && (e.Resolve? ==> !IsOpen(after, e.id))
            && (forall id :: id != e.id && (e.Report? ==> id != e.cascadeId) ==>
                (id in after <==> id in before) && (id in before ==> after[id] == before[id]))
            && (e.Report? && e.cascadeId in after ==>
                IsCritical(e) && IsOpen(after, e.cascadeId) && after[e.cascadeId].severity == Emergency)
  {
    assert (history + [e])[..|history|] == history;
  }

  /** The throttle is off, halved or at zero by the worst of the open incidents. */
  lemma {:induction false} ThrottleMeans(incidents: Incidents, active: Option<Severity>)
    requires IsHighest(incidents, active)
    ensures MultiplierFor(active) == 1.0 <==> forall id :: id in incidents ==> !IsOpen(incidents, id)
    ensures MultiplierFor(active) == 0.0 <==> exists id :: IsOpen(incidents, id) && !incidents[id].severity.Warning?
    ensures MultiplierFor(active) in {0.0, 0.5, 1.0}
  {
    if active.Some? {
      var top :| IsOpen(incidents, top) && incidents[top].severity == active.value;
      assert top in incidents;
    }
  }
}
