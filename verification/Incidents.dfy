/** The incident lifecycle: a transition table, an append-only timeline per incident, and realtime
    events held back until the session commits. */
module Incidents {
  import opened TrackIds
  import opened Text

  datatype Status = NEW | ACKNOWLEDGED | TRIAGED | ESCALATED | RESOLVED | CLOSED

  function ValidTransitions(s: Status): set<Status> {
    match s
    case NEW => {ACKNOWLEDGED}
    case ACKNOWLEDGED => {TRIAGED, RESOLVED}
    case TRIAGED => {ESCALATED, RESOLVED}
    case ESCALATED => {TRIAGED, ACKNOWLEDGED}
    case RESOLVED => {TRIAGED, CLOSED}
    case CLOSED => {}
  }

  predicate CanTransition(current: Status, target: Status) { target in ValidTransitions(current) }

  datatype Error = NotFound | InvalidTransition | InvalidAction

  /** `validate_transition`: None when the change is legal. */
  function ValidateTransition(current: Status, target: Status): Option<Error> {
    if current == target then Some(InvalidTransition)
    else if !CanTransition(current, target) then Some(InvalidTransition)
    else None
  }

  datatype EventType =
    | Created | Acknowledged | Assigned | Reassigned | Triaged | Escalated | DeEscalated
    | NoteAdded | ActionLogged | Resolved | Closed

  datatype Event = Event(sequence: int, eventType: EventType, previousStatus: Option<Status>, newStatus: Option<Status>)

  datatype Incident = Incident(status: Status, assignedTo: Option<string>, timeline: seq<Event>)

  /** A realtime event: which incident, which timeline entry, and the incident's status at that point. */
  datatype Realtime = Realtime(incidentId: Id, eventType: EventType, sequence: int, status: Status)

  type Incidents = map<Id, Incident>

  /** The committed rows, the session's own view of them, its pending buffer, and what has been put on
      the bus. */
  datatype Session = Session(committed: Incidents, working: Incidents, pending: seq<Realtime>, published: seq<Realtime>)

  const EMPTY := Session(map[], map[], [], [])

  datatype Op =
    | Create(id: Id, title: string)
    | Acknowledge(id: Id) | Assign(id: Id, assignee: string) | Triage(id: Id) | Escalate(id: Id)
    | DeEscalate(id: Id, target: Status) | Resolve(id: Id) | Close(id: Id)
    | AddNote(id: Id, message: string) | LogAction(id: Id, knownCategory: bool)
    | Commit | Rollback | Drain

  function MaxSequence(timeline: seq<Event>): int {
    if timeline == [] then 0
    else
      var m, last := MaxSequence(timeline[..|timeline| - 1]), timeline[|timeline| - 1].sequence;
      if last > m then last else m
  }

  /** Append one entry to an incident's timeline under the next free number, and queue its event. */
  function Record(s: Session, id: Id, inc: Incident, t: EventType, prev: Option<Status>,
                  next: Option<Status>): Session {
    var e := Event(MaxSequence(inc.timeline) + 1, t, prev, next);
    s.(working := s.working[id := inc.(timeline := inc.timeline + [e])],
       pending := s.pending + [Realtime(id, t, e.sequence, inc.status)])
  }

  function ChangeStatus(s: Session, id: Id, target: Status, t: EventType): (Session, Option<Error>) {
    if id !in s.working then (s, Some(NotFound))
    else
      var inc := s.working[id];
      var err := ValidateTransition(inc.status, target);
      if err.Some? then (s, err)
      else (Record(s, id, inc.(status := target), t, Some(inc.status), Some(target)), None)
  }

  function Apply(s: Session, op: Op): (Session, Option<Error>) {
    match op
    case Create(id, title) =>
      if Blank(title) then (s, Some(InvalidAction))
      else (Record(s, id, Incident(NEW, None, []), Created, None, Some(NEW)), None)
    case Acknowledge(id) => ChangeStatus(s, id, ACKNOWLEDGED, Acknowledged)
    case Assign(id, assignee) =>
      if id !in s.working then (s, Some(NotFound))
      else if Blank(assignee) then (s, Some(InvalidAction))
      else
        var inc, who := s.working[id], Strip(assignee);
        var again := inc.assignedTo.Some? && inc.assignedTo.value != who;
        (Record(s, id, inc.(assignedTo := Some(who)), if again then Reassigned else Assigned, None, None), None)
    case Triage(id) => ChangeStatus(s, id, TRIAGED, Triaged)
    case Escalate(id) => ChangeStatus(s, id, ESCALATED, Escalated)
    case DeEscalate(id, target) => ChangeStatus(s, id, target, DeEscalated)
    case Resolve(id) => ChangeStatus(s, id, RESOLVED, Resolved)
    case Close(id) => ChangeStatus(s, id, CLOSED, Closed)
    case AddNote(id, message) =>
      if id !in s.working then (s, Some(NotFound))
      else if Blank(message) then (s, Some(InvalidAction))
      else (Record(s, id, s.working[id], NoteAdded, None, None), None)
    case LogAction(id, known) =>
      if id !in s.working then (s, Some(NotFound))
      else if !known then (s, Some(InvalidAction))
      else (Record(s, id, s.working[id], ActionLogged, None, None), None)
    case Commit => (Session(s.working, s.working, [], s.published + s.pending), None)
    case Rollback => (s.(working := s.committed, pending := []), None)
    case Drain => (s.(pending := [], published := s.published + s.pending), None)
  }

  class IncidentService {
    var committed: Incidents
    var working: Incidents
    var pending: seq<Realtime>
    var published: seq<Realtime>

    function State(): Session
      reads this
    {
      Session(committed, working, pending, published)
    }

    constructor ()
      ensures State() == EMPTY
    {
      committed, working, pending, published := map[], map[], [], [];
    }

    method NextSequence(timeline: seq<Event>) returns (next: int)
      ensures next == MaxSequence(timeline) + 1
    {
      var currentMax := 0;
      for i := 0 to |timeline|
        invariant currentMax == MaxSequence(timeline[..i])
      {
        assert timeline[..i + 1][..i] == timeline[..i];
        if timeline[i].sequence > currentMax {
          currentMax := timeline[i].sequence;
        }
      }
      assert timeline[..|timeline|] == timeline;
      next := currentMax + 1;
    }

    /** The timeline append followed by the queueing of its realtime event. */
    method AppendEvent(id: Id, t: EventType, prev: Option<Status>, next: Option<Status>)
      requires id in working
      modifies this
      ensures State() == Record(old(State()), id, old(working)[id], t, prev, next)
    {
      var inc := working[id];
      var sequence := NextSequence(inc.timeline);
      working := working[id := inc.(timeline := inc.timeline + [Event(sequence, t, prev, next)])];
      pending := pending + [Realtime(id, t, sequence, inc.status)];
    }

    /** The shared shape of every status change: look up, validate, set the status, append. */
    method Transition(id: Id, target: Status, t: EventType) returns (error: Option<Error>)
      modifies this
      ensures (State(), error) == ChangeStatus(old(State()), id, target, t)
    {
      if id !in working {
        return Some(NotFound);
      }
      var oldStatus := working[id].status;
      error := ValidateTransition(oldStatus, target);
      if error.Some? {
        return;
      }
      ghost var before := working;
      working := working[id := working[id].(status := target)];
      AppendEvent(id, t, Some(oldStatus), Some(target));
      assert working == before[id := working[id]];
    }

    /** The identifier is a fresh UUID, so it is not in use. */
    method CreateIncident(id: Id, title: string) returns (error: Option<Error>)
      requires id !in working
      modifies this
      ensures (State(), error) == Apply(old(State()), Create(id, title))
    {
      if Blank(title) {
        return Some(InvalidAction);
      }
      ghost var before := working;
      working := working[id := Incident(NEW, None, [])];
      AppendEvent(id, Created, None, Some(NEW));
      assert working == before[id := working[id]];
      error := None;
    }

    method AcknowledgeIncident(id: Id) returns (error: Option<Error>)
      modifies this
      ensures (State(), error) == Apply(old(State()), Acknowledge(id))
    {
      error := Transition(id, ACKNOWLEDGED, Acknowledged);
    }

    method AssignIncident(id: Id, assignee: string) returns (error: Option<Error>)
      modifies this
      ensures (State(), error) == Apply(old(State()), Assign(id, assignee))
    {
      if id !in working {
        return Some(NotFound);
      }
      if Blank(assignee) {
        return Some(InvalidAction);
      }
      var who := Strip(assignee);
      var oldAssignee := working[id].assignedTo;
      var isReassignment := oldAssignee.Some? && oldAssignee.value != who;
      ghost var before := working;
      working := working[id := working[id].(assignedTo := Some(who))];
      AppendEvent(id, if isReassignment then Reassigned else Assigned, None, None);
      assert working == before[id := working[id]];
      error := None;
    }

    method TriageIncident(id: Id) returns (error: Option<Error>)
      modifies this
      ensures (State(), error) == Apply(old(State()), Triage(id))
    {
      error := Transition(id, TRIAGED, Triaged);
    }

    method EscalateIncident(id: Id) returns (error: Option<Error>)
      modifies this
      ensures (State(), error) == Apply(old(State()), Escalate(id))
    {
      error := Transition(id, ESCALATED, Escalated);
    }

    method DeEscalateIncident(id: Id, target: Status) returns (error: Option<Error>)
      modifies this
      ensures (State(), error) == Apply(old(State()), DeEscalate(id, target))
    {
      error := Transition(id, target, DeEscalated);
    }

    method ResolveIncident(id: Id) returns (error: Option<Error>)
      modifies this
      ensures (State(), error) == Apply(old(State()), Resolve(id))
    {
      error := Transition(id, RESOLVED, Resolved);
    }

    method CloseIncident(id: Id) returns (error: Option<Error>)
      modifies this
      ensures (State(), error) == Apply(old(State()), Close(id))
    {
      error := Transition(id, CLOSED, Closed);
    }

    method AddNoteTo(id: Id, message: string) returns (error: Option<Error>)
      modifies this
      ensures (State(), error) == Apply(old(State()), AddNote(id, message))
    {
      if id !in working {
        return Some(NotFound);
      }
      if Blank(message) {
        return Some(InvalidAction);
      }
      AppendEvent(id, NoteAdded, None, None);
      error := None;
    }

    method LogDefensiveAction(id: Id, knownCategory: bool) returns (error: Option<Error>)
      modifies this
      ensures (State(), error) == Apply(old(State()), LogAction(id, knownCategory))
    {
      if id !in working {
        return Some(NotFound);
      }
      if !knownCategory {
        return Some(InvalidAction);
      }
      AppendEvent(id, ActionLogged, None, None);
      error := None;
    }

    /** Drain the pending buffer onto the bus, in order. */
    method DispatchPending()
      modifies this`pending, this`published
      ensures published == old(published) + old(pending) && pending == []
    {
      var batch := pending;
      pending := [];
      for i := 0 to |batch|
        invariant published == old(published) + batch[..i] && pending == []
      {
        published := published + [batch[i]];
      }
    }

    /** The manual drain, which does not wait for the commit. */
    method PublishPendingEvents()
      modifies this
      ensures State() == Apply(old(State()), Drain).0
    {
      DispatchPending();
    }

    method CommitSession()
      modifies this
      ensures State() == Apply(old(State()), Commit).0
    {
      committed := working;
      DispatchPending();
    }

    method RollbackSession()
      modifies this
      ensures State() == Apply(old(State()), Rollback).0
    {
      working := committed;
      pending := [];
    }
  }

  // ----- Timelines -----

  /** The status a log leads to. */
  function Replay(timeline: seq<Event>): Option<Status> {
    if timeline == [] then None
    else
      var last := timeline[|timeline| - 1];
      if last.newStatus.Some? then last.newStatus else Replay(timeline[..|timeline| - 1])
  }

  /** Numbered 1..n; created first, as NEW; after that every status entry starts from the status the log
      had reached and is a legal transition, and other entries carry no status. */
  ghost predicate Legal(timeline: seq<Event>) {
    timeline == [] ||
    var prefix, last := timeline[..|timeline| - 1], timeline[|timeline| - 1];
    && Legal(prefix)
    && last.sequence == |timeline|
    && (if prefix == [] then last == Event(1, Created, None, Some(NEW))
        else if last.newStatus.Some? then
          Replay(prefix).Some? && last.previousStatus == Replay(prefix)
          && CanTransition(Replay(prefix).value, last.newStatus.value)
        else last.previousStatus == None)
  }

  ghost predicate Sound(inc: Incident) {
    inc.timeline != [] && Legal(inc.timeline) && Replay(inc.timeline) == Some(inc.status)
  }

  lemma {:induction false} LegalNumbers(t: seq<Event>)
    requires Legal(t)
    ensures forall i | 0 <= i < |t| :: t[i].sequence == i + 1
    ensures MaxSequence(t) == |t|
    decreases |t|
  {
    if t != [] {
      LegalNumbers(t[..|t| - 1]);
    }
  }

  lemma {:induction false} LegalPrefix(t: seq<Event>, n: nat)
    requires Legal(t) && n <= |t|
    ensures Legal(t[..n])
    decreases |t|
  {
    if n < |t| {
      assert t[..|t| - 1][..n] == t[..n];
      LegalPrefix(t[..|t| - 1], n);
    } else {
      assert t[..n] == t;
    }
  }

  lemma {:induction false} ReplayFound(t: seq<Event>) returns (j: nat)
    requires Replay(t).Some?
    ensures j < |t| && t[j].newStatus == Replay(t)
    ensures forall k | j < k < |t| :: t[k].newStatus == None
    decreases |t|
  {
    if t[|t| - 1].newStatus.Some? {
      j := |t| - 1;
    } else {
      j := ReplayFound(t[..|t| - 1]);
    }
  }

  /** Each status entry after the first starts where the status entry before it ended, and the pair is
      in the transition table. */
  lemma StatusChain(t: seq<Event>, i: nat) returns (j: nat)
    requires Legal(t) && 0 < i < |t| && t[i].newStatus.Some?
    ensures j < i && t[j].newStatus.Some? && t[j].newStatus == t[i].previousStatus
    ensures forall k | j < k < i :: t[k].newStatus == None
    ensures CanTransition(t[j].newStatus.value, t[i].newStatus.value)
  {
    LegalPrefix(t, i + 1);
    assert t[..i + 1][..i] == t[..i];
    j := ReplayFound(t[..i]);
  }

  /** Nothing changes the status of a closed incident. */
  lemma {:induction false} NoStatusAfterClosed(t: seq<Event>, i: nat, j: nat)
    requires Legal(t) && i < j < |t| && t[i].newStatus == Some(CLOSED)
    ensures t[j].newStatus == None
    decreases j
  {
    if t[j].newStatus.Some? {
      var k := StatusChain(t, j);
      if k > i {
        NoStatusAfterClosed(t, i, k);
      }
    }
  }

  ghost predicate Visited(t: seq<Event>, s: Status) { exists i :: 0 <= i < |t| && t[i].newStatus == Some(s) }

  /** An incident past NEW has been acknowledged; an escalated one triaged; a closed one resolved. */
  lemma {:induction false} Milestones(t: seq<Event>)
    requires Legal(t) && t != []
    ensures Replay(t).Some?
    ensures Replay(t) != Some(NEW) ==> Visited(t, ACKNOWLEDGED)
    ensures Replay(t) == Some(ESCALATED) ==> Visited(t, TRIAGED)
    ensures Replay(t) == Some(CLOSED) ==> Visited(t, RESOLVED)
    decreases |t|
  {
    var n, prefix := |t|, t[..|t| - 1];
    if prefix != [] {
      Milestones(prefix);
      forall s ensures Visited(prefix, s) ==> Visited(t, s) {
        if i :| 0 <= i < |prefix| && prefix[i].newStatus == Some(s) {
          assert t[i].newStatus == Some(s);
        }
      }
      if t[n - 1].newStatus.Some? {
        var k := ReplayFound(prefix);
        assert t[k].newStatus == prefix[k].newStatus;
        assert t[n - 1].newStatus == Replay(t);
      }
    }
  }

  // ----- The outbox -----

  function Only(events: seq<Realtime>, id: Id): seq<Realtime> {
    if events == [] then []
    else
      var last := events[|events| - 1];
      Only(events[..|events| - 1], id) + (if last.incidentId == id then [last] else [])
  }

  lemma {:induction false} OnlyAppend(a: seq<Realtime>, b: seq<Realtime>, id: Id)
    ensures Only(a + b, id) == Only(a, id) + Only(b, id)
    decreases |b|
  {
    if b == [] {
      assert a + b == a;
    } else {
      assert (a + b)[..|a + b| - 1] == a + b[..|b| - 1];
      OnlyAppend(a, b[..|b| - 1], id);
    }
  }

  /** The realtime events a timeline calls for: one per entry, in order, each with the status reached. */
  function Announced(id: Id, t: seq<Event>): seq<Realtime> {
    if t == [] then []
    else
      var last := t[|t| - 1];
      Announced(id, t[..|t| - 1])
      + [Realtime(id, last.eventType, last.sequence, if Replay(t).Some? then Replay(t).value else NEW)]
  }

  function TimelineOf(m: Incidents, id: Id): seq<Event> { if id in m then m[id].timeline else [] }

  /** Every incident is sound, and what is published or pending is exactly what the session's timelines
      call for. */
  ghost predicate Loose(s: Session) {
    && (forall id | id in s.committed :: Sound(s.committed[id]))
    && (forall id | id in s.working :: Sound(s.working[id]))
    && (forall id :: Only(s.published + s.pending, id) == Announced(id, TimelineOf(s.working, id)))
  }

  /** Moreover, what was published is exactly what the committed timelines call for. */
  ghost predicate Coherent(s: Session) {
    Loose(s) && forall id :: Only(s.published, id) == Announced(id, TimelineOf(s.committed, id))
  }

  /** More events of some incident were published than it has committed entries, ... */
  ghost predicate Ahead(s: Session) {
    exists id :: |Only(s.published, id)| > |TimelineOf(s.committed, id)|
  }

  /** ... and more were published or are pending than the session itself has entries. */
  ghost predicate Excess(s: Session, id: Id) {
    && |Only(s.published, id)| > |TimelineOf(s.committed, id)|
    && |Only(s.published + s.pending, id)| > |TimelineOf(s.working, id)|
  }

  ghost predicate AllSound(s: Session) {
    && (forall id | id in s.committed :: Sound(s.committed[id]))
    && (forall id | id in s.working :: Sound(s.working[id]))
  }

  lemma OnlyOne(events: seq<Realtime>, note: Realtime, id: Id)
    ensures Only(events + [note], id) == Only(events, id) + (if note.incidentId == id then [note] else [])
  {
    assert (events + [note])[..|events + [note]| - 1] == events;
  }

  lemma AnnouncedOne(id: Id, t: seq<Event>, e: Event, status: Status)
    requires Legal(t) && Legal(t + [e]) && e.sequence == |t| + 1 && Replay(t + [e]) == Some(status)
    ensures Announced(id, t + [e]) == Announced(id, t) + [Realtime(id, e.eventType, e.sequence, status)]
  {
    assert (t + [e])[..|t + [e]| - 1] == t;
  }

  /** The step that recording is: one incident gets one legal entry more, with its event pending. */
  ghost predicate Recorded(s: Session, r: Session, id: Id, inc: Incident, e: Event) {
    && r.committed == s.committed && r.published == s.published
    && r.working == s.working[id := inc] && Sound(inc)
    && Legal(TimelineOf(s.working, id)) && inc.timeline == TimelineOf(s.working, id) + [e]
    && r.pending == s.pending + [Realtime(id, e.eventType, e.sequence, inc.status)]
  }

  /** What an operation other than the end of a transaction or a drain does: nothing, or one recording. */
  ghost predicate Grows(s: Session, r: Session) {
    r == s || exists id, inc, e :: Recorded(s, r, id, inc, e)
  }

  lemma RecordIs(s: Session, id: Id, inc: Incident, t: EventType, prev: Option<Status>, next: Option<Status>)
    requires inc.timeline == TimelineOf(s.working, id) && Legal(inc.timeline)
    requires var timeline := inc.timeline + [Event(|inc.timeline| + 1, t, prev, next)];
             Legal(timeline) && Replay(timeline) == Some(inc.status)
    ensures Grows(s, Record(s, id, inc, t, prev, next))
  {
    hide Legal, Replay;
    LegalNumbers(inc.timeline);
    var r, e := Record(s, id, inc, t, prev, next), Event(|inc.timeline| + 1, t, prev, next);
    var after := inc.(timeline := inc.timeline + [e]);
    assert r.working == s.working[id := after] && Sound(after);
    assert Recorded(s, r, id, after, e);
  }

  lemma ChangeStatusGrows(s: Session, id: Id, target: Status, t: EventType)
    requires AllSound(s)
    ensures Grows(s, ChangeStatus(s, id, target, t).0)
  {
    if id in s.working && ValidateTransition(s.working[id].status, target).None? {
      var inc := s.working[id];
      assert Sound(inc);
      var timeline := inc.timeline + [Event(|inc.timeline| + 1, t, Some(inc.status), Some(target))];
      assert timeline[..|timeline| - 1] == inc.timeline;
      RecordIs(s, id, inc.(status := target), t, Some(inc.status), Some(target));
    }
  }

  lemma NoteGrows(s: Session, id: Id, inc: Incident, t: EventType)
    requires AllSound(s) && id in s.working && inc == s.working[id].(assignedTo := inc.assignedTo)
    ensures Grows(s, Record(s, id, inc, t, None, None))
  {
    assert Sound(s.working[id]);
    var timeline := inc.timeline + [Event(|inc.timeline| + 1, t, None, None)];
    assert timeline[..|timeline| - 1] == inc.timeline;
    RecordIs(s, id, inc, t, None, None);
  }

  lemma CreateGrows(s: Session, id: Id)
    requires id !in s.working
    ensures Grows(s, Record(s, id, Incident(NEW, None, []), Created, None, Some(NEW)))
  {
    var e := Event(1, Created, None, Some(NEW));
    assert [] + [e] == [e] && [e][..0] == [];
    RecordIs(s, id, Incident(NEW, None, []), Created, None, Some(NEW));
  }

  predicate FreshId(s: Session, op: Op) {
    op.Create? ==> op.id !in s.working && op.id !in s.committed
  }

  predicate IsStep(op: Op) { !op.Commit? && !op.Rollback? && !op.Drain? }

  lemma StepGrows(s: Session, op: Op)
    requires AllSound(s) && FreshId(s, op) && IsStep(op)
    ensures Grows(s, Apply(s, op).0)
  {
    hide AllSound, Record, ChangeStatus, Recorded;
    match op
    case Create(id, title) => CreateGrows(s, id);
    case Acknowledge(id) => ChangeStatusGrows(s, id, ACKNOWLEDGED, Acknowledged);
    case Assign(id, assignee) =>
      if id in s.working && !Blank(assignee) {
        var inc, who := s.working[id], Strip(assignee);
        var again := inc.assignedTo.Some? && inc.assignedTo.value != who;
        NoteGrows(s, id, inc.(assignedTo := Some(who)), if again then Reassigned else Assigned);
      }
    case Triage(id) => ChangeStatusGrows(s, id, TRIAGED, Triaged);
    case Escalate(id) => ChangeStatusGrows(s, id, ESCALATED, Escalated);
    case DeEscalate(id, target) => ChangeStatusGrows(s, id, target, DeEscalated);
    case Resolve(id) => ChangeStatusGrows(s, id, RESOLVED, Resolved);
    case Close(id) => ChangeStatusGrows(s, id, CLOSED, Closed);
    case AddNote(id, message) => if id in s.working { NoteGrows(s, id, s.working[id], NoteAdded); }
    case LogAction(id, known) => if id in s.working { NoteGrows(s, id, s.working[id], ActionLogged); }
  }

  // ----- What each operation does to its incident -----

  /** One incident has one entry more, of the given type and status pair, with its event pending; nothing
      else changed. */
  ghost predicate Logged(s: Session, r: Session, id: Id, t: EventType, prev: Option<Status>, next: Option<Status>) {
    && id in s.working && r.working.Keys == s.working.Keys
    && (forall other | other in s.working && other != id :: r.working[other] == s.working[other])
    && r.working[id].timeline == s.working[id].timeline + [Event(|s.working[id].timeline| + 1, t, prev, next)]
    && r.pending == s.pending + [Realtime(id, t, |s.working[id].timeline| + 1, r.working[id].status)]
    && r.committed == s.committed && r.published == s.published
  }

  /** The operation moves the incident from one of the sources to the target under the given entry type, or
      is refused and changes nothing. */
  ghost predicate Moves(s: Session, result: (Session, Option<Error>), id: Id, sources: set<Status>, t: EventType,
                        target: Status) {
    && (result.1 == None <==> id in s.working && s.working[id].status in sources)
    && (result.1 == Some(NotFound) <==> id !in s.working)
    && (result.1 != None ==> result.0 == s)
    && (result.1 == None ==>
          && Logged(s, result.0, id, t, Some(s.working[id].status), Some(target))
          && result.0.working[id].status == target
          && result.0.working[id].assignedTo == s.working[id].assignedTo)
  }

  lemma ChangeMoves(s: Session, id: Id, sources: set<Status>, t: EventType, target: Status)
    requires AllSound(s) && forall x :: x in sources <==> x != target && target in ValidTransitions(x)
    ensures Moves(s, ChangeStatus(s, id, target, t), id, sources, t, target)
  {
    if id in s.working {
      assert Sound(s.working[id]);
      LegalNumbers(s.working[id].timeline);
    }
    hide Sound, MaxSequence;
  }

  lemma AcknowledgeIs(s: Session, id: Id)
    requires AllSound(s)
    ensures Moves(s, Apply(s, Acknowledge(id)), id, {NEW, ESCALATED}, Acknowledged, ACKNOWLEDGED)
  {
    ChangeMoves(s, id, {NEW, ESCALATED}, Acknowledged, ACKNOWLEDGED);
    hide Moves, ChangeStatus;
  }

  lemma TriageIs(s: Session, id: Id)
    requires AllSound(s)
    ensures Moves(s, Apply(s, Triage(id)), id, {ACKNOWLEDGED, ESCALATED, RESOLVED}, Triaged, TRIAGED)
  {
    ChangeMoves(s, id, {ACKNOWLEDGED, ESCALATED, RESOLVED}, Triaged, TRIAGED);
    hide Moves, ChangeStatus;
  }

  lemma EscalateIs(s: Session, id: Id)
    requires AllSound(s)
    ensures Moves(s, Apply(s, Escalate(id)), id, {TRIAGED}, Escalated, ESCALATED)
  {
    ChangeMoves(s, id, {TRIAGED}, Escalated, ESCALATED);
    hide Moves, ChangeStatus;
  }

  lemma ResolveIs(s: Session, id: Id)
    requires AllSound(s)
    ensures Moves(s, Apply(s, Resolve(id)), id, {ACKNOWLEDGED, TRIAGED}, Resolved, RESOLVED)
  {
    ChangeMoves(s, id, {ACKNOWLEDGED, TRIAGED}, Resolved, RESOLVED);
    hide Moves, ChangeStatus;
  }

  lemma CloseIs(s: Session, id: Id)
    requires AllSound(s)
    ensures Moves(s, Apply(s, Close(id)), id, {RESOLVED}, Closed, CLOSED)
  {
    ChangeMoves(s, id, {RESOLVED}, Closed, CLOSED);
    hide Moves, ChangeStatus;
  }

  /** De-escalation takes the target it is given, wherever that is legal from. */
  lemma DeEscalateIs(s: Session, id: Id, target: Status)
    requires AllSound(s)
    ensures Moves(s, Apply(s, DeEscalate(id, target)), id,
                  match target
                  case NEW => {}
                  case ACKNOWLEDGED => {NEW, ESCALATED}
                  case TRIAGED => {ACKNOWLEDGED, ESCALATED, RESOLVED}
                  case ESCALATED => {TRIAGED}
                  case RESOLVED => {ACKNOWLEDGED, TRIAGED}
                  case CLOSED => {RESOLVED},
                  DeEscalated, target)
  {
    var sources: set<Status> :=
      match target
      case NEW => {}
      case ACKNOWLEDGED => {NEW, ESCALATED}
      case TRIAGED => {ACKNOWLEDGED, ESCALATED, RESOLVED}
      case ESCALATED => {TRIAGED}
      case RESOLVED => {ACKNOWLEDGED, TRIAGED}
      case CLOSED => {RESOLVED};
    ChangeMoves(s, id, sources, DeEscalated, target);
    hide Moves, ChangeStatus;
  }

  /** Creation makes one NEW incident with its first entry, unless the title is blank. */
  lemma CreateIs(s: Session, id: Id, title: string)
    requires FreshId(s, Create(id, title))
    ensures var (r, e) := Apply(s, Create(id, title));
            && (e == None <==> exists c :: c in title && !IsSpace(c))
            && (e != None ==> r == s)
            && (e == None ==>
                  && r == s.(working := s.working[id := Incident(NEW, None, [Event(1, Created, None, Some(NEW))])],
                             pending := s.pending + [Realtime(id, Created, 1, NEW)]))
  {
    assert [] + [Event(1, Created, None, Some(NEW))] == [Event(1, Created, None, Some(NEW))];
  }

  /** Assignment records who, without white space around the name, and tells a change of hands from a first
      or repeated assignment; status stays. */
  lemma AssignIs(s: Session, id: Id, assignee: string)
    requires AllSound(s)
    ensures var (r, e) := Apply(s, Assign(id, assignee));
            && (e == None <==> id in s.working && exists c :: c in assignee && !IsSpace(c))
            && (e == Some(NotFound) <==> id !in s.working)
            && (e != None ==> r == s)
            && (e == None ==>
                  var before, after := s.working[id], r.working[id];
                  && after.status == before.status && after.assignedTo == Some(Strip(assignee))
                  && Logged(s, r, id,
                            if before.assignedTo.Some? && before.assignedTo != after.assignedTo then Reassigned
                            else Assigned,
                            None, None))
  {
    if id in s.working {
      assert Sound(s.working[id]);
      LegalNumbers(s.working[id].timeline);
    }
    hide Sound, MaxSequence, Strip;
  }

  /** Notes and logged actions add an entry and change nothing else. */
  lemma NoteIs(s: Session, id: Id, message: string, known: bool)
    requires AllSound(s)
    ensures var (r, e) := Apply(s, AddNote(id, message));
            && (e == None <==> id in s.working && exists c :: c in message && !IsSpace(c))
            && (if e == None then Logged(s, r, id, NoteAdded, None, None) && SameButLog(s, r, id) else r == s)
    ensures var (r, e) := Apply(s, LogAction(id, known));
            && (e == None <==> id in s.working && known)
            && (if e == None then Logged(s, r, id, ActionLogged, None, None) && SameButLog(s, r, id) else r == s)
  {
    if id in s.working {
      assert Sound(s.working[id]);
      LegalNumbers(s.working[id].timeline);
    }
    hide Sound, MaxSequence;
  }

  ghost predicate SameButLog(s: Session, r: Session, id: Id)
  {
    && id in s.working && id in r.working
    && r.working[id].status == s.working[id].status && r.working[id].assignedTo == s.working[id].assignedTo
  }

  /** The status an entry of each type leads to; only a de-escalation says for itself. */
  predicate Typed(e: Event) {
    match e.eventType
    case Created => e.newStatus == Some(NEW)
    case Acknowledged => e.newStatus == Some(ACKNOWLEDGED)
    case Triaged => e.newStatus == Some(TRIAGED)
    case Escalated => e.newStatus == Some(ESCALATED)
    case Resolved => e.newStatus == Some(RESOLVED)
    case Closed => e.newStatus == Some(CLOSED)
    case DeEscalated => e.newStatus.Some?
    case Assigned | Reassigned | NoteAdded | ActionLogged => e.newStatus == None
  }

  ghost predicate AllTyped(m: Incidents) {
    forall id, i | id in m && 0 <= i < |m[id].timeline| :: Typed(m[id].timeline[i])
  }

  lemma RecordTyped(s: Session, id: Id, inc: Incident, t: EventType, prev: Option<Status>, next: Option<Status>)
    requires AllTyped(s.working) && inc.timeline == TimelineOf(s.working, id)
    requires forall n :: Typed(Event(n, t, prev, next))
    ensures AllTyped(Record(s, id, inc, t, prev, next).working)
    ensures Record(s, id, inc, t, prev, next).committed == s.committed
  {
    hide Typed;
    var r := Record(s, id, inc, t, prev, next);
    var e := r.working[id].timeline[|inc.timeline|];
    assert Typed(e) by { assert e == Event(e.sequence, t, prev, next); }
    forall x, i | x in r.working && 0 <= i < |r.working[x].timeline| ensures Typed(r.working[x].timeline[i]) {
      if x == id && i < |inc.timeline| {
        assert inc.timeline[i] == s.working[id].timeline[i];
      }
    }
  }

  lemma ApplyTyped(s: Session, op: Op)
    requires AllTyped(s.working) && AllTyped(s.committed) && FreshId(s, op)
    ensures AllTyped(Apply(s, op).0.working) && AllTyped(Apply(s, op).0.committed)
  {
    hide AllTyped, Record;
    match op
    case Create(id, title) => RecordTyped(s, id, Incident(NEW, None, []), Created, None, Some(NEW));
    case Acknowledge(id) => ChangeTyped(s, id, ACKNOWLEDGED, Acknowledged);
    case Assign(id, assignee) =>
      if id in s.working {
        var inc := s.working[id].(assignedTo := Some(Strip(assignee)));
        RecordTyped(s, id, inc, Assigned, None, None);
        RecordTyped(s, id, inc, Reassigned, None, None);
      }
    case Triage(id) => ChangeTyped(s, id, TRIAGED, Triaged);
    case Escalate(id) => ChangeTyped(s, id, ESCALATED, Escalated);
    case DeEscalate(id, target) => ChangeTyped(s, id, target, DeEscalated);
    case Resolve(id) => ChangeTyped(s, id, RESOLVED, Resolved);
    case Close(id) => ChangeTyped(s, id, CLOSED, Closed);
    case AddNote(id, message) =>
      if id in s.working { RecordTyped(s, id, s.working[id], NoteAdded, None, None); }
    case LogAction(id, known) =>
      if id in s.working { RecordTyped(s, id, s.working[id], ActionLogged, None, None); }
    case Commit =>
    case Rollback =>
    case Drain =>
  }

  lemma ChangeTyped(s: Session, id: Id, target: Status, t: EventType)
    requires AllTyped(s.working) && AllTyped(s.committed)
    requires forall n, prev :: Typed(Event(n, t, prev, Some(target)))
    ensures AllTyped(ChangeStatus(s, id, target, t).0.working) && AllTyped(ChangeStatus(s, id, target, t).0.committed)
  {
    hide AllTyped, Typed;
    if id in s.working {
      RecordTyped(s, id, s.working[id].(status := target), t, Some(s.working[id].status), Some(target));
    }
  }

  // ----- What each kind of step keeps -----

  lemma GrowsSound(s: Session, r: Session)
    requires AllSound(s) && Grows(s, r)
    ensures AllSound(r)
  {
    hide Legal, Replay, Sound;
  }

  lemma GrowsLoose(s: Session, r: Session)
    requires Loose(s) && Grows(s, r)
    ensures Loose(r)
  {
    hide Loose, Recorded;
    if id, inc, e :| Recorded(s, r, id, inc, e) {
      RecordedLoose(s, r, id, inc, e);
    }
  }

  lemma RecordedLoose(s: Session, r: Session, id: Id, inc: Incident, e: Event)
    requires Loose(s) && Recorded(s, r, id, inc, e)
    ensures Loose(r)
  {
    RecordedAnnounced(s, r, id, inc, e);
    hide Only, Announced, Legal, Replay;
  }

  lemma RecordedAnnounced(s: Session, r: Session, id: Id, inc: Incident, e: Event)
    requires Loose(s) && Recorded(s, r, id, inc, e)
    ensures forall other :: Only(r.published + r.pending, other) == Announced(other, TimelineOf(r.working, other))
  {
    LegalNumbers(inc.timeline);
    AnnouncedOne(id, TimelineOf(s.working, id), e, inc.status);
    hide Only, Announced, Legal, Replay;
    var note := Realtime(id, e.eventType, e.sequence, inc.status);
    forall other ensures Only(r.published + r.pending, other) == Announced(other, TimelineOf(r.working, other)) {
      assert r.published + r.pending == (s.published + s.pending) + [note];
      OnlyOne(s.published + s.pending, note, other);
    }
  }

  lemma GrowsExcess(s: Session, r: Session, id: Id)
    requires Excess(s, id) && Grows(s, r)
    ensures Excess(r, id)
  {
    hide Only, Legal, Sound;
    if other, inc, e :| Recorded(s, r, other, inc, e) {
      var note := Realtime(other, e.eventType, e.sequence, inc.status);
      assert r.published + r.pending == (s.published + s.pending) + [note];
      OnlyOne(s.published + s.pending, note, id);
    }
  }

  /** An excess is for ever. */
  lemma ExcessStays(s: Session, op: Op, id: Id)
    requires AllSound(s) && FreshId(s, op) && Excess(s, id)
    ensures Excess(Apply(s, op).0, id)
  {
    var r := Apply(s, op).0;
    if IsStep(op) {
      StepGrows(s, op);
      GrowsExcess(s, r, id);
    } else {
      assert r.published + r.pending == r.published;
      OnlyAppend(s.published, s.pending, id);
      hide Only;
    }
  }

  lemma ExcessIncoherent(s: Session)
    requires Ahead(s)
    ensures !Coherent(s)
  {
    hide Only, Announced, Sound;
    var id :| |Only(s.published, id)| > |TimelineOf(s.committed, id)|;
    if Coherent(s) {
      SoundTimeline(s.committed, id);
      AnnouncedNumbers(id, TimelineOf(s.committed, id));
    }
  }

  lemma SoundTimeline(m: Incidents, id: Id)
    requires forall x | x in m :: Sound(m[x])
    ensures Legal(TimelineOf(m, id))
  {
  }

  /** A commit publishes what is pending, so it brings a session back in line even after a drain. */
  lemma CommitCoherent(s: Session)
    requires Loose(s)
    ensures Coherent(Apply(s, Commit).0)
  {
    hide Only, Announced, Sound;
    var r := Apply(s, Commit).0;
    assert r.published + r.pending == r.published;
  }

  lemma RollbackCoherent(s: Session)
    requires Coherent(s)
    ensures Coherent(Apply(s, Rollback).0)
  {
    hide Only, Announced, Sound;
    var r := Apply(s, Rollback).0;
    assert r.published + r.pending == r.published;
  }

  /** A drain leaves the events published or pending together as they are ... */
  lemma DrainLoose(s: Session)
    requires Loose(s)
    ensures Loose(Apply(s, Drain).0)
    ensures s.pending == [] ==> Apply(s, Drain).0 == s
  {
    hide Only, Announced, Sound;
    var r := Apply(s, Drain).0;
    assert r.published + r.pending == s.published + s.pending;
  }

  /** ... but, if anything was pending, publishes more than was committed. */
  lemma DrainAhead(s: Session)
    requires Coherent(s) && s.pending != []
    ensures Ahead(Apply(s, Drain).0)
  {
    hide Only, Announced, Sound;
    var r := Apply(s, Drain).0;
    var id := s.pending[|s.pending| - 1].incidentId;
    OnlyAppend(s.published, s.pending, id);
    OnlyOne(s.pending[..|s.pending| - 1], s.pending[|s.pending| - 1], id);
    assert s.pending[..|s.pending| - 1] + [s.pending[|s.pending| - 1]] == s.pending;
    SoundTimeline(s.committed, id);
    AnnouncedNumbers(id, TimelineOf(s.committed, id));
    assert |Only(r.published, id)| > |TimelineOf(s.committed, id)|;
  }

  lemma DrainStaysAhead(s: Session)
    requires Ahead(s)
    ensures Ahead(Apply(s, Drain).0)
  {
    hide Only;
    var id :| |Only(s.published, id)| > |TimelineOf(s.committed, id)|;
    OnlyAppend(s.published, s.pending, id);
    assert |Only(Apply(s, Drain).0.published, id)| > |TimelineOf(s.committed, id)|;
  }

  lemma RollbackExcess(s: Session)
    requires Ahead(s)
    ensures exists id :: Excess(Apply(s, Rollback).0, id)
  {
    hide Only;
    var r := Apply(s, Rollback).0;
    assert r.published + r.pending == r.published;
    var id :| |Only(s.published, id)| > |TimelineOf(s.committed, id)|;
    assert Excess(r, id);
  }

  // ----- Runs -----

  function Run(ops: seq<Op>): Session {
    if ops == [] then EMPTY else Apply(Run(ops[..|ops| - 1]), ops[|ops| - 1]).0
  }

  /** Created incidents get fresh identifiers. */
  ghost predicate FreshIds(ops: seq<Op>) {
    forall i | 0 <= i < |ops| :: FreshId(Run(ops[..i]), ops[i])
  }

  /** Something was drained in the transaction that is still open. */
  ghost predicate Drained(ops: seq<Op>) {
    ops != [] &&
    var prefix, last := ops[..|ops| - 1], ops[|ops| - 1];
    if last.Commit? || last.Rollback? then false
    else Drained(prefix) || (last.Drain? && Run(prefix).pending != [])
  }

  /** Some transaction from which something had been drained was rolled back. */
  ghost predicate Leaked(ops: seq<Op>) {
    ops != [] &&
    var prefix, last := ops[..|ops| - 1], ops[|ops| - 1];
    Leaked(prefix) || (last.Rollback? && Drained(prefix))
  }

  lemma FreshPrefix(ops: seq<Op>)
    requires FreshIds(ops) && ops != []
    ensures FreshIds(ops[..|ops| - 1]) && FreshId(Run(ops[..|ops| - 1]), ops[|ops| - 1])
  {
    var prefix := ops[..|ops| - 1];
    forall i | 0 <= i < |prefix| ensures FreshId(Run(prefix[..i]), prefix[i]) {
      assert prefix[..i] == ops[..i];
    }
    assert FreshId(Run(ops[..|ops| - 1]), ops[|ops| - 1]);
  }

  lemma ApplySound(s: Session, op: Op)
    requires AllSound(s) && FreshId(s, op)
    ensures AllSound(Apply(s, op).0)
  {
    hide Sound;
    if IsStep(op) {
      StepGrows(s, op);
      GrowsSound(s, Apply(s, op).0);
    }
  }

  /** In every run, whatever was drained or leaked, every timeline is legal and replays to its status. */
  lemma {:induction false} RunSound(ops: seq<Op>)
    requires FreshIds(ops)
    ensures AllSound(Run(ops))
    decreases |ops|
  {
    hide AllSound, Apply;
    if ops == [] {
      NothingYet();
    } else {
      FreshPrefix(ops);
      RunSound(ops[..|ops| - 1]);
      ApplySound(Run(ops[..|ops| - 1]), ops[|ops| - 1]);
    }
  }

  /** In every run each entry leads to the status its type stands for. */
  lemma {:induction false} RunTyped(ops: seq<Op>)
    requires FreshIds(ops)
    ensures AllTyped(Run(ops).working) && AllTyped(Run(ops).committed)
    decreases |ops|
  {
    hide Apply;
    if ops != [] {
      FreshPrefix(ops);
      RunTyped(ops[..|ops| - 1]);
      ApplyTyped(Run(ops[..|ops| - 1]), ops[|ops| - 1]);
    }
  }

  lemma NothingYet()
    ensures AllSound(EMPTY) && Coherent(EMPTY)
  {
    assert EMPTY.published + EMPTY.pending == [];
  }

  /** Where a run stands: in line, ahead of its open transaction, or with an excess for ever. */
  ghost predicate Standing(s: Session, drained: bool, leaked: bool) {
    if leaked then exists id :: Excess(s, id)
    else if drained then Loose(s) && Ahead(s)
    else Coherent(s)
  }

  lemma StepStands(s: Session, op: Op, drained: bool, leaked: bool)
    requires AllSound(s) && FreshId(s, op) && Standing(s, drained, leaked)
    ensures Standing(Apply(s, op).0,
                     !op.Commit? && !op.Rollback? && (drained || (op.Drain? && s.pending != [])),
                     leaked || (op.Rollback? && drained))
  {
    hide Loose, AllSound, Only, Announced, Excess;
    var r := Apply(s, op).0;
    if leaked {
      var id :| Excess(s, id);
      ExcessStays(s, op, id);
    } else if IsStep(op) {
      StepGrows(s, op);
      GrowsLoose(s, r);
      SameBus(s, r);
      hide Apply;
    } else if op.Commit? {
      CommitCoherent(s);
    } else if op.Rollback? {
      if drained { RollbackExcess(s); } else { RollbackCoherent(s); }
    } else {
      DrainLoose(s);
      if drained { DrainStaysAhead(s); } else if s.pending != [] { DrainAhead(s); }
    }
  }

  lemma SameBus(s: Session, r: Session)
    requires Grows(s, r)
    ensures r.committed == s.committed && r.published == s.published
  {
    hide Sound, Legal;
  }

  lemma {:induction false} RunStands(ops: seq<Op>)
    requires FreshIds(ops)
    ensures Standing(Run(ops), Drained(ops), Leaked(ops))
    decreases |ops|
  {
    hide Standing, Apply, FreshIds, FreshId;
    if ops == [] {
      NothingYet();
      assert Standing(EMPTY, false, false) by { NothingStands(); }
    } else {
      var prefix := ops[..|ops| - 1];
      FreshPrefix(ops);
      RunStands(prefix);
      RunSound(prefix);
      StepStands(Run(prefix), ops[|ops| - 1], Drained(prefix), Leaked(prefix));
    }
  }

  lemma NothingStands()
    ensures Standing(EMPTY, false, false)
  {
    NothingYet();
  }

  /** At any point of any run of operations, drains, commits and rollbacks the events published are exactly
      the committed entries, and those published or pending the session's entries, if and only if nothing
      was drained in the open transaction and no drained transaction was ever rolled back. */
  lemma RunCoherent(ops: seq<Op>)
    requires FreshIds(ops)
    ensures Coherent(Run(ops)) <==> !Drained(ops) && !Leaked(ops)
  {
    RunStands(ops);
    hide Run, Drained, Leaked, Coherent, Loose, Only, FreshIds;
    if Leaked(ops) {
      var id :| Excess(Run(ops), id);
      assert Ahead(Run(ops));
    }
    if Ahead(Run(ops)) {
      ExcessIncoherent(Run(ops));
    }
  }

  /** Without the manual drain nothing can leak. */
  lemma {:induction false} NoDrainNoLeak(ops: seq<Op>)
    requires forall op | op in ops :: !op.Drain?
    ensures !Drained(ops) && !Leaked(ops)
    decreases |ops|
  {
    hide Run;
    if ops != [] {
      NoDrainNoLeak(ops[..|ops| - 1]);
    }
  }

  lemma {:induction false} AnnouncedNumbers(id: Id, t: seq<Event>)
    requires Legal(t)
    ensures |Announced(id, t)| == |t|
    ensures forall i | 0 <= i < |t| ::
              Announced(id, t)[i].sequence == i + 1 && Announced(id, t)[i].eventType == t[i].eventType
              && Announced(id, t)[i].incidentId == id
    decreases |t|
  {
    if t != [] {
      AnnouncedNumbers(id, t[..|t| - 1]);
    }
  }

  /** The bus has seen an incident's committed timeline entries, once each, numbered 1..n in order. */
  ghost predicate Mirrored(s: Session, id: Id) {
    var seen, log := Only(s.published, id), TimelineOf(s.committed, id);
    && |seen| == |log|
    && forall i | 0 <= i < |log| ::
        seen[i].sequence == log[i].sequence == i + 1 && seen[i].eventType == log[i].eventType
  }

  /** The outbox matches the log of every incident, and so rolled-back work was never published, if and
      only if nothing was drained in the open transaction and no drained transaction was rolled back. */
  lemma OutboxMatchesLog(ops: seq<Op>)
    requires FreshIds(ops)
    ensures (forall id :: Mirrored(Run(ops), id)) <==> !Drained(ops) && !Leaked(ops)
  {
    RunStands(ops);
    RunSound(ops);
    var s := Run(ops);
    hide Run, Drained, Leaked, Only, Announced, Legal, FreshIds, Loose;
    if !Drained(ops) && !Leaked(ops) {
      forall id ensures Mirrored(s, id) {
        SoundTimeline(s.committed, id);
        AnnouncedNumbers(id, TimelineOf(s.committed, id));
        LegalNumbers(TimelineOf(s.committed, id));
      }
    } else {
      if Leaked(ops) {
        var id :| Excess(s, id);
        assert Ahead(s);
      }
      var id :| |Only(s.published, id)| > |TimelineOf(s.committed, id)|;
      assert !Mirrored(s, id);
    }
  }

  /** In particular a drain of a session in line, followed at once by a rollback, does no harm if and only
      if nothing was pending. */
  lemma ManualDrainLeaks(s: Session)
    requires Coherent(s)
    ensures Coherent(Apply(Apply(s, Drain).0, Rollback).0) <==> s.pending == []
  {
    hide Only, Announced, Sound, Loose, Coherent, Ahead;
    if s.pending == [] {
      assert Apply(s, Drain).0 == s by { assert s.published + [] == s.published; }
      RollbackCoherent(s);
    } else {
      DrainAhead(s);
      var d := Apply(s, Drain).0;
      RollbackExcess(d);
      var id :| Excess(Apply(d, Rollback).0, id);
      ExcessIsAhead(Apply(d, Rollback).0, id);
      ExcessIncoherent(Apply(d, Rollback).0);
    }
  }

  lemma ExcessIsAhead(s: Session, id: Id)
    requires Excess(s, id)
    ensures Ahead(s)
  {
  }
}
