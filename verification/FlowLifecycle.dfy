/** The workflow lifecycle of blueprints/flow.py: activate, deactivate, save,
    replace and delete keep a stored active flag in step with three registries.

    Every call out of the handlers (database, scheduler, monitors) may fail at
    any time, and a call that reports failure may have taken effect all the
    same; both are choices `*` in the method that models the call.  That method
    alone writes the failure into a fault log and records the state in
    `history`, so a statement about `history` is one about every point at which
    the process may stop.  Requests are served one at a time. */
module FlowLifecycle {
  import opened Wrappers
  import opened FlowTrigger

  datatype Row = Row(graph: Graph, active: bool, jobIdStored: bool)

  /** `undoFailed` holds the workflows for which a best-effort removal left a
      registration behind; `misread` those with a changed trigger that a save did
      not see.  Both are left as soon as the workflow is in step again. */
  datatype World = World(
    rows: map<int, Row>,
    jobs: map<int, Registration>, alerts: map<int, Registration>, watches: map<int, Registration>,
    undoFailed: set<int>, misread: set<int>)

  function At(m: map<int, Registration>, id: int): Option<Registration> {
    if id in m then Some(m[id]) else None
  }

  /** Nothing is armed. */
  predicate Bare(w: World, id: int) {
    id !in w.jobs && id !in w.alerts && id !in w.watches
  }

  /** Exactly this is armed, in the registry of its kind. */
  predicate ArmedAs(w: World, id: int, r: Option<Registration>) {
    && At(w.jobs, id) == (if r.Some? && r.value.Job? then r else None)
    && At(w.alerts, id) == (if r.Some? && r.value.Alert? then r else None)
    && At(w.watches, id) == (if r.Some? && r.value.Watch? then r else None)
  }

  predicate SameArmed(v: World, w: World, id: int) {
    At(v.jobs, id) == At(w.jobs, id) && At(v.alerts, id) == At(w.alerts, id) && At(v.watches, id) == At(w.watches, id)
  }

  /** What is armed in w was armed in v. */
  predicate Fewer(v: World, w: World, id: int) {
    && (id in w.jobs ==> At(w.jobs, id) == At(v.jobs, id))
    && (id in w.alerts ==> At(w.alerts, id) == At(v.alerts, id))
    && (id in w.watches ==> At(w.watches, id) == At(v.watches, id))
  }

  /** Nothing is armed in w but what was armed in v and possibly r. */
  predicate ArmsAtMost(v: World, w: World, id: int, r: Option<Registration>) {
    && (id in w.jobs ==> At(w.jobs, id) == At(v.jobs, id) || At(w.jobs, id) == r)
    && (id in w.alerts ==> At(w.alerts, id) == At(v.alerts, id) || At(w.alerts, id) == r)
    && (id in w.watches ==> At(w.watches, id) == At(v.watches, id) || At(w.watches, id) == r)
  }

  /** At most one of the three registries holds something. */
  predicate Single(w: World, id: int) {
    && (id in w.jobs ==> id !in w.alerts && id !in w.watches)
    && (id in w.alerts ==> id !in w.watches)
  }

  /** What is armed is one registration, of a stored, active workflow. */
  predicate SafeAt(w: World, id: int) {
    id !in w.undoFailed ==> Single(w, id) && (!Bare(w, id) ==> id in w.rows && w.rows[id].active)
  }

  ghost predicate Safe(w: World) { forall id :: SafeAt(w, id) }

  /** Nothing, or what the stored graph of an active workflow would arm. */
  predicate Wanted(w: World, id: int, r: Option<Registration>) {
    r.Some? ==> id in w.rows && w.rows[id].active && RegistrationOf(w.rows[id].graph) == r
  }

  predicate InStep(w: World, id: int) {
    && Wanted(w, id, At(w.jobs, id)) && (id in w.jobs ==> w.jobs[id].Job?)
    && Wanted(w, id, At(w.alerts, id)) && (id in w.alerts ==> w.alerts[id].Alert?)
    && Wanted(w, id, At(w.watches, id)) && (id in w.watches ==> w.watches[id].Watch?)
  }

  /** What armed as r means, registry by registry. */
  lemma ArmedAsExact(w: World, id: int, r: Registration)
    ensures ArmedAs(w, id, Some(r)) <==>
      match r
      case Job(_, _, _, _, _, _, _) => id in w.jobs && w.jobs[id] == r && id !in w.alerts && id !in w.watches
      case Alert(_, _, _, _, _, _, _, _, _) => id in w.alerts && w.alerts[id] == r && id !in w.jobs && id !in w.watches
      case Watch(_, _, _, _, _) => id in w.watches && w.watches[id] == r && id !in w.jobs && id !in w.alerts
    ensures ArmedAs(w, id, None) <==> id !in w.jobs && id !in w.alerts && id !in w.watches
  {}

  /** In step means: nothing is armed, or the row is there and active and exactly what
      its graph asks for is armed. */
  lemma InStepExact(w: World, id: int)
    ensures InStep(w, id) <==>
      || (id !in w.jobs && id !in w.alerts && id !in w.watches)
      || (id in w.rows && w.rows[id].active && ArmedAs(w, id, RegistrationOf(w.rows[id].graph)))
  {
    hide RegistrationOf;
  }

  /** A workflow is excused from being in step exactly as long as it is not. */
  predicate SettledAt(w: World, id: int) {
    InStep(w, id) <==> id !in w.undoFailed && id !in w.misread
  }

  ghost predicate Settled(w: World) { forall id :: SettledAt(w, id) }

  /** Two worlds agree on a workflow. */
  predicate Same(v: World, w: World, id: int) {
    && (id in v.rows <==> id in w.rows) && (id in v.rows ==> v.rows[id] == w.rows[id])
    && SameArmed(v, w, id)
    && (id in v.undoFailed <==> id in w.undoFailed)
    && (id in v.misread <==> id in w.misread)
  }

  /** A request for one workflow leaves all others alone. */
  ghost predicate Only(v: World, w: World, id: int) {
    forall k | k != id :: Same(v, w, k)
  }

  lemma SafeStep(v: World, w: World, id: int)
    requires Safe(v) && Only(v, w, id) && SafeAt(w, id)
    ensures Safe(w)
  {
    forall k ensures SafeAt(w, k) {
      assert SafeAt(v, k);
      if k != id { assert Same(v, w, k); }
    }
  }

  lemma SettledStep(v: World, w: World, id: int)
    requires Settled(v) && Only(v, w, id) && SettledAt(w, id)
    ensures Settled(w)
  {
    forall k ensures SettledAt(w, k) {
      if k != id {
        assert SettledAt(v, k) && Same(v, w, k);
      }
    }
  }

  /** Removing registrations is always safe. */
  lemma Disarmed(v: World, w: World, id: int)
    requires Safe(v) && Only(v, w, id) && Fewer(v, w, id)
    requires v.rows == w.rows && v.undoFailed <= w.undoFailed
    ensures Safe(w)
  {
    assert SafeAt(v, id);
    SafeStep(v, w, id);
  }

  /** Removing registrations keeps what is left in step with the graph. */
  lemma DisarmedInStep(v: World, w: World, id: int)
    requires InStep(v, id) && Fewer(v, w, id)
    requires id in v.rows ==> id in w.rows && w.rows[id].(jobIdStored := false) == v.rows[id].(jobIdStored := false)
    ensures InStep(w, id)
  {}

  /** A save that re-arms nothing keeps a workflow in step exactly when the
      workflow is inactive, nothing is armed, or both graphs arm the same. */
  lemma UnarmedSaveExact(v: World, w: World, id: int)
    requires InStep(v, id) && id in v.rows && id in w.rows
    requires w.rows[id].active == v.rows[id].active && SameArmed(v, w, id)
    ensures InStep(w, id) <==>
      (!v.rows[id].active || Bare(v, id) || RegistrationOf(w.rows[id].graph) == RegistrationOf(v.rows[id].graph))
  {}

  /** The save that goes wrong when the read before it failed: an active daily
      schedule is moved and the old job keeps running. */
  lemma UnseenSaveGoesStale() returns (w: World, graph: Graph)
    ensures Safe(w) && Settled(w) && 1 in w.rows && InStep(w, 1)
    ensures !InStep(w.(rows := w.rows[1 := w.rows[1].(graph := graph)]), 1)
  {
    var nine := Node("start", map["scheduleType" := Text("daily"), "time" := Text("09:15")]);
    var ten := Node("start", map["scheduleType" := Text("daily"), "time" := Text("10:15")]);
    var r := RegistrationFor(nine).value;
    w := World(map[1 := Row([nine], true, true)], map[1 := r], map[], map[], {}, {});
    graph := [ten];
    assert At(w.jobs, 1) == Some(r) == RegistrationOf([nine]);
    assert RegistrationFor(ten).value.time != r.time;
    UnarmedSaveExact(w, w.(rows := w.rows[1 := w.rows[1].(graph := graph)]), 1);
  }

  /** And one that goes wrong although every call succeeds: the stored graph hides
      the trigger that is armed, so the save compares equal. */
  lemma EqualSaveGoesStale() returns (w: World, graph: Graph)
    ensures Safe(w) && Settled(w) && 1 in w.rows && InStep(w, 1)
    ensures AtMostOneTrigger(graph) && TriggerConfig(graph) == TriggerConfig(w.rows[1].graph)
    ensures !InStep(w.(rows := w.rows[1 := w.rows[1].(graph := graph)]), 1)
  {
    var stored;
    stored, graph := StoredShadowComparesEqual();
    w := World(map[1 := Row(stored, true, true)], map[1 := RegistrationOf(stored).value], map[], map[], {}, {});
    UnarmedSaveExact(w, w.(rows := w.rows[1 := w.rows[1].(graph := graph)]), 1);
  }

  lemma Here(w: World, id: int)
    requires Safe(w) && Settled(w)
    ensures SafeAt(w, id) && SettledAt(w, id)
  {}

  lemma SafeHere(w: World, id: int)
    requires Safe(w)
    ensures SafeAt(w, id)
  {}

  lemma InStepSame(v: World, w: World, id: int)
    requires w == v.(undoFailed := v.undoFailed - {id}, misread := v.misread - {id})
    ensures Only(v, w, id) && InStep(w, id) == InStep(v, id) && (InStep(v, id) ==> SafeAt(w, id))
  {}

  /** Losing a registration never puts a workflow out of step whose row is left
      alone, and only one can be lost. */
  lemma StillInStep(v: World, w: World, id: int)
    requires InStep(v, id) && Fewer(v, w, id) && v.rows == w.rows
    ensures InStep(w, id)
  {}

  /** Nothing is armed for an inactive workflow unless it is excused. */
  lemma InactiveSettled(w: World, id: int)
    requires SettledAt(w, id) && id in w.rows && !w.rows[id].active
    ensures Bare(w, id) || id in w.undoFailed || id in w.misread
  {}

  lemma BareInStep(w: World, id: int)
    requires Bare(w, id)
    ensures InStep(w, id)
  {}

  lemma Stranded(v: World, w: World, id: int)
    requires w == v.(undoFailed := v.undoFailed + {id})
    ensures Only(v, w, id)
  {}

  lemma Excused(v: World, w: World, id: int)
    requires w == v.(misread := v.misread + {id})
    ensures Only(v, w, id) && SafeAt(w, id) == SafeAt(v, id) && InStep(w, id) == InStep(v, id)
  {}

  lemma SettledHere(w: World, id: int)
    requires Settled(w)
    ensures SettledAt(w, id)
  {}

  /** Exactly the stored trigger is armed. */
  lemma RegisteredInStep(w: World, id: int, trigger: Node)
    requires id in w.rows && w.rows[id].active && TriggerNode(w.rows[id].graph) == Some(trigger)
    requires ArmedAs(w, id, RegistrationFor(trigger))
    ensures InStep(w, id)
  {}

  lemma Unchanged(w: World, id: int)
    ensures Only(w, w, id)
  {}

  lemma OnlyTrans(u: World, v: World, w: World, id: int)
    requires Only(u, v, id) && Only(v, w, id)
    ensures Only(u, w, id)
  {
    forall k | k != id ensures Same(u, w, k) {
      assert Same(u, v, k) && Same(v, w, k);
    }
  }

  // ---- The fault log ------------------------------------------------------

  /** The calls out of the handlers; `Comparing` is the read a save compares with. */
  datatype Call =
    | Reading | Comparing | Creation | Flagging | Unflagging | JobIdWriting | GraphWriting | RowDeletion
    | JobRemoval | AlertRemoval | WatchRemoval | Arming | Release

  /** A call for a workflow that did not take effect, or took effect although it
      reported failure, and a lost removal after which the caller went on. */
  datatype Fault = Lost(id: int, call: Call) | Torn(id: int, call: Call) | Ignored(id: int, call: Call)

  function FaultOf(id: int, call: Call, failed: bool, effect: bool): set<Fault> {
    if !failed then {} else if effect then {Torn(id, call)} else {Lost(id, call)}
  }

  predicate IgnoredRemoval(id: int, faults: set<Fault>) {
    Ignored(id, JobRemoval) in faults || Ignored(id, AlertRemoval) in faults || Ignored(id, WatchRemoval) in faults
  }

  /** The calls of one request that were lost or torn. */
  datatype Log = Log(lost: set<Call>, torn: set<Call>)
  {
    function Note(call: Call, failed: bool, effect: bool): Log {
      if !failed then this else if effect then this.(torn := torn + {call}) else this.(lost := lost + {call})
    }

    predicate Faulty() { lost != {} || torn != {} }

    /** A registration is still there after the call that was to remove it. */
    predicate Kept() { JobRemoval in lost || AlertRemoval in lost || WatchRemoval in lost }

    /** Nothing more went wrong but arming, removing and storing the job id. */
    predicate Besides(log: Log) {
      && (Reading in lost <==> Reading in log.lost) && (Comparing in lost <==> Comparing in log.lost)
      && (Flagging in lost <==> Flagging in log.lost) && (Flagging in torn <==> Flagging in log.torn)
      && (Unflagging in lost <==> Unflagging in log.lost) && (Unflagging in torn <==> Unflagging in log.torn)
      && (GraphWriting in lost <==> GraphWriting in log.lost) && (GraphWriting in torn <==> GraphWriting in log.torn)
      && (RowDeletion in torn <==> RowDeletion in log.torn)
      && (log.Kept() ==> Kept())
    }
  }

  const CLEAN := Log({}, {})

  /** What a write changes in a row. */
  datatype Write = SetActive(on: bool) | SetJobId(on: bool) | SetGraph(nodes: Option<Graph>)
  {
    function Tag(): Call {
      match this
      case SetActive(on) => if on then Flagging else Unflagging
      case SetJobId(_) => JobIdWriting
      case SetGraph(_) => GraphWriting
    }

    function On(row: Row): Row {
      match this
      case SetActive(on) => row.(active := on)
      case SetJobId(on) => row.(jobIdStored := on)
      case SetGraph(nodes) => row.(graph := nodes.GetOr(row.graph))
    }
  }

  /** What ran: a job of a schedule, or a one-shot alert or watch. */
  datatype Trigger = JobRan | AlertFired | WatchFired

  datatype Status = Success | AlreadyActive | AlreadyInactive | NotFound | BadRequest | ServerError

  /** A request; `valid` is what validation of the graph in question says. */
  datatype Request =
    | CreateReq(id: int, graph: Graph)
    | ActivateReq(id: int, hasKey: bool, valid: bool)
    | DeactivateReq(id: int)
    | UpdateReq(id: int, nodes: Option<Graph>, hasKey: bool, valid: bool)
    | ReplaceReq(id: int, graph: Graph, hasKey: bool, valid: bool)
    | DeleteReq(id: int)
    | Fired(id: int, trigger: Trigger)

  /** No request brings the workflow a graph with more than one trigger. */
  predicate OneTriggerEach(requests: seq<Request>, id: int) {
    forall i | 0 <= i < |requests| && requests[i].id == id ::
      match requests[i]
      case CreateReq(_, graph) => AtMostOneTrigger(graph)
      case UpdateReq(_, Some(graph), _, _) => AtMostOneTrigger(graph)
      case ReplaceReq(_, graph, _, _) => AtMostOneTrigger(graph)
      case _ => true
  }

  lemma OneTriggerParts(requests: seq<Request>, i: nat, id: int)
    requires i < |requests| && OneTriggerEach(requests[..i + 1], id)
    ensures OneTriggerEach(requests[..i], id)
    ensures requests[i].id == id ==> OneTriggerEach([requests[i]], id)
  {
    forall k | 0 <= k < i ensures requests[..i][k] == requests[..i + 1][k] {}
    assert requests[..i + 1][i] == requests[i];
  }

  /** A save between one-trigger graphs is never misled by its comparison. */
  lemma OneTriggerSave(v: World, w: World, id: int)
    requires id in v.rows && id in w.rows
    ensures
      (AtMostOneTrigger(v.rows[id].graph) && AtMostOneTrigger(w.rows[id].graph)
       && TriggerConfig(w.rows[id].graph) == TriggerConfig(v.rows[id].graph))
      ==> RegistrationOf(w.rows[id].graph) == RegistrationOf(v.rows[id].graph)
  {
    if AtMostOneTrigger(v.rows[id].graph) && AtMostOneTrigger(w.rows[id].graph)
       && TriggerConfig(w.rows[id].graph) == TriggerConfig(v.rows[id].graph) {
      SameConfigSameRegistration(v.rows[id].graph, w.rows[id].graph);
    }
  }

  class FlowService {
    var rows: map<int, Row>
    var jobs: map<int, Registration>
    var alerts: map<int, Registration>
    var watches: map<int, Registration>
    ghost var undoFailed: set<int>
    ghost var misread: set<int>
    /** Every workflow that ever was in `undoFailed`. */
    ghost var stranded: set<int>
    /** Every workflow for which a save compared equal and armed differently. */
    ghost var shadowed: set<int>
    /** The fault log. */
    ghost var faults: set<Fault>
    /** The workflow of the present request, and what went wrong for it so far. */
    ghost var subject: int
    ghost var log: Log
    ghost var history: seq<World>

    constructor ()
      ensures Quiet() && Valid() && rows == map[] && jobs == map[] && alerts == map[] && watches == map[]
      ensures shadowed == {} && faults == {}
    {
      rows, jobs, alerts, watches := map[], map[], map[], map[];
      undoFailed, misread, stranded, shadowed := {}, {}, {}, {};
      faults, subject, log, history := {}, 0, CLEAN, [];
    }

    ghost function Now(): World
      reads this
    {
      World(rows, jobs, alerts, watches, undoFailed, misread)
    }

    /** Every state ever recorded was safe, and so is the present one; whoever is
        excused is so because of a fault, or of a save misled by its comparison. */
    ghost predicate Valid()
      reads this
    {
      Safe(Now()) && Blame()
    }

    ghost predicate Blame()
      reads this
    {
      && (forall w | w in history :: Safe(w) && w.undoFailed <= stranded)
      && undoFailed <= stranded
      && (forall id | id in stranded :: IgnoredRemoval(id, faults))
      && (forall id | id in misread :: Misled(id))
      && (Comparing in log.lost ==> Lost(subject, Comparing) in faults)
      && (GraphWriting in log.torn ==> Torn(subject, GraphWriting) in faults)
    }

    ghost predicate Misled(id: int)
      reads this
    {
      Lost(id, Comparing) in faults || Torn(id, GraphWriting) in faults || id in shadowed
    }

    /** Valid, and between requests. */
    ghost predicate Quiet()
      reads this
    {
      Valid() && Settled(Now())
    }

    lemma Blamed()
      requires Valid()
      ensures Blame()
    {}

    lemma Unquiet()
      requires Quiet()
      ensures Valid() && Safe(Now()) && Settled(Now())
    {}

    lemma BareIsUnexcused(id: int)
      requires Quiet()
      ensures Bare(Now(), id) ==> id !in undoFailed && id !in misread
    {
      SettledHere(Now(), id);
    }

    lemma StillQuiet()
      requires Valid() && Settled(Now())
      ensures Quiet()
    {}

    lemma NowSafe(id: int)
      requires Valid()
      ensures SafeAt(Now(), id)
    {}

    /** A new request starts with a clean log. */
    ghost method Begin(id: int)
      requires Quiet()
      modifies this`subject, this`log
      ensures Quiet() && subject == id && log == CLEAN
      ensures Valid() && Safe(Now()) && Settled(Now())
    {
      subject, log := id, CLEAN;
    }

    /** What every call writes down. */
    ghost method Note(id: int, call: Call, failed: bool, effect: bool)
      requires Blame() && subject == id
      modifies this`faults, this`log
      ensures Blame() && (old(Valid()) ==> Valid()) && (old(Quiet()) ==> Quiet())
      ensures log == old(log).Note(call, failed, effect)
    {
      hide Safe, Settled;
      faults := faults + FaultOf(id, call, failed, effect);
      log := log.Note(call, failed, effect);
    }

    /** Whoever ignores that a registration was kept leaves the workflow stranded. */
    ghost method Strand(id: int, call: Call)
      requires Blame() && call in {JobRemoval, AlertRemoval, WatchRemoval}
      modifies this`undoFailed, this`stranded, this`faults
      ensures Blame() && undoFailed == old(undoFailed) + {id}
    {
      hide Safe;
      faults := faults + {Ignored(id, call)};
      undoFailed, stranded := undoFailed + {id}, stranded + {id};
    }

    // ---- Calls out of the handlers ------------------------------------------

    /** get_workflow: answers None for a missing row and for a failed read. */
    method Load(id: int, ghost call: Call) returns (row: Option<Row>)
      requires Valid() && subject == id
      modifies this`faults, this`log
      ensures Valid() && (old(Quiet()) ==> Quiet())
      ensures row.Some? ==> id in rows && row.value == rows[id]
      ensures log == old(log).Note(call, row.None? && id in rows, false)
    {
      hide Valid, Quiet;
      var failed: bool := *;
      row := if id in rows && !failed then Some(rows[id]) else None;
      Blamed();
      Note(id, call, row.None? && id in rows, false);
    }

    /** The state after a call, for the history. */
    ghost method Record(id: int, before: World)
      requires Safe(before) && Only(before, Now(), id) && Blame()
      modifies this`history
      ensures SafeAt(Now(), id) ==> Valid()
      ensures history == old(history) + [Now()]
    {
      hide Only, Safe;
      history := history + [Now()];
      if SafeAt(Now(), id) { SafeStep(before, Now(), id); }
    }

    /** update_workflow and its wrappers: all of the change or none of it.  An
        exception after the commit reports a failure for a change that is there. */
    method SaveRow(id: int, write: Write) returns (ok: bool, ghost applied: bool)
      requires Valid() && subject == id
      modifies this`rows, this`faults, this`log, this`history
      ensures SafeAt(Now(), id) ==> Valid()
      ensures Only(old(Now()), Now(), id) && old(history) <= history
      ensures ok ==> applied
      ensures applied ==> id in old(rows)
      ensures id in rows <==> id in old(rows)
      ensures applied ==> rows[id] == write.On(old(rows)[id])
      ensures !applied ==> rows == old(rows)
      ensures log == old(log).Note(write.Tag(), !ok && id in old(rows), applied)
    {
      hide Safe;
      ghost var before := Now();
      var committed: bool := *;
      ok := *;
      committed := committed && id in rows;
      ok := ok && committed;
      applied := committed;
      Note(id, write.Tag(), !ok && id in rows, committed);
      if committed {
        rows := rows[id := write.On(rows[id])];
      }
      Record(id, before);
    }

    method DeleteRow(id: int) returns (ok: bool, ghost applied: bool)
      requires Valid() && subject == id
      modifies this`rows, this`faults, this`log, this`history
      ensures SafeAt(Now(), id) ==> Valid()
      ensures Only(old(Now()), Now(), id) && old(history) <= history
      ensures ok ==> applied
      ensures applied ==> id in old(rows)
      ensures if applied then id !in rows else rows == old(rows)
      ensures log == old(log).Note(RowDeletion, !ok && id in old(rows), applied)
    {
      hide Safe;
      ghost var before := Now();
      var committed: bool := *;
      ok := *;
      committed := committed && id in rows;
      ok := ok && committed;
      applied := committed;
      Note(id, RowDeletion, !ok && id in rows, committed);
      if committed {
        rows := rows - {id};
      }
      Record(id, before);
    }

    /** Without `strict` a failed removal is silent; with it, it raises.  An
        exception may come before or after the job is gone: `kept` tells. */
    method RemoveJob(id: int, strict: bool) returns (raised: bool, ghost kept: bool)
      requires Valid() && subject == id
      modifies this`jobs, this`undoFailed, this`stranded, this`faults, this`log, this`history
      ensures Valid() && Only(old(Now()), Now(), id) && old(history) <= history
      ensures At(jobs, id) == if kept then At(old(jobs), id) else None
      ensures kept ==> id in jobs
      ensures strict && !raised ==> !kept
      ensures !strict ==> !raised
      ensures id in undoFailed <==> id in old(undoFailed) || (kept && !strict)
      ensures log == old(log).Note(JobRemoval, kept || raised, !kept)
    {
      hide Safe;
      ghost var before := Now();
      var removed: bool := *;
      raised := *;
      raised := raised && strict;
      removed := removed || (strict && !raised);
      kept := !removed && id in jobs;
      jobs := if removed then jobs - {id} else jobs;
      NoteRemoval(id, JobRemoval, kept, raised, !strict, before);
    }

    /** `caught` says that the caller goes on after an exception. */
    method RemoveAlert(id: int, ghost caught: bool) returns (raised: bool, ghost kept: bool)
      requires Valid() && subject == id
      modifies this`alerts, this`undoFailed, this`stranded, this`faults, this`log, this`history
      ensures Valid() && Only(old(Now()), Now(), id) && old(history) <= history
      ensures At(alerts, id) == if kept then At(old(alerts), id) else None
      ensures kept ==> id in alerts && raised
      ensures id in undoFailed <==> id in old(undoFailed) || (kept && caught)
      ensures log == old(log).Note(AlertRemoval, raised, !kept)
    {
      hide Safe;
      ghost var before := Now();
      var removed: bool := *;
      raised := *;
      removed := removed || !raised;
      kept := !removed && id in alerts;
      alerts := if removed then alerts - {id} else alerts;
      NoteRemoval(id, AlertRemoval, kept, raised, caught, before);
    }

    method RemoveWatch(id: int, ghost caught: bool) returns (raised: bool, ghost kept: bool)
      requires Valid() && subject == id
      modifies this`watches, this`undoFailed, this`stranded, this`faults, this`log, this`history
      ensures Valid() && Only(old(Now()), Now(), id) && old(history) <= history
      ensures At(watches, id) == if kept then At(old(watches), id) else None
      ensures kept ==> id in watches && raised
      ensures id in undoFailed <==> id in old(undoFailed) || (kept && caught)
      ensures log == old(log).Note(WatchRemoval, raised, !kept)
    {
      hide Safe;
      ghost var before := Now();
      var removed: bool := *;
      raised := *;
      removed := removed || !raised;
      kept := !removed && id in watches;
      watches := if removed then watches - {id} else watches;
      NoteRemoval(id, WatchRemoval, kept, raised, caught, before);
    }

    /** What a removal writes down. */
    ghost method NoteRemoval(id: int, call: Call, kept: bool, raised: bool, caught: bool, before: World)
      requires Blame() && subject == id && undoFailed == before.undoFailed && rows == before.rows
      requires Safe(before) && Only(before, Now(), id) && Fewer(before, Now(), id)
      requires call in {JobRemoval, AlertRemoval, WatchRemoval}
      modifies this`undoFailed, this`stranded, this`faults, this`log, this`history
      ensures Valid() && Only(before, Now(), id) && history == old(history) + [Now()]
      ensures id in undoFailed <==> id in old(undoFailed) || (kept && caught)
      ensures log == old(log).Note(call, kept || raised, !kept)
    {
      hide Safe, Only, Blame;
      ghost var now := Now();
      Note(id, call, kept || raised, !kept);
      if kept && caught {
        Strand(id, call);
        Stranded(now, Now(), id);
        OnlyTrans(before, now, Now(), id);
      }
      Disarmed(before, Now(), id);
      RecordSafe();
    }

    ghost method RecordSafe()
      requires Safe(Now()) && Blame()
      modifies this`history
      ensures Valid() && history == old(history) + [Now()]
    {
      hide Safe;
      history := history + [Now()];
    }

    /** add_workflow_job.  A failed call may already have dropped the previous
        job, and may even have stored the new one before raising. */
    method AddJob(id: int, r: Registration) returns (raised: bool)
      requires Valid() && subject == id
      modifies this`jobs, this`faults, this`log, this`history
      ensures SafeAt(Now(), id) ==> Valid()
      ensures Only(old(Now()), Now(), id) && old(history) <= history
      ensures At(jobs, id) == Some(r) || (raised && (At(jobs, id) == At(old(jobs), id) || id !in jobs))
      ensures if raised then log.Faulty() && log.Besides(old(log)) else log == old(log)
    {
      hide Safe;
      ghost var before := Now();
      var dropped: bool := *;
      var stored: bool := *;
      raised := *;
      Note(id, Arming, raised, stored);
      if !raised || stored {
        jobs := jobs[id := r];
      } else if dropped {
        jobs := jobs - {id};
      }
      Record(id, before);
    }

    method AddAlert(id: int, r: Registration) returns (raised: bool)
      requires Valid() && subject == id
      modifies this`alerts, this`faults, this`log, this`history
      ensures SafeAt(Now(), id) ==> Valid()
      ensures Only(old(Now()), Now(), id) && old(history) <= history
      ensures At(alerts, id) == Some(r) || (raised && At(alerts, id) == At(old(alerts), id))
      ensures if raised then log.Faulty() && log.Besides(old(log)) else log == old(log)
    {
      hide Safe;
      ghost var before := Now();
      var stored: bool := *;
      raised := *;
      Note(id, Arming, raised, stored);
      if !raised || stored {
        alerts := alerts[id := r];
      }
      Record(id, before);
    }

    method AddWatch(id: int, r: Registration) returns (raised: bool)
      requires Valid() && subject == id
      modifies this`watches, this`faults, this`log, this`history
      ensures SafeAt(Now(), id) ==> Valid()
      ensures Only(old(Now()), Now(), id) && old(history) <= history
      ensures At(watches, id) == Some(r) || (raised && At(watches, id) == At(old(watches), id))
      ensures if raised then log.Faulty() && log.Besides(old(log)) else log == old(log)
    {
      hide Safe;
      ghost var before := Now();
      var stored: bool := *;
      raised := *;
      Note(id, Arming, raised, stored);
      if !raised || stored {
        watches := watches[id := r];
      }
      Record(id, before);
    }

    /** Giving back market-data subscriptions touches nothing modelled here. */
    method ReleaseSubscriptions(id: int) returns (raised: bool)
      requires Valid() && subject == id
      modifies this`faults, this`log
      ensures Valid() && (old(Quiet()) ==> Quiet())
      ensures log == old(log).Note(Release, raised, false)
    {
      hide Valid, Quiet;
      raised := *;
      Blamed();
      Note(id, Release, raised, false);
    }

    // ---- Shared steps of the handlers ---------------------------------------

    /** The end of a request: a workflow that is in step is excused no longer. */
    ghost method Settle(id: int, before: World)
      requires Valid() && Settled(before) && Only(before, Now(), id)
      requires InStep(Now(), id) || id in undoFailed || id in misread
      modifies this`undoFailed, this`misread
      ensures Valid() && Quiet() && Only(before, Now(), id)
      ensures InStep(Now(), id) == old(InStep(Now(), id))
      ensures id in undoFailed <==> id in old(undoFailed) && !InStep(Now(), id)
      ensures id in misread <==> id in old(misread) && !InStep(Now(), id)
    {
      hide Safe, Only, InStep, Bare;
      if InStep(Now(), id) {
        ghost var now := Now();
        undoFailed, misread := undoFailed - {id}, misread - {id};
        InStepSame(now, Now(), id);
        SafeStep(now, Now(), id);
        OnlyTrans(before, now, Now(), id);
      }
      SettledStep(before, Now(), id);
    }

    /** _register_trigger, for a workflow whose row already says active. */
    method RegisterTrigger(id: int, node: Node) returns (raised: bool)
      requires Valid() && subject == id && id in rows && rows[id].active
      requires Bare(Now(), id) || id in undoFailed
      modifies this`rows, this`jobs, this`alerts, this`watches, this`undoFailed, this`stranded, this`faults, this`log, this`history
      ensures Valid() && Only(old(Now()), Now(), id) && old(history) <= history
      ensures id in rows && rows[id] == old(rows)[id].(jobIdStored := rows[id].jobIdStored)
      ensures ArmsAtMost(old(Now()), Now(), id, RegistrationFor(node))
      ensures !raised && Bare(old(Now()), id) ==> ArmedAs(Now(), id, RegistrationFor(node))
      ensures !raised && RegistrationFor(node).Some? && RegistrationFor(node).value.Job? ==> rows[id].jobIdStored
      ensures if raised then log.Faulty() && log.Besides(old(log)) else log == old(log)
      ensures id in undoFailed ==> id in old(undoFailed) || log.Kept()
      ensures id in old(undoFailed) ==> id in undoFailed
    {
      hide Valid, Quiet, Safe, Only;
      raised := false;
      Unchanged(Now(), id);
      match RegistrationFor(node)
      case None =>
      case Some(r) =>
        match r
        case Job(_, _, _, _, _, _, _) => raised := RegisterJob(id, r);
        case Alert(_, _, _, _, _, _, _, _, _) => raised := AddAlert(id, r);
        case Watch(_, _, _, _, _) => raised := AddWatch(id, r);
    }

    /** The start branch: a job whose id cannot be stored is taken back. */
    method RegisterJob(id: int, r: Registration) returns (raised: bool)
      requires Valid() && subject == id && id in rows && rows[id].active
      requires Bare(Now(), id) || id in undoFailed
      modifies this`rows, this`jobs, this`undoFailed, this`stranded, this`faults, this`log, this`history
      ensures Valid() && Only(old(Now()), Now(), id) && old(history) <= history
      ensures id in rows && rows[id] == old(rows)[id].(jobIdStored := rows[id].jobIdStored)
      ensures id in jobs ==> At(jobs, id) == At(old(jobs), id) || At(jobs, id) == Some(r)
      ensures !raised ==> At(jobs, id) == Some(r) && rows[id].jobIdStored
      ensures if raised then log.Faulty() && log.Besides(old(log)) else log == old(log)
      ensures id in undoFailed ==> id in old(undoFailed) || log.Kept()
      ensures id in old(undoFailed) ==> id in undoFailed
    {
      hide Valid, Quiet, Safe, Only;
      raised := AddJob(id, r);
      if !raised {
        ghost var added := Now();
        raised := StoreJobId(id);
        OnlyTrans(old(Now()), added, Now(), id);
      }
    }

    method StoreJobId(id: int) returns (raised: bool)
      requires Valid() && subject == id && id in rows && rows[id].active
      modifies this`rows, this`jobs, this`undoFailed, this`stranded, this`faults, this`log, this`history
      ensures Valid() && Only(old(Now()), Now(), id) && old(history) <= history
      ensures id in rows && rows[id] == old(rows)[id].(jobIdStored := rows[id].jobIdStored)
      ensures id in jobs ==> At(jobs, id) == At(old(jobs), id)
      ensures !raised ==> At(jobs, id) == At(old(jobs), id) && log == old(log)
      ensures !raised ==> rows[id].jobIdStored
      ensures raised ==> log.Faulty() && log.Besides(old(log))
      ensures id in undoFailed ==> id in old(undoFailed) || log.Kept()
      ensures id in old(undoFailed) ==> id in undoFailed
    {
      hide Valid, Quiet, Safe, Only;
      NowSafe(id);
      var stored, _ := SaveRow(id, SetJobId(true));
      raised := !stored;
      if raised {
        ghost var unsaved := Now();
        var _, _ := RemoveJob(id, false);
        OnlyTrans(old(Now()), unsaved, Now(), id);
      }
    }

    /** The two removals that delete, deactivate and re-arming have in common. */
    method RemoveMonitors(id: int) returns (raised: bool)
      requires Valid() && subject == id
      modifies this`alerts, this`watches, this`undoFailed, this`stranded, this`faults, this`log, this`history
      ensures Valid() && Only(old(Now()), Now(), id) && old(history) <= history
      ensures Fewer(old(Now()), Now(), id) && (id in undoFailed <==> id in old(undoFailed))
      ensures !raised ==> id !in alerts && id !in watches
      ensures JobRemoval in log.lost <==> JobRemoval in old(log).lost
      ensures if raised then log.Faulty() && log.Besides(old(log)) else log == old(log)
    {
      hide Valid, Quiet, Only, Safe;
      ghost var kept;
      raised, kept := RemoveAlert(id, false);
      if raised { return; }
      ghost var removed := Now();
      raised, kept := RemoveWatch(id, false);
      OnlyTrans(old(Now()), removed, Now(), id);
    }

    /** _unregister_trigger: all three kinds, the job strictly. */
    method UnregisterTrigger(id: int) returns (raised: bool)
      requires Valid() && subject == id
      modifies this`jobs, this`alerts, this`watches, this`undoFailed, this`stranded, this`faults, this`log, this`history
      ensures Valid() && Only(old(Now()), Now(), id) && old(history) <= history
      ensures Fewer(old(Now()), Now(), id) && (id in undoFailed <==> id in old(undoFailed))
      ensures !raised ==> Bare(Now(), id)
      ensures if raised then log.Faulty() && log.Besides(old(log)) else log == old(log)
    {
      hide Valid, Quiet, Only, Safe;
      ghost var kept;
      raised, kept := RemoveJob(id, true);
      if raised { return; }
      ghost var w1 := Now();
      raised := RemoveMonitors(id);
      OnlyTrans(old(Now()), w1, Now(), id);
    }

    /** _reregister_trigger: tear down, then arm what the stored graph says. */
    method ReregisterTrigger(id: int, hasKey: bool) returns (raised: bool)
      requires Valid() && subject == id && id in rows && rows[id].active
      modifies this`rows, this`jobs, this`alerts, this`watches, this`undoFailed, this`stranded, this`faults, this`log, this`history
      ensures Valid() && Only(old(Now()), Now(), id) && old(history) <= history
      ensures id in rows && rows[id] == old(rows)[id].(jobIdStored := rows[id].jobIdStored)
      ensures !raised ==> ArmedAs(Now(), id, RegistrationOf(rows[id].graph)) && log == old(log)
      ensures raised ==> log.Faulty() || !hasKey || TriggerNode(rows[id].graph).None?
      ensures !hasKey || TriggerNode(rows[id].graph).None? ==> raised
      ensures log.Besides(old(log))
      ensures id in undoFailed ==> id in old(undoFailed) || log.Kept()
    {
      hide Valid, Quiet, Only, Safe, RegistrationFor, TriggerNode;
      Unchanged(Now(), id);
      var trigger := TriggerNode(rows[id].graph);
      if trigger.None? || !hasKey {
        return true;
      }
      raised := UnregisterTrigger(id);
      if !raised {
        ghost var disarmed := Now();
        raised := RegisterTrigger(id, trigger.value);
        OnlyTrans(old(Now()), disarmed, Now(), id);
      }
    }

    /** _rollback_activation: four best-effort undos, the flag last.  What a call
        failed to undo is what stays, and nothing else does. */
    method RollbackActivation(id: int)
      requires Valid() && subject == id && id in rows && rows[id].active && Unflagging !in log.lost
      modifies this`rows, this`jobs, this`alerts, this`watches, this`undoFailed, this`stranded, this`faults, this`log, this`history
      ensures Valid() && Only(old(Now()), Now(), id) && old(history) <= history
      ensures id in rows && rows[id] == old(rows)[id].(active := rows[id].active)
      ensures Fewer(old(Now()), Now(), id)
      ensures rows[id].active <==> Unflagging in log.lost
      ensures JobRemoval in log.lost <==> id in jobs || JobRemoval in old(log).lost
      ensures AlertRemoval in log.lost <==> id in alerts || AlertRemoval in old(log).lost
      ensures WatchRemoval in log.lost <==> id in watches || WatchRemoval in old(log).lost
      ensures !Bare(Now(), id) ==> id in undoFailed
      ensures old(log).Faulty() ==> log.Faulty()
      ensures (Reading in log.lost <==> Reading in old(log).lost) && (Comparing in log.lost <==> Comparing in old(log).lost)
        && (Flagging in log.torn <==> Flagging in old(log).torn)
      ensures (GraphWriting in log.lost <==> GraphWriting in old(log).lost) && (GraphWriting in log.torn <==> GraphWriting in old(log).torn)
      ensures id in undoFailed ==> id in old(undoFailed) || log.Kept()
    {
      hide Valid, Quiet, Only, Safe;
      UndoArming(id);
      ghost var undone := Now();
      NowSafe(id);
      ClearFlag(id);
      OnlyTrans(old(Now()), undone, Now(), id);
    }

    method ClearFlag(id: int)
      requires Valid() && SafeAt(Now(), id) && (Bare(Now(), id) || id in undoFailed)
      requires subject == id && id in rows && rows[id].active && Unflagging !in log.lost
      modifies this`rows, this`faults, this`log, this`history
      ensures Valid() && Only(old(Now()), Now(), id) && old(history) <= history
      ensures id in rows && rows[id] == old(rows)[id].(active := rows[id].active)
      ensures rows[id].active <==> Unflagging in log.lost
      ensures log.lost - {Unflagging} == old(log).lost
      ensures log.torn == old(log).torn || log.torn == old(log).torn + {Unflagging}
    {
      hide Valid, Quiet, Only, Safe;
      var _, _ := SaveRow(id, SetActive(false));
    }

    /** The three removals of a rollback, each of which goes on to the next. */
    method UndoArming(id: int)
      requires Valid() && subject == id
      modifies this`jobs, this`alerts, this`watches, this`undoFailed, this`stranded, this`faults, this`log, this`history
      ensures Valid() && Only(old(Now()), Now(), id) && old(history) <= history
      ensures Fewer(old(Now()), Now(), id)
      ensures JobRemoval in log.lost <==> id in jobs || JobRemoval in old(log).lost
      ensures AlertRemoval in log.lost <==> id in alerts || AlertRemoval in old(log).lost
      ensures WatchRemoval in log.lost <==> id in watches || WatchRemoval in old(log).lost
      ensures id in undoFailed <==> id in old(undoFailed) || !Bare(Now(), id)
      ensures log.Besides(old(log)) && (old(log).Faulty() ==> log.Faulty())
    {
      hide Valid, Quiet, Only, Safe;
      var _, _ := RemoveJob(id, false);
      ghost var removed := Now();
      UndoMonitors(id);
      OnlyTrans(old(Now()), removed, Now(), id);
    }

    method UndoMonitors(id: int)
      requires Valid() && subject == id
      modifies this`alerts, this`watches, this`undoFailed, this`stranded, this`faults, this`log, this`history
      ensures Valid() && Only(old(Now()), Now(), id) && old(history) <= history
      ensures Fewer(old(Now()), Now(), id)
      ensures JobRemoval in log.lost <==> JobRemoval in old(log).lost
      ensures AlertRemoval in log.lost <==> id in alerts || AlertRemoval in old(log).lost
      ensures WatchRemoval in log.lost <==> id in watches || WatchRemoval in old(log).lost
      ensures id in undoFailed <==> id in old(undoFailed) || id in alerts || id in watches
      ensures log.Besides(old(log)) && (old(log).Faulty() ==> log.Faulty())
    {
      hide Valid, Quiet, Only, Safe;
      var _, _ := RemoveAlert(id, true);
      ghost var removed := Now();
      var _, _ := RemoveWatch(id, true);
      OnlyTrans(old(Now()), removed, Now(), id);
    }

    // ---- The handlers -------------------------------------------------------

    method Create(id: int, graph: Graph) returns (ok: bool)
      requires Quiet()
      modifies this
      ensures Quiet() && Only(old(Now()), Now(), id) && old(history) <= history
      ensures shadowed == old(shadowed)
      ensures ok ==> id !in old(rows) && id in rows && rows[id] == Row(graph, false, false)
      ensures !ok ==> rows == old(rows) || (id !in old(rows) && id in rows && rows[id] == Row(graph, false, false))
      ensures id !in old(rows) && log == CLEAN ==> ok
      ensures SameArmed(old(Now()), Now(), id)
    {
      hide Valid, Quiet, Safe, Settled;
      Begin(id);
      ghost var before := Now();
      Here(before, id);
      var committed: bool := *;
      ok := *;
      committed := committed && id !in rows;
      ok := ok && committed;
      Note(id, Creation, !ok, committed);
      Blamed();
      if committed {
        rows := rows[id := Row(graph, false, false)];
      }
      Record(id, before);
      Settle(id, before);
    }

    /** All or nothing.  Success arms exactly what the graph says.  After a failure
        the flag is set exactly when its write was applied although it reported
        failure, or was not undone; something new is armed only when a removal was
        lost.  Without such a fault flag and registrations are as they were. */
    method Activate(id: int, hasKey: bool, valid: bool) returns (status: Status)
      requires Quiet()
      modifies this
      ensures Quiet() && Only(old(Now()), Now(), id) && old(history) <= history
      ensures shadowed == old(shadowed)
      ensures id in rows <==> id in old(rows)
      ensures id in rows ==> rows[id].graph == old(rows)[id].graph
      ensures status == NotFound <==> id !in old(rows) || Reading in log.lost
      ensures status == AlreadyActive <==> id in rows && old(rows)[id].active && Reading !in log.lost
      ensures status in {AlreadyActive, NotFound} ==> Now() == old(Now())
      ensures status == Success ==>
        && id in rows && !old(rows)[id].active && rows[id].active
        && (id !in old(undoFailed) ==> ArmedAs(Now(), id, RegistrationOf(rows[id].graph)))
      ensures status == Success ==>
        && hasKey && valid && AtMostOneTrigger(rows[id].graph) && TriggerNode(rows[id].graph).Some?
        && (RegistrationOf(rows[id].graph).Some? && RegistrationOf(rows[id].graph).value.Job? ==> rows[id].jobIdStored)
      ensures status in {BadRequest, ServerError} ==>
        && id in rows && !old(rows)[id].active
        && (rows[id].active <==> Flagging in log.torn || Unflagging in log.lost)
        && (!log.Kept() ==> Fewer(old(Now()), Now(), id))
        && (!log.Kept() && id !in old(undoFailed) ==> Bare(old(Now()), id) && Bare(Now(), id))
      ensures id in rows && !old(rows)[id].active && log == CLEAN ==>
        (status == Success <==>
          hasKey && valid && AtMostOneTrigger(rows[id].graph) && TriggerNode(rows[id].graph).Some?)
      ensures id in undoFailed ==> id in old(undoFailed) || log.Kept()
      ensures id in misread ==> id in old(misread)
    {
      hide Valid, Quiet, Only, Safe, Settled, InStep, RegistrationOf, AtMostOneTrigger;
      Begin(id);
      Here(Now(), id);
      Unchanged(Now(), id);
      var loaded := Load(id, Reading);
      if loaded.None? {
        return NotFound;
      }
      if loaded.value.active {
        return AlreadyActive;
      }
      var trigger := TriggerNode(loaded.value.graph);
      if !hasKey || !valid || !AtMostOneTrigger(loaded.value.graph) || trigger.None? {
        return BadRequest;
      }
      status := ArmNow(id, trigger.value);
    }

    /** The part of activate after the checks: flag first, then the trigger. */
    method ArmNow(id: int, trigger: Node) returns (status: Status)
      requires Quiet() && subject == id && log == CLEAN && id in rows && !rows[id].active && TriggerNode(rows[id].graph) == Some(trigger)
      modifies this
      ensures Quiet() && Only(old(Now()), Now(), id) && old(history) <= history
      ensures shadowed == old(shadowed)
      ensures status in {Success, BadRequest, ServerError}
      ensures id in rows && rows[id].graph == old(rows)[id].graph
      ensures status == Success ==>
        && rows[id].active
        && (id !in old(undoFailed) ==> ArmedAs(Now(), id, RegistrationOf(rows[id].graph)))
      ensures status == Success ==>
        RegistrationOf(rows[id].graph).Some? && RegistrationOf(rows[id].graph).value.Job? ==> rows[id].jobIdStored
      ensures status != Success ==>
        && (rows[id].active <==> Flagging in log.torn || Unflagging in log.lost)
        && (!log.Kept() ==> Fewer(old(Now()), Now(), id))
        && log.Faulty()
      ensures Reading !in log.lost
      ensures id in undoFailed ==> id in old(undoFailed) || log.Kept()
      ensures id in misread ==> id in old(misread)
    {
      hide Valid, Quiet, Only, Safe, Settled, RegistrationFor, InStep, Wanted;
      Unquiet();
      ghost var before := Now();
      Here(before, id);
      InactiveSettled(before, id);
      var saved, _ := SaveRow(id, SetActive(true));
      if !saved {
        if Bare(before, id) { BareInStep(Now(), id); }
        Settle(id, before);
        return ServerError;
      }
      ghost var flagged := Now();
      var raised := RegisterTrigger(id, trigger);
      OnlyTrans(before, flagged, Now(), id);
      if !raised {
        if Bare(before, id) { RegisteredInStep(Now(), id, trigger); }
        Settle(id, before);
        return Success;
      }
      BackOut(id, before);
      var clientError: bool := *;
      status := if clientError then BadRequest else ServerError;
    }

    /** The rollback of a failed activation. */
    method BackOut(id: int, ghost before: World)
      requires Valid() && subject == id && id in rows && rows[id].active && Unflagging !in log.lost
      requires Settled(before) && Only(before, Now(), id)
      modifies this
      ensures Quiet() && Only(before, Now(), id) && old(history) <= history
      ensures shadowed == old(shadowed)
      ensures id in rows && rows[id].graph == old(rows)[id].graph
      ensures rows[id].active <==> Unflagging in log.lost
      ensures !log.Kept() ==> Bare(Now(), id)
      ensures (Reading in log.lost <==> Reading in old(log).lost) && (Flagging in log.torn <==> Flagging in old(log).torn)
      ensures (old(log).Faulty() ==> log.Faulty()) && (old(log).Kept() ==> log.Kept())
      ensures id in undoFailed ==> id in old(undoFailed) || log.Kept()
      ensures id in misread ==> id in old(misread)
    {
      hide Valid, Quiet, Only, Safe, Settled, InStep, Wanted;
      ghost var failed := Now();
      RollbackActivation(id);
      OnlyTrans(before, failed, Now(), id);
      if Bare(Now(), id) { BareInStep(Now(), id); }
      Settle(id, before);
    }

    /** Success leaves the row inactive with nothing armed; a failure leaves it
        active, so that the request can be repeated, or already stood down. */
    method Deactivate(id: int) returns (status: Status)
      requires Quiet()
      modifies this
      ensures Quiet() && Only(old(Now()), Now(), id) && old(history) <= history
      ensures shadowed == old(shadowed)
      ensures status in {Success, AlreadyInactive, NotFound, ServerError}
      ensures id in rows <==> id in old(rows)
      ensures id in rows ==> rows[id].graph == old(rows)[id].graph
      ensures status == NotFound <==> id !in old(rows) || Reading in log.lost
      ensures status == AlreadyInactive <==> id in rows && !old(rows)[id].active && Reading !in log.lost
      ensures status in {AlreadyInactive, NotFound} ==> Now() == old(Now())
      ensures status == AlreadyInactive && id !in undoFailed ==> Bare(Now(), id)
      ensures status == Success ==> old(rows)[id].active && !rows[id].active && Bare(Now(), id)
      ensures status == ServerError ==> if Unflagging in log.torn then !rows[id].active && Bare(Now(), id) else rows[id].active
      ensures id in rows && old(rows)[id].active && log == CLEAN ==> status == Success
      ensures (id in undoFailed ==> id in old(undoFailed)) && (id in misread ==> id in old(misread))
    {
      hide Valid, Quiet, Only, Safe, Settled;
      Begin(id);
      ghost var before := Now();
      Here(before, id);
      Unchanged(before, id);
      var loaded := Load(id, Reading);
      if loaded.None? {
        return NotFound;
      }
      if !loaded.value.active {
        return AlreadyInactive;
      }
      var raised := Disarm(id);
      if raised {
        return ServerError;
      }
      ghost var disarmed := Now();
      NowSafe(id);
      var saved, _ := SaveRow(id, SetActive(false));
      OnlyTrans(before, disarmed, Now(), id);
      Settle(id, before);
      status := if saved then Success else ServerError;
    }

    /** The teardown of deactivate, up to the write of the flag. */
    method Disarm(id: int) returns (raised: bool)
      requires Quiet() && subject == id && id in rows && rows[id].active
      modifies this
      ensures Valid() && Quiet() && Only(old(Now()), Now(), id) && old(history) <= history
      ensures shadowed == old(shadowed) && subject == id && log.Besides(old(log))
      ensures id in rows && rows[id] == old(rows)[id].(jobIdStored := rows[id].jobIdStored)
      ensures if raised then log.Faulty() else Bare(Now(), id)
      ensures (id in undoFailed ==> id in old(undoFailed)) && (id in misread ==> id in old(misread))
    {
      hide Valid, Quiet, Only, Safe, Settled, InStep, Wanted;
      Unquiet();
      ghost var before := Now();
      Here(before, id);
      raised := RemoveAll(id);
      if !raised {
        raised := ReleaseSubscriptions(id);
      }
      if InStep(before, id) { DisarmedInStep(before, Now(), id); }
      Settle(id, before);
    }

    method RemoveAll(id: int) returns (raised: bool)
      requires Valid() && subject == id && id in rows && rows[id].active
      modifies this`rows, this`jobs, this`alerts, this`watches, this`undoFailed, this`stranded, this`faults, this`log, this`history
      ensures Valid() && Only(old(Now()), Now(), id) && old(history) <= history
      ensures id in rows && rows[id] == old(rows)[id].(jobIdStored := rows[id].jobIdStored)
      ensures Fewer(old(Now()), Now(), id) && (id in undoFailed <==> id in old(undoFailed))
      ensures if raised then log.Faulty() else Bare(Now(), id)
      ensures log == CLEAN ==> !rows[id].jobIdStored
      ensures log.Besides(old(log))
    {
      hide Valid, Quiet, Only, Safe;
      ghost var kept;
      raised, kept := RemoveJob(id, true);
      if raised { return; }
      ghost var w1 := Now();
      NowSafe(id);
      if rows[id].jobIdStored {
        var _, _ := SaveRow(id, SetJobId(false));
        OnlyTrans(old(Now()), w1, Now(), id);
      }
      ghost var w2 := Now();
      raised := RemoveMonitors(id);
      OnlyTrans(old(Now()), w2, Now(), id);
    }

    /** Re-arm in place after a save that changed the trigger of an active
        workflow; when that fails, stand the workflow down. */
    method RearmIfChanged(id: int, changed: bool, hasKey: bool) returns (needsReactivate: bool)
      requires Valid() && subject == id && id in rows && (changed ==> rows[id].active) && Unflagging !in log.lost
      modifies this`rows, this`jobs, this`alerts, this`watches, this`undoFailed, this`stranded, this`faults, this`log, this`history
      ensures Valid() && Only(old(Now()), Now(), id) && old(history) <= history
      ensures id in rows && rows[id].graph == old(rows)[id].graph
      ensures !changed ==> !needsReactivate && Now() == old(Now()) && log == old(log)
      ensures changed && !needsReactivate ==>
        rows[id].active && ArmedAs(Now(), id, RegistrationOf(rows[id].graph)) && log == old(log)
      ensures needsReactivate ==>
        && (rows[id].active <==> Unflagging in log.lost)
        && (!Bare(Now(), id) ==> log.Kept() && id in undoFailed)
        && (log.Faulty() || !hasKey || TriggerNode(rows[id].graph).None?)
      ensures changed && (!hasKey || TriggerNode(rows[id].graph).None?) ==> needsReactivate
      ensures subject == id
      ensures (Comparing in log.lost <==> Comparing in old(log).lost) && (Reading in log.lost <==> Reading in old(log).lost)
        && (GraphWriting in log.lost <==> GraphWriting in old(log).lost) && (GraphWriting in log.torn <==> GraphWriting in old(log).torn)
      ensures id in undoFailed ==> id in old(undoFailed) || log.Kept()
    {
      hide Valid, Quiet, Only, Safe, RegistrationOf, TriggerNode;
      ghost var before := Now();
      Unchanged(before, id);
      needsReactivate := false;
      if changed {
        needsReactivate := ReregisterTrigger(id, hasKey);
        if needsReactivate {
          ghost var failed := Now();
          RollbackActivation(id);
          OnlyTrans(before, failed, Now(), id);
        }
      }
    }

    /** What a save leaves behind.  `seen` says that the stored graph was read
        before the write.  A trigger seen to change on an active workflow ends
        freshly armed, or reported and, short of a fault in standing it down,
        inactive with nothing armed.  Otherwise flag and registrations stay as
        they were, which is right exactly when the workflow is inactive, nothing
        is armed or both graphs arm the same. */
    ghost predicate AfterSave(v: World, w: World, id: int, needsReactivate: bool, hasKey: bool, log: Log)
      requires id in v.rows
    {
      && id in w.rows
      && var stored, saved := v.rows[id], w.rows[id].graph;
         var changed := Comparing !in log.lost && stored.active && TriggerConfig(saved) != TriggerConfig(stored.graph);
         && (changed && !needsReactivate ==> w.rows[id].active && ArmedAs(w, id, RegistrationOf(saved)))
         && (changed && needsReactivate ==>
               && (w.rows[id].active <==> Unflagging in log.lost)
               && (!Bare(w, id) ==> log.Kept())
               && (log.Faulty() || !hasKey || TriggerNode(saved).None?))
         && (changed && (!hasKey || TriggerNode(saved).None?) ==> needsReactivate)
         && (!changed ==> !needsReactivate && w.rows[id].active == stored.active && SameArmed(v, w, id))
         && (!changed && InStep(v, id) ==>
               (InStep(w, id) <==> !stored.active || Bare(v, id) || RegistrationOf(saved) == RegistrationOf(stored.graph)))
    }

    /** Whom a save adds to the misread and to the shadowed workflows: an active one
        with a changed trigger the save did not look for, or did not see. */
    ghost predicate MisreadOnly(v: World, w: World, id: int, wasShadowed: bool, isShadowed: bool, log: Log) {
      && (id in w.misread && id !in v.misread ==>
            && id in v.rows && id in w.rows && v.rows[id].active
            && RegistrationOf(w.rows[id].graph) != RegistrationOf(v.rows[id].graph)
            && (Comparing in log.lost || GraphWriting in log.torn
                || (isShadowed && TriggerConfig(w.rows[id].graph) == TriggerConfig(v.rows[id].graph))))
      && (isShadowed && !wasShadowed ==>
            && id in v.rows && id in w.rows
            && TriggerConfig(w.rows[id].graph) == TriggerConfig(v.rows[id].graph)
            && RegistrationOf(w.rows[id].graph) != RegistrationOf(v.rows[id].graph))
    }

    /** A new graph is stored and nothing else of the workflow is touched. */
    ghost predicate OnlyGraphSaved(v: World, w: World, id: int, nodes: Option<Graph>) {
      && id in v.rows && id in w.rows
      && w.rows[id] == v.rows[id].(graph := nodes.GetOr(v.rows[id].graph)) && SameArmed(v, w, id)
    }

    /** PUT.  The trigger is re-armed when the row read before the write was
        active and its trigger configuration differs from the saved one.  That
        read answers None when it fails, and the workflow then counts as
        inactive. */
    method Update(id: int, nodes: Option<Graph>, hasKey: bool, valid: bool)
      returns (status: Status, needsReactivate: bool)
      requires Quiet()
      modifies this
      ensures Quiet() && Only(old(Now()), Now(), id) && old(history) <= history
      ensures status in {Success, BadRequest, NotFound}
      ensures status == BadRequest <==> nodes.Some? && !valid
      ensures status == NotFound <==>
        !(nodes.Some? && !valid) && (id !in old(rows) || GraphWriting in log.lost || GraphWriting in log.torn)
      ensures status != Success ==> !needsReactivate
      ensures status != Success ==>
        (if GraphWriting in log.torn then OnlyGraphSaved(old(Now()), Now(), id, nodes) else Now() == old(Now()))
      ensures status == Success ==>
        && id in old(rows) && AfterSave(old(Now()), Now(), id, needsReactivate, hasKey, log)
        && rows[id].graph == (if nodes.Some? then nodes.value else old(rows)[id].graph)
      ensures MisreadOnly(old(Now()), Now(), id, id in old(shadowed), id in shadowed, log)
      ensures shadowed - {id} == old(shadowed) - {id}
      ensures id in undoFailed ==> id in old(undoFailed) || log.Kept()
    {
      hide Valid, Quiet, Only, Safe, Settled, OnlyGraphSaved;
      Begin(id);
      Unchanged(Now(), id);
      needsReactivate := false;
      if nodes.Some? {
        // The read this check begins with goes into `valid`.
        if !valid {
          return BadRequest, false;
        }
      }
      var existing := Load(id, Comparing);
      var saved;
      saved, needsReactivate := SaveAndRearm(id, nodes, existing, hasKey);
      status := if saved then Success else NotFound;
    }

    /** The write and the re-arming, given the row read before. */
    method SaveAndRearm(id: int, nodes: Option<Graph>, existing: Option<Row>, hasKey: bool)
      returns (ok: bool, needsReactivate: bool)
      requires Quiet() && subject == id && log.torn == {} && log.lost <= {Comparing}
      requires if existing.Some? then id in rows && existing.value == rows[id] && Comparing !in log.lost else id in rows ==> Comparing in log.lost
      modifies this
      ensures Quiet() && Only(old(Now()), Now(), id) && old(history) <= history
      ensures (Comparing in log.lost <==> Comparing in old(log).lost) && (Reading in log.lost <==> Reading in old(log).lost)
      ensures ok ==> id in old(rows) && GraphWriting !in log.torn && GraphWriting !in log.lost
      ensures !ok ==> !needsReactivate && (id in old(rows) ==> GraphWriting in log.lost || GraphWriting in log.torn)
      ensures !ok ==>
        (if GraphWriting in log.torn then OnlyGraphSaved(old(Now()), Now(), id, nodes) else Now() == old(Now()))
      ensures ok ==>
        && AfterSave(old(Now()), Now(), id, needsReactivate, hasKey, log)
        && rows[id].graph == (if nodes.Some? then nodes.value else old(rows)[id].graph)
      ensures MisreadOnly(old(Now()), Now(), id, id in old(shadowed), id in shadowed, log)
      ensures shadowed - {id} == old(shadowed) - {id}
      ensures id in undoFailed ==> id in old(undoFailed) || log.Kept()
    {
      hide Valid, Quiet, Only, Safe, Settled, TriggerConfig, RegistrationOf, TriggerNode, InStep;
      Unquiet();
      ghost var before := Now();
      Here(before, id);
      needsReactivate := false;
      ghost var applied;
      ok, applied := SaveRow(id, SetGraph(nodes));
      ghost var written := Now();
      if ok {
        var changed := existing.Some? && existing.value.active
                       && TriggerConfig(rows[id].graph) != TriggerConfig(existing.value.graph);
        needsReactivate := RearmIfChanged(id, changed, hasKey);
        OnlyTrans(before, written, Now(), id);
        if changed {
          SettleArmed(id, before);
        } else {
          NoteSave(id, before, existing.Some?);
        }
      } else if applied {
        NoteSave(id, before, false);
      } else {
        StillQuiet();
      }
    }

    /** The end of a save that re-armed the trigger or stood the workflow down. */
    ghost method SettleArmed(id: int, before: World)
      requires Valid() && Settled(before) && Only(before, Now(), id) && id in rows
      requires (rows[id].active && ArmedAs(Now(), id, RegistrationOf(rows[id].graph))) || Bare(Now(), id) || id in undoFailed
      modifies this`undoFailed, this`misread
      ensures Quiet() && Only(before, Now(), id)
      ensures (id in undoFailed ==> id in old(undoFailed)) && (id in misread ==> id in old(misread))
    {
      hide Valid, Quiet, Only, Safe, Settled, RegistrationOf;
      Settle(id, before);
    }

    /** The ghost record of a changed trigger that a save did not see. */
    ghost method NoteMisread(id: int, before: World, seen: bool)
      requires Valid() && subject == id && Only(before, Now(), id) && id in rows && id in before.rows
      requires seen || Comparing in log.lost || GraphWriting in log.torn
      modifies this`misread, this`shadowed
      ensures Valid() && Only(before, Now(), id)
      ensures misread == old(misread) + {id} && InStep(Now(), id) == old(InStep(Now(), id))
      ensures shadowed == if seen then old(shadowed) + {id} else old(shadowed)
    {
      hide Safe, Only;
      ghost var now := Now();
      SafeHere(now, id);
      misread := misread + {id};
      if seen { shadowed := shadowed + {id}; }
      Excused(now, Now(), id);
      SafeStep(now, Now(), id);
      OnlyTrans(before, now, Now(), id);
    }

    /** The end of a save that re-armed nothing. */
    ghost method NoteSave(id: int, before: World, seen: bool)
      requires Valid() && subject == id && Settled(before) && Only(before, Now(), id)
      requires id in rows && id in before.rows && rows[id].active == before.rows[id].active
      requires SameArmed(before, Now(), id)
      requires undoFailed == before.undoFailed && misread == before.misread
      requires if seen then rows[id].active ==> TriggerConfig(rows[id].graph) == TriggerConfig(before.rows[id].graph)
               else Comparing in log.lost || GraphWriting in log.torn
      modifies this`undoFailed, this`misread, this`shadowed
      ensures Quiet() && Only(before, Now(), id)
      ensures id in undoFailed ==> id in old(undoFailed)
      ensures MisreadOnly(before, Now(), id, id in old(shadowed), id in shadowed, log)
      ensures shadowed - {id} == old(shadowed) - {id}
      ensures InStep(before, id) ==> (InStep(Now(), id) <==>
        !rows[id].active || Bare(before, id) || RegistrationOf(rows[id].graph) == RegistrationOf(before.rows[id].graph))
    {
      hide Valid, Quiet, Only, Safe, Settled, TriggerConfig, RegistrationOf, InStep;
      SettledHere(before, id);
      if InStep(before, id) {
        UnarmedSaveExact(before, Now(), id);
        if !InStep(Now(), id) {
          NoteMisread(id, before, seen);
        }
      }
      Settle(id, before);
    }

    /** replace: like PUT, but the row is read first and the new graph must pass
        strict validation, which allows exactly one trigger. */
    method Replace(id: int, graph: Graph, hasKey: bool, valid: bool) returns (status: Status, needsReactivate: bool)
      requires Quiet()
      modifies this
      ensures Quiet() && Only(old(Now()), Now(), id) && old(history) <= history
      ensures status in {Success, BadRequest, NotFound, ServerError}
      ensures status == NotFound <==> id !in old(rows) || Reading in log.lost
      ensures status == BadRequest <==>
        && id in old(rows) && Reading !in log.lost
        && !(valid && AtMostOneTrigger(graph) && TriggerNode(graph).Some?)
      ensures status == ServerError ==> GraphWriting in log.lost || GraphWriting in log.torn
      ensures status != Success ==> !needsReactivate
      ensures status != Success ==>
        (if GraphWriting in log.torn then OnlyGraphSaved(old(Now()), Now(), id, Some(graph)) else Now() == old(Now()))
      ensures status == Success ==>
        && id in old(rows) && AfterSave(old(Now()), Now(), id, needsReactivate, hasKey, log)
        && rows[id].graph == graph
        && (Unshadowed(old(rows)[id].graph) && id in misread ==> id in old(misread))
      ensures MisreadOnly(old(Now()), Now(), id, id in old(shadowed), id in shadowed, log)
      ensures shadowed - {id} == old(shadowed) - {id}
      ensures id in undoFailed ==> id in old(undoFailed) || log.Kept()
    {
      hide Valid, Quiet, Only, Safe, Settled, AfterSave, OnlyGraphSaved, TriggerConfig, RegistrationOf, AtMostOneTrigger,
        Unshadowed;
      Begin(id);
      ghost var before := Now();
      Unchanged(before, id);
      needsReactivate := false;
      var loaded := Load(id, Reading);
      if loaded.None? {
        return NotFound, false;
      }
      if !valid || !AtMostOneTrigger(graph) || TriggerNode(graph).None? {
        return BadRequest, false;
      }
      var saved;
      saved, needsReactivate := SaveAndRearm(id, Some(graph), loaded, hasKey);
      status := if saved then Success else ServerError;
      if TriggerConfig(before.rows[id].graph) == TriggerConfig(graph) && Unshadowed(before.rows[id].graph) {
        OneTriggerUnshadowed(graph);
        UnshadowedDecides(before.rows[id].graph, graph);
      }
    }

    /** Success removes the row.  Of an active workflow only the job can stay armed,
        and only when its removal was lost; an inactive one has nothing armed. */
    method Delete(id: int) returns (status: Status)
      requires Quiet()
      modifies this
      ensures Quiet() && Only(old(Now()), Now(), id) && old(history) <= history
      ensures shadowed == old(shadowed)
      ensures status in {Success, NotFound, ServerError}
      ensures status == NotFound <==> id !in old(rows) || Reading in log.lost
      ensures status == NotFound ==> Now() == old(Now())
      ensures status == Success ==> id !in rows
      ensures status == Success && old(rows)[id].active ==>
        Fewer(old(Now()), Now(), id) && id !in alerts && id !in watches && (id in jobs ==> JobRemoval in log.lost)
      ensures status == Success && !old(rows)[id].active && id !in old(undoFailed) ==> Bare(Now(), id)
      ensures status == ServerError ==> if RowDeletion in log.torn then id !in rows else rows == old(rows)
      ensures id in old(rows) && log == CLEAN ==> status == Success
      ensures id in undoFailed ==> id in old(undoFailed) || log.Kept()
      ensures id in misread ==> id in old(misread)
    {
      hide Valid, Quiet, Only, Safe, Settled, InStep, Wanted;
      Begin(id);
      ghost var before := Now();
      Here(before, id);
      Unchanged(before, id);
      var loaded := Load(id, Reading);
      if loaded.None? {
        return NotFound;
      }
      var aborted := StandDown(id, loaded.value.active);
      if aborted {
        if InStep(before, id) { DisarmedInStep(before, Now(), id); }
        Settle(id, before);
        return ServerError;
      }
      var deleted := DropRow(id, before);
      status := if deleted then Success else ServerError;
    }

    /** The deletion of the row of a workflow that was stood down. */
    method DropRow(id: int, ghost before: World) returns (deleted: bool)
      requires Valid() && subject == id && id in rows && RowDeletion !in log.torn
      requires SettledAt(before, id) && Settled(before) && Only(before, Now(), id)
      requires before.rows == rows && Fewer(before, Now(), id)
      requires id in before.undoFailed ==> id in undoFailed
      requires misread == before.misread
      requires Bare(Now(), id) || id in undoFailed || (!rows[id].active && SameArmed(before, Now(), id))
      modifies this
      ensures Quiet() && Only(before, Now(), id) && old(history) <= history
      ensures shadowed == old(shadowed)
      ensures jobs == old(jobs) && alerts == old(alerts) && watches == old(watches)
      ensures deleted ==> id !in rows
      ensures !deleted ==> if RowDeletion in log.torn then id !in rows else rows == old(rows)
      ensures !deleted ==> log.Faulty()
      ensures (Reading in log.lost <==> Reading in old(log).lost) && (JobRemoval in log.lost <==> JobRemoval in old(log).lost)
      ensures old(log).Faulty() ==> log.Faulty()
      ensures old(log).Kept() ==> log.Kept()
      ensures (id in undoFailed ==> id in old(undoFailed)) && (id in misread ==> id in old(misread))
    {
      hide Valid, Quiet, Only, Safe, Settled, InStep, Wanted;
      ghost var torn := Now();
      NowSafe(id);
      if id in before.rows && !before.rows[id].active { InactiveSettled(before, id); }
      var ok, applied := DeleteRow(id);
      OnlyTrans(before, torn, Now(), id);
      if !applied && InStep(before, id) { DisarmedInStep(before, Now(), id); }
      if applied && Bare(Now(), id) { BareInStep(Now(), id); }
      Settle(id, before);
      deleted := ok;
    }

    /** What delete does before it touches the row: the teardown when the row is
        active, and the release always. */
    method StandDown(id: int, active: bool) returns (aborted: bool)
      requires Valid() && subject == id && id in rows && active == rows[id].active
      modifies this`jobs, this`alerts, this`watches, this`undoFailed, this`stranded, this`faults, this`log, this`history
      ensures Valid() && Only(old(Now()), Now(), id) && old(history) <= history
      ensures Fewer(old(Now()), Now(), id) && (id in old(undoFailed) ==> id in undoFailed)
      ensures !active ==> SameArmed(old(Now()), Now(), id) && (id in undoFailed <==> id in old(undoFailed))
      ensures !aborted && active ==>
        && id !in alerts && id !in watches
        && (id in jobs ==> JobRemoval in log.lost && id in undoFailed)
      ensures aborted ==> log.Faulty()
      ensures log.Besides(old(log))
      ensures id in undoFailed ==> id in old(undoFailed) || log.Kept()
    {
      hide Valid, Quiet, Only, Safe;
      Unchanged(Now(), id);
      aborted := false;
      if active {
        aborted := TearDown(id);
      }
      if !aborted {
        aborted := ReleaseSubscriptions(id);
      }
    }

    /** The teardown of delete: the job silently, the other two unguarded.  When it
        gets through, only the job can be left, and only when its removal was
        lost. */
    method TearDown(id: int) returns (aborted: bool)
      requires Valid() && subject == id && id in rows && rows[id].active
      modifies this`jobs, this`alerts, this`watches, this`undoFailed, this`stranded, this`faults, this`log, this`history
      ensures Valid() && Only(old(Now()), Now(), id) && old(history) <= history
      ensures Fewer(old(Now()), Now(), id) && (id in old(undoFailed) ==> id in undoFailed)
      ensures id in jobs ==> JobRemoval in log.lost && id in undoFailed
      ensures !aborted ==> id !in alerts && id !in watches
      ensures aborted ==> log.Faulty()
      ensures log.Besides(old(log))
      ensures id in undoFailed ==> id in old(undoFailed) || log.Kept()
    {
      hide Valid, Quiet, Only, Safe;
      ghost var before := Now();
      var _, _ := RemoveJob(id, false);
      ghost var w1 := Now();
      aborted := RemoveMonitors(id);
      OnlyTrans(before, w1, Now(), id);
    }

    /** A trigger that ran.  The scheduler drops a job that has no further run.  A
        one-shot alert or watch is retired: it is removed, and then the active flag
        is cleared. */
    method Fire(id: int, trigger: Trigger)
      requires Quiet()
      modifies this
      ensures Quiet() && Only(old(Now()), Now(), id) && old(history) <= history
      ensures shadowed == old(shadowed) && Fewer(old(Now()), Now(), id)
      ensures id in rows <==> id in old(rows)
      ensures id in rows ==> rows[id] == old(rows)[id].(active := rows[id].active) && (rows[id].active ==> old(rows)[id].active)
      ensures trigger == JobRan ==> rows == old(rows)
      ensures trigger == AlertFired && id in old(alerts) && log == CLEAN ==>
        id !in alerts && (id in rows ==> !rows[id].active)
      ensures trigger == WatchFired && id in old(watches) && log == CLEAN ==>
        id !in watches && (id in rows ==> !rows[id].active)
      ensures (id in undoFailed ==> id in old(undoFailed)) && (id in misread ==> id in old(misread))
    {
      hide Valid, Quiet, Only, Safe, Settled, InStep, Wanted;
      Begin(id);
      ghost var before := Now();
      Here(before, id);
      Unchanged(before, id);
      if trigger == JobRan {
        var last: bool := *;
        if last { ExpireJob(id); }
      } else if trigger == AlertFired && id in alerts {
        RetireAlert(id);
      } else if trigger == WatchFired && id in watches {
        RetireWatch(id);
      }
      if Bare(Now(), id) { BareInStep(Now(), id); }
      if InStep(before, id) && !Bare(Now(), id) { StillInStep(before, Now(), id); }
      Settle(id, before);
    }

    method ExpireJob(id: int)
      requires Valid()
      modifies this`jobs, this`history
      ensures Valid() && Only(old(Now()), Now(), id) && old(history) <= history
      ensures id !in jobs
    {
      hide Safe;
      ghost var before := Now();
      jobs := jobs - {id};
      Disarmed(before, Now(), id);
      history := history + [Now()];
    }

    /** An exception of the removal leaves the flag alone. */
    method RetireAlert(id: int)
      requires Valid() && subject == id && id in alerts
      modifies this`rows, this`alerts, this`undoFailed, this`stranded, this`faults, this`log, this`history
      ensures Valid() && Only(old(Now()), Now(), id) && old(history) <= history
      ensures Fewer(old(Now()), Now(), id) && (id in undoFailed <==> id in old(undoFailed))
      ensures id in rows <==> id in old(rows)
      ensures id in rows ==> rows[id] == old(rows)[id].(active := rows[id].active) && (rows[id].active ==> old(rows)[id].active)
      ensures id in alerts ==> rows == old(rows)
      ensures log == CLEAN ==> id !in alerts && (id in rows ==> !rows[id].active)
    {
      hide Valid, Quiet, Only, Safe;
      NowSafe(id);
      ghost var kept;
      var raised;
      raised, kept := RemoveAlert(id, false);
      if !raised {
        ghost var removed := Now();
        var _, _ := SaveRow(id, SetActive(false));
        OnlyTrans(old(Now()), removed, Now(), id);
      }
    }

    method RetireWatch(id: int)
      requires Valid() && subject == id && id in watches
      modifies this`rows, this`watches, this`undoFailed, this`stranded, this`faults, this`log, this`history
      ensures Valid() && Only(old(Now()), Now(), id) && old(history) <= history
      ensures Fewer(old(Now()), Now(), id) && (id in undoFailed <==> id in old(undoFailed))
      ensures id in rows <==> id in old(rows)
      ensures id in rows ==> rows[id] == old(rows)[id].(active := rows[id].active) && (rows[id].active ==> old(rows)[id].active)
      ensures id in watches ==> rows == old(rows)
      ensures log == CLEAN ==> id !in watches && (id in rows ==> !rows[id].active)
    {
      hide Valid, Quiet, Only, Safe;
      NowSafe(id);
      ghost var kept;
      var raised;
      raised, kept := RemoveWatch(id, false);
      if !raised {
        ghost var removed := Now();
        var _, _ := SaveRow(id, SetActive(false));
        OnlyTrans(old(Now()), removed, Now(), id);
      }
    }

    /** No save misled by its comparison, and no stored graph with several triggers. */
    ghost predicate OneTrigger(id: int)
      reads this
    {
      id !in shadowed && (id in rows ==> AtMostOneTrigger(rows[id].graph))
    }

    /** One request, whichever it is. */
    method Handle(r: Request)
      requires Quiet()
      modifies this
      ensures Quiet() && Only(old(Now()), Now(), r.id) && old(history) <= history
      ensures shadowed - {r.id} == old(shadowed) - {r.id}
      ensures old(OneTrigger(r.id)) && OneTriggerEach([r], r.id) ==> OneTrigger(r.id)
    {
      hide Quiet, Valid, Only, AfterSave, TriggerConfig, RegistrationOf, AtMostOneTrigger;
      assert [r][0] == r;
      ghost var before := Now();
      match r {
        case CreateReq(id, graph) => var _ := Create(id, graph);
        case ActivateReq(id, hasKey, valid) => var _ := Activate(id, hasKey, valid);
        case DeactivateReq(id) => var _ := Deactivate(id);
        case UpdateReq(id, nodes, hasKey, valid) =>
          var _, _ := Update(id, nodes, hasKey, valid);
          if id in before.rows && id in rows { OneTriggerSave(before, Now(), id); }
        case ReplaceReq(id, graph, hasKey, valid) =>
          var _, _ := Replace(id, graph, hasKey, valid);
          if id in before.rows && id in rows { OneTriggerSave(before, Now(), id); }
        case DeleteReq(id) => var _ := Delete(id);
        case Fired(id, trigger) => Fire(id, trigger);
      }
    }

    /** Any run of requests, every external failure pattern included.  A workflow
        none of whose removals was ever lost had, at every recorded point, nothing
        armed unless its row was there and active.  If also no read before a save
        failed, no write of a graph was applied that reported failure, and its
        graphs had one trigger each, then what is armed now is what its graph says. */
    method Serve(requests: seq<Request>)
      requires Quiet()
      modifies this
      ensures Quiet() && old(history) <= history
      ensures forall id, w | w in history && !IgnoredRemoval(id, faults) ::
        !Bare(w, id) ==> id in w.rows && w.rows[id].active
      ensures forall id | old(OneTrigger(id)) && OneTriggerEach(requests, id) && !IgnoredRemoval(id, faults)
          && Lost(id, Comparing) !in faults && Torn(id, GraphWriting) !in faults ::
        InStep(Now(), id)
    {
      hide Quiet, Valid, OneTriggerEach, Only, InStep, Bare, IgnoredRemoval;
      var i := 0;
      assert forall id :: old(OneTrigger(id)) ==> OneTrigger(id);
      while i < |requests|
        invariant i <= |requests| && Quiet() && old(history) <= history
        invariant forall id | old(OneTrigger(id)) && OneTriggerEach(requests[..i], id) :: OneTrigger(id)
      {
        HandleNext(requests, i);
        i := i + 1;
      }
      assert requests[..i] == requests;
      WhoIsExcused();
    }

    /** What being quiet says without its ghost sets. */
    lemma WhoIsExcused()
      requires Quiet()
      ensures forall id, w | w in history && !IgnoredRemoval(id, faults) ::
        !Bare(w, id) ==> id in w.rows && w.rows[id].active
      ensures forall id | !IgnoredRemoval(id, faults) && Lost(id, Comparing) !in faults
          && Torn(id, GraphWriting) !in faults && id !in shadowed ::
        InStep(Now(), id)
    {
      hide Bare, InStep, IgnoredRemoval;
      forall id, w | w in history && !IgnoredRemoval(id, faults)
        ensures !Bare(w, id) ==> id in w.rows && w.rows[id].active
      {
        assert id !in stranded;
        SafeHere(w, id);
      }
      forall id | !IgnoredRemoval(id, faults) && Lost(id, Comparing) !in faults
          && Torn(id, GraphWriting) !in faults && id !in shadowed
        ensures InStep(Now(), id)
      {
        assert id !in stranded && id !in misread;
        SettledHere(Now(), id);
      }
    }

    /** One more request of a run. */
    method HandleNext(requests: seq<Request>, i: nat)
      requires Quiet() && i < |requests|
      modifies this
      ensures Quiet() && old(history) <= history
      ensures forall id | old(OneTrigger(id)) && OneTriggerEach(requests[..i + 1], id) :: OneTrigger(id)
      ensures forall id | OneTriggerEach(requests[..i + 1], id) :: OneTriggerEach(requests[..i], id)
    {
      hide Quiet, Valid, OneTriggerEach, AtMostOneTrigger;
      ghost var r := requests[i];
      ghost var before := Now();
      ghost var was := shadowed;
      Handle(requests[i]);
      forall id | OneTriggerEach(requests[..i + 1], id)
        ensures OneTriggerEach(requests[..i], id) && (old(OneTrigger(id)) ==> OneTrigger(id))
      {
        OneTriggerParts(requests, i, id);
        if id != r.id {
          assert Same(before, Now(), id);
          assert id in shadowed <==> id in shadowed - {r.id};
          assert id in was <==> id in was - {r.id};
        }
      }
    }
  }

  // ---- Runs that end out of step ------------------------------------------

  const WEBHOOK := Node("webhookTrigger", map[])
  const NINE := Node("start", map["scheduleType" := Text("daily"), "time" := Text("09:15")])
  const TEN := Node("start", map["scheduleType" := Text("daily"), "time" := Text("10:15")])
  const MANUAL := Node("start", map["scheduleType" := Text("manual")])

  lemma ExampleGraphs()
    ensures AtMostOneTrigger([WEBHOOK]) && TriggerNode([WEBHOOK]) == Some(WEBHOOK) && RegistrationOf([WEBHOOK]) == None
    ensures AtMostOneTrigger([NINE]) && TriggerNode([NINE]) == Some(NINE)
    ensures RegistrationOf([NINE]).Some? && RegistrationOf([NINE]).value.Job?
    ensures RegistrationOf([TEN]) != RegistrationOf([NINE])
    ensures RegistrationOf([NINE, MANUAL]) == RegistrationOf([NINE]) && TriggerNode([NINE, MANUAL]) == Some(NINE)
    ensures RegistrationOf([MANUAL]) == None
    ensures TriggerConfig([NINE, MANUAL]) == TriggerConfig([MANUAL]) && TriggerConfig([WEBHOOK]) != TriggerConfig([NINE, MANUAL])
  {
    assert RegistrationFor(TEN).value.time != RegistrationFor(NINE).value.time;
    assert [MANUAL][..0] == [] && [NINE, MANUAL][..1] == [NINE] && [NINE][..0] == [] && [WEBHOOK][..0] == [];
    assert "webhookTrigger" in TriggerConfig([WEBHOOK]);
  }

  /** From an empty service: a daily schedule is created, activated and moved.  When
      the read before the save is the one call that fails, the service ends with the
      old schedule armed for the new graph. */
  method UnseenSaveRun() returns (s: FlowService, ghost logs: seq<Log>)
    ensures fresh(s) && s.Quiet()
    ensures |logs| == 3 && s.log == logs[2]
    ensures logs[0] == CLEAN && logs[1] == CLEAN && logs[2] == Log({Comparing}, {}) ==>
      && 1 in s.rows && s.rows[1].active && s.rows[1].graph == [TEN]
      && At(s.jobs, 1) == RegistrationOf([NINE]) != RegistrationOf([TEN])
  {
    hide TriggerConfig, RegistrationOf, AtMostOneTrigger, TriggerNode;
    ExampleGraphs();
    s := new FlowService();
    var created := s.Create(1, [NINE]);
    ghost var log1 := s.log;
    s.BareIsUnexcused(1);
    var activated := s.Activate(1, true, true);
    ghost var log2 := s.log;
    var status, needs := s.Update(1, Some([TEN]), true, true);
    ghost var log3 := s.log;
    logs := [log1, log2, log3];
  }

  /** The same when the write itself fails after its commit: it is reported as not
      found, although the new graph is there. */
  method TornSaveRun() returns (s: FlowService, status: Status, ghost logs: seq<Log>)
    ensures fresh(s) && s.Quiet()
    ensures |logs| == 3 && s.log == logs[2]
    ensures logs[0] == CLEAN && logs[1] == CLEAN && logs[2] == Log({}, {GraphWriting}) ==>
      && status == NotFound && 1 in s.rows && s.rows[1].active && s.rows[1].graph == [TEN]
      && At(s.jobs, 1) == RegistrationOf([NINE]) != RegistrationOf([TEN])
  {
    hide TriggerConfig, RegistrationOf, AtMostOneTrigger, TriggerNode;
    ExampleGraphs();
    s := new FlowService();
    var created := s.Create(1, [NINE]);
    ghost var log1 := s.log;
    s.BareIsUnexcused(1);
    var activated := s.Activate(1, true, true);
    ghost var log2 := s.log;
    var needs;
    status, needs := s.Update(1, Some([TEN]), true, true);
    ghost var log3 := s.log;
    logs := [log1, log2, log3];
  }

  /** And without any failing call, when a save hides a trigger and the next one
      drops it. */
  method HiddenTriggerRun() returns (s: FlowService, ghost logs: seq<Log>)
    ensures fresh(s) && s.Quiet()
    ensures |logs| == 4 && s.log == logs[3]
    ensures logs[0] == CLEAN && logs[1] == CLEAN && logs[2] == CLEAN && logs[3] == CLEAN ==>
      && 1 in s.rows && s.rows[1].active && s.rows[1].graph == [MANUAL]
      && At(s.jobs, 1) == RegistrationOf([NINE]) && RegistrationOf([MANUAL]) == None
  {
    hide TriggerConfig, RegistrationOf, AtMostOneTrigger, TriggerNode;
    ExampleGraphs();
    s := new FlowService();
    var created := s.Create(1, [WEBHOOK]);
    ghost var log1 := s.log;
    s.BareIsUnexcused(1);
    var activated := s.Activate(1, true, true);
    ghost var log2 := s.log;
    var status, needs := s.Update(1, Some([NINE, MANUAL]), true, true);
    ghost var log3 := s.log;
    status, needs := s.Update(1, Some([MANUAL]), true, true);
    ghost var log4 := s.log;
    logs := [log1, log2, log3, log4];
  }
}
