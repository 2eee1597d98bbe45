/** The agent turn recorder of blueprints/agent.py.

    `Transcript` is a pure fold over frames.  The class keeps the code's form:
    a tool entry is one object reachable both from the ordered list `tools` and
    from the open calls, and completing it through the one shows in the other. */
module TurnRecorder {
  import opened Wrappers
  import opened TextLines

  const MAX_STORED_VIZ: nat := 4

  /** A decoded frame.  Call ids are taken as `str(...)` renders them; opaque
      payloads are strings. */
  datatype Frame =
    | Token(delta: string)
    | Ui(delta: string)
    | Start(runId: string, sessionId: string)
    | ToolStart(id: string, name: string, args: string)
    | ToolEnd(id: string, name: string, outcome: Outcome)
    | Viz(spec: string)
    | Usage(total: string)
    | Notice(body: string)
    | Error(body: string)
    | Confirm(body: string)
    | Unknown(kind: string)
  {
    predicate IsTool() { ToolStart? || ToolEnd? }
  }

  datatype Outcome = Outcome(ok: bool, result: string, duration: string)

  /** A tool entry's value: `args` is absent when only its end was seen and
      `outcome` while it is open. */
  datatype Tool = Tool(id: string, name: string, args: Option<string>, outcome: Option<Outcome>)

  datatype Transcript = Transcript(
    text: seq<string>, ui: seq<string>, tools: seq<Tool>, open: map<string, nat>,
    notices: seq<Frame>, viz: seq<Frame>, usage: Option<Frame>,
    runId: string, sessionId: string, paused: bool)

  const EMPTY := Transcript([], [], [], map[], [], [], None, "", "", false)

  function Next(t: Transcript, f: Frame): Transcript
    requires OpenValid(t)
    ensures OpenValid(Next(t, f))
  {
    match f
    case Token(delta) => t.(text := t.text + [delta])
    case Ui(delta) => t.(ui := t.ui + [delta])
    case Start(runId, sessionId) => t.(runId := runId, sessionId := sessionId)
    case ToolStart(id, name, args) =>
      t.(tools := t.tools + [Tool(id, name, Some(args), None)], open := t.open[id := |t.tools|])
    case ToolEnd(id, name, outcome) =>
      if id in t.open then
        var i := t.open[id];
        t.(tools := t.tools[i := t.tools[i].(outcome := Some(outcome))], open := t.open - {id})
      else
        t.(tools := t.tools + [Tool(id, name, None, Some(outcome))])
    case Viz(_) => if |t.viz| < MAX_STORED_VIZ then t.(viz := t.viz + [f]) else t
    case Usage(_) => t.(usage := Some(f))
    case Notice(_) => t.(notices := t.notices + [f])
    case Error(_) => t.(notices := t.notices + [f])
    case Confirm(_) => t.(paused := true, notices := t.notices + [f])
    case Unknown(_) => t
  }

  /** Open calls point at their own, uncompleted entries. */
  predicate OpenValid(t: Transcript) {
    forall id | id in t.open ::
      t.open[id] < |t.tools| && t.tools[t.open[id]].id == id && t.tools[t.open[id]].outcome.None?
  }

  function Fold(frames: seq<Frame>): (t: Transcript)
    ensures OpenValid(t)
  {
    if frames == [] then EMPTY else Next(Fold(frames[..|frames| - 1]), frames[|frames| - 1])
  }

  // ---- What the fold means ------------------------------------------------

  /** The last frame about a call id, if any. */
  function LastAbout(frames: seq<Frame>, id: string): Option<nat> {
    if frames == [] then None
    else
      var f := frames[|frames| - 1];
      if f.IsTool() && f.id == id then Some(|frames| - 1) else LastAbout(frames[..|frames| - 1], id)
  }

  /** The start a tool_end completes: the last frame about its id, when that is
      a start.  An earlier start with the same id is out of reach by then. */
  function StartFor(frames: seq<Frame>, id: string): Option<nat> {
    match LastAbout(frames, id)
    case None => None
    case Some(i) => if i < |frames| && frames[i].ToolStart? then Some(i) else None
  }

  /** How many entries the frames so far have made: one per start and one per
      end that completes nothing. */
  function EntryCount(frames: seq<Frame>): nat {
    if frames == [] then 0
    else
      var init, f := frames[..|frames| - 1], frames[|frames| - 1];
      EntryCount(init) + if f.ToolStart? || (f.ToolEnd? && StartFor(init, f.id).None?) then 1 else 0
  }

  lemma {:induction false} LastAboutFacts(frames: seq<Frame>, id: string)
    ensures match LastAbout(frames, id)
      case None => forall j | 0 <= j < |frames| && frames[j].IsTool() :: frames[j].id != id
      case Some(i) =>
        && i < |frames| && frames[i].IsTool() && frames[i].id == id
        && forall j | i < j < |frames| && frames[j].IsTool() :: frames[j].id != id
  {
    if frames != [] {
      var init := frames[..|frames| - 1];
      LastAboutFacts(init, id);
      forall j | 0 <= j < |init| ensures init[j] == frames[j] {}
    }
  }

  lemma StartForSnoc(frames: seq<Frame>, f: Frame, id: string)
    ensures StartFor(frames + [f], id) ==
      if f.IsTool() && f.id == id then (if f.ToolStart? then Some(|frames|) else None) else StartFor(frames, id)
  {
    LastAboutFacts(frames, id);
    assert (frames + [f])[..|frames|] == frames;
  }

  lemma StartForFacts(frames: seq<Frame>, id: string)
    ensures match StartFor(frames, id)
      case None => true
      case Some(i) =>
        && i < |frames| && frames[i].ToolStart? && frames[i].id == id
        && forall j | i < j < |frames| && frames[j].IsTool() :: frames[j].id != id
  {
    LastAboutFacts(frames, id);
  }

  /** After any frames, exactly the calls whose last frame is a start are open,
      each at the entry that start made. */
  lemma {:induction false} OpenCalls(frames: seq<Frame>, id: string)
    ensures |Fold(frames).tools| == EntryCount(frames)
    ensures match StartFor(frames, id)
      case None => id !in Fold(frames).open
      case Some(i) => i < |frames| && id in Fold(frames).open && Fold(frames).open[id] == EntryCount(frames[..i])
  {
    hide StartFor;
    if frames == [] {
      StartForFacts(frames, id);
    } else {
      var init, f := frames[..|frames| - 1], frames[|frames| - 1];
      assert frames == init + [f] && frames[..|init|] == init;
      OpenCalls(init, id);
      OpenCalls(init, if f.IsTool() then f.id else id);
      OpenStep(Fold(init), f, id);
      StartForSnoc(init, f, id);
      StartForFacts(init, id);
      if StartFor(init, id).Some? {
        assert init[..StartFor(init, id).value] == frames[..StartFor(init, id).value];
      }
    }
  }

  /** How one frame moves the list and the open calls. */
  lemma OpenStep(t: Transcript, f: Frame, id: string)
    requires OpenValid(t)
    ensures var t' := Next(t, f);
      && |t'.tools| == |t.tools| + (if f.ToolStart? || (f.ToolEnd? && f.id !in t.open) then 1 else 0)
      && (id in t'.open <==> if f.IsTool() && f.id == id then f.ToolStart? else id in t.open)
      && (id in t'.open ==> t'.open[id] == if f.IsTool() && f.id == id then |t.tools| else t.open[id])
  {}

  /** Frame j completes the call frame i started: it is the next frame about the
      same id, and an end. */
  predicate Ends(frames: seq<Frame>, i: int, j: int) {
    && 0 <= i < j < |frames| && frames[i].ToolStart? && frames[j].ToolEnd? && frames[j].id == frames[i].id
    && forall k | i < k < j && frames[k].IsTool() :: frames[k].id != frames[i].id
  }

  /** The outcome an end frame carries. */
  function OutcomeAt(frames: seq<Frame>, j: int): Option<Outcome> {
    if 0 <= j < |frames| && frames[j].ToolEnd? then Some(frames[j].outcome) else None
  }

  lemma {:induction false} CountGrows(frames: seq<Frame>, i: nat, j: nat)
    requires i < j <= |frames|
    ensures EntryCount(frames[..i]) <= EntryCount(frames[..j])
    ensures frames[i].ToolStart? ==> EntryCount(frames[..i]) < EntryCount(frames[..j])
  {
    hide StartFor;
    assert frames[..j][..j - 1] == frames[..j - 1];
    if j > i + 1 {
      CountGrows(frames, i, j - 1);
    }
  }

  /** What entry `e` reports about the call frame i started: its outcome is that
      of the end which follows directly among the frames about its id. */
  ghost predicate Reports(frames: seq<Frame>, i: nat, e: Tool)
    requires i < |frames| && frames[i].ToolStart?
  {
    && e.id == frames[i].id && e.name == frames[i].name && e.args == Some(frames[i].args)
    && (e.outcome.Some? ==> exists j :: Ends(frames, i, j) && e.outcome == OutcomeAt(frames, j))
    && (forall j | Ends(frames, i, j) :: e.outcome == OutcomeAt(frames, j))
  }

  lemma EndsSnoc(init: seq<Frame>, f: Frame, i: nat, j: nat)
    requires i < |init| && j < |init|
    ensures Ends(init + [f], i, j) <==> Ends(init, i, j)
  {
    forall k | 0 <= k < |init| ensures (init + [f])[k] == init[k] {}
    if Ends(init + [f], i, j) {
      forall k | i < k < j && init[k].IsTool() ensures init[k].id != init[i].id {
        assert (init + [f])[k].IsTool();
      }
    }
  }

  /** A frame that does not end call i leaves its report as it is. */
  lemma ReportKept(init: seq<Frame>, f: Frame, i: nat, e: Tool)
    requires i < |init| && init[i].ToolStart? && Reports(init, i, e) && !Ends(init + [f], i, |init|)
    ensures Reports(init + [f], i, e)
  {
    hide Ends;
    var frames := init + [f];
    forall j | 0 <= j < |init| ensures Ends(frames, i, j) <==> Ends(init, i, j) { EndsSnoc(init, f, i, j); }
    if e.outcome.Some? {
      var j :| Ends(init, i, j) && e.outcome == OutcomeAt(init, j);
      EndsInRange(init, i, j);
      assert Ends(frames, i, j) && OutcomeAt(frames, j) == OutcomeAt(init, j);
    }
    forall j | Ends(frames, i, j) ensures e.outcome == OutcomeAt(frames, j) {
      EndsInRange(frames, i, j);
      assert j < |init| && OutcomeAt(frames, j) == OutcomeAt(init, j);
    }
  }

  lemma EndsInRange(frames: seq<Frame>, i: int, j: int)
    requires Ends(frames, i, j)
    ensures i < j < |frames|
  {}

  /** The end of call i: the last frame about its id was its start. */
  lemma ReportDone(init: seq<Frame>, f: Frame, i: nat, e: Tool)
    requires i < |init| && init[i].ToolStart? && f.ToolEnd? && StartFor(init, f.id) == Some(i)
    requires e.id == f.id && e.name == init[i].name && e.args == Some(init[i].args) && e.outcome == Some(f.outcome)
    ensures Reports(init + [f], i, e)
  {
    StartForFacts(init, f.id);
    assert Ends(init + [f], i, |init|);
  }

  lemma NotEnded(init: seq<Frame>, f: Frame, i: nat)
    requires i < |init| && init[i].ToolStart? && f.ToolEnd? && f.id == init[i].id && StartFor(init, f.id) != Some(i)
    ensures !Ends(init + [f], i, |init|)
  {
    LastAboutFacts(init, f.id);
    var last := LastAbout(init, f.id).value;
    assert i <= last && (init + [f])[last] == init[last];
  }

  lemma FreshReport(frames: seq<Frame>, i: nat)
    requires i == |frames| - 1 && frames[i].ToolStart?
    ensures Reports(frames, i, Tool(frames[i].id, frames[i].name, Some(frames[i].args), None))
  {}

  lemma CallStep(init: seq<Frame>, f: Frame, i: nat)
    requires i < |init| && init[i].ToolStart? && EntryCount(init[..i]) < |Fold(init).tools|
    requires Reports(init, i, Fold(init).tools[EntryCount(init[..i])])
    ensures EntryCount(init[..i]) < |Fold(init + [f]).tools|
    ensures Reports(init + [f], i, Fold(init + [f]).tools[EntryCount(init[..i])])
  {
    hide EntryCount, StartFor, Ends, LastAbout;
    var t, k := Fold(init), EntryCount(init[..i]);
    var e := t.tools[k];
    assert (init + [f])[..|init|] == init;
    assert Fold(init + [f]) == Next(t, f);
    if f.ToolEnd? && f.id == init[i].id && StartFor(init, f.id) == Some(i) {
      OpenCalls(init, f.id);
      ReportDone(init, f, i, e.(outcome := Some(f.outcome)));
    } else {
      if f.ToolEnd? && f.id == init[i].id {
        NotEnded(init, f, i);
        OpenCalls(init, f.id);
        if StartFor(init, f.id).Some? {
          StartIsLater(init, f.id, i);
        }
      } else {
        OtherFrame(init, f, i);
      }
      ReportKept(init, f, i, e);
    }
  }

  lemma OtherFrame(init: seq<Frame>, f: Frame, i: nat)
    requires i < |init| && init[i].ToolStart? && !(f.ToolEnd? && f.id == init[i].id)
    ensures !Ends(init + [f], i, |init|)
  {}

  /** Another open call with the same id was started later, at a later entry. */
  lemma StartIsLater(init: seq<Frame>, id: string, i: nat)
    requires i < |init| && init[i].ToolStart? && init[i].id == id
    requires StartFor(init, id).Some? && StartFor(init, id) != Some(i)
    ensures var j := StartFor(init, id).value; j < |init| && EntryCount(init[..i]) < EntryCount(init[..j])
  {
    StartForFacts(init, id);
    CountGrows(init, i, StartFor(init, id).value);
  }

  /** A started call has one entry for good, and the entry reports it. */
  lemma {:induction false} StartedCall(frames: seq<Frame>, i: nat)
    requires i < |frames| && frames[i].ToolStart?
    ensures EntryCount(frames[..i]) < |Fold(frames).tools|
    ensures Reports(frames, i, Fold(frames).tools[EntryCount(frames[..i])])
  {
    hide StartFor, EntryCount, Reports;
    var init, f := frames[..|frames| - 1], frames[|frames| - 1];
    assert frames == init + [f];
    if i == |init| {
      OpenCalls(init, f.id);
      assert Reports(frames, i, Tool(f.id, f.name, Some(f.args), None)) by { FreshReport(frames, i); }
    } else {
      assert init[..i] == frames[..i];
      StartedCall(init, i);
      CallStep(init, f, i);
    }
  }

  /** An end that completes nothing keeps an entry of its own. */
  lemma {:induction false} UnmatchedEnd(frames: seq<Frame>, j: nat)
    requires j < |frames| && frames[j].ToolEnd? && StartFor(frames[..j], frames[j].id).None?
    ensures EntryCount(frames[..j]) < |Fold(frames).tools|
    ensures Fold(frames).tools[EntryCount(frames[..j])] == Tool(frames[j].id, frames[j].name, None, Some(frames[j].outcome))
  {
    hide EntryCount, StartFor;
    var init, f := frames[..|frames| - 1], frames[|frames| - 1];
    if j == |init| {
      OpenCalls(init, f.id);
    } else {
      assert init[..j] == frames[..j];
      UnmatchedEnd(init, j);
    }
  }

  /** A second start with the same id before any end takes over: the first call's
      entry stays open for good, whatever ends follow. */
  lemma RestartOrphansFirstCall(frames: seq<Frame>, i: nat, again: nat)
    requires i < again < |frames| && frames[i].ToolStart? && frames[again].ToolStart? && frames[again].id == frames[i].id
    requires forall k | i < k < again && frames[k].ToolEnd? :: frames[k].id != frames[i].id
    ensures EntryCount(frames[..i]) < |Fold(frames).tools|
    ensures Fold(frames).tools[EntryCount(frames[..i])].outcome.None?
  {
    hide EntryCount, Fold;
    StartedCall(frames, i);
    forall j ensures !Ends(frames, i, j) {
      if i < j < |frames| && j < again {
        assert frames[j].ToolEnd? ==> frames[j].id != frames[i].id;
      }
      assert frames[again].IsTool();
    }
  }

  function Select(frames: seq<Frame>, p: Frame -> bool): seq<Frame> {
    if frames == [] then []
    else
      var rest, f := Select(frames[..|frames| - 1], p), frames[|frames| - 1];
      if p(f) then rest + [f] else rest
  }

  function Deltas(frames: seq<Frame>): string {
    if frames == [] then ""
    else
      var rest, f := Deltas(frames[..|frames| - 1]), frames[|frames| - 1];
      if f.Token? then rest + f.delta else rest
  }

  lemma PartsEffect(t: Transcript, f: Frame)
    requires OpenValid(t)
    ensures var t' := Next(t, f);
      && t'.text == (if f.Token? then t.text + [f.delta] else t.text)
      && t'.viz == (if f.Viz? && |t.viz| < MAX_STORED_VIZ then t.viz + [f] else t.viz)
      && t'.usage == (if f.Usage? then Some(f) else t.usage)
      && t'.notices == (if f.Notice? || f.Error? || f.Confirm? then t.notices + [f] else t.notices)
      && t'.paused == (f.Confirm? || t.paused)
  {}

  /** The prose is every token in order. */
  lemma {:induction false} ProseIsTokens(frames: seq<Frame>)
    ensures Concat(Fold(frames).text) == Deltas(frames)
  {
    hide Next, OpenValid;
    if frames != [] {
      PartsEffect(Fold(frames[..|frames| - 1]), frames[|frames| - 1]);
      var init, f := frames[..|frames| - 1], frames[|frames| - 1];
      ProseIsTokens(init);
      if f.Token? {
        ConcatSnoc(Fold(init).text, f.delta);
      }
    }
  }

  /** The first four charts are kept, and the last usage total. */
  lemma {:induction false} ChartsAndUsage(frames: seq<Frame>)
    ensures var all := Select(frames, (f: Frame) => f.Viz?);
      Fold(frames).viz == if |all| <= MAX_STORED_VIZ then all else all[..MAX_STORED_VIZ]
    ensures var all := Select(frames, (f: Frame) => f.Usage?);
      Fold(frames).usage == if all == [] then None else Some(all[|all| - 1])
  {
    hide Next, OpenValid;
    if frames != [] {
      PartsEffect(Fold(frames[..|frames| - 1]), frames[|frames| - 1]);
      ChartsAndUsage(frames[..|frames| - 1]);
    }
  }

  /** Every notice, error and confirm is kept, and a confirm pauses the turn. */
  lemma {:induction false} NoticesAndPause(frames: seq<Frame>)
    ensures Fold(frames).notices == Select(frames, (f: Frame) => f.Notice? || f.Error? || f.Confirm?)
    ensures Fold(frames).paused <==> Select(frames, (f: Frame) => f.Confirm?) != []
  {
    hide Next, OpenValid;
    if frames != [] {
      PartsEffect(Fold(frames[..|frames| - 1]), frames[|frames| - 1]);
      NoticesAndPause(frames[..|frames| - 1]);
    }
  }

  lemma StartEffect(t: Transcript, f: Frame)
    requires OpenValid(t)
    ensures Next(t, f).runId == (if f.Start? then f.runId else t.runId)
    ensures Next(t, f).sessionId == (if f.Start? then f.sessionId else t.sessionId)
    ensures Next(t, f).ui == (if f.Ui? then t.ui + [f.delta] else t.ui)
  {}

  predicate LastStartAt(frames: seq<Frame>, i: int) {
    0 <= i < |frames| && frames[i].Start? && forall k | i < k < |frames| :: !frames[k].Start?
  }

  lemma {:induction false} LastStart(frames: seq<Frame>, i: nat)
    requires LastStartAt(frames, i)
    ensures Fold(frames).runId == frames[i].runId && Fold(frames).sessionId == frames[i].sessionId
  {
    hide Next, OpenValid;
    var init, f := frames[..|frames| - 1], frames[|frames| - 1];
    StartEffect(Fold(init), f);
    if i < |init| {
      LastStart(init, i);
    }
  }

  lemma {:induction false} NoStart(frames: seq<Frame>)
    requires forall i | 0 <= i < |frames| :: !frames[i].Start?
    ensures Fold(frames).runId == "" && Fold(frames).sessionId == ""
  {
    if frames != [] {
      hide Next, OpenValid;
      var init, f := frames[..|frames| - 1], frames[|frames| - 1];
      StartEffect(Fold(init), f);
      NoStart(init);
    }
  }

  /** The run and the session are those of the last start frame, and empty without
      one. */
  lemma SessionIsLastStart(frames: seq<Frame>)
    ensures (forall i | 0 <= i < |frames| :: !frames[i].Start?) ==> Fold(frames).runId == "" && Fold(frames).sessionId == ""
    ensures forall i | 0 <= i < |frames| && frames[i].Start? && (forall k | i < k < |frames| :: !frames[k].Start?) ::
      Fold(frames).runId == frames[i].runId && Fold(frames).sessionId == frames[i].sessionId
  {
    hide Fold;
    if forall i | 0 <= i < |frames| :: !frames[i].Start? {
      NoStart(frames);
    }
    forall i | 0 <= i < |frames| && frames[i].Start? && (forall k | i < k < |frames| :: !frames[k].Start?)
      ensures Fold(frames).runId == frames[i].runId && Fold(frames).sessionId == frames[i].sessionId
    {
      LastStart(frames, i);
    }
  }

  function UiDeltas(frames: seq<Frame>): string {
    if frames == [] then ""
    else
      var rest, f := UiDeltas(frames[..|frames| - 1]), frames[|frames| - 1];
      if f.Ui? then rest + f.delta else rest
  }

  /** The markup is every ui delta in order. */
  lemma {:induction false} MarkupIsUi(frames: seq<Frame>)
    ensures Concat(Fold(frames).ui) == UiDeltas(frames)
    ensures Fold(frames).ui != [] <==> exists i | 0 <= i < |frames| :: frames[i].Ui?
  {
    if frames != [] {
      var init, f := frames[..|frames| - 1], frames[|frames| - 1];
      assert frames == init + [f];
      hide Next, OpenValid;
      StartEffect(Fold(init), f);
      MarkupIsUi(init);
      if f.Ui? {
        ConcatSnoc(Fold(init).ui, f.delta);
        assert frames[|init|].Ui?;
      } else if Fold(init).ui != [] {
        var i :| 0 <= i < |init| && init[i].Ui?;
        assert frames[i].Ui?;
      }
    }
  }

  /** Deltas and selections, frame by frame. */
  lemma {:induction false} DeltasConcat(a: seq<Frame>, b: seq<Frame>)
    ensures Deltas(a + b) == Deltas(a) + Deltas(b) && UiDeltas(a + b) == UiDeltas(a) + UiDeltas(b)
  {
    if b == [] {
      assert a + b == a;
    } else {
      assert (a + b)[..|a + b| - 1] == a + b[..|b| - 1];
      DeltasConcat(a, b[..|b| - 1]);
    }
  }

  lemma DeltasOne(f: Frame)
    ensures Deltas([f]) == (if f.Token? then f.delta else "") && UiDeltas([f]) == (if f.Ui? then f.delta else "")
  {
    assert [f][..0] == [];
  }

  lemma {:induction false} SelectConcat(a: seq<Frame>, b: seq<Frame>, p: Frame -> bool)
    ensures Select(a + b, p) == Select(a, p) + Select(b, p)
  {
    if b == [] {
      assert a + b == a;
    } else {
      assert (a + b)[..|a + b| - 1] == a + b[..|b| - 1];
      SelectConcat(a, b[..|b| - 1], p);
    }
  }

  lemma SelectOne(f: Frame, p: Frame -> bool)
    ensures Select([f], p) == if p(f) then [f] else []
  {
    assert [f][..0] == [];
  }

  // ---- The code's own form ------------------------------------------------

  /** One tool entry, a dict updated in place. */
  class ToolEntry {
    const id: string
    const name: string
    const args: Option<string>
    var outcome: Option<Outcome>

    constructor (id: string, name: string, args: Option<string>)
      ensures Value() == Tool(id, name, args, None)
    {
      this.id, this.name, this.args, this.outcome := id, name, args, None;
    }

    function Value(): Tool
      reads this
    {
      Tool(id, name, args, outcome)
    }
  }

  class Recorder {
    var text: seq<string>
    var ui: seq<string>
    var tools: seq<ToolEntry>
    var open: map<string, ToolEntry>
    var notices: seq<Frame>
    var viz: seq<Frame>
    var usage: Option<Frame>
    var runId: string
    var sessionId: string
    var paused: bool
    ghost var frames: seq<Frame>

    constructor ()
      ensures Valid() && fresh(this) && frames == [] && tools == []
    {
      text, ui, tools, open, notices, viz := [], [], [], map[], [], [];
      usage, runId, sessionId, paused, frames := None, "", "", false, [];
    }

    /** The fields are those of the fold; entries are distinct objects, and an open
        call is the very object its place in the list holds. */
    ghost predicate Valid()
      reads this, tools
    {
      PartsMatch(Fold(frames)) && ToolsMatch(Fold(frames).tools, Fold(frames).open)
    }

    ghost predicate PartsMatch(t: Transcript)
      reads this
    {
      && text == t.text && ui == t.ui && notices == t.notices && viz == t.viz && usage == t.usage
      && runId == t.runId && sessionId == t.sessionId && paused == t.paused
    }

    ghost predicate ToolsMatch(values: seq<Tool>, places: map<string, nat>)
      reads `tools, `open, tools
    {
      && |tools| == |values|
      && (forall i | 0 <= i < |tools| :: tools[i].Value() == values[i])
      && (forall i, j | 0 <= i < j < |tools| :: tools[i] != tools[j])
      && open.Keys == places.Keys
      && (forall id | id in open :: places[id] < |tools| && open[id] == tools[places[id]])
    }

    method Observe(f: Frame)
      requires Valid()
      modifies this, tools
      ensures Valid() && frames == old(frames) + [f]
      ensures forall e | e in tools :: e in old(tools) || fresh(e)
    {
      hide Fold, Next, ToolsMatch;
      ghost var t := Fold(frames);
      FoldSnoc(frames, f);
      ObserveEffect(t, f);
      if f.ToolStart? {
        StartTool(f, t);
      } else if f.ToolEnd? {
        EndTool(f, t);
      } else {
        ObservePart(f, t);
      }
      assert PartsMatch(Next(t, f));
      assert ToolsMatch(Next(t, f).tools, Next(t, f).open);
      frames := frames + [f];
      assert ToolsMatch(Next(t, f).tools, Next(t, f).open);
    }

    method ObservePart(f: Frame, ghost t: Transcript)
      requires OpenValid(t) && PartsMatch(t) && ToolsMatch(t.tools, t.open) && !f.IsTool()
      modifies this`text, this`ui, this`runId, this`sessionId, this`viz, this`usage, this`notices, this`paused
      ensures PartsMatch(Next(t, f)) && ToolsMatch(t.tools, t.open)
    {
      hide ToolsMatch;
      match f
      case Token(delta) => text := text + [delta];
      case Ui(delta) => ui := ui + [delta];
      case Start(r, s) => runId, sessionId := r, s;
      case Viz(_) => if |viz| < MAX_STORED_VIZ { viz := viz + [f]; }
      case Usage(_) => usage := Some(f);
      case Notice(_) => notices := notices + [f];
      case Error(_) => notices := notices + [f];
      case Confirm(_) => paused, notices := true, notices + [f];
      case Unknown(_) =>
    }

    method StartTool(f: Frame, ghost t: Transcript)
      requires f.ToolStart? && PartsMatch(t) && ToolsMatch(t.tools, t.open)
      modifies this`tools, this`open
      ensures PartsMatch(t)
      ensures ToolsMatch(t.tools + [Tool(f.id, f.name, Some(f.args), None)], t.open[f.id := |t.tools|])
      ensures forall e | e in tools :: e in old(tools) || fresh(e)
    {
      var entry := new ToolEntry(f.id, f.name, Some(f.args));
      tools := tools + [entry];
      open := open[f.id := entry];
    }

    method EndTool(f: Frame, ghost t: Transcript)
      requires f.ToolEnd? && PartsMatch(t) && ToolsMatch(t.tools, t.open) && OpenValid(t)
      modifies this`tools, this`open, tools
      ensures PartsMatch(t) && frames == old(frames)
      ensures if f.id in t.open
        then ToolsMatch(t.tools[t.open[f.id] := t.tools[t.open[f.id]].(outcome := Some(f.outcome))], t.open - {f.id})
        else ToolsMatch(t.tools + [Tool(f.id, f.name, None, Some(f.outcome))], t.open)
      ensures forall e | e in tools :: e in old(tools) || fresh(e)
    {
      assert f.id in open.Keys <==> f.id in t.open.Keys;
      if f.id in open {
        CompleteTool(f, t);
      } else {
        var entry := new ToolEntry(f.id, f.name, None);
        entry.outcome := Some(f.outcome);
        tools := tools + [entry];
      }
    }

    /** Completing the popped entry changes the one place of the list that holds it. */
    method CompleteTool(f: Frame, ghost t: Transcript)
      requires f.ToolEnd? && PartsMatch(t) && ToolsMatch(t.tools, t.open) && OpenValid(t) && f.id in open && f.id in t.open
      modifies this`open, tools
      ensures PartsMatch(t) && frames == old(frames) && tools == old(tools)
      ensures ToolsMatch(t.tools[t.open[f.id] := t.tools[t.open[f.id]].(outcome := Some(f.outcome))], t.open - {f.id})
    {
      var entry := open[f.id];
      open := open - {f.id};
      entry.outcome := Some(f.outcome);
    }
  }

  lemma ObserveEffect(t: Transcript, f: Frame)
    requires OpenValid(t)
    ensures f.ToolStart? ==>
      Next(t, f) == t.(tools := t.tools + [Tool(f.id, f.name, Some(f.args), None)], open := t.open[f.id := |t.tools|])
    ensures f.ToolEnd? ==>
      Next(t, f) == if f.id in t.open
        then t.(tools := t.tools[t.open[f.id] := t.tools[t.open[f.id]].(outcome := Some(f.outcome))], open := t.open - {f.id})
        else t.(tools := t.tools + [Tool(f.id, f.name, None, Some(f.outcome))])
    ensures !f.IsTool() ==> Next(t, f).tools == t.tools && Next(t, f).open == t.open
  {}

  lemma FoldSnoc(frames: seq<Frame>, f: Frame)
    ensures Fold(frames + [f]) == Next(Fold(frames), f)
  {
    assert (frames + [f])[..|frames|] == frames;
  }

  // ---- The stream and what is stored --------------------------------------

  /** A piece of stream text: not a data line, a data line that is no JSON, one
      whose JSON is not an object, or a frame. */
  datatype Chunk = Plain(raw: string) | Unreadable(raw: string) | NotAnObject(raw: string) | Framed(raw: string, frame: Frame)

  /** How many chunks reach a client that pulls at most `pulls` of them: a data
      line holding no object raises before it is passed on. */
  function Delivered(chunks: seq<Chunk>, pulls: nat): (n: nat)
    ensures n <= |chunks| && n <= pulls
  {
    if chunks == [] || pulls == 0 || chunks[0].NotAnObject? then 0
    else 1 + Delivered(chunks[1..], pulls - 1)
  }

  function FramesOf(chunks: seq<Chunk>): seq<Frame> {
    if chunks == [] then []
    else
      var rest, c := FramesOf(chunks[..|chunks| - 1]), chunks[|chunks| - 1];
      if c.Framed? then rest + [c.frame] else rest
  }

  /** How many chunks get through, without recursion: as many as are there and asked
      for, up to the first data line that holds no object. */
  lemma {:induction false} DeliveredExact(chunks: seq<Chunk>, pulls: nat)
    ensures var n := Delivered(chunks, pulls);
      && (forall i | 0 <= i < n :: !chunks[i].NotAnObject?)
      && (n == pulls || n == |chunks| || chunks[n].NotAnObject?)
  {
    if !(chunks == [] || pulls == 0 || chunks[0].NotAnObject?) {
      DeliveredExact(chunks[1..], pulls - 1);
    }
  }

  lemma {:induction false} FramesOfConcat(a: seq<Chunk>, b: seq<Chunk>)
    ensures FramesOf(a + b) == FramesOf(a) + FramesOf(b)
  {
    if b == [] {
      assert a + b == a;
    } else {
      assert (a + b)[..|a + b| - 1] == a + b[..|b| - 1];
      FramesOfConcat(a, b[..|b| - 1]);
    }
  }

  lemma FramesOfOne(c: Chunk)
    ensures FramesOf([c]) == if c.Framed? then [c.frame] else []
  {
    assert [c][..0] == [];
  }

  lemma FramesOfNothing()
    ensures FramesOf([]) == []
  {}

  lemma FramesOfSnoc(chunks: seq<Chunk>, c: Chunk)
    ensures FramesOf(chunks + [c]) == if c.Framed? then FramesOf(chunks) + [c.frame] else FramesOf(chunks)
  {
    assert (chunks + [c])[..|chunks|] == chunks;
  }

  /** One item stored beside the prose. */
  datatype Item = Payload(f: Frame) | Markup(content: string) | RunId(runId: string)

  function Payloads(frames: seq<Frame>): seq<Item> {
    seq(|frames|, i requires 0 <= i < |frames| => Payload(frames[i]))
  }

  function Sidecar(t: Transcript): seq<Item> {
    Payloads(t.notices) + Payloads(t.viz)
    + (if t.ui != [] then [Markup(Concat(t.ui))] else [])
    + (if t.usage.Some? then [Payload(t.usage.value)] else [])
    + (if t.runId != "" then [RunId(t.runId)] else [])
  }

  predicate HasContent(t: Transcript) {
    t.text != [] || t.tools != [] || t.notices != [] || t.viz != [] || t.ui != [] || t.usage.Some?
  }

  datatype Row = Row(content: string, tools: seq<Tool>, sidecar: seq<Item>)

  function RowOf(t: Transcript): Row { Row(Concat(t.text), t.tools, Sidecar(t)) }

  /** Which database calls raise, and whether the conversation row is found. */
  datatype Faults = Faults(found: bool, readRaises: bool, bindRaises: bool, addRaises: bool)

  /** What is stored of any turn, told by its frames: the prose is every token in
      order, the entries are those of the fold, and beside them stand the notices in
      order, the first four charts, the joined markup, the last usage total and the
      run id of the last start, each only where there is one. */
  lemma StoredRow(frames: seq<Frame>)
    ensures var t, row := Fold(frames), RowOf(Fold(frames));
      var charts := Select(frames, (f: Frame) => f.Viz?);
      var usages := Select(frames, (f: Frame) => f.Usage?);
      && row.content == Deltas(frames) && row.tools == t.tools
      && row.sidecar ==
           seq(|t.notices|, i requires 0 <= i < |t.notices| => Payload(t.notices[i]))
           + seq(|t.viz|, i requires 0 <= i < |t.viz| => Payload(t.viz[i]))
           + (if exists i | 0 <= i < |frames| :: frames[i].Ui? then [Markup(UiDeltas(frames))] else [])
           + (if usages != [] then [Payload(usages[|usages| - 1])] else [])
           + (if t.runId != "" then [RunId(t.runId)] else [])
      && t.notices == Select(frames, (f: Frame) => f.Notice? || f.Error? || f.Confirm?)
      && t.viz == (if |charts| <= 4 then charts else charts[..4])
  {
    hide Fold, Deltas, UiDeltas, Select;
    ProseIsTokens(frames);
    MarkupIsUi(frames);
    ChartsAndUsage(frames);
    NoticesAndPause(frames);
  }

  lemma RowFacts(frames: seq<Frame>)
    ensures RowOf(Fold(frames)).content == Deltas(frames)
    ensures Fold(frames).runId != "" ==> RunId(Fold(frames).runId) in RowOf(Fold(frames)).sidecar
  {
    hide Fold, Deltas;
    ProseIsTokens(frames);
    var t := Fold(frames);
    if t.runId != "" {
      var sidecar := Sidecar(t);
      assert sidecar[|sidecar| - 1] == RunId(t.runId);
    }
  }

  /** A turn is worth storing as soon as one frame carried anything. */
  lemma {:induction false} ContentExact(frames: seq<Frame>)
    ensures HasContent(Fold(frames)) <==> exists i | 0 <= i < |frames| :: !frames[i].Start? && !frames[i].Unknown?
  {
    if frames != [] {
      var init, f := frames[..|frames| - 1], frames[|frames| - 1];
      assert frames == init + [f];
      ContentExact(init);
      ContentStep(Fold(init), f);
      if HasContent(Fold(init)) {
        var i :| 0 <= i < |init| && !init[i].Start? && !init[i].Unknown?;
        assert frames[i] == init[i];
      } else if !f.Start? && !f.Unknown? {
        assert frames[|init|] == f;
      }
    }
  }

  lemma ContentStep(t: Transcript, f: Frame)
    requires OpenValid(t)
    ensures HasContent(Next(t, f)) <==> HasContent(t) || (!f.Start? && !f.Unknown?)
  {}

  class Conversation {
    var sessionId: string
    var rows: seq<Row>

    constructor ()
      ensures rows == [] && sessionId == ""
    {
      sessionId, rows := "", [];
    }

    /** _persist_turn: bind the session, then store the turn; it never raises. */
    method PersistTurn(r: Recorder, faults: Faults)
      requires r.Valid()
      modifies this
      ensures var t := Fold(r.frames);
        var binds := t.sessionId != "" && !faults.readRaises && faults.found && old(sessionId) != t.sessionId;
        var raised := t.sessionId != "" && (faults.readRaises || (binds && faults.bindRaises));
        && sessionId == (if binds && !faults.bindRaises then t.sessionId else old(sessionId))
        && rows == (if !raised && HasContent(t) && !faults.addRaises then old(rows) + [RowOf(t)] else old(rows))
    {
      hide Fold, HasContent, RowOf, Sidecar;
      if r.sessionId != "" {
        if faults.readRaises {
          return;
        }
        if faults.found && sessionId != r.sessionId {
          if faults.bindRaises {
            return;
          }
          sessionId := r.sessionId;
        }
      }
      StoreTurn(r, faults);
    }

    method StoreTurn(r: Recorder, faults: Faults)
      requires r.Valid()
      modifies this`rows
      ensures var t := Fold(r.frames);
        rows == if HasContent(t) && !faults.addRaises then old(rows) + [RowOf(t)] else old(rows)
    {
      hide Fold;
      if r.text != [] || r.tools != [] || r.notices != [] || r.viz != [] || r.ui != [] || r.usage.Some? {
        if faults.addRaises {
          return;
        }
        var values := ToolValues(r);
        var sidecar := Payloads(r.notices) + Payloads(r.viz)
          + (if r.ui != [] then [Markup(Concat(r.ui))] else [])
          + (if r.usage.Some? then [Payload(r.usage.value)] else [])
          + (if r.runId != "" then [RunId(r.runId)] else []);
        rows := rows + [Row(Concat(r.text), values, sidecar)];
      }
    }
  }

  method ToolValues(r: Recorder) returns (values: seq<Tool>)
    requires r.Valid()
    ensures values == Fold(r.frames).tools
  {
    hide Fold;
    values := [];
    while |values| < |r.tools|
      invariant |values| <= |r.tools| && values == Fold(r.frames).tools[..|values|]
      decreases |r.tools| - |values|
    {
      values := values + [r.tools[|values|].Value()];
    }
  }

  /** _record_stream, for a client that pulls at most `pulls` chunks: every chunk
      goes through untouched and in order, and once the stream was started the
      turn seen so far is persisted, however the stream ends. */
  method RecordStream(chunks: seq<Chunk>, pulls: nat, r: Recorder, c: Conversation, faults: Faults)
    returns (yielded: seq<Chunk>)
    requires r.Valid() && r.frames == [] && r.tools == []
    modifies r, c
    ensures r.Valid() && yielded == chunks[..Delivered(chunks, pulls)] && r.frames == FramesOf(yielded)
    ensures pulls == 0 ==> c.rows == old(c.rows) && c.sessionId == old(c.sessionId)
    ensures pulls > 0 ==>
      var t := Fold(FramesOf(yielded));
      var binds := t.sessionId != "" && !faults.readRaises && faults.found && old(c.sessionId) != t.sessionId;
      var raised := t.sessionId != "" && (faults.readRaises || (binds && faults.bindRaises));
      && c.sessionId == (if binds && !faults.bindRaises then t.sessionId else old(c.sessionId))
      && c.rows == (if !raised && HasContent(t) && !faults.addRaises then old(c.rows) + [RowOf(t)] else old(c.rows))
    ensures pulls > 0 && faults == Faults(true, false, false, false) ==>
      var frames := FramesOf(yielded);
      && (forall i | 0 <= i < |frames| && frames[i].Start? && (forall k | i < k < |frames| :: !frames[k].Start?) ::
            && (frames[i].sessionId != "" ==> c.sessionId == frames[i].sessionId)
            && (frames[i].runId != "" && c.rows != old(c.rows) ==>
                  |c.rows| == |old(c.rows)| + 1 && RunId(frames[i].runId) in c.rows[|old(c.rows)|].sidecar))
      && (c.rows != old(c.rows) <==> exists i | 0 <= i < |frames| :: !frames[i].Start? && !frames[i].Unknown?)
      && (c.rows != old(c.rows) ==> c.rows[..|c.rows| - 1] == old(c.rows) && c.rows[|c.rows| - 1].content == Deltas(frames))
  {
    hide Fold, Next, Sidecar, HasContent, RowOf, FramesOf, Delivered, Deltas;
    yielded := Relay(chunks, pulls, r);
    if pulls > 0 {
      ghost var frames := FramesOf(yielded);
      SessionIsLastStart(frames);
      ContentExact(frames);
      RowFacts(frames);
      c.PersistTurn(r, faults);
    }
  }

  /** The loop of the stream: observe a frame, then pass its chunk on. */
  method Relay(chunks: seq<Chunk>, pulls: nat, r: Recorder) returns (yielded: seq<Chunk>)
    requires r.Valid() && r.frames == [] && r.tools == []
    modifies r
    ensures r.Valid() && yielded == chunks[..Delivered(chunks, pulls)] && r.frames == FramesOf(yielded)
  {
    hide Fold, Next, FramesOf;
    FramesOfNothing();
    yielded := [];
    while |yielded| < |chunks| && |yielded| < pulls && !chunks[|yielded|].NotAnObject?
      invariant |yielded| <= |chunks| && |yielded| <= pulls && yielded == chunks[..|yielded|]
      invariant Delivered(chunks, pulls) == |yielded| + Delivered(chunks[|yielded|..], pulls - |yielded|)
      invariant r.Valid() && r.frames == FramesOf(yielded)
      invariant fresh(set e | e in r.tools)
      decreases |chunks| - |yielded|
    {
      var chunk := chunks[|yielded|];
      if chunk.Framed? {
        r.Observe(chunk.frame);
      }
      FramesOfSnoc(yielded, chunk);
      yielded := yielded + [chunk];
    }
  }
}
