/**
 The render effect of frontend/src/app/document-pdf-preview.tsx: every effect appends one run to a
 promise chain, cancels the run of the effect before it, and all runs share one canvas.
 */
module RenderQueue {
  import opened Text

  /** Where a run is: in the chain, awaiting its page, painting, or settled (`ok` unless it threw). */
  datatype Stage = Queued | Loading | Painting | Settled(ok: bool)

  /** `cancelled` is the flag the effect's clean-up sets; `reported` that a failure was handled. */
  datatype Run = Run(key: string, cancelled: bool, stage: Stage, reported: bool)

  /** What the canvas shows: nothing, a render under way or broken off, or a finished one. */
  datatype Canvas = Blank | Partial(run: nat) | Holds(run: nat)

  datatype State = State(
    runs: seq<Run>, live: Option<nat>, mounted: bool,
    canvas: Canvas, renderTask: Option<nat>, rendered: Option<string>, failed: bool)

  datatype Event =
    | RunEffect(key: string)
    | SkipEffect
    | Unmount
    | Start(run: nat)
    | PageLoaded(run: nat)
    | PageFailed(run: nat)
    | RenderDone(run: nat)
    | RenderFailed(run: nat)
    | Report(run: nat)

  const INITIAL := State([], None, true, Blank, None, None, false)

  predicate IsAt(s: State, i: nat, stage: Stage) {
    i < |s.runs| && s.runs[i].stage == stage
  }

  /** The promise a run is chained to has settled, however it ended. */
  predicate Due(s: State, i: nat) {
    IsAt(s, i, Queued) && (i == 0 || s.runs[i - 1].stage.Settled?)
  }

  predicate Enabled(s: State, e: Event) {
    match e
    case RunEffect(_) => s.mounted
    case SkipEffect => s.mounted
    case Unmount => s.mounted
    case Start(i) => Due(s, i)
    case PageLoaded(i) => IsAt(s, i, Loading)
    case PageFailed(i) => IsAt(s, i, Loading)
    case RenderDone(i) => IsAt(s, i, Painting)
    case RenderFailed(i) => IsAt(s, i, Painting)
    case Report(i) => IsAt(s, i, Settled(false)) && !s.runs[i].reported
  }

  function SetStage(s: State, i: nat, stage: Stage): State
    requires i < |s.runs|
  {
    s.(runs := s.runs[i := s.runs[i].(stage := stage)])
  }

  /** The clean-up of the effect that is live, if there is one. */
  function CleanUp(s: State): State {
    if s.live.Some? && s.live.value < |s.runs| then
      s.(runs := s.runs[s.live.value := s.runs[s.live.value].(cancelled := true)], live := None)
    else s.(live := None)
  }

  function ReleaseTask(s: State, i: nat): State {
    if s.renderTask == Some(i) then s.(renderTask := None) else s
  }

  function Next(s: State, e: Event): State
    requires Enabled(s, e)
  {
    match e
    case RunEffect(key) =>
      CleanUp(s).(runs := CleanUp(s).runs + [Run(key, false, Queued, false)], live := Some(|s.runs|))
    case SkipEffect => CleanUp(s)
    case Unmount => CleanUp(s).(mounted := false, renderTask := None)
    case Start(i) => SetStage(s, i, if s.runs[i].cancelled then Settled(true) else Loading)
    case PageLoaded(i) =>
      if s.runs[i].cancelled then SetStage(s, i, Settled(true))
      else SetStage(s, i, Painting).(canvas := Partial(i), renderTask := Some(i))
    case PageFailed(i) => SetStage(s, i, Settled(false))
    case RenderDone(i) =>
      ReleaseTask(SetStage(s, i, Settled(true)), i)
        .(canvas := Holds(i), rendered := if s.runs[i].cancelled then s.rendered else Some(s.runs[i].key))
    case RenderFailed(i) => ReleaseTask(SetStage(s, i, Settled(false)), i)
    case Report(i) =>
      s.(runs := s.runs[i := s.runs[i].(reported := true)], failed := s.failed || !s.runs[i].cancelled)
  }

  // The invariant

  /** A run leaves the chain only when every run before it has settled. */
  ghost predicate InOrder(s: State) {
    forall i, j :: 0 <= i < j < |s.runs| && !s.runs[j].stage.Queued? ==> s.runs[i].stage.Settled?
  }

  /** The live effect is the newest one, and every other run has been cancelled. */
  ghost predicate OnlyNewestLive(s: State) {
    && (s.live.Some? ==> s.live.value + 1 == |s.runs|)
    && (forall i :: 0 <= i < |s.runs| ==> (s.runs[i].cancelled <==> s.live != Some(i)))
  }

  /** What the canvas shows is the work of a run no later run has painted over. */
  ghost predicate CanvasExplained(s: State) {
    && (forall i :: 0 <= i < |s.runs| && s.runs[i].stage.Painting? ==> s.canvas == Partial(i))
    && (s.canvas.Holds? ==> IsAt(s, s.canvas.run, Settled(true)))
    && (s.canvas.Partial? ==> IsAt(s, s.canvas.run, Painting) || IsAt(s, s.canvas.run, Settled(false)))
    && (s.renderTask.Some? ==> IsAt(s, s.renderTask.value, Painting))
  }

  /** A finished run that was never cancelled has painted the canvas and set `rendered`. */
  ghost predicate LiveRunShown(s: State) {
    forall i :: 0 <= i < |s.runs| && s.runs[i].stage == Settled(true) && !s.runs[i].cancelled ==>
      s.canvas == Holds(i) && s.rendered == Some(s.runs[i].key)
  }

  ghost predicate Inv(s: State) {
    InOrder(s) && OnlyNewestLive(s) && CanvasExplained(s) && LiveRunShown(s)
  }

  lemma InOrderKept(s: State, e: Event)
    requires InOrder(s) && Enabled(s, e)
    ensures InOrder(Next(s, e))
  {
    var after := Next(s, e);
    forall i, j | 0 <= i < j < |after.runs| && !after.runs[j].stage.Queued?
      ensures after.runs[i].stage.Settled?
    {
      assert j < |s.runs|;
      if e == Start(j) && i < j - 1 {
        assert s.runs[i].stage.Settled?;
      }
    }
  }

  lemma OnlyNewestLiveKept(s: State, e: Event)
    requires OnlyNewestLive(s) && Enabled(s, e)
    ensures OnlyNewestLive(Next(s, e))
  {
    var after := Next(s, e);
    forall i | 0 <= i < |after.runs|
      ensures after.runs[i].cancelled <==> after.live != Some(i)
    {
      if i < |s.runs| {
        assert s.runs[i].cancelled <==> s.live != Some(i);
      }
    }
  }

  /** In order, nothing but the run that moves is under way. */
  lemma NoOtherActive(s: State, i: nat, j: nat)
    requires InOrder(s) && i < |s.runs| && j < |s.runs| && i != j
    requires Due(s, i) || s.runs[i].stage.Loading? || s.runs[i].stage.Painting?
    ensures !s.runs[j].stage.Loading? && !s.runs[j].stage.Painting?
    ensures i < j ==> s.runs[j].stage.Queued?
  {
    if i < j {
      assert s.runs[j].stage.Queued?;
    } else if Due(s, i) && j < i - 1 {
      assert s.runs[j].stage.Settled?;
    }
  }

  /** Clean-ups, starts and reports leave the canvas and every painting run alone. */
  lemma CanvasUntouched(s: State, e: Event)
    requires CanvasExplained(s) && Enabled(s, e)
    requires e.RunEffect? || e.SkipEffect? || e.Unmount? || e.Start? || e.Report? || e.PageFailed?
    ensures CanvasExplained(Next(s, e))
  {
    var after := Next(s, e);
    assert after.canvas == s.canvas;
    forall i | 0 <= i < |s.runs|
      ensures after.runs[i].stage.Painting? <==> s.runs[i].stage.Painting?
      ensures s.runs[i].stage.Settled? ==> after.runs[i].stage == s.runs[i].stage
    {
    }
  }

  lemma PaintingStarts(s: State, i: nat)
    requires Inv(s) && Enabled(s, PageLoaded(i))
    ensures CanvasExplained(Next(s, PageLoaded(i)))
  {
    var after := Next(s, PageLoaded(i));
    forall j | 0 <= j < |s.runs| && j != i
      ensures after.runs[j] == s.runs[j] && !s.runs[j].stage.Painting?
    {
      NoOtherActive(s, i, j);
    }
  }

  lemma PaintingEnds(s: State, e: Event)
    requires Inv(s) && Enabled(s, e) && (e.RenderDone? || e.RenderFailed?)
    ensures CanvasExplained(Next(s, e))
  {
    var after := Next(s, e);
    forall j | 0 <= j < |s.runs| && j != e.run
      ensures after.runs[j] == s.runs[j] && !s.runs[j].stage.Painting?
    {
      NoOtherActive(s, e.run, j);
    }
    assert s.canvas == Partial(e.run);
  }

  lemma CanvasKept(s: State, e: Event)
    requires Inv(s) && Enabled(s, e)
    ensures CanvasExplained(Next(s, e))
  {
    match e {
      case PageLoaded(i) => PaintingStarts(s, i);
      case RenderDone(_) => PaintingEnds(s, e);
      case RenderFailed(_) => PaintingEnds(s, e);
      case _ => CanvasUntouched(s, e);
    }
  }

  lemma LiveRunKept(s: State, e: Event)
    requires Inv(s) && Enabled(s, e)
    ensures LiveRunShown(Next(s, e))
  {
    var after := Next(s, e);
    forall i | 0 <= i < |after.runs| && after.runs[i].stage == Settled(true) && !after.runs[i].cancelled
      ensures after.canvas == Holds(i) && after.rendered == Some(after.runs[i].key)
    {
      assert i < |s.runs| && !s.runs[i].cancelled && s.live == Some(i) && i + 1 == |s.runs|;
      assert e.PageLoaded? || e.RenderDone? ==> e.run == i;
    }
  }

  lemma InvKept(s: State, e: Event)
    requires Inv(s) && Enabled(s, e)
    ensures Inv(Next(s, e))
  {
    InOrderKept(s, e);
    OnlyNewestLiveKept(s, e);
    CanvasKept(s, e);
    LiveRunKept(s, e);
  }

  // Histories

  datatype History = Begin | Then(before: History, event: Event)

  function Last(h: History): State {
    match h
    case Begin => INITIAL
    case Then(before, e) => if Enabled(Last(before), e) then Next(Last(before), e) else Last(before)
  }

  predicate Legal(h: History) {
    h.Begin? || (Legal(h.before) && Enabled(Last(h.before), h.event))
  }

  lemma {:induction false} InvHolds(h: History)
    requires Legal(h)
    ensures Inv(Last(h))
  {
    match h
    case Begin =>
    case Then(before, e) =>
      InvHolds(before);
      InvKept(Last(before), e);
  }

  // Safety

  predicate Active(s: State, i: nat) {
    IsAt(s, i, Loading) || IsAt(s, i, Painting)
  }

  lemma OneAtATime(s: State, i: nat, j: nat)
    requires InOrder(s) && i < |s.runs| && j < |s.runs| && i != j
    ensures !(Active(s, i) && Active(s, j))
    ensures Due(s, i) && j < i ==> s.runs[j].stage.Settled?
    ensures Due(s, i) && i < j ==> s.runs[j].stage.Queued?
  {
    if Due(s, i) || Active(s, i) {
      NoOtherActive(s, i, j);
    }
  }

  /** Never two runs at work, and a run starts when all earlier ones are done and no later one has begun. */
  lemma OneAtATimeInOrder(h: History, i: nat, j: nat)
    requires Legal(h) && i < |Last(h).runs| && j < |Last(h).runs|
    ensures Active(Last(h), i) && Active(Last(h), j) ==> i == j
    ensures Enabled(Last(h), Start(i)) && j < i ==> Last(h).runs[j].stage.Settled?
    ensures Enabled(Last(h), Start(i)) && i < j ==> Last(h).runs[j].stage.Queued?
  {
    InvHolds(h);
    if i != j {
      OneAtATime(Last(h), i, j);
    }
  }

  /** Only the live effect's run sets `rendered` or `failed`. */
  lemma OnlyLiveRunReports(h: History, e: Event)
    requires Legal(h) && Enabled(Last(h), e)
    requires Next(Last(h), e).rendered != Last(h).rendered || Next(Last(h), e).failed != Last(h).failed
    ensures (e.RenderDone? || e.Report?) && Last(h).live == Some(e.run) && e.run + 1 == |Last(h).runs|
  {
    InvHolds(h);
  }

  // Failures

  /** At some point of `h`, right after `p`, run `i` was reported as failed while its effect was live. */
  ghost predicate LiveFailure(p: History, h: History, i: nat) {
    Extends(Then(p, Report(i)), h) && Last(p).live == Some(i)
  }

  /** A report raises `failed` exactly when its run is the live effect's; nothing else touches it. */
  lemma FailedStep(h: History, e: Event)
    requires Legal(h) && Enabled(Last(h), e)
    ensures Next(Last(h), e).failed <==> Last(h).failed || (e.Report? && Last(h).live == Some(e.run))
  {
    InvHolds(h);
  }

  /** `failed` holds exactly when some run failed while live, at whatever point of the history. */
  lemma {:induction false} FailedIff(h: History)
    requires Legal(h)
    ensures Last(h).failed <==> exists p, i: nat :: LiveFailure(p, h, i)
  {
    match h
    case Begin =>
    case Then(before, e) =>
      FailedIff(before);
      FailedStep(before, e);
      if Last(before).failed {
        var p, i: nat :| LiveFailure(p, before, i);
        assert LiveFailure(p, h, i);
      } else if e.Report? && Last(before).live == Some(e.run) {
        assert LiveFailure(before, h, e.run);
      }
      if p, i: nat :| LiveFailure(p, h, i) {
        assert Then(p, Report(i)) == h || LiveFailure(p, before, i);
      }
  }

  /** No later step clears `failed`. */
  lemma {:induction false} FailureStays(earlier: History, later: History)
    requires Legal(later) && Extends(earlier, later) && Last(earlier).failed
    ensures Last(later).failed
  {
    if earlier != later {
      FailureStays(earlier, later.before);
      FailedStep(later.before, later.event);
    }
  }

  /** A run that fails and is reported while live. */
  lemma FirstRunFails(key: string) returns (h: History)
    ensures Legal(h)
    ensures Last(h) == State([Run(key, false, Settled(false), true)], Some(0), true, Blank, None, None, true)
  {
    h := OneMore(Begin, RunEffect(key));
    h := OneMore(h, Start(0));
    h := OneMore(h, PageFailed(0));
    h := OneMore(h, Report(0));
  }

  lemma OneMore(h: History, e: Event) returns (longer: History)
    requires Legal(h) && Enabled(Last(h), e)
    ensures Legal(longer) && Last(longer) == Next(Last(h), e)
  {
    longer := Then(h, e);
  }

  /** So the failure outlives a later render that succeeds and is shown. */
  lemma FailureOutlivesSuccess(key: string, other: string) returns (h: History)
    ensures Legal(h) && Drained(Last(h)) && Last(h).live == Some(1)
    ensures Last(h).failed && Last(h).canvas == Holds(1) && Last(h).rendered == Some(key)
  {
    h := FirstRunFails(other);
    h := OneMore(h, RunEffect(key));
    h := OneMore(h, Start(1));
    h := OneMore(h, PageLoaded(1));
    h := OneMore(h, RenderDone(1));
  }

  // Draining

  /** Run `i` was cancelled before its page came, and has left no trace. */
  ghost predicate Untraced(s: State, i: nat) {
    && i < |s.runs| && s.runs[i].cancelled && !s.runs[i].stage.Painting?
    && s.canvas != Partial(i) && s.canvas != Holds(i) && s.renderTask != Some(i)
  }

  lemma UntracedKept(s: State, e: Event, i: nat)
    requires Untraced(s, i) && Enabled(s, e)
    ensures Untraced(Next(s, e), i)
  {
  }

  /** A run cancelled before its page came never paints, never holds the canvas and never owns the task. */
  lemma {:induction false} CancelledNeverPaints(p: History, h: History, i: nat)
    requires Legal(h) && Extends(p, h) && i < |Last(p).runs| && Last(p).runs[i].cancelled
    requires Last(p).runs[i].stage.Queued? || Last(p).runs[i].stage.Loading?
    ensures Untraced(Last(h), i)
  {
    if p == h {
      InvHolds(h);
    } else {
      CancelledNeverPaints(p, h.before, i);
      UntracedKept(Last(h.before), h.event, i);
    }
  }

  predicate Drained(s: State) {
    forall i :: 0 <= i < |s.runs| ==> s.runs[i].stage.Settled?
  }

  /**
   Once the queue is drained with an effect live, the canvas holds the newest effect's render exactly
   when that run did not fail, and then `rendered` names it.
   */
  lemma DrainedShowsNewest(h: History, i: nat)
    requires Legal(h) && Drained(Last(h)) && Last(h).live == Some(i)
    ensures var s := Last(h);
            && i + 1 == |s.runs|
            && (s.canvas == Holds(i) <==> s.runs[i].stage.ok)
            && (s.runs[i].stage.ok ==> s.rendered == Some(s.runs[i].key))
  {
    InvHolds(h);
  }

  // Progress

  function StepsLeft(r: Run): nat {
    match r.stage
    case Queued => 3
    case Loading => 2
    case Painting => 1
    case Settled(_) => 0
  }

  function Work(runs: seq<Run>): nat {
    if runs == [] then 0 else Work(runs[..|runs| - 1]) + StepsLeft(runs[|runs| - 1])
  }

  lemma {:induction false} WorkDrops(runs: seq<Run>, i: nat, r: Run)
    requires i < |runs| && StepsLeft(r) < StepsLeft(runs[i])
    ensures Work(runs[i := r]) < Work(runs)
  {
    var n := |runs| - 1;
    var after := runs[i := r];
    if i < n {
      assert after[..n] == runs[..n][i := r] && after[n] == runs[n];
      WorkDrops(runs[..n], i, r);
    } else {
      assert after[..n] == runs[..n];
    }
  }

  /** The next step of the run at the front; `ok` chooses between its outcomes. */
  function FrontStep(s: State, i: nat, ok: bool): Event
    requires i < |s.runs|
  {
    match s.runs[i].stage
    case Queued => Start(i)
    case Loading => if ok then PageLoaded(i) else PageFailed(i)
    case _ => if ok then RenderDone(i) else RenderFailed(i)
  }

  lemma FrontStepAdvances(s: State, i: nat, ok: bool)
    requires i < |s.runs| && !s.runs[i].stage.Settled?
    requires forall j :: 0 <= j < i ==> s.runs[j].stage.Settled?
    ensures Enabled(s, FrontStep(s, i, ok))
    ensures Work(Next(s, FrontStep(s, i, ok)).runs) < Work(s.runs)
    ensures |Next(s, FrontStep(s, i, ok)).runs| == |s.runs| && Next(s, FrontStep(s, i, ok)).live == s.live
  {
    var after := Next(s, FrontStep(s, i, ok));
    assert after.runs == s.runs[i := after.runs[i]];
    WorkDrops(s.runs, i, after.runs[i]);
  }

  /** `later` continues `earlier`. */
  ghost predicate Extends(earlier: History, later: History) {
    later == earlier || (later.Then? && Extends(earlier, later.before))
  }

  lemma {:induction false} ExtendsTransitive(a: History, b: History, c: History)
    requires Extends(a, b) && Extends(b, c)
    ensures Extends(a, c)
  {
    if b != c {
      ExtendsTransitive(a, b, c.before);
    }
  }

  lemma ThenLast(h: History, e: Event)
    requires Legal(h) && Enabled(Last(h), e)
    ensures Legal(Then(h, e)) && Last(Then(h, e)) == Next(Last(h), e)
  {
  }

  /** The first run that has not settled takes its next step. */
  lemma Advance(h: History, ok: bool) returns (longer: History)
    requires Legal(h) && !Drained(Last(h))
    ensures Legal(longer) && Extends(h, longer)
    ensures Work(Last(longer).runs) < Work(Last(h).runs)
    ensures |Last(longer).runs| == |Last(h).runs| && Last(longer).live == Last(h).live
  {
    var s := Last(h);
    var e := FrontStep(s, Front(s), ok);
    FrontStepAdvances(s, Front(s), ok);
    longer := Then(h, e);
    ThenLast(h, e);
  }

  /** No failure stalls the queue: however each render ends (`outcome`), every history can be drained. */
  lemma {:induction false} NeverStalls(h: History, outcome: nat -> bool) returns (drained: History)
    requires Legal(h)
    ensures Legal(drained) && Extends(h, drained) && Drained(Last(drained))
    ensures |Last(drained).runs| == |Last(h).runs| && Last(drained).live == Last(h).live
    decreases Work(Last(h).runs)
  {
    if Drained(Last(h)) {
      drained := h;
    } else {
      var next := Advance(h, outcome(Front(Last(h))));
      drained := NeverStalls(next, outcome);
      ExtendsTransitive(h, next, drained);
    }
  }

  /** The first run that has not settled. */
  function Front(s: State): (i: nat)
    requires !Drained(s)
    ensures i < |s.runs| && !s.runs[i].stage.Settled?
    ensures forall j :: 0 <= j < i ==> s.runs[j].stage.Settled?
  {
    FrontFrom(s, 0)
  }

  function FrontFrom(s: State, k: nat): (i: nat)
    requires !Drained(s) && k <= |s.runs| && forall j :: 0 <= j < k ==> s.runs[j].stage.Settled?
    ensures i < |s.runs| && !s.runs[i].stage.Settled?
    ensures forall j :: 0 <= j < i ==> s.runs[j].stage.Settled?
    decreases |s.runs| - k
  {
    if k < |s.runs| && !s.runs[k].stage.Settled? then k else FrontFrom(s, k + 1)
  }

  // The component

  /** The refs, flags and state of the component, changed step by step. */
  class PdfPreview {
    var runs: seq<Run>
    var live: Option<nat>
    var mounted: bool
    var canvas: Canvas
    var renderTask: Option<nat>
    var rendered: Option<string>
    var failed: bool
    ghost var history: History

    function Snapshot(): State
      reads this
    {
      State(runs, live, mounted, canvas, renderTask, rendered, failed)
    }

    ghost predicate Valid()
      reads this
    {
      Legal(history) && Last(history) == Snapshot()
    }

    constructor ()
      ensures Valid() && Snapshot() == INITIAL
    {
      runs, live, mounted := [], None, true;
      canvas, renderTask, rendered, failed := Blank, None, None, false;
      history := Begin;
    }

    method CleanUpEffect()
      modifies this`runs, this`live
      ensures Snapshot() == CleanUp(old(Snapshot()))
    {
      if live.Some? && live.value < |runs| {
        runs := runs[live.value := runs[live.value].(cancelled := true)];
      }
      live := None;
    }

    /** The effect body: one more run on the chain, after the previous effect's clean-up. */
    method RunEffectBody(key: string)
      requires Valid() && mounted
      modifies this
      ensures Valid() && history == Then(old(history), RunEffect(key))
      ensures |runs| == |old(runs)| + 1 && runs[|old(runs)|] == Run(key, false, Queued, false)
      ensures live == Some(|old(runs)|) && canvas == old(canvas) && rendered == old(rendered)
    {
      CleanUpEffect();
      runs := runs + [Run(key, false, Queued, false)];
      live := Some(|runs| - 1);
      history := Then(history, RunEffect(key));
    }

    method SkipEffectBody()
      requires Valid() && mounted
      modifies this
      ensures Valid() && history == Then(old(history), SkipEffect)
    {
      CleanUpEffect();
      history := Then(history, SkipEffect);
    }

    method UnmountComponent()
      requires Valid() && mounted
      modifies this
      ensures Valid() && history == Then(old(history), Unmount)
      ensures !mounted && live == None && renderTask == None
    {
      CleanUpEffect();
      renderTask := None;
      mounted := false;
      history := Then(history, Unmount);
    }

    method SetRunStage(i: nat, stage: Stage)
      requires i < |runs|
      modifies this`runs
      ensures runs == old(runs)[i := old(runs[i]).(stage := stage)]
    {
      runs := runs[i := runs[i].(stage := stage)];
    }

    /** `run` up to its first `await`. */
    method StartRun(i: nat)
      requires Valid() && Due(Snapshot(), i)
      modifies this
      ensures Valid() && history == Then(old(history), Start(i))
      ensures runs == old(runs)[i := old(runs[i]).(stage := if old(runs[i].cancelled) then Settled(true) else Loading)]
      ensures canvas == old(canvas)
    {
      if runs[i].cancelled {
        SetRunStage(i, Settled(true));
      } else {
        SetRunStage(i, Loading);
      }
      history := Then(history, Start(i));
    }

    /** `run` from the page to the start of the render, or its rejection. */
    method ReceivePage(i: nat, ok: bool)
      requires Valid() && IsAt(Snapshot(), i, Loading)
      modifies this
      ensures Valid() && history == Then(old(history), if ok then PageLoaded(i) else PageFailed(i))
      ensures ok && !old(runs[i].cancelled) ==>
                runs[i].stage == Painting && canvas == Partial(i) && renderTask == Some(i)
      ensures ok && old(runs[i].cancelled) ==> runs[i].stage == Settled(true)
      ensures !ok ==> runs[i].stage == Settled(false)
      ensures !ok || old(runs[i].cancelled) ==> canvas == old(canvas) && renderTask == old(renderTask)
    {
      if !ok {
        SetRunStage(i, Settled(false));
        history := Then(history, PageFailed(i));
        return;
      }
      if runs[i].cancelled {
        SetRunStage(i, Settled(true));
      } else {
        SetRunStage(i, Painting);
        canvas := Partial(i);
        renderTask := Some(i);
      }
      history := Then(history, PageLoaded(i));
    }

    /** `await task.promise`, its `finally`, and `setRendered` unless cancelled. */
    method FinishRender(i: nat, ok: bool)
      requires Valid() && IsAt(Snapshot(), i, Painting)
      modifies this
      ensures Valid() && history == Then(old(history), if ok then RenderDone(i) else RenderFailed(i))
      ensures runs == old(runs)[i := old(runs[i]).(stage := Settled(ok))]
      ensures canvas == (if ok then Holds(i) else old(canvas)) && renderTask != Some(i)
      ensures rendered == if ok && !old(runs[i].cancelled) then Some(old(runs[i].key)) else old(rendered)
    {
      if renderTask == Some(i) {
        renderTask := None;
      }
      if ok {
        canvas := Holds(i);
        if !runs[i].cancelled {
          rendered := Some(runs[i].key);
        }
        SetRunStage(i, Settled(true));
        history := Then(history, RenderDone(i));
      } else {
        SetRunStage(i, Settled(false));
        history := Then(history, RenderFailed(i));
      }
    }

    /** The rejection handler of the queued promise. */
    method ReportFailure(i: nat)
      requires Valid() && IsAt(Snapshot(), i, Settled(false)) && !runs[i].reported
      modifies this
      ensures Valid() && history == Then(old(history), Report(i))
      ensures failed <==> old(failed) || !old(runs[i].cancelled)
    {
      if !runs[i].cancelled {
        failed := true;
      }
      runs := runs[i := runs[i].(reported := true)];
      history := Then(history, Report(i));
    }
  }
}
