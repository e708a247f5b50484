/**
 The stream handlers of frontend/src/app/ai-assistant.tsx: `send` and `resumeAfterApproval` fold the
 events of a run into the message text, the step list and the state shown, against a description of
 the outcome that looks at the whole event sequence at once.
 */
module AssistantStream {
  import opened Text

  datatype UiState =
    | Idle | Streaming | ApprovalRequired | Completed | ProviderError | GovernanceDenied | Cancelled

  datatype StepInfo = StepInfo(id: string, status: string, toolApprovalId: string, invocationId: string)

  /** The token counts; an absent one is `None`. */
  datatype Usage = Usage(
    input: Option<int>, output: Option<int>, cacheCreation: Option<int>, cacheRead: Option<int>,
    cacheCreation5m: Option<int>, cacheCreation1h: Option<int>, imageOutput: Option<int>)

  const NO_USAGE := Usage(None, None, None, None, None, None, None)

  datatype Cost = Cost(estimated: Option<real>, charged: Option<real>, currency: string, breakdown: Option<string>)

  const NO_COST := Cost(None, None, "CNY", None)

  /** What is fetched for an invocation once its stream has ended. */
  datatype Invocation = Invocation(usage: Usage, amount: real, currency: string, breakdown: Option<string>)

  /** One stream datum; the empty string stands for an absent text. */
  datatype Datum = Datum(
    delta: string, error: string, code: string, done: bool, step: Option<StepInfo>, approvalId: string,
    invocationId: string, usage: Option<Usage>, estimated: Option<real>, charged: Option<real>, currency: string)

  /** How the stream ends: by itself, by the user's abort, or by an exception described by `message`. */
  datatype Ending = Finished | Aborted | Threw(message: string)

  datatype Outcome = Outcome(
    state: UiState, content: string, steps: seq<StepInfo>, pendingApproval: string,
    invocationId: string, usage: Usage, cost: Cost)

  function CompletedState(current: UiState): UiState {
    if current.ProviderError? || current.GovernanceDenied? || current.Cancelled? then current else Completed
  }

  // Error classes

  predicate OccursAt(s: string, word: string, i: nat) {
    i + |word| <= |s| && s[i..i + |word|] == word
  }

  predicate Includes(s: string, word: string) {
    exists i :: 0 <= i <= |s| && OccursAt(s, word, i)
  }

  /** `toLowerCase`, whatever it does. */
  type LowerCase = string -> string

  function ErrorState(lower: LowerCase, d: Datum): UiState {
    if d.code == "forbidden" || Includes(lower(d.error), "denied") || Includes(lower(d.error), "forbidden")
    then GovernanceDenied else ProviderError
  }

  /** `word` stands somewhere in `s`. */
  lemma IncludesIff(s: string, word: string)
    ensures Includes(s, word) <==> exists a, b :: s == a + word + b
  {
    if i :| 0 <= i <= |s| && OccursAt(s, word, i) {
      assert s == s[..i] + word + s[i + |word|..];
    }
    if a, b :| s == a + word + b {
      assert OccursAt(s, word, |a|);
    }
  }

  /** An error is a denial by its code or by either word in its text, and a failure of the provider otherwise. */
  lemma ErrorStateIs(lower: LowerCase, d: Datum)
    ensures ErrorState(lower, d) == GovernanceDenied || ErrorState(lower, d) == ProviderError
    ensures ErrorState(lower, d) == GovernanceDenied <==>
              || d.code == "forbidden"
              || (exists a, b :: lower(d.error) == a + "denied" + b)
              || (exists a, b :: lower(d.error) == a + "forbidden" + b)
  {
    IncludesIff(lower(d.error), "denied");
    IncludesIff(lower(d.error), "forbidden");
  }

  // The outcome, read off the whole sequence

  predicate AsksApproval(d: Datum) {
    d.step.Some? && d.step.value.status == "approval_required"
  }

  predicate Fails(d: Datum) {
    d.error != ""
  }

  /** The position of the last datum with a property. */
  function LastWhere(data: seq<Datum>, p: Datum -> bool): (r: Option<nat>)
    ensures r.Some? ==> r.value < |data| && p(data[r.value])
  {
    if data == [] then None
    else if p(data[|data| - 1]) then Some(|data| - 1)
    else LastWhere(data[..|data| - 1], p)
  }

  /** It is the last one, and `None` means there is none. */
  lemma {:induction false} LastWhereIsLast(data: seq<Datum>, p: Datum -> bool, i: nat)
    requires i < |data| && p(data[i])
    ensures LastWhere(data, p).Some? && i <= LastWhere(data, p).value
  {
    var n := |data| - 1;
    if i < n && !p(data[n]) {
      LastWhereIsLast(data[..n], p, i);
    }
  }

  function Deltas(data: seq<Datum>): string {
    if data == [] then "" else Deltas(data[..|data| - 1]) + data[|data| - 1].delta
  }

  /** The last error, followed by the deltas after it; without an error, all deltas. */
  function FinalContent(data: seq<Datum>): string {
    match LastWhere(data, Fails)
    case Some(i) => data[i].error + Deltas(data[i + 1..])
    case None => Deltas(data)
  }

  function FinalState(lower: LowerCase, data: seq<Datum>): UiState {
    if LastWhere(data, AsksApproval).Some? then ApprovalRequired else
    match LastWhere(data, Fails)
    case Some(i) => ErrorState(lower, data[i])
    case None => Completed
  }

  function ApprovalOf(d: Datum): string
    requires d.step.Some?
  {
    if d.step.value.toolApprovalId != "" then d.step.value.toolApprovalId else d.approvalId
  }

  function FinalApproval(data: seq<Datum>): string {
    match LastWhere(data, AsksApproval)
    case Some(i) => ApprovalOf(data[i])
    case None => ""
  }

  // Invocation, usage and cost

  function InvocationOf(d: Datum): string {
    if d.invocationId != "" then d.invocationId else if d.step.Some? then d.step.value.invocationId else ""
  }

  predicate NamesInvocation(d: Datum) {
    InvocationOf(d) != ""
  }

  /** The last invocation named, or what was known before. */
  function FinalInvocation(prior: string, data: seq<Datum>): string {
    match LastWhere(data, NamesInvocation)
    case Some(i) => InvocationOf(data[i])
    case None => prior
  }

  function FinalUsage(data: seq<Datum>): Usage {
    match LastWhere(data, (d: Datum) => d.usage.Some?)
    case Some(i) => data[i].usage.value
    case None => NO_USAGE
  }

  function FinalEstimate(data: seq<Datum>): Option<real> {
    match LastWhere(data, (d: Datum) => d.estimated.Some?)
    case Some(i) => data[i].estimated
    case None => None
  }

  function FinalCharge(data: seq<Datum>): Option<real> {
    match LastWhere(data, (d: Datum) => d.charged.Some?)
    case Some(i) => data[i].charged
    case None => None
  }

  function FinalCurrency(data: seq<Datum>): string {
    match LastWhere(data, (d: Datum) => d.currency != "")
    case Some(i) => data[i].currency
    case None => NO_COST.currency
  }

  /** Every part of the cost is the last one the stream gave. */
  function FinalCost(data: seq<Datum>): Cost {
    Cost(FinalEstimate(data), FinalCharge(data), FinalCurrency(data), None)
  }

  predicate Known(steps: seq<StepInfo>, id: string) {
    exists i :: 0 <= i < |steps| && steps[i].id == id
  }

  /** Datum `i` is the first to mention its step, which was not known before the stream. */
  predicate FirstMention(known: seq<StepInfo>, data: seq<Datum>, i: nat)
    requires i < |data|
  {
    && data[i].step.Some?
    && !Known(known, data[i].step.value.id)
    && forall j :: 0 <= j < i && data[j].step.Some? ==> data[j].step.value.id != data[i].step.value.id
  }

  /** The steps known before, then every new step in the order and the form it was first seen. */
  function FinalSteps(known: seq<StepInfo>, data: seq<Datum>): seq<StepInfo> {
    if data == [] then known else
    var n := |data| - 1;
    FinalSteps(known, data[..n]) + if FirstMention(known, data, n) then [data[n].step.value] else []
  }

  /** What was on display before a stream. */
  datatype Display = Display(steps: seq<StepInfo>, invocationId: string, usage: Usage, cost: Cost)

  const CLEARED := Display([], "", NO_USAGE, NO_COST)

  /** State, text, steps and approval shown after a stream, however it ended. */
  function Shown(lower: LowerCase, known: Display, data: seq<Datum>, ending: Ending): Outcome {
    var state := match ending
      case Finished => FinalState(lower, data)
      case Aborted => Cancelled
      case Threw(_) => ProviderError;
    Outcome(
      state, if ending.Threw? then ending.message else FinalContent(data), FinalSteps(known.steps, data),
      FinalApproval(data), FinalInvocation(known.invocationId, data), known.usage, known.cost)
  }

  /** The invocation fetched after a finished stream replaces usage and cost, if the stream named one. */
  function Settled(shown: Outcome, data: seq<Datum>, ending: Ending, loaded: Option<Invocation>): Outcome {
    if ending.Finished? && loaded.Some? && FinalInvocation("", data) != "" then
      var i := loaded.value;
      shown.(usage := i.usage, cost := Cost(None, Some(i.amount), i.currency, i.breakdown))
    else shown
  }

  // The same, datum by datum

  /** The state after a finished stream, from the data themselves. */
  lemma FinalStateIs(lower: LowerCase, data: seq<Datum>)
    ensures FinalState(lower, data) == ApprovalRequired <==>
              exists i :: 0 <= i < |data| && data[i].step.Some? && data[i].step.value.status == "approval_required"
    ensures FinalState(lower, data) == Completed ==> forall i :: 0 <= i < |data| ==> data[i].error == ""
    ensures FinalState(lower, data) != ApprovalRequired && (forall i :: 0 <= i < |data| ==> data[i].error == "") ==>
              FinalState(lower, data) == Completed
  {
    if i :| 0 <= i < |data| && data[i].step.Some? && data[i].step.value.status == "approval_required" {
      LastWhereIsLast(data, AsksApproval, i);
    }
    if i :| 0 <= i < |data| && data[i].error != "" {
      LastWhereIsLast(data, Fails, i);
    }
  }

  /** The last error decides state and text, unless an approval was asked for. */
  lemma LastErrorDecides(lower: LowerCase, data: seq<Datum>, i: nat)
    requires i < |data| && data[i].error != "" && forall j :: i < j < |data| ==> data[j].error == ""
    ensures FinalState(lower, data) == ApprovalRequired || FinalState(lower, data) == ErrorState(lower, data[i])
    ensures FinalContent(data) == data[i].error + Deltas(data[i + 1..])
  {
    LastWhereIsLast(data, Fails, i);
  }

  /** The last datum that asks for approval names the approval. */
  lemma LastApprovalIs(data: seq<Datum>, i: nat)
    requires i < |data| && data[i].step.Some? && data[i].step.value.status == "approval_required"
    requires forall j :: i < j < |data| && data[j].step.Some? ==> data[j].step.value.status != "approval_required"
    ensures FinalApproval(data)
            == if data[i].step.value.toolApprovalId != "" then data[i].step.value.toolApprovalId else data[i].approvalId
  {
    LastWhereIsLast(data, AsksApproval, i);
  }

  /** The last datum that names an invocation, itself or by its step, decides it. */
  lemma LastInvocationIs(prior: string, data: seq<Datum>, i: nat)
    requires i < |data|
    requires data[i].invocationId != "" || (data[i].step.Some? && data[i].step.value.invocationId != "")
    requires forall j :: i < j < |data| ==>
               data[j].invocationId == "" && (data[j].step.Some? ==> data[j].step.value.invocationId == "")
    ensures FinalInvocation(prior, data)
            == if data[i].invocationId != "" then data[i].invocationId else data[i].step.value.invocationId
  {
    LastWhereIsLast(data, NamesInvocation, i);
  }

  /** What the way a stream ends adds, and what a cleared display is. */
  lemma EndingIs(lower: LowerCase, known: Display, data: seq<Datum>, ending: Ending, loaded: Option<Invocation>)
    ensures var shown := Settled(Shown(lower, known, data, ending), data, ending, loaded);
            && (ending.Aborted? ==> shown.state == Cancelled)
            && (ending.Threw? ==> shown.state == ProviderError && shown.content == ending.message)
            && (ending.Finished? && loaded.Some? && (exists i :: 0 <= i < |data| && data[i].invocationId != "") ==>
                  && shown.usage == loaded.value.usage
                  && shown.cost == Cost(None, Some(loaded.value.amount), loaded.value.currency, loaded.value.breakdown))
            && (!ending.Finished? || loaded.None? ==> shown.usage == known.usage && shown.cost == known.cost)
    ensures CLEARED == Display([], "", Usage(None, None, None, None, None, None, None), Cost(None, None, "CNY", None))
  {
    if i :| 0 <= i < |data| && data[i].invocationId != "" {
      LastWhereIsLast(data, NamesInvocation, i);
    }
  }

  // One more datum

  lemma LastWhereSnoc(data: seq<Datum>, d: Datum, p: Datum -> bool)
    ensures LastWhere(data + [d], p) == if p(d) then Some(|data|) else LastWhere(data, p)
  {
    assert (data + [d])[..|data|] == data;
  }

  lemma DeltasSnoc(data: seq<Datum>, d: Datum)
    ensures Deltas(data + [d]) == Deltas(data) + d.delta
  {
    assert (data + [d])[..|data|] == data;
  }

  lemma AppendAssociates(a: string, b: string, c: string)
    ensures a + (b + c) == a + b + c
  {
  }

  lemma ContentSnoc(data: seq<Datum>, d: Datum)
    ensures FinalContent(data + [d]) == if Fails(d) then d.error else FinalContent(data) + d.delta
  {
    LastWhereSnoc(data, d, Fails);
    var more := data + [d];
    if Fails(d) {
      assert more[|data| + 1..] == [];
    } else {
      match LastWhere(data, Fails)
      case None => DeltasSnoc(data, d);
      case Some(i) =>
        assert more[i] == data[i] && more[i + 1..] == data[i + 1..] + [d];
        DeltasSnoc(data[i + 1..], d);
        AppendAssociates(data[i].error, Deltas(data[i + 1..]), d.delta);
    }
  }

  lemma InvocationSnoc(prior: string, data: seq<Datum>, d: Datum)
    ensures FinalInvocation(prior, data + [d])
            == if NamesInvocation(d) then InvocationOf(d) else FinalInvocation(prior, data)
  {
    LastWhereSnoc(data, d, NamesInvocation);
  }

  lemma UsageSnoc(data: seq<Datum>, d: Datum)
    ensures FinalUsage(data + [d]) == if d.usage.Some? then d.usage.value else FinalUsage(data)
  {
    LastWhereSnoc(data, d, (d: Datum) => d.usage.Some?);
  }

  /** One more datum replaces the parts of the cost it carries. */
  lemma CostSnoc(data: seq<Datum>, d: Datum)
    ensures FinalCost(data + [d])
            == Cost(if d.estimated.Some? then d.estimated else FinalEstimate(data),
                    if d.charged.Some? then d.charged else FinalCharge(data),
                    if d.currency != "" then d.currency else FinalCurrency(data), None)
  {
    LastWhereSnoc(data, d, (d: Datum) => d.estimated.Some?);
    LastWhereSnoc(data, d, (d: Datum) => d.charged.Some?);
    LastWhereSnoc(data, d, (d: Datum) => d.currency != "");
  }

  predicate Mentioned(data: seq<Datum>, id: string) {
    exists j :: 0 <= j < |data| && data[j].step.Some? && data[j].step.value.id == id
  }

  lemma KnownSnoc(steps: seq<StepInfo>, step: StepInfo, id: string)
    ensures Known(steps + [step], id) <==> Known(steps, id) || step.id == id
  {
    var more := steps + [step];
    assert more[|steps|] == step;
    assert forall i :: 0 <= i < |steps| ==> more[i] == steps[i];
  }

  lemma MentionedSnoc(data: seq<Datum>, d: Datum, id: string)
    ensures Mentioned(data + [d], id) <==> Mentioned(data, id) || (d.step.Some? && d.step.value.id == id)
  {
    var more := data + [d];
    assert more[|data|] == d;
    assert forall i :: 0 <= i < |data| ==> more[i] == data[i];
  }

  lemma {:induction false} StepsKnown(known: seq<StepInfo>, data: seq<Datum>, id: string)
    ensures Known(FinalSteps(known, data), id) <==> Known(known, id) || Mentioned(data, id)
  {
    if data != [] {
      var n := |data| - 1;
      StepsKnown(known, data[..n], id);
      assert data == data[..n] + [data[n]];
      MentionedSnoc(data[..n], data[n], id);
      if FirstMention(known, data, n) {
        KnownSnoc(FinalSteps(known, data[..n]), data[n].step.value, id);
      } else {
        assert FinalSteps(known, data) == FinalSteps(known, data[..n]);
        assert data[n].step.Some? && data[n].step.value.id == id && !Known(known, id) ==>
          exists j :: 0 <= j < n && data[..n][j].step.Some? && data[..n][j].step.value.id == id;
      }
    }
  }

  lemma StepsSnoc(known: seq<StepInfo>, data: seq<Datum>, d: Datum)
    ensures FinalSteps(known, data + [d])
            == if d.step.Some? && !Known(FinalSteps(known, data), d.step.value.id)
               then FinalSteps(known, data) + [d.step.value] else FinalSteps(known, data)
  {
    var more := data + [d];
    assert more[..|data|] == data;
    if d.step.Some? {
      StepsKnown(known, data, d.step.value.id);
      assert FirstMention(known, more, |data|) <==> !Known(FinalSteps(known, data), d.step.value.id);
    }
    assert FinalSteps(known, data) + [] == FinalSteps(known, data);
  }

  predicate DistinctIds(steps: seq<StepInfo>) {
    forall i, j :: 0 <= i < j < |steps| ==> steps[i].id != steps[j].id
  }

  /** Step identifiers stay distinct, and what was shown stays shown in its place. */
  lemma {:induction false} StepsDistinct(known: seq<StepInfo>, data: seq<Datum>)
    requires DistinctIds(known)
    ensures DistinctIds(FinalSteps(known, data)) && known <= FinalSteps(known, data)
  {
    if data != [] {
      var n := |data| - 1;
      StepsDistinct(known, data[..n]);
      assert data == data[..n] + [data[n]];
      StepsSnoc(known, data[..n], data[n]);
    }
  }

  /** While no approval was asked for, the state is the last error's class, or not an error. */
  ghost predicate StateSoFar(lower: LowerCase, data: seq<Datum>, state: UiState) {
    LastWhere(data, AsksApproval).None? ==>
      match LastWhere(data, Fails)
      case Some(i) => state == ErrorState(lower, data[i])
      case None => state.Streaming? || state.Completed?
  }

  /** The handler's effect on the state, and what it must keep. */
  lemma StateStep(lower: LowerCase, data: seq<Datum>, d: Datum, state: UiState, stopped: bool)
    requires StateSoFar(lower, data, state) && stopped == LastWhere(data + [d], AsksApproval).Some?
    ensures var asked := if AsksApproval(d) then ApprovalRequired else state;
            var judged := if Fails(d) then ErrorState(lower, d) else asked;
            StateSoFar(lower, data + [d], if d.done && !stopped then CompletedState(judged) else judged)
  {
    LastWhereSnoc(data, d, AsksApproval);
    LastWhereSnoc(data, d, Fails);
  }

  // One datum, all at once

  /** The handlers' variables, but for usage and cost. */
  datatype Progress = Progress(
    state: UiState, content: string, steps: seq<StepInfo>, pendingApproval: string, stopped: bool,
    currentInvocation: string, invocationId: string)

  /** The variables are what the data seen so far give. */
  ghost predicate Tracks(lower: LowerCase, known: Display, seen: seq<Datum>, p: Progress) {
    && p.content == FinalContent(seen)
    && p.steps == FinalSteps(known.steps, seen)
    && p.pendingApproval == FinalApproval(seen)
    && p.stopped == LastWhere(seen, AsksApproval).Some?
    && p.currentInvocation == FinalInvocation("", seen)
    && p.invocationId == FinalInvocation(known.invocationId, seen)
    && StateSoFar(lower, seen, p.state)
  }

  /** What both handlers do with one datum. */
  function Handled(lower: LowerCase, p: Progress, d: Datum): Progress {
    var stopped := p.stopped || AsksApproval(d);
    var asked := if AsksApproval(d) then ApprovalRequired else p.state;
    var judged := if Fails(d) then ErrorState(lower, d) else asked;
    Progress(
      if d.done && !stopped then CompletedState(judged) else judged,
      if Fails(d) then d.error else p.content + d.delta,
      if d.step.Some? && !Known(p.steps, d.step.value.id) then p.steps + [d.step.value] else p.steps,
      if AsksApproval(d) then ApprovalOf(d) else p.pendingApproval,
      stopped,
      if NamesInvocation(d) then InvocationOf(d) else p.currentInvocation,
      if NamesInvocation(d) then InvocationOf(d) else p.invocationId)
  }

  lemma ApprovalSnoc(data: seq<Datum>, d: Datum)
    ensures FinalApproval(data + [d]) == if AsksApproval(d) then ApprovalOf(d) else FinalApproval(data)
    ensures LastWhere(data + [d], AsksApproval).Some? <==> LastWhere(data, AsksApproval).Some? || AsksApproval(d)
  {
    LastWhereSnoc(data, d, AsksApproval);
  }

  lemma HandledTracks(lower: LowerCase, known: Display, seen: seq<Datum>, p: Progress, d: Datum)
    requires Tracks(lower, known, seen, p)
    ensures Tracks(lower, known, seen + [d], Handled(lower, p, d))
  {
    var after := Handled(lower, p, d);
    assert after.content == FinalContent(seen + [d]) by {
      ContentSnoc(seen, d);
    }
    assert after.steps == FinalSteps(known.steps, seen + [d]) by {
      StepsSnoc(known.steps, seen, d);
    }
    assert after.currentInvocation == FinalInvocation("", seen + [d]) by {
      InvocationSnoc("", seen, d);
    }
    assert after.invocationId == FinalInvocation(known.invocationId, seen + [d]) by {
      InvocationSnoc(known.invocationId, seen, d);
    }
    ApprovalSnoc(seen, d);
    StateStep(lower, seen, d, p.state, after.stopped);
  }

  /** All data handled one after the other. */
  function HandledAll(lower: LowerCase, known: Display, data: seq<Datum>): Progress {
    if data == [] then Progress(Streaming, "", known.steps, "", false, "", known.invocationId) else
    var n := |data| - 1;
    Handled(lower, HandledAll(lower, known, data[..n]), data[n])
  }

  lemma NothingTracks(lower: LowerCase, known: Display)
    ensures Tracks(lower, known, [], HandledAll(lower, known, []))
  {
  }

  lemma {:induction false} HandledAllTracks(lower: LowerCase, known: Display, data: seq<Datum>)
    ensures Tracks(lower, known, data, HandledAll(lower, known, data))
  {
    if data == [] {
      NothingTracks(lower, known);
    } else {
      var earlier, d := data[..|data| - 1], data[|data| - 1];
      assert data == earlier + [d];
      HandledAllTracks(lower, known, earlier);
      HandledTracks(lower, known, earlier, HandledAll(lower, known, earlier), d);
    }
  }

  datatype Price = Price(usage: Usage, cost: Cost)

  /** What `send` does with the usage and cost of one datum. */
  function Repriced(p: Price, d: Datum): Price {
    Price(
      if d.usage.Some? then d.usage.value else p.usage,
      if d.estimated.Some? || d.charged.Some? || d.currency != "" then
        Cost(if d.estimated.Some? then d.estimated else p.cost.estimated,
             if d.charged.Some? then d.charged else p.cost.charged,
             if d.currency != "" then d.currency else p.cost.currency, None)
      else p.cost)
  }

  function RepricedAll(data: seq<Datum>): Price {
    if data == [] then Price(NO_USAGE, NO_COST) else
    var n := |data| - 1;
    Repriced(RepricedAll(data[..n]), data[n])
  }

  /** Every part of usage and cost is the last one given. */
  lemma {:induction false} RepricedAllIsLast(data: seq<Datum>)
    ensures RepricedAll(data) == Price(FinalUsage(data), FinalCost(data))
  {
    if data != [] {
      var n := |data| - 1;
      RepricedAllIsLast(data[..n]);
      UsageSnoc(data[..n], data[n]);
      CostSnoc(data[..n], data[n]);
      assert data == data[..n] + [data[n]];
    }
  }

  // The two handlers

  /** The component's state and the handlers' local variables, changed datum by datum. */
  class Assistant {
    const lower: LowerCase
    var state: UiState
    var content: string
    var steps: seq<StepInfo>
    var pendingApproval: string
    var stoppedForApproval: bool
    var currentInvocation: string
    var invocationId: string
    var usage: Usage
    var cost: Cost

    function Current(): Progress
      reads this
    {
      Progress(state, content, steps, pendingApproval, stoppedForApproval, currentInvocation, invocationId)
    }

    function Display(): Outcome
      reads this
    {
      Outcome(state, content, steps, pendingApproval, invocationId, usage, cost)
    }

    constructor (lower: LowerCase, known: Display)
      ensures this.lower == lower && Current() == HandledAll(lower, known, [])
      ensures usage == known.usage && cost == known.cost
    {
      this.lower := lower;
      state, content, steps, pendingApproval := Streaming, "", known.steps, "";
      stoppedForApproval, currentInvocation, invocationId := false, "", known.invocationId;
      usage, cost := known.usage, known.cost;
    }

    method NoteInvocation(d: Datum)
      modifies this`currentInvocation, this`invocationId
      ensures currentInvocation == if NamesInvocation(d) then InvocationOf(d) else old(currentInvocation)
      ensures invocationId == if NamesInvocation(d) then InvocationOf(d) else old(invocationId)
    {
      var next := InvocationOf(d);
      if next != "" {
        currentInvocation := next;
        invocationId := next;
      }
    }

    method NoteStepAndText(d: Datum)
      modifies this`steps, this`content
      ensures content == old(content) + d.delta
      ensures steps == if d.step.Some? && !Known(old(steps), d.step.value.id) then old(steps) + [d.step.value]
                       else old(steps)
    {
      if d.step.Some? && !Known(steps, d.step.value.id) {
        steps := steps + [d.step.value];
      }
      if d.delta != "" {
        content := content + d.delta;
      }
    }

    /** `send` alone shows usage and cost while the stream runs. */
    method NotePrice(d: Datum)
      modifies this`usage, this`cost
      ensures Price(usage, cost) == Repriced(old(Price(usage, cost)), d)
    {
      if d.usage.Some? {
        usage := d.usage.value;
      }
      if d.estimated.Some? || d.charged.Some? || d.currency != "" {
        cost := Cost(if d.estimated.Some? then d.estimated else cost.estimated,
                     if d.charged.Some? then d.charged else cost.charged,
                     if d.currency != "" then d.currency else cost.currency, None);
      }
    }

    method NoteApproval(d: Datum)
      modifies this`state, this`stoppedForApproval, this`pendingApproval
      ensures if AsksApproval(d) then
                state == ApprovalRequired && stoppedForApproval && pendingApproval == ApprovalOf(d)
              else state == old(state) && stoppedForApproval == old(stoppedForApproval)
                   && pendingApproval == old(pendingApproval)
    {
      if d.step.Some? && d.step.value.status == "approval_required" {
        state := ApprovalRequired;
        stoppedForApproval := true;
        pendingApproval := if d.step.value.toolApprovalId != "" then d.step.value.toolApprovalId else d.approvalId;
      }
    }

    method NoteErrorAndDone(d: Datum)
      modifies this`state, this`content
      ensures content == if Fails(d) then d.error else old(content)
      ensures var judged := if Fails(d) then ErrorState(lower, d) else old(state);
              state == if d.done && !stoppedForApproval then CompletedState(judged) else judged
    {
      if d.error != "" {
        state := ErrorState(lower, d);
        content := d.error;
      }
      if d.done && !stoppedForApproval {
        state := CompletedState(state);
      }
    }

    /** The part of the handlers that `send` and `resumeAfterApproval` share. */
    method Handle(d: Datum)
      modifies this`state, this`content, this`steps, this`pendingApproval, this`stoppedForApproval,
               this`currentInvocation, this`invocationId
      ensures Current() == Handled(lower, old(Current()), d)
    {
      NoteInvocation(d);
      NoteStepAndText(d);
      NoteApproval(d);
      NoteErrorAndDone(d);
    }

    /** The stream is over: the state settles, and a named invocation is fetched. */
    method Finish(ending: Ending, loaded: Option<Invocation>)
      modifies this
      ensures Display() == Ended(old(Current()), old(Price(usage, cost)), ending, loaded)
    {
      match ending
      case Finished =>
        if currentInvocation != "" && loaded.Some? {
          var invocation := loaded.value;
          usage := invocation.usage;
          cost := Cost(None, Some(invocation.amount), invocation.currency, invocation.breakdown);
        }
        state := if stoppedForApproval then ApprovalRequired else CompletedState(state);
      case Aborted =>
        state := Cancelled;
      case Threw(message) =>
        state := ProviderError;
        content := message;
    }
  }

  /** What the code after the stream makes of the variables. */
  function Ended(p: Progress, price: Price, ending: Ending, loaded: Option<Invocation>): Outcome {
    var state := match ending
      case Finished => if p.stopped then ApprovalRequired else CompletedState(p.state)
      case Aborted => Cancelled
      case Threw(_) => ProviderError;
    var fetched := ending.Finished? && p.currentInvocation != "" && loaded.Some?;
    Outcome(
      state, if ending.Threw? then ending.message else p.content, p.steps, p.pendingApproval, p.invocationId,
      if fetched then loaded.value.usage else price.usage,
      if fetched then Cost(None, Some(loaded.value.amount), loaded.value.currency, loaded.value.breakdown)
      else price.cost)
  }

  lemma EndedIsShown(
    lower: LowerCase, known: Display, data: seq<Datum>, p: Progress, ending: Ending, loaded: Option<Invocation>)
    requires Tracks(lower, known, data, p)
    ensures Ended(p, Price(known.usage, known.cost), ending, loaded)
            == Settled(Shown(lower, known, data, ending), data, ending, loaded)
  {
  }

  /** `send`: everything is cleared first, and usage and cost follow the stream. */
  method Send(lower: LowerCase, data: seq<Datum>, ending: Ending, loaded: Option<Invocation>) returns (shown: Outcome)
    ensures shown == Settled(Shown(lower, CLEARED.(usage := FinalUsage(data), cost := FinalCost(data)), data, ending),
                             data, ending, loaded)
  {
    ghost var priced := CLEARED.(usage := FinalUsage(data), cost := FinalCost(data));
    var assistant := new Assistant(lower, CLEARED);
    for k := 0 to |data|
      invariant assistant.lower == lower && assistant.Current() == HandledAll(lower, priced, data[..k])
      invariant Price(assistant.usage, assistant.cost) == RepricedAll(data[..k])
    {
      assert data[..k + 1][..k] == data[..k];
      assistant.Handle(data[k]);
      assistant.NotePrice(data[k]);
    }
    assert data[..|data|] == data;
    HandledAllTracks(lower, priced, data);
    RepricedAllIsLast(data);
    EndedIsShown(lower, priced, data, assistant.Current(), ending, loaded);
    assistant.Finish(ending, loaded);
    shown := assistant.Display();
  }

  /** `resumeAfterApproval`: goes on from what is shown; usage and cost change only by the fetch at the end. */
  method ResumeAfterApproval(
    lower: LowerCase, known: Display, data: seq<Datum>, ending: Ending, loaded: Option<Invocation>)
    returns (shown: Outcome)
    ensures shown == Settled(Shown(lower, known, data, ending), data, ending, loaded)
  {
    var assistant := new Assistant(lower, known);
    for k := 0 to |data|
      invariant assistant.lower == lower && assistant.Current() == HandledAll(lower, known, data[..k])
      invariant assistant.usage == known.usage && assistant.cost == known.cost
    {
      assert data[..k + 1][..k] == data[..k];
      assistant.Handle(data[k]);
    }
    assert data[..|data|] == data;
    HandledAllTracks(lower, known, data);
    EndedIsShown(lower, known, data, assistant.Current(), ending, loaded);
    assistant.Finish(ending, loaded);
    shown := assistant.Display();
  }
}
