/** The token ledger of a session: one entry per model call, sums per model, across replays and restarts. */
module TokenLedger {
  import opened Outcomes

  // ----- reading one response -----

  /** The five usage fields as one metadata source of a response gives them; None when absent or not a whole number. */
  datatype Reading = Reading(prompt: Option<nat>, completion: Option<nat>, total: Option<nat>, cached: Option<nat>,
                             reasoning: Option<nat>)

  datatype Usage = Usage(prompt: nat, completion: nat, total: nat, cached: nat, reasoning: nat)

  /** `_usage_field`: the first source with a valid value. */
  function Field(first: Option<nat>, second: Option<nat>): Option<nat> {
    if first.Some? then first else second
  }

  function OrZero(n: Option<nat>): nat {
    match n case Some(x) => x case None => 0
  }

  function Normalized(response: Reading, metadata: Reading): Usage {
    var prompt := OrZero(Field(response.prompt, metadata.prompt));
    var completion := OrZero(Field(response.completion, metadata.completion));
    var total := Field(response.total, metadata.total);
    Usage(prompt, completion, if total.Some? then total.value else prompt + completion,
          OrZero(Field(response.cached, metadata.cached)), OrZero(Field(response.reasoning, metadata.reasoning)))
  }

  /** Both main fields were given, and the fields agree with each other. */
  predicate Complete(response: Reading, metadata: Reading) {
    var u := Normalized(response, metadata);
    && Field(response.prompt, metadata.prompt).Some? && Field(response.completion, metadata.completion).Some?
    && u.total == u.prompt + u.completion && u.cached <= u.prompt && u.reasoning <= u.completion
  }

  // ----- the ledger -----

  /** One call; its call id is the session's id with `index`. */
  datatype Entry = Entry(index: nat, runId: string, model: string, usage: Usage, complete: bool)

  datatype Totals = Totals(usage: Usage, calls: nat)

  const ZERO := Totals(Usage(0, 0, 0, 0, 0), 0)

  function Plus(t: Totals, u: Usage): Totals {
    Totals(Usage(t.usage.prompt + u.prompt, t.usage.completion + u.completion, t.usage.total + u.total,
                 t.usage.cached + u.cached, t.usage.reasoning + u.reasoning), t.calls + 1)
  }

  /** `shown` is the call count in the last usage shown, which is all that is saved of the counter. */
  datatype Ledger = Ledger(calls: seq<Entry>, cumulative: map<string, Totals>, count: nat, shown: Option<nat>)

  const EMPTY := Ledger([], map[], 0, None)

  predicate Known(runId: string, calls: seq<Entry>) {
    runId != "" && exists e :: e in calls && e.runId == runId
  }

  function Recorded(l: Ledger, runId: string, model: string, response: Reading, metadata: Reading): Ledger {
    if Known(runId, l.calls) then l else
      var e := Entry(l.count + 1, runId, model, Normalized(response, metadata), Complete(response, metadata));
      var isNew := !exists c :: c in l.calls && c.index == e.index;
      var base := GetOr(l.cumulative, model, ZERO);
      Ledger(if isNew then l.calls + [e] else l.calls,
             l.cumulative[model := if isNew then Plus(base, e.usage) else base],
             l.count + 1, Some(l.count + 1))
  }

  /** A call whose bookkeeping fails after the counter has moved. */
  function Faulted(l: Ledger, runId: string): Ledger {
    if Known(runId, l.calls) then l else l.(count := l.count + 1)
  }

  function MaxIndex(calls: seq<Entry>): nat {
    if calls == [] then 0 else
      var m := MaxIndex(calls[..|calls| - 1]);
      if calls[|calls| - 1].index > m then calls[|calls| - 1].index else m
  }

  /** `to_dict` then `from_dict`: empty parts are not written, and absent parts are read as empty. */
  function Reloaded(l: Ledger): Ledger {
    var shown := OrZero(l.shown);
    l.(count := if shown > MaxIndex(l.calls) then shown else MaxIndex(l.calls))
  }

  class Session {
    var calls: seq<Entry>
    var cumulative: map<string, Totals>
    var count: nat
    var shown: Option<nat>

    ghost function Contents(): Ledger
      reads this
    {
      Ledger(calls, cumulative, count, shown)
    }

    constructor ()
      ensures Contents() == EMPTY
    {
      calls, cumulative, count, shown := [], map[], 0, None;
    }

    /** The bookkeeping of `_extract_and_broadcast_token_usage`. */
    method RecordUsage(runId: string, model: string, response: Reading, metadata: Reading)
      modifies this
      ensures Contents() == Recorded(old(Contents()), runId, model, response, metadata)
    {
      if runId != "" && exists e :: e in calls && e.runId == runId {
        return;
      }
      var usage := Normalized(response, metadata);
      count := count + 1;
      shown := Some(count);
      var entry := Entry(count, runId, model, usage, Complete(response, metadata));
      var isNew := !exists c :: c in calls && c.index == entry.index;
      if isNew {
        calls := calls + [entry];
      }
      if model !in cumulative {
        cumulative := cumulative[model := ZERO];
      }
      if isNew {
        cumulative := cumulative[model := Plus(cumulative[model], usage)];
      }
    }

    /** `from_dict`, on what `to_dict` wrote of another session. */
    constructor Restore(calls: seq<Entry>, cumulative: map<string, Totals>, shown: Option<nat>)
      ensures Contents() == Reloaded(Ledger(calls, cumulative, 0, shown))
    {
      var n := 0;
      for i := 0 to |calls|
        invariant n == MaxIndex(calls[..i])
      {
        assert calls[..i + 1][..i] == calls[..i];
        if calls[i].index > n {
          n := calls[i].index;
        }
      }
      assert calls[..|calls|] == calls;
      this.calls, this.cumulative, this.shown := calls, cumulative, shown;
      this.count := if shown.Some? && shown.value > n then shown.value else n;
    }
  }

  // ----- what every run keeps -----

  function SumBy(calls: seq<Entry>, model: string, field: Entry -> nat): nat {
    if calls == [] then 0 else
      var last := calls[|calls| - 1];
      SumBy(calls[..|calls| - 1], model, field) + if last.model == model then field(last) else 0
  }

  /** Field by field, the sums over the entries of a model, and how many there are. */
  function SumOf(calls: seq<Entry>, model: string): Totals {
    Totals(Usage(SumBy(calls, model, (e: Entry) => e.usage.prompt),
                 SumBy(calls, model, (e: Entry) => e.usage.completion),
                 SumBy(calls, model, (e: Entry) => e.usage.total),
                 SumBy(calls, model, (e: Entry) => e.usage.cached),
                 SumBy(calls, model, (e: Entry) => e.usage.reasoning)),
           SumBy(calls, model, (e: Entry) => 1))
  }

  lemma SumOneMore(calls: seq<Entry>, e: Entry, model: string)
    ensures SumOf(calls + [e], model) == if e.model == model then Plus(SumOf(calls, model), e.usage)
            else SumOf(calls, model)
  {
    assert (calls + [e])[..|calls|] == calls;
  }

  ghost predicate Numbered(l: Ledger) {
    && (forall i, j :: 0 <= i < j < |l.calls| ==> l.calls[i].index < l.calls[j].index)
    && (forall i :: 0 <= i < |l.calls| ==> l.calls[i].index <= l.count)
  }

  ghost predicate OncePerRun(l: Ledger) {
    forall i, j :: 0 <= i < j < |l.calls| && l.calls[i].runId != "" ==> l.calls[i].runId != l.calls[j].runId
  }

  ghost predicate Balanced(l: Ledger) {
    && (forall m :: m in l.cumulative ==> l.cumulative[m] == SumOf(l.calls, m))
    && (forall m :: m !in l.cumulative ==> SumOf(l.calls, m) == ZERO)
    && (forall e :: e in l.calls ==> e.model in l.cumulative)
  }

  ghost predicate Valid(l: Ledger) {
    Numbered(l) && OncePerRun(l) && Balanced(l)
  }

  datatype Event =
    | Call(runId: string, model: string, response: Reading, metadata: Reading)
    | Fault(runId: string)
    | Reload

  function Step(l: Ledger, e: Event): Ledger {
    match e
    case Call(runId, model, response, metadata) => Recorded(l, runId, model, response, metadata)
    case Fault(runId) => Faulted(l, runId)
    case Reload => Reloaded(l)
  }

  function Run(events: seq<Event>): Ledger
    decreases |events|
  {
    if events == [] then EMPTY else Step(Run(events[..|events| - 1]), events[|events| - 1])
  }

  /** The number of a new call is free, so that the call is always entered. */
  lemma NewIndexIsFree(l: Ledger)
    requires Numbered(l)
    ensures forall c :: c in l.calls ==> c.index != l.count + 1
  {
  }

  lemma {:induction false} MaxIndexIsLast(calls: seq<Entry>)
    requires forall i, j :: 0 <= i < j < |calls| ==> calls[i].index < calls[j].index
    ensures MaxIndex(calls) == if calls == [] then 0 else calls[|calls| - 1].index
    decreases |calls|
  {
    if |calls| > 1 {
      MaxIndexIsLast(calls[..|calls| - 1]);
    }
  }

  lemma RecordedBalances(l: Ledger, e: Entry)
    requires Balanced(l)
    ensures Balanced(Ledger(l.calls + [e], l.cumulative[e.model := Plus(GetOr(l.cumulative, e.model, ZERO), e.usage)],
                            l.count, l.shown))
  {
    hide SumOf, Plus;
    forall m
      ensures SumOf(l.calls + [e], m) == if m == e.model then Plus(SumOf(l.calls, m), e.usage) else SumOf(l.calls, m)
    {
      SumOneMore(l.calls, e, m);
    }
  }

  lemma RecordedNumbers(l: Ledger, e: Entry)
    requires Numbered(l) && OncePerRun(l) && e.index == l.count + 1 && !Known(e.runId, l.calls)
    ensures Numbered(l.(calls := l.calls + [e], count := l.count + 1)) && OncePerRun(l.(calls := l.calls + [e]))
  {
    var grown := l.calls + [e];
    assert forall i :: 0 <= i < |l.calls| ==> grown[i] == l.calls[i] && l.calls[i] in l.calls;
  }

  lemma StepKeepsValid(l: Ledger, event: Event)
    requires Valid(l)
    ensures Valid(Step(l, event))
  {
    hide Normalized, Complete, SumOf, Plus;
    match event {
      case Call(runId, model, response, metadata) =>
        if !Known(runId, l.calls) {
          NewIndexIsFree(l);
          var e := Entry(l.count + 1, runId, model, Normalized(response, metadata), Complete(response, metadata));
          RecordedBalances(l, e);
          RecordedNumbers(l, e);
          RecordedIs(l, runId, model, response, metadata, e);
        }
      case Fault(_) =>
      case Reload =>
        MaxIndexIsLast(l.calls);
    }
  }

  lemma RecordedIs(l: Ledger, runId: string, model: string, response: Reading, metadata: Reading, e: Entry)
    requires Numbered(l) && !Known(runId, l.calls)
    requires e == Entry(l.count + 1, runId, model, Normalized(response, metadata), Complete(response, metadata))
    ensures Recorded(l, runId, model, response, metadata)
            == Ledger(l.calls + [e], l.cumulative[model := Plus(GetOr(l.cumulative, model, ZERO), e.usage)],
                      l.count + 1, Some(l.count + 1))
  {
    NewIndexIsFree(l);
  }

  /** After any calls, replays, failures and reloads: every model's sums are the sums over its entries, no run is
      entered twice, and no call id is given twice. */
  lemma {:induction false} RunKeepsValid(events: seq<Event>)
    ensures Valid(Run(events))
    decreases |events|
  {
    hide Valid, Step;
    if events == [] {
      EmptyIsValid();
    } else {
      RunKeepsValid(events[..|events| - 1]);
      StepKeepsValid(Run(events[..|events| - 1]), events[|events| - 1]);
    }
  }

  lemma EmptyIsValid()
    ensures Valid(EMPTY)
  {
  }

  ghost predicate Called(events: seq<Event>, runId: string) {
    exists i :: 0 <= i < |events| && events[i].Call? && events[i].runId == runId
  }

  lemma CalledSnoc(events: seq<Event>, runId: string)
    requires events != []
    ensures var last := events[|events| - 1];
            Called(events, runId) <==> Called(events[..|events| - 1], runId) || (last.Call? && last.runId == runId)
  {
    var front := events[..|events| - 1];
    assert forall i :: 0 <= i < |front| ==> front[i] == events[i];
    if Called(events, runId) && !Called(front, runId) {
      var i :| 0 <= i < |events| && events[i].Call? && events[i].runId == runId;
      assert i == |events| - 1;
    }
  }

  /** A run has an entry exactly when one of its calls was completed; so no completed call is lost. */
  lemma {:induction false} EveryCallIsEntered(events: seq<Event>, runId: string)
    requires runId != ""
    ensures Known(runId, Run(events).calls) <==> Called(events, runId)
    decreases |events|
  {
    hide Normalized, Complete, Plus, Valid, Called;
    if events == [] {
      NothingCalled(runId);
    } else {
      var l := Run(events[..|events| - 1]);
      EveryCallIsEntered(events[..|events| - 1], runId);
      CalledSnoc(events, runId);
      RunKeepsValid(events[..|events| - 1]);
      match events[|events| - 1] {
        case Call(r, model, response, metadata) =>
          if !Known(r, l.calls) {
            var e := Entry(l.count + 1, r, model, Normalized(response, metadata), Complete(response, metadata));
            assert Numbered(l) by { ValidParts(l); }
            RecordedIs(l, r, model, response, metadata, e);
            assert forall x :: x in l.calls + [e] <==> x in l.calls || x == e;
          }
        case _ =>
      }
    }
  }

  lemma ValidParts(l: Ledger)
    requires Valid(l)
    ensures Numbered(l) && OncePerRun(l) && Balanced(l)
  {
  }

  lemma NothingCalled(runId: string)
    ensures !Called([], runId)
  {
  }

  /** Reloading changes nothing but the counter, which still covers every entry. */
  lemma ReloadKeepsEntries(l: Ledger)
    requires Numbered(l)
    ensures Reloaded(l).calls == l.calls && Reloaded(l).cumulative == l.cumulative
    ensures forall c :: c in l.calls ==> c.index <= Reloaded(l).count
    ensures Reloaded(Reloaded(l)) == Reloaded(l)
  {
    MaxIndexIsLast(l.calls);
  }

  /** When every entry of a model is complete, its sums agree with each other as each entry does. */
  lemma {:induction false} CompleteSumsAgree(calls: seq<Entry>, model: string)
    requires forall e :: e in calls && e.model == model ==>
               e.usage.total == e.usage.prompt + e.usage.completion && e.usage.cached <= e.usage.prompt
               && e.usage.reasoning <= e.usage.completion
    ensures var t := SumOf(calls, model).usage;
            t.total == t.prompt + t.completion && t.cached <= t.prompt && t.reasoning <= t.completion
    decreases |calls|
  {
    if calls != [] {
      hide SumOf;
      var front, last := calls[..|calls| - 1], calls[|calls| - 1];
      assert calls == front + [last];
      CompleteSumsAgree(front, model);
      SumOneMore(front, last, model);
    } else {
      assert SumOf(calls, model) == ZERO;
    }
  }

  lemma {:induction false} CompleteMeansConsistent(events: seq<Event>, e: Entry)
    requires e in Run(events).calls && e.complete
    ensures e.usage.total == e.usage.prompt + e.usage.completion && e.usage.cached <= e.usage.prompt
            && e.usage.reasoning <= e.usage.completion
    decreases |events|
  {
    if events != [] {
      var l := Run(events[..|events| - 1]);
      if e in l.calls {
        CompleteMeansConsistent(events[..|events| - 1], e);
      }
    }
  }

  /** In every reachable ledger, the totals of a model with only complete entries add up. */
  lemma CompleteTotalsAddUp(events: seq<Event>, model: string)
    requires model in Run(events).cumulative
    requires forall e :: e in Run(events).calls && e.model == model ==> e.complete
    ensures var t := Run(events).cumulative[model].usage;
            t.total == t.prompt + t.completion && t.cached <= t.prompt && t.reasoning <= t.completion
  {
    hide Run, SumOf;
    RunKeepsValid(events);
    forall e | e in Run(events).calls && e.model == model
      ensures e.usage.total == e.usage.prompt + e.usage.completion && e.usage.cached <= e.usage.prompt
              && e.usage.reasoning <= e.usage.completion
    {
      CompleteMeansConsistent(events, e);
    }
    CompleteSumsAgree(Run(events).calls, model);
  }

  // ----- where the numbers of an entry come from -----

  /** What one field of an entry must be: what the response says; or else what its metadata says; or else this. */
  ghost predicate Given(n: nat, response: Option<nat>, metadata: Option<nat>, otherwise: nat) {
    && (response.Some? ==> n == response.value)
    && (response.None? && metadata.Some? ==> n == metadata.value)
    && (response.None? && metadata.None? ==> n == otherwise)
  }

  /** An entry reads its call: each field from the field of that name, and a missing total is the sum of the entry's
      prompt and completion.  It is complete when both of these were given and the numbers agree. */
  ghost predicate Reads(e: Entry, call: Event)
    requires call.Call?
  {
    var Call(runId, model, r, m) := call;
    && e.runId == runId && e.model == model
    && Given(e.usage.prompt, r.prompt, m.prompt, 0) && Given(e.usage.completion, r.completion, m.completion, 0)
    && Given(e.usage.total, r.total, m.total, e.usage.prompt + e.usage.completion)
    && Given(e.usage.cached, r.cached, m.cached, 0) && Given(e.usage.reasoning, r.reasoning, m.reasoning, 0)
    && (e.complete <==>
          && (r.prompt.Some? || m.prompt.Some?) && (r.completion.Some? || m.completion.Some?)
          && e.usage.total == e.usage.prompt + e.usage.completion
          && e.usage.cached <= e.usage.prompt && e.usage.reasoning <= e.usage.completion)
  }

  lemma NormalizedReads(e: Entry, call: Event)
    requires call.Call? && e.runId == call.runId && e.model == call.model
    requires e.usage == Normalized(call.response, call.metadata) && e.complete == Complete(call.response, call.metadata)
    ensures Reads(e, call)
  {
  }

  /** Every entry of a reachable ledger reads one of the calls that were completed. */
  lemma {:induction false} EntriesReadTheirCalls(events: seq<Event>, e: Entry) returns (i: nat)
    requires e in Run(events).calls
    ensures i < |events| && events[i].Call? && Reads(e, events[i])
    decreases |events|
  {
    hide Reads, Normalized, Complete, Plus;
    var front, last := events[..|events| - 1], events[|events| - 1];
    if e in Run(front).calls {
      i := EntriesReadTheirCalls(front, e);
    } else {
      i := |events| - 1;
      NewEntryIs(Run(front), last, e);
      NormalizedReads(e, last);
    }
  }

  lemma NewEntryIs(l: Ledger, event: Event, e: Entry)
    requires e in Step(l, event).calls && e !in l.calls
    ensures event.Call? && e.runId == event.runId && e.model == event.model
    ensures e.usage == Normalized(event.response, event.metadata)
            && e.complete == Complete(event.response, event.metadata)
  {
    hide Normalized, Complete, Plus;
  }
}
