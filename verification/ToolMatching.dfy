/** Matching parallel tool completions to their starts, in any order. */
module ToolMatching {
  import opened Outcomes

  /** A tool run that has started: what its start recorded. */
  datatype Pending = Pending(runId: string, name: string, callId: string, nodeId: string)

  /** The session's three maps.  The pending calls keep the order they started in. */
  datatype Runs = Runs(byCall: map<string, string>, byNode: map<string, string>, pending: seq<Pending>)

  /** What a completion carries; the ids may be empty. */
  datatype Completion = Completion(callId: string, nodeId: string, name: string)

  const IDLE := Runs(map[], map[], [])

  function Without(m: map<string, string>, v: string): map<string, string> {
    map k | k in m && m[k] != v :: m[k]
  }

  function FirstNamed(pending: seq<Pending>, name: string): Option<Pending> {
    if pending == [] then None
    else if pending[0].name == name then Some(pending[0])
    else FirstNamed(pending[1..], name)
  }

  /** `dict[run_id] = ...`: a run id that is pending already keeps its place. */
  function Record(pending: seq<Pending>, p: Pending): seq<Pending> {
    if pending == [] then [p]
    else if pending[0].runId == p.runId then [p] + pending[1..]
    else [pending[0]] + Record(pending[1..], p)
  }

  function Remove(pending: seq<Pending>, runId: string): seq<Pending> {
    if pending == [] then []
    else if pending[0].runId == runId then pending[1..]
    else [pending[0]] + Remove(pending[1..], runId)
  }

  function Started(r: Runs, p: Pending): Runs {
    Runs(if p.callId != "" then r.byCall[p.callId := p.runId] else r.byCall,
         if p.nodeId != "" then r.byNode[p.nodeId := p.runId] else r.byNode,
         Record(r.pending, p))
  }

  /** The run a completion is taken to be. */
  function Resolved(r: Runs, c: Completion): string {
    if c.callId in r.byCall && r.byCall[c.callId] != "" then r.byCall[c.callId]
    else if c.nodeId in r.byNode && r.byNode[c.nodeId] != "" then r.byNode[c.nodeId]
    else match FirstNamed(r.pending, c.name) case Some(p) => p.runId case None => c.nodeId
  }

  function Completed(r: Runs, c: Completion): Runs {
    var id := Resolved(r, c);
    var byCall := r.byCall - {c.callId};
    var byNode := if c.callId in r.byCall && r.byCall[c.callId] != "" then r.byNode else r.byNode - {c.nodeId};
    Runs(Without(byCall, id), Without(byNode, id), Remove(r.pending, id))
  }

  class ToolRuns {
    var byCall: map<string, string>
    var byNode: map<string, string>
    var pending: seq<Pending>

    ghost function Contents(): Runs
      reads this
    {
      Runs(byCall, byNode, pending)
    }

    constructor ()
      ensures Contents() == IDLE
    {
      byCall, byNode, pending := map[], map[], [];
    }

    /** A tool start, after its model slot is known; `unique` is the run id drawn when the model gave no call id. */
    method Start(modelCallId: string, nodeId: string, name: string, unique: string) returns (runId: string)
      modifies this
      ensures runId == if modelCallId != "" then modelCallId else unique
      ensures Contents() == Started(old(Contents()), Pending(runId, name, modelCallId, nodeId))
    {
      runId := if modelCallId != "" then modelCallId else unique;
      if modelCallId != "" {
        byCall := byCall[modelCallId := runId];
      }
      if nodeId != "" {
        byNode := byNode[nodeId := runId];
      }
      pending := Record(pending, Pending(runId, name, modelCallId, nodeId));
    }

    /** `_resolve_pending_tool_run_id`, and the removal of the run it resolves to. */
    method Complete(c: Completion) returns (runId: string)
      modifies this
      ensures runId == Resolved(old(Contents()), c)
      ensures Contents() == Completed(old(Contents()), c)
    {
      runId := GetOr(byCall, c.callId, "");
      byCall := byCall - {c.callId};
      if runId == "" {
        runId := GetOr(byNode, c.nodeId, "");
        byNode := byNode - {c.nodeId};
      }
      if runId == "" {
        runId := c.nodeId;
        for i := 0 to |pending|
          invariant runId == c.nodeId
          invariant FirstNamed(pending[i..], c.name) == FirstNamed(pending, c.name)
        {
          assert pending[i..][0] == pending[i] && pending[i..][1..] == pending[i + 1..];
          if pending[i].name == c.name {
            runId := pending[i].runId;
            break;
          }
        }
      }
      byCall := PurgeValue(byCall, runId);
      byNode := PurgeValue(byNode, runId);
      pending := Remove(pending, runId);
    }

    static method PurgeValue(m: map<string, string>, v: string) returns (r: map<string, string>)
      ensures r == Without(m, v)
    {
      r := m;
      var rest := m.Keys;
      while rest != {}
        invariant rest <= m.Keys
        invariant forall k :: k in r <==> k in m && (k in rest || m[k] != v)
        invariant forall k :: k in r ==> r[k] == m[k]
      {
        var k :| k in rest;
        rest := rest - {k};
        if m[k] == v {
          r := r - {k};
        }
      }
    }
  }

  // ----- runs of interleaved starts and completions -----

  /** A run that is open may be found by either of its ids; no two open runs share an id. */
  ghost predicate Distinct(open: seq<Pending>) {
    && (forall i :: 0 <= i < |open| ==> open[i].runId != "" && (open[i].callId != "" || open[i].nodeId != ""))
    && (forall i, j :: 0 <= i < j < |open| ==>
          && open[i].runId != open[j].runId
          && (open[i].callId != "" ==> open[i].callId != open[j].callId)
          && (open[i].nodeId != "" ==> open[i].nodeId != open[j].nodeId))
  }

  function WithoutAt<T>(s: seq<T>, i: nat): seq<T>
    requires i < |s|
  {
    s[..i] + s[i + 1..]
  }

  function CallIds(open: seq<Pending>): seq<string> {
    seq(|open|, i requires 0 <= i < |open| => open[i].callId)
  }

  function NodeIds(open: seq<Pending>): seq<string> {
    seq(|open|, i requires 0 <= i < |open| => open[i].nodeId)
  }

  /** A map from the non-empty ids of the open runs to their run ids. */
  ghost predicate Indexes(m: map<string, string>, ids: seq<string>, open: seq<Pending>)
    requires |ids| == |open|
  {
    && (forall i :: 0 <= i < |ids| && ids[i] != "" ==> ids[i] in m && m[ids[i]] == open[i].runId)
    && (forall k :: k in m ==> k != "" && k in ids)
  }

  /** The maps say exactly which runs are open. */
  ghost predicate Tracks(r: Runs, open: seq<Pending>) {
    r.pending == open && Distinct(open) && Indexes(r.byCall, CallIds(open), open)
      && Indexes(r.byNode, NodeIds(open), open)
  }

  /** A completion belongs to an open run when it carries its call id; or no open run's call id, but its node id; or no
      open run's ids at all, but its name, of which it is then the oldest open run. */
  ghost predicate Carries(open: seq<Pending>, i: nat, c: Completion)
    requires i < |open|
  {
    || (c.callId != "" && c.callId == open[i].callId)
    || (Unknown(open, c) && c.nodeId != "" && c.nodeId == open[i].nodeId)
    || (Unknown(open, c) && (forall j :: 0 <= j < |open| ==> open[j].nodeId == "" || open[j].nodeId != c.nodeId)
        && open[i].name == c.name && forall j :: 0 <= j < i ==> open[j].name != c.name)
  }

  ghost predicate Unknown(open: seq<Pending>, c: Completion) {
    forall j :: 0 <= j < |open| ==> open[j].callId == "" || open[j].callId != c.callId
  }

  datatype Event = Start(run: Pending) | End(index: nat, completion: Completion)

  /** The runs that are truly open after some events; an end says which open run it belongs to. */
  function Open(events: seq<Event>): seq<Pending>
    decreases |events|
  {
    if events == [] then [] else
      var before := Open(events[..|events| - 1]);
      match events[|events| - 1]
      case Start(p) => before + [p]
      case End(i, _) => if i < |before| then WithoutAt(before, i) else before
  }

  ghost predicate Fair(events: seq<Event>)
    decreases |events|
  {
    events != [] ==>
      var front := events[..|events| - 1];
      Fair(front) &&
      match events[|events| - 1]
      case Start(p) => Distinct(Open(front) + [p])
      case End(i, c) => i < |Open(front)| && Carries(Open(front), i, c)
  }

  /** The session's maps after the same events. */
  function After(events: seq<Event>): Runs
    decreases |events|
  {
    if events == [] then IDLE else
      var before := After(events[..|events| - 1]);
      match events[|events| - 1]
      case Start(p) => Started(before, p)
      case End(_, c) => Completed(before, c)
  }

  lemma {:induction false} RecordNew(pending: seq<Pending>, p: Pending)
    requires forall i :: 0 <= i < |pending| ==> pending[i].runId != p.runId
    ensures Record(pending, p) == pending + [p]
  {
    if pending != [] {
      RecordNew(pending[1..], p);
    }
  }

  lemma {:induction false} RemoveAt(pending: seq<Pending>, i: nat)
    requires i < |pending| && forall j :: 0 <= j < i ==> pending[j].runId != pending[i].runId
    ensures Remove(pending, pending[i].runId) == WithoutAt(pending, i)
  {
    if i > 0 {
      RemoveAt(pending[1..], i - 1);
      assert pending[1..][i - 1] == pending[i];
      assert pending[..i] == [pending[0]] + pending[1..][..i - 1];
    }
  }

  lemma {:induction false} FirstNamedAt(pending: seq<Pending>, i: nat)
    requires i < |pending| && forall j :: 0 <= j < i ==> pending[j].name != pending[i].name
    ensures FirstNamed(pending, pending[i].name) == Some(pending[i])
  {
    if i > 0 {
      FirstNamedAt(pending[1..], i - 1);
    }
  }

  lemma IndexGrows(m: map<string, string>, ids: seq<string>, open: seq<Pending>, id: string, p: Pending)
    requires |ids| == |open| && Indexes(m, ids, open) && (id != "" ==> id !in ids)
    ensures Indexes(if id != "" then m[id := p.runId] else m, ids + [id], open + [p])
  {
    forall i | 0 <= i < |ids|
      ensures ids[i] != id || id == ""
    {
    }
  }

  lemma FreshIds(open: seq<Pending>, p: Pending)
    requires Distinct(open + [p])
    ensures forall i :: 0 <= i < |open| ==> open[i].runId != p.runId
    ensures p.callId != "" ==> p.callId !in CallIds(open)
    ensures p.nodeId != "" ==> p.nodeId !in NodeIds(open)
  {
    var grown := open + [p];
    assert grown[|open|] == p && forall i :: 0 <= i < |open| ==> grown[i] == open[i];
  }

  lemma StartTracks(r: Runs, open: seq<Pending>, p: Pending)
    requires Tracks(r, open) && Distinct(open + [p])
    ensures Tracks(Started(r, p), open + [p])
  {
    hide Distinct, Indexes;
    FreshIds(open, p);
    RecordNew(open, p);
    assert CallIds(open + [p]) == CallIds(open) + [p.callId] && NodeIds(open + [p]) == NodeIds(open) + [p.nodeId];
    IndexGrows(r.byCall, CallIds(open), open, p.callId, p);
    IndexGrows(r.byNode, NodeIds(open), open, p.nodeId, p);
  }

  lemma CarriedResolves(r: Runs, open: seq<Pending>, i: nat, c: Completion)
    requires Tracks(r, open) && i < |open| && Carries(open, i, c)
    ensures Resolved(r, c) == open[i].runId
  {
    if c.callId != "" && c.callId == open[i].callId {
      assert CallIds(open)[i] == c.callId;
    } else {
      assert c.callId !in r.byCall;
      if c.nodeId != "" && c.nodeId == open[i].nodeId {
        assert NodeIds(open)[i] == c.nodeId;
      } else {
        assert c.nodeId !in r.byNode;
        FirstNamedAt(open, i);
      }
    }
  }

  lemma PurgedEntry(m: map<string, string>, ids: seq<string>, open: seq<Pending>, i: nat, k: string)
    requires |ids| == |open| && i < |open| && Indexes(m, ids, open) && k in m
    requires forall j :: 0 <= j < |open| && j != i ==>
               open[j].runId != open[i].runId && (ids[j] != "" ==> ids[j] != ids[i])
    ensures m[k] == open[i].runId <==> k == ids[i]
    ensures k != ids[i] ==> k in WithoutAt(ids, i)
  {
    var j :| 0 <= j < |ids| && ids[j] == k;
    if j != i {
      assert WithoutAt(ids, i)[if j < i then j else j - 1] == k;
    }
  }

  lemma IndexShrinks(m: map<string, string>, ids: seq<string>, open: seq<Pending>, i: nat)
    requires |ids| == |open| && i < |open| && Indexes(m, ids, open)
    requires forall j :: 0 <= j < |open| && j != i ==>
               open[j].runId != open[i].runId && (ids[j] != "" ==> ids[j] != ids[i])
    ensures Indexes(Without(m, open[i].runId), WithoutAt(ids, i), WithoutAt(open, i))
  {
    var fewer, left := WithoutAt(ids, i), WithoutAt(open, i);
    forall k | k in m
      ensures m[k] == open[i].runId <==> k == ids[i]
      ensures k != ids[i] ==> k in fewer
    {
      PurgedEntry(m, ids, open, i, k);
    }
    forall j | 0 <= j < |fewer|
      ensures fewer[j] == ids[if j < i then j else j + 1] && left[j] == open[if j < i then j else j + 1]
    {
    }
  }

  lemma DistinctIds(open: seq<Pending>, i: nat)
    requires Distinct(open) && i < |open|
    ensures Distinct(WithoutAt(open, i))
    ensures forall j :: 0 <= j < |open| && j != i ==>
              && open[j].runId != open[i].runId
              && (CallIds(open)[j] != "" ==> CallIds(open)[j] != CallIds(open)[i])
              && (NodeIds(open)[j] != "" ==> NodeIds(open)[j] != NodeIds(open)[i])
  {
    var fewer := WithoutAt(open, i);
    forall j | 0 <= j < |fewer|
      ensures fewer[j] == open[if j < i then j else j + 1]
    {
    }
  }

  lemma IdsWithout(open: seq<Pending>, i: nat)
    requires i < |open|
    ensures CallIds(WithoutAt(open, i)) == WithoutAt(CallIds(open), i)
    ensures NodeIds(WithoutAt(open, i)) == WithoutAt(NodeIds(open), i)
    ensures RunIds(WithoutAt(open, i)) == WithoutAt(RunIds(open), i)
  {
  }

  lemma CompletionTracks(r: Runs, open: seq<Pending>, i: nat, c: Completion)
    requires Tracks(r, open) && i < |open| && Carries(open, i, c)
    ensures Tracks(Completed(r, c), WithoutAt(open, i))
  {
    hide Distinct, Indexes, Carries, Resolved, Without, WithoutAt;
    DistinctIds(open, i);
    CarriedResolves(r, open, i, c);
    PopsItsOwn(r, open, i, c);
    RemoveAt(open, i);
    IdsWithout(open, i);
    IndexShrinks(r.byCall, CallIds(open), open, i);
    IndexShrinks(r.byNode, NodeIds(open), open, i);
  }

  lemma PopThenPurge(m: map<string, string>, k: string, v: string)
    requires k in m ==> m[k] == v
    ensures Without(m - {k}, v) == Without(m, v)
  {
  }

  lemma ValuesAreRunIds(m: map<string, string>, ids: seq<string>, open: seq<Pending>, k: string)
    requires |ids| == |open| && Indexes(m, ids, open) && Distinct(open) && k in m
    ensures m[k] != ""
  {
  }

  /** The entries that a completion pops by key are entries that the purge by value removes as well. */
  lemma PopsItsOwn(r: Runs, open: seq<Pending>, i: nat, c: Completion)
    requires Tracks(r, open) && i < |open| && Carries(open, i, c)
    ensures Completed(r, c).byCall == Without(r.byCall, open[i].runId)
    ensures Completed(r, c).byNode == Without(r.byNode, open[i].runId)
  {
    hide Distinct, Indexes, Carries, Without;
    CarriedResolves(r, open, i, c);
    var id := open[i].runId;
    if c.callId in r.byCall {
      ValuesAreRunIds(r.byCall, CallIds(open), open, c.callId);
    } else if c.nodeId in r.byNode {
      ValuesAreRunIds(r.byNode, NodeIds(open), open, c.nodeId);
    }
    PopThenPurge(r.byCall, c.callId, id);
    if !(c.callId in r.byCall) {
      PopThenPurge(r.byNode, c.nodeId, id);
    }
  }

  /** Through any interleaving, the maps track the open runs, and are empty once every run has completed. */
  lemma {:induction false} MapsTrackOpenRuns(events: seq<Event>)
    requires Fair(events)
    ensures Tracks(After(events), Open(events))
    ensures Open(events) == [] ==> After(events) == IDLE
    decreases |events|
  {
    hide Tracks, Started, Completed, Distinct, Carries;
    if events == [] {
      IdleTracks();
    } else {
      var front := events[..|events| - 1];
      MapsTrackOpenRuns(front);
      match events[|events| - 1] {
        case Start(p) => StartTracks(After(front), Open(front), p);
        case End(i, c) => CompletionTracks(After(front), Open(front), i, c);
      }
    }
    if Open(events) == [] {
      NothingOpen(After(events));
    }
  }

  lemma IdleTracks()
    ensures Tracks(IDLE, [])
  {
  }

  lemma NothingOpen(r: Runs)
    requires Tracks(r, [])
    ensures r == IDLE
  {
  }

  function Truth(events: seq<Event>): seq<string>
    decreases |events|
  {
    if events == [] then [] else
      var front := events[..|events| - 1];
      match events[|events| - 1]
      case Start(_) => Truth(front)
      case End(i, _) => Truth(front) + (if i < |Open(front)| then [Open(front)[i].runId] else [])
  }

  function Resolutions(events: seq<Event>): seq<string>
    decreases |events|
  {
    if events == [] then [] else
      var front := events[..|events| - 1];
      match events[|events| - 1]
      case Start(_) => Resolutions(front)
      case End(_, c) => Resolutions(front) + [Resolved(After(front), c)]
  }

  /** Every completion resolves to the run id given at its own start, whatever the order of starts and completions. */
  lemma {:induction false} CompletionsResolveToTheirStarts(events: seq<Event>)
    requires Fair(events)
    ensures Resolutions(events) == Truth(events)
    decreases |events|
  {
    hide Tracks, Started, Completed, Distinct, Carries, Resolved;
    if events != [] {
      var front := events[..|events| - 1];
      CompletionsResolveToTheirStarts(front);
      MapsTrackOpenRuns(front);
      match events[|events| - 1] {
        case Start(_) =>
        case End(i, c) => CarriedResolves(After(front), Open(front), i, c);
      }
    }
  }

  function RunIds(open: seq<Pending>): seq<string> {
    seq(|open|, i requires 0 <= i < |open| => open[i].runId)
  }

  function StartIds(events: seq<Event>): seq<string>
    decreases |events|
  {
    if events == [] then [] else
      match events[|events| - 1]
      case Start(p) => StartIds(events[..|events| - 1]) + [p.runId]
      case End(_, _) => StartIds(events[..|events| - 1])
  }

  lemma MultisetWithout(ids: seq<string>, i: nat)
    requires i < |ids|
    ensures multiset(ids) == multiset(WithoutAt(ids, i)) + multiset{ids[i]}
  {
    assert ids == ids[..i] + [ids[i]] + ids[i + 1..];
  }

  lemma MultisetWith(ids: seq<string>, id: string)
    ensures multiset(ids + [id]) == multiset(ids) + multiset{id}
  {
  }

  /** No run is lost and none is resolved twice: the run ids started are those resolved and those still open. */
  lemma {:induction false} RunIdsConserved(events: seq<Event>)
    requires Fair(events)
    ensures multiset(StartIds(events)) == multiset(Resolutions(events)) + multiset(RunIds(Open(events)))
    decreases |events|
  {
    hide Distinct, Carries, Resolutions, WithoutAt;
    CompletionsResolveToTheirStarts(events);
    if events != [] {
      var front := events[..|events| - 1];
      RunIdsConserved(front);
      CompletionsResolveToTheirStarts(front);
      match events[|events| - 1] {
        case Start(p) =>
          assert RunIds(Open(events)) == RunIds(Open(front)) + [p.runId];
          MultisetWith(RunIds(Open(front)), p.runId);
          MultisetWith(StartIds(front), p.runId);
        case End(i, c) =>
          MultisetWithout(RunIds(Open(front)), i);
          IdsWithout(Open(front), i);
          MultisetWith(Truth(front), Open(front)[i].runId);
      }
    }
  }
}
