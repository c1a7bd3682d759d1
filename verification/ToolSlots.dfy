/** Matching tool starts to the model's tool calls: every start claims a slot of its own. */
module ToolSlots {
  import opened Outcomes

  /** One tool call of the model's response; `args` in canonical form. */
  datatype Slot = Slot(index: int, id: string, name: string, args: string)

  /** What a start carries: an explicit call id (or ""), an explicit index, the tool's name and its canonical input. */
  datatype Begin = Begin(callId: string, index: Option<int>, name: string, args: string)

  function Unclaimed(slots: seq<Slot>, claimed: set<int>): (r: seq<Slot>)
    ensures forall s :: s in r <==> s in slots && s.index !in claimed
  {
    if slots == [] then [] else
      var front, last := slots[..|slots| - 1], slots[|slots| - 1];
      assert slots == front + [last];
      Unclaimed(front, claimed) + (if last.index in claimed then [] else [last])
  }

  datatype Wish =
    | ById(id: string)
    | ByIndex(index: int)
    | ByCall(name: string, args: string)
    | ByName(name: string)
    | Any

  predicate Meets(s: Slot, w: Wish) {
    match w
    case ById(id) => s.id == id
    case ByIndex(index) => s.index == index
    case ByCall(name, args) => s.name == name && s.args == args
    case ByName(name) => s.name == name
    case Any => true
  }

  function First(slots: seq<Slot>, w: Wish): (r: Option<Slot>)
    ensures r.Some? ==> r.value in slots && Meets(r.value, w)
    ensures r.None? ==> forall s :: s in slots ==> !Meets(s, w)
  {
    if slots == [] then None else if Meets(slots[0], w) then Some(slots[0]) else First(slots[1..], w)
  }

  function Or<T>(a: Option<T>, b: Option<T>): Option<T> {
    if a.Some? then a else b
  }

  /** The preferences in order: by call id, by index, by name and input, by name, any. */
  function Choose(slots: seq<Slot>, e: Begin): Option<Slot> {
    Or(if e.callId != "" then First(slots, ById(e.callId)) else None,
    Or(if e.index.Some? then First(slots, ByIndex(e.index.value)) else None,
    Or(First(slots, ByCall(e.name, e.args)),
    Or(First(slots, ByName(e.name)),
       First(slots, Any)))))
  }

  /** The slot a start claims; a made-up one when all are taken. */
  function Claim(slots: seq<Slot>, claimed: set<int>, e: Begin): Slot {
    match Choose(Unclaimed(slots, claimed), e)
    case Some(s) => s
    case None => Slot(|claimed|, "", e.name, e.args)
  }

  class SlotClaims {
    var slots: seq<Slot>
    var claimed: set<int>

    constructor (slots: seq<Slot>)
      ensures this.slots == slots && claimed == {}
    {
      this.slots, claimed := slots, {};
    }

    method Candidates() returns (candidates: seq<Slot>)
      ensures candidates == Unclaimed(slots, claimed)
    {
      candidates := [];
      for i := 0 to |slots|
        invariant candidates == Unclaimed(slots[..i], claimed)
      {
        assert slots[..i + 1][..i] == slots[..i];
        if slots[i].index !in claimed {
          candidates := candidates + [slots[i]];
        }
      }
      assert slots[..|slots|] == slots;
    }

    /** `_resolve_tool_start_slot`. */
    method Resolve(e: Begin) returns (s: Slot)
      modifies this`claimed
      ensures s == Claim(slots, old(claimed), e)
      ensures claimed == old(claimed) + {s.index}
    {
      hide First, Unclaimed;
      var candidates := Candidates();
      var matched: Option<Slot> := None;
      if e.callId != "" {
        matched := First(candidates, ById(e.callId));
      }
      if matched.None? && e.index.Some? {
        matched := First(candidates, ByIndex(e.index.value));
      }
      if matched.None? {
        matched := Or(First(candidates, ByCall(e.name, e.args)),
                   Or(First(candidates, ByName(e.name)), First(candidates, Any)));
      }
      s := if matched.Some? then matched.value else Slot(|claimed|, "", e.name, e.args);
      claimed := claimed + {s.index};
    }
  }

  // ----- a whole round of starts -----

  function Claims(slots: seq<Slot>, events: seq<Begin>): seq<Slot>
    decreases |events|
  {
    if events == [] then [] else
      var before := Claims(slots, events[..|events| - 1]);
      before + [Claim(slots, Indices(before), events[|events| - 1])]
  }

  function Indices(slots: seq<Slot>): set<int> {
    set s | s in slots :: s.index
  }

  ghost predicate Distinct(slots: seq<Slot>) {
    forall i, j :: 0 <= i < j < |slots| ==> slots[i].index != slots[j].index
  }

  lemma {:induction false} IndexCount(slots: seq<Slot>)
    requires Distinct(slots)
    ensures |Indices(slots)| == |slots|
  {
    if slots != [] {
      var front, last := slots[..|slots| - 1], slots[|slots| - 1];
      IndexCount(front);
      assert slots == front + [last];
      assert Indices(slots) == Indices(front) + {last.index};
    }
  }

  lemma SomeUnclaimed(slots: seq<Slot>, claimed: set<int>)
    requires Distinct(slots) && |claimed| < |slots|
    ensures exists s :: s in slots && s.index !in claimed
  {
    IndexCount(slots);
    if Indices(slots) <= claimed {
      Subset(Indices(slots), claimed);
      assert false;
    }
    var n :| n in Indices(slots) && n !in claimed;
  }

  lemma {:induction false} Subset<T>(a: set<T>, b: set<T>)
    requires a <= b
    ensures |a| <= |b|
    ensures |a| == |b| ==> a == b
  {
    if |a| > 0 {
      var x :| x in a;
      Subset(a - {x}, b - {x});
    }
  }

  lemma ChooseFinds(slots: seq<Slot>, e: Begin)
    ensures Choose(slots, e).Some? <==> slots != []
    ensures Choose(slots, e).Some? ==> Choose(slots, e).value in slots
  {
  }

  /** While there are as many slots as starts, every start claims a slot of the model's, and no slot is claimed
      twice. */
  lemma {:induction false} ClaimsAreDistinct(slots: seq<Slot>, events: seq<Begin>)
    requires Distinct(slots) && |events| <= |slots|
    ensures |Claims(slots, events)| == |events| && Distinct(Claims(slots, events))
    ensures forall s :: s in Claims(slots, events) ==> s in slots
    decreases |events|
  {
    if events != [] {
      var front, e := events[..|events| - 1], events[|events| - 1];
      ClaimsAreDistinct(slots, front);
      var before := Claims(slots, front);
      IndexCount(before);
      SomeUnclaimed(slots, Indices(before));
      ChooseFinds(Unclaimed(slots, Indices(before)), e);
    }
  }

  /** When there are as many starts as slots, every slot is claimed, exactly once. */
  lemma EverySlotIsClaimed(slots: seq<Slot>, events: seq<Begin>)
    requires Distinct(slots) && |events| == |slots|
    ensures forall s :: s in slots ==> s in Claims(slots, events)
    ensures Distinct(Claims(slots, events))
  {
    var claims := Claims(slots, events);
    ClaimsAreDistinct(slots, events);
    IndexCount(slots);
    IndexCount(claims);
    Subset(Indices(claims), Indices(slots));
    forall s | s in slots
      ensures s in claims
    {
      assert s.index in Indices(claims);
      var c :| c in claims && c.index == s.index;
    }
  }

  /** A start points at one slot: by its call id; or else by its index; or else by a name and input no other slot
      has. */
  ghost predicate PointsAt(slots: seq<Slot>, e: Begin, s: Slot) {
    s in slots &&
    (if e.callId != "" && (exists t :: t in slots && t.id == e.callId)
     then forall t :: t in slots ==> (t.id == e.callId <==> t == s)
     else if e.index.Some? && (exists t :: t in slots && t.index == e.index.value)
     then s.index == e.index.value
     else forall t :: t in slots ==> (t.name == e.name && t.args == e.args <==> t == s))
  }

  lemma PointedChosen(slots: seq<Slot>, claimed: set<int>, e: Begin, s: Slot)
    requires Distinct(slots) && PointsAt(slots, e, s) && s.index !in claimed
    ensures Claim(slots, claimed, e) == s
  {
    var open := Unclaimed(slots, claimed);
    assert s in open;
    assert forall t :: t in slots && t.index == s.index ==> t == s;
    assert (exists t :: t in slots && t.id == e.callId) || First(open, ById(e.callId)).None?;
  }

  lemma LastIsNew(own: seq<Slot>)
    requires Distinct(own) && own != []
    ensures Distinct(own[..|own| - 1]) && own[|own| - 1].index !in Indices(own[..|own| - 1])
  {
  }

  ghost predicate EachPoints(slots: seq<Slot>, events: seq<Begin>, own: seq<Slot>) {
    |own| == |events| && forall i :: 0 <= i < |events| ==> PointsAt(slots, events[i], own[i])
  }

  lemma EachPointsFront(slots: seq<Slot>, events: seq<Begin>, own: seq<Slot>)
    requires EachPoints(slots, events, own) && events != []
    ensures EachPoints(slots, events[..|events| - 1], own[..|own| - 1])
    ensures PointsAt(slots, events[|events| - 1], own[|own| - 1])
  {
    hide PointsAt;
  }

  /** Starts that each point at a slot of their own claim that slot, in whatever order they arrive. */
  lemma {:induction false} StartsFindTheirSlots(slots: seq<Slot>, events: seq<Begin>, own: seq<Slot>)
    requires Distinct(slots) && Distinct(own) && EachPoints(slots, events, own)
    ensures Claims(slots, events) == own
    decreases |events|
  {
    if events != [] {
      hide PointsAt, Claim, Distinct, Indices;
      var n := |events| - 1;
      EachPointsFront(slots, events, own);
      LastIsNew(own);
      StartsFindTheirSlots(slots, events[..n], own[..n]);
      PointedChosen(slots, Indices(own[..n]), events[n], own[n]);
      assert own == own[..n] + [own[n]];
    }
  }

  // ----- which slot a start claims -----

  /** How well a slot fits a start, the smaller the better. */
  function Rank(e: Begin, s: Slot): nat {
    if e.callId != "" && s.id == e.callId then 0
    else if e.index == Some(s.index) then 1
    else if s.name == e.name && s.args == e.args then 2
    else if s.name == e.name then 3
    else 4
  }

  /** The slot at `i` fits best, and is the first that fits as well. */
  ghost predicate BestAt(free: seq<Slot>, e: Begin, i: nat)
    requires i < |free|
  {
    forall j :: 0 <= j < |free| ==>
      Rank(e, free[i]) < Rank(e, free[j]) || (Rank(e, free[i]) == Rank(e, free[j]) && i <= j)
  }

  lemma {:induction false} FirstAt(slots: seq<Slot>, w: Wish) returns (i: nat)
    requires First(slots, w).Some?
    ensures i < |slots| && First(slots, w) == Some(slots[i]) && Meets(slots[i], w)
    ensures forall j :: 0 <= j < i ==> !Meets(slots[j], w)
  {
    if Meets(slots[0], w) {
      i := 0;
    } else {
      i := FirstAt(slots[1..], w);
      assert forall j :: 1 <= j < i + 1 ==> slots[j] == slots[1..][j - 1];
      i := i + 1;
    }
  }

  /** The wish of a rank. */
  function WishOf(e: Begin, rank: nat): Wish {
    if rank == 0 then ById(e.callId)
    else if rank == 1 && e.index.Some? then ByIndex(e.index.value)
    else if rank == 2 then ByCall(e.name, e.args)
    else if rank == 3 then ByName(e.name)
    else Any
  }

  lemma ChosenByRank(free: seq<Slot>, e: Begin) returns (rank: nat)
    requires free != []
    ensures Choose(free, e).Some? && Choose(free, e) == First(free, WishOf(e, rank)) && rank <= 4
    ensures rank == 0 ==> e.callId != ""
    ensures rank == 1 ==> e.index.Some?
    ensures forall s :: s in free ==> Rank(e, s) >= rank
  {
    ChooseFinds(free, e);
    hide First;
    rank := if e.callId != "" && First(free, ById(e.callId)).Some? then 0
            else if e.index.Some? && First(free, ByIndex(e.index.value)).Some? then 1
            else if First(free, ByCall(e.name, e.args)).Some? then 2
            else if First(free, ByName(e.name)).Some? then 3
            else 4;
    assert free[0] in free;
  }

  /** A start claims the free slot that fits it best, and the first of those; so one whose name matches a free slot
      takes one of another name only when its id or its index points there. */
  lemma BestSlotIsClaimed(slots: seq<Slot>, claimed: set<int>, e: Begin) returns (i: nat)
    requires Unclaimed(slots, claimed) != []
    ensures i < |Unclaimed(slots, claimed)| && Claim(slots, claimed, e) == Unclaimed(slots, claimed)[i]
    ensures BestAt(Unclaimed(slots, claimed), e, i)
    ensures (exists s :: s in slots && s.index !in claimed && s.name == e.name) ==>
              var c := Claim(slots, claimed, e);
              c.name == e.name || (e.callId != "" && c.id == e.callId) || e.index == Some(c.index)
  {
    hide Unclaimed, First, Choose;
    var free := Unclaimed(slots, claimed);
    var rank := ChosenByRank(free, e);
    i := FirstAt(free, WishOf(e, rank));
    assert free[i] in free;
    forall j | 0 <= j < |free|
      ensures Rank(e, free[i]) < Rank(e, free[j]) || (Rank(e, free[i]) == Rank(e, free[j]) && i <= j)
    {
      assert free[j] in free;
    }
    if exists s :: s in slots && s.index !in claimed && s.name == e.name {
      var s :| s in slots && s.index !in claimed && s.name == e.name;
      var j :| 0 <= j < |free| && free[j] == s;
      assert Rank(e, free[i]) <= Rank(e, free[j]) <= 3;
    }
  }
}
