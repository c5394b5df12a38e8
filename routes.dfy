/**
 * The request handlers of server/src/routes.ts with the HTTP plumbing taken away: the
 * registry `DRAFTS` (a draft's ID is its position), the order of the checks each handler
 * makes, and the status it ends with. Request fields arrive as `Param` values, the
 * shapes a parsed query or JSON body can take.
 */
module Routes {
  import opened DraftModel
  import opened DraftEngine

  /** A request field: a string, a number, an array of fields, or anything else (objects, booleans, absent). */
  datatype Param = Str(s: string) | Num(n: int) | Arr(elems: seq<Param>) | Other

  /** Why a request was refused with 400 Bad Request, one reason per message of the code. */
  datatype Why =
    | RoundsNotNumber | ItemsNotArray | DraftersNotArray | NotStrings
    | RoundsTooLarge | NoDraftersGiven | NoItemsGiven
    | DrafterMissing | ItemMissing | IdMissingOrNaN | ItemNotInDraft

  /** How a handler ends. `NoStatus`: it returns without setting a status or sending anything. */
  datatype Status = Ok | BadRequest(why: Why) | Forbidden | NotFound | Conflict | NoStatus

  /** A lookup that either finds a value or ends the request with a status. */
  datatype Lookup<T> = Found(value: T) | Fail(status: Status)

  /** What `getDraft` sends back. */
  datatype Report = Report(draftedItems: seq<DraftItem>, undraftedItems: seq<string>, turn: string, over: bool)

  /**
   * `first`: a string is itself, an array stands for its element 0 (express gathers a
   * repeated query field into an array), and everything else, the empty array included,
   * is undefined.
   */
  function First(p: Param): (r: Option<string>)
    ensures p.Str? ==> r == Some(p.s)
    ensures p.Num? || p.Other? || p == Arr([]) ==> r == None
    ensures r.Some? ==> !p.Num? && !p.Other?
  {
    match p
    case Str(s) => Some(s)
    case Arr(elems) => if elems == [] then None else First(elems[0])
    case _ => None
  }

  /** `v` wrapped `k` times as the head of an array, each time followed by `rest`. */
  function Nest(v: Param, rest: seq<Param>, k: nat): Param {
    if k == 0 then v else Arr([Nest(v, rest, k - 1)] + rest)
  }

  /** However deep a value sits as the head of nested arrays, and whatever follows it, `first` finds exactly it. */
  lemma {:induction false} FirstOfNested(v: Param, rest: seq<Param>, k: nat)
    ensures First(Nest(v, rest, k)) == First(v)
  {
    if k > 0 {
      FirstOfNested(v, rest, k - 1);
      assert Nest(v, rest, k).elems[0] == Nest(v, rest, k - 1);
    }
  }

  /** A repeated query field: the first of its strings wins. */
  lemma FirstOfRepeatedField(vals: seq<string>)
    requires |vals| > 0
    ensures First(Arr(seq(|vals|, i requires 0 <= i < |vals| => Str(vals[i])))) == Some(vals[0])
  {
    var ps := seq(|vals|, i requires 0 <= i < |vals| => Str(vals[i]));
    assert ps[0] == Str(vals[0]);
  }

  /**
   * The decision of `findDraft` once the ID is parsed (`None`: missing or not a number).
   * The bound check lets ID == |DRAFTS| through, and the lookup then holds nothing, so
   * that ID ends with no status at all.
   */
  function ResolveId(id: Option<int>, count: nat): (r: Lookup<nat>)
    ensures id.None? ==> r == Fail(BadRequest(IdMissingOrNaN))
    ensures id.Some? && (id.value < 0 || id.value > count) ==> r == Fail(NotFound)
    ensures id == Some(count) ==> r == Fail(NoStatus)
    ensures r.Found? <==> id.Some? && 0 <= id.value < count
    ensures r.Found? ==> r.value == id.value && r.value < count
    ensures r.Fail? ==> r.status != Ok
  {
    if id.None? then Fail(BadRequest(IdMissingOrNaN))
    else if id.value < 0 || id.value > count then Fail(NotFound)
    else if id.value == count then Fail(NoStatus)
    else Found(id.value)
  }

  /** Every element is a string. */
  predicate AllStrings(ps: seq<Param>) {
    forall i :: 0 <= i < |ps| ==> ps[i].Str?
  }

  /** The strings among `ps`, in order: what the `forEach` + `push` loop collects. */
  function Strings(ps: seq<Param>): seq<string>
    decreases |ps|
  {
    if ps == [] then []
    else Strings(ps[..|ps| - 1]) + (if ps[|ps| - 1].Str? then [ps[|ps| - 1].s] else [])
  }

  /** When every element is a string, nothing is dropped and the order is kept. */
  lemma {:induction false} StringsOfAllStrings(ps: seq<Param>)
    requires AllStrings(ps)
    ensures |Strings(ps)| == |ps|
    ensures forall i :: 0 <= i < |ps| ==> Strings(ps)[i] == ps[i].s
    decreases |ps|
  {
    if ps != [] {
      var init := ps[..|ps| - 1];
      assert AllStrings(init) by {
        forall i | 0 <= i < |init| ensures init[i].Str? {
          assert init[i] == ps[i];
        }
      }
      StringsOfAllStrings(init);
    }
  }

  /** The loop of `createDraft` over a received array: keep the strings, flag anything else. */
  method CollectStrings(received: seq<Param>) returns (strings: seq<string>, bad: bool)
    ensures strings == Strings(received)
    ensures bad <==> !AllStrings(received)
  {
    strings, bad := [], false;
    var i := 0;
    while i < |received|
      invariant 0 <= i <= |received|
      invariant strings == Strings(received[..i])
      invariant bad <==> !AllStrings(received[..i])
    {
      var val := received[i];
      assert received[..i + 1][..i] == received[..i];
      if !val.Str? {
        bad := true;
      } else {
        strings := strings + [val.s];
      }
      assert AllStrings(received[..i + 1]) <==> AllStrings(received[..i]) && val.Str? by {
        assert received[..i + 1][i] == val;
        forall j | 0 <= j < i ensures received[..i + 1][j] == received[..i][j] {
        }
      }
      i := i + 1;
    }
    assert received[..i] == received;
  }

  /** The size checks of `createDraft`, in its order (which differs from `makeDraft`'s). */
  function CheckCreateArgs(n: nat, m: nat, rounds: int): (s: Status)
    ensures s == BadRequest(RoundsTooLarge) <==> rounds * n > m
    ensures s == BadRequest(NoDraftersGiven) <==> rounds * n <= m && n == 0
    ensures s == BadRequest(NoItemsGiven) <==> rounds * n <= m && n != 0 && m == 0
    ensures s == Ok <==> rounds * n <= m && n != 0 && m != 0
  {
    if rounds * n > m then BadRequest(RoundsTooLarge)
    else if n == 0 then BadRequest(NoDraftersGiven)
    else if m == 0 then BadRequest(NoItemsGiven)
    else Ok
  }

  /** The handler accepts exactly the sizes `makeDraft` accepts, so the `makeDraft` call after the checks never throws. */
  lemma CreateAcceptsWhatMakeDraftAccepts(n: nat, m: nat, rounds: int)
    ensures CheckCreateArgs(n, m, rounds) == Ok <==> CheckDraftArgs(n, m, rounds) == None
    ensures n == 0 && m == 0 ==> CheckCreateArgs(n, m, rounds) == BadRequest(NoDraftersGiven) && CheckDraftArgs(n, m, rounds) == Some(NoOptions)
    ensures !(n == 0 && m == 0) ==>
      && (CheckCreateArgs(n, m, rounds) == BadRequest(RoundsTooLarge) <==> CheckDraftArgs(n, m, rounds) == Some(TooManyRounds))
      && (CheckCreateArgs(n, m, rounds) == BadRequest(NoDraftersGiven) <==> CheckDraftArgs(n, m, rounds) == Some(NoDrafters))
      && (CheckCreateArgs(n, m, rounds) == BadRequest(NoItemsGiven) <==> CheckDraftArgs(n, m, rounds) == Some(NoOptions))
  {
  }

  /** Every check of `createDraft`, in order; `Ok` means a draft is created. */
  function CreateVerdict(rounds: Param, items: Param, drafters: Param): (s: Status)
    ensures !rounds.Num? ==> s == BadRequest(RoundsNotNumber)
    ensures rounds.Num? && !items.Arr? ==> s == BadRequest(ItemsNotArray)
    ensures rounds.Num? && items.Arr? && !drafters.Arr? ==> s == BadRequest(DraftersNotArray)
    ensures rounds.Num? && items.Arr? && drafters.Arr? ==>
      s == if !AllStrings(items.elems) || !AllStrings(drafters.elems) then BadRequest(NotStrings)
           else CheckCreateArgs(|drafters.elems|, |items.elems|, rounds.n)
    ensures s == Ok <==>
      && rounds.Num? && items.Arr? && drafters.Arr?
      && AllStrings(items.elems) && AllStrings(drafters.elems)
      && CheckDraftArgs(|drafters.elems|, |items.elems|, rounds.n) == None
  {
    if !rounds.Num? then BadRequest(RoundsNotNumber)
    else if !items.Arr? then BadRequest(ItemsNotArray)
    else if !drafters.Arr? then BadRequest(DraftersNotArray)
    else if !AllStrings(items.elems) || !AllStrings(drafters.elems) then BadRequest(NotStrings)
    else
      CreateAcceptsWhatMakeDraftAccepts(|drafters.elems|, |items.elems|, rounds.n);
      CheckCreateArgs(|drafters.elems|, |items.elems|, rounds.n)
  }

  /**
   * Every check of `pickItem`, in order, given the first values of the drafter and item
   * fields and the outcome of the lookup. `Ok` holds exactly when the engine's pick
   * precondition holds.
   */
  function PickVerdict(drafter: Option<string>, item: Option<string>, target: Lookup<State>): (s: Status)
    requires target.Found? ==> |target.value.drafters| > 0
    requires target.Fail? ==> target.status != Ok
    ensures drafter.None? ==> s == BadRequest(DrafterMissing)
    ensures drafter.Some? && item.None? ==> s == BadRequest(ItemMissing)
    ensures drafter.Some? && item.Some? && target.Fail? ==> s == target.status
    ensures drafter.Some? && item.Some? && target.Found? && Turn(target.value) != drafter.value ==> s == Forbidden
    ensures drafter.Some? && item.Some? && target.Found? && Turn(target.value) == drafter.value && IsOver(target.value) ==>
              s == Conflict
    ensures drafter.Some? && item.Some? && target.Found? && Turn(target.value) == drafter.value && !IsOver(target.value) &&
            item.value !in target.value.options ==>
              s == BadRequest(ItemNotInDraft)
    ensures s == Ok <==>
      && drafter.Some? && item.Some? && target.Found?
      && Turn(target.value) == drafter.value && !IsOver(target.value) && item.value in target.value.options
  {
    if drafter.None? then BadRequest(DrafterMissing)
    else if item.None? then BadRequest(ItemMissing)
    else if target.Fail? then target.status
    else if Turn(target.value) != drafter.value then Forbidden
    else if IsOver(target.value) then Conflict
    else if item.value !in target.value.options then BadRequest(ItemNotInDraft)
    else Ok
  }

  /**
   * The turn check comes first, so a finished draft answers 409 only to its first drafter
   * (whose turn it is again) and 403 to everybody else.
   */
  lemma FinishedDraftAnswers(st: State, original: seq<string>, drafter: string, item: string)
    requires DraftModel.Valid(st, original) && IsOver(st)
    ensures PickVerdict(Some(drafter), Some(item), Found(st)) == if drafter == st.drafters[0] then Conflict else Forbidden
  {
    FinishedTurnIsFirst(st, original);
  }

  /** The registry `DRAFTS`: a draft's ID is its position. */
  class Registry {
    var drafts: seq<Draft>

    ghost predicate Valid()
      reads this, set i | 0 <= i < |drafts| :: drafts[i]
    {
      forall i :: 0 <= i < |drafts| ==> drafts[i].Valid()
    }

    constructor ()
      ensures Valid() && drafts == []
    {
      drafts := [];
    }

    /** `findDraft`: the draft an ID names, or the status the request ends with. */
    function FindDraft(id: Option<int>): (r: Lookup<Draft>)
      reads this
      ensures r.Found? <==> ResolveId(id, |drafts|).Found?
      ensures r.Found? ==> r.value == drafts[ResolveId(id, |drafts|).value]
      ensures r.Fail? ==> r.status == ResolveId(id, |drafts|).status
    {
      match ResolveId(id, |drafts|)
      case Found(k) => Found(drafts[k])
      case Fail(s) => Fail(s)
    }

    /** The state of the draft an ID names, or the status of a failed lookup. */
    function Target(id: Option<int>): (r: Lookup<State>)
      reads this, set i | 0 <= i < |drafts| :: drafts[i]
      requires Valid()
      ensures r.Found? ==> |r.value.drafters| > 0
      ensures r.Fail? <==> ResolveId(id, |drafts|).Fail?
      ensures r.Fail? ==> r.status == ResolveId(id, |drafts|).status
    {
      match ResolveId(id, |drafts|)
      case Found(k) => Found(drafts[k].Snapshot())
      case Fail(s) => Fail(s)
    }

    /**
     * `createDraft`: the checks of `CreateVerdict`, then a new draft gets the next ID and is
     * appended; a refusal changes nothing.
     */
    method CreateDraft(rounds: Param, items: Param, drafters: Param) returns (status: Status, id: int)
      requires Valid()
      modifies this
      ensures Valid()
      ensures status == CreateVerdict(rounds, items, drafters)
      ensures status != Ok ==> drafts == old(drafts)
      ensures status == Ok ==>
        && id == old(|drafts|) && |drafts| == id + 1 && drafts[..id] == old(drafts)
        && fresh(drafts[id])
        && drafts[id].Snapshot() == Initial(Strings(drafters.elems), Strings(items.elems), rounds.n)
      ensures forall i :: 0 <= i < old(|drafts|) ==> drafts[i].Snapshot() == old(drafts[i].Snapshot())
    {
      id := -1;
      if !rounds.Num? {
        return BadRequest(RoundsNotNumber), id;
      } else if !items.Arr? {
        return BadRequest(ItemsNotArray), id;
      } else if !drafters.Arr? {
        return BadRequest(DraftersNotArray), id;
      }
      var itemStrings, badItem := CollectStrings(items.elems);
      var drafterStrings, badDrafter := CollectStrings(drafters.elems);
      if badItem || badDrafter {
        return BadRequest(NotStrings), id;
      }
      assert |drafterStrings| == |drafters.elems| && |itemStrings| == |items.elems| by {
        StringsOfAllStrings(items.elems);
        StringsOfAllStrings(drafters.elems);
      }
      var n, m := |drafterStrings|, |itemStrings|;
      if rounds.n * n > m {
        return BadRequest(RoundsTooLarge), id;
      } else if n == 0 {
        return BadRequest(NoDraftersGiven), id;
      } else if m == 0 {
        return BadRequest(NoItemsGiven), id;
      }
      var made := MakeDraft(drafterStrings, itemStrings, rounds.n);
      match made {
        case Made(newDraft) =>
          id := |drafts|;
          drafts := drafts + [newDraft];
          status := Ok;
        case Refused(_) =>
          assert false;
      }
    }

    /**
     * `pickItem`: the checks of `PickVerdict` on the state before the request; on `Ok` the
     * addressed draft makes exactly one pick and no other draft changes, and on any other
     * status nothing changes.
     */
    method PickItem(drafterParam: Param, itemParam: Param, id: Option<int>) returns (status: Status)
      requires Valid()
      modifies set i | 0 <= i < |drafts| :: drafts[i]
      ensures Valid() && drafts == old(drafts)
      ensures status == PickVerdict(First(drafterParam), First(itemParam), old(Target(id)))
      ensures status != Ok ==> forall i :: 0 <= i < |drafts| ==> drafts[i].Snapshot() == old(drafts[i].Snapshot())
      ensures status == Ok ==>
        && ResolveId(id, |drafts|).Found?
        && var d := drafts[ResolveId(id, |drafts|).value];
        && First(itemParam).Some? && First(itemParam).value in old(d.options)
        && d.Snapshot() == Pick(old(d.Snapshot()), First(itemParam).value)
        && forall i :: 0 <= i < |drafts| && drafts[i] != d ==> drafts[i].Snapshot() == old(drafts[i].Snapshot())
    {
      var drafter := First(drafterParam);
      var item := First(itemParam);
      if drafter.None? {
        return BadRequest(DrafterMissing);
      } else if item.None? {
        return BadRequest(ItemMissing);
      }
      var found := FindDraft(id);
      if found.Fail? {
        return found.status;
      }
      var draft := found.value;
      var turn := draft.GetTurn();
      if turn != drafter.value {
        return Forbidden;
      }
      var over := draft.IsOver();
      if over {
        return Conflict;
      }
      var undrafted := draft.GetUndraftedItems();
      if item.value !in undrafted {
        return BadRequest(ItemNotInDraft);
      }
      var outcome := draft.PickItem(item.value);
      status := Ok;
    }

    /** `getDraft`: the getters of the draft an ID names, or the lookup's status; nothing changes. */
    method GetDraft(id: Option<int>) returns (r: Lookup<Report>)
      requires Valid()
      ensures r.Fail? <==> ResolveId(id, |drafts|).Fail?
      ensures r.Fail? ==> r.status == ResolveId(id, |drafts|).status
      ensures r.Found? ==>
        var d := drafts[ResolveId(id, |drafts|).value];
        r.value == Report(d.draftedItems, d.options, Turn(d.Snapshot()), IsOver(d.Snapshot()))
      ensures r.Found? && r.value.over ==> r.value.turn == drafts[ResolveId(id, |drafts|).value].drafters[0]
    {
      var found := FindDraft(id);
      if found.Fail? {
        return Fail(found.status);
      }
      var draft := found.value;
      var draftedItems := draft.GetDraftedItems();
      var undraftedItems := draft.GetUndraftedItems();
      var turn := draft.GetTurn();
      var over := draft.IsOver();
      r := Found(Report(draftedItems, undraftedItems, turn, over));
    }

    /** `TEST_RESET`: the registry is emptied. */
    method TestReset()
      modifies this
      ensures Valid() && drafts == []
    {
      drafts := [];
    }

    /** `TEST_ADD_DRAFT`: the draft is appended and its ID is the old length. */
    method TestAddDraft(draft: Draft) returns (id: int)
      requires Valid() && draft.Valid()
      modifies this
      ensures Valid()
      ensures id == old(|drafts|) && drafts == old(drafts) + [draft]
    {
      id := |drafts|;
      drafts := drafts + [draft];
    }

    /** `TEST_GET_DRAFT`: out-of-range IDs (negative ones included) give undefined. */
    function TestGetDraft(id: int): (r: Option<Draft>)
      reads this
      ensures r.Some? <==> 0 <= id < |drafts|
      ensures r.Some? ==> r.value == drafts[id]
    {
      if 0 <= id < |drafts| then Some(drafts[id]) else None
    }
  }

  /**
   * Two successful creations in a row get consecutive, hence distinct, IDs, and each ID
   * afterwards finds a fresh draft holding its own request's drafters and options.
   */
  method CreateTwice(reg: Registry, rounds1: Param, items1: Param, drafters1: Param,
                     rounds2: Param, items2: Param, drafters2: Param) returns (id1: int, id2: int)
    requires reg.Valid()
    requires CreateVerdict(rounds1, items1, drafters1) == Ok
    requires CreateVerdict(rounds2, items2, drafters2) == Ok
    modifies reg
    ensures id2 == id1 + 1 && id1 == old(|reg.drafts|) && |reg.drafts| == id2 + 1
    ensures reg.TestGetDraft(id1).Some? && reg.TestGetDraft(id2).Some?
    ensures reg.TestGetDraft(id1).value != reg.TestGetDraft(id2).value
    ensures reg.drafts[id1].Snapshot() == Initial(Strings(drafters1.elems), Strings(items1.elems), rounds1.n)
    ensures reg.drafts[id2].Snapshot() == Initial(Strings(drafters2.elems), Strings(items2.elems), rounds2.n)
  {
    var s1, s2;
    s1, id1 := reg.CreateDraft(rounds1, items1, drafters1);
    ghost var first := reg.drafts[id1];
    s2, id2 := reg.CreateDraft(rounds2, items2, drafters2);
    assert reg.drafts[id1] == first;
  }
}
