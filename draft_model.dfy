/**
 * The draft of server/src/draft.ts as a value: the four fields of `simpleDraft`,
 * the rules that derive the turn and the end of the draft from them, one pick
 * as a function, and the representation invariant and abstraction function that
 * the class documents, with the lemmas that every pick keeps them.
 */
module DraftModel {
  import opened Sequences

  datatype Option<T> = None | Some(value: T)

  /** A pick record: the item, its 1-based position in the whole draft, and who drafted it. */
  datatype DraftItem = DraftItem(item: string, index: int, drafter: string)

  /** Why `makeDraft` refuses its arguments. */
  datatype DraftError = TooManyRounds | NoOptions | NoDrafters

  /** The fields of a `simpleDraft`: `options` are the undrafted items, `draftedItems` the picks so far. */
  datatype State = State(drafters: seq<string>, options: seq<string>, draftedItems: seq<DraftItem>, rounds: int)

  function MakeDraftItem(item: string, index: int, drafter: string): (d: DraftItem)
    ensures d.item == item && d.index == index && d.drafter == drafter
  {
    DraftItem(item, index, drafter)
  }

  /** The item names of a list of pick records, in pick order. */
  function Items(ds: seq<DraftItem>): (r: seq<string>)
    ensures |r| == |ds|
    ensures forall i :: 0 <= i < |ds| ==> r[i] == ds[i].item
  {
    seq(|ds|, i requires 0 <= i < |ds| => ds[i].item)
  }

  /** The abstraction function: all options of the draft, the undrafted ones followed by the drafted ones. */
  function AllOptions(s: State): (all: seq<string>)
    ensures |all| == |s.options| + |s.draftedItems|
    ensures multiset(all) == multiset(s.options) + multiset(Items(s.draftedItems))
  {
    s.options + Items(s.draftedItems)
  }

  /** Whose turn it is: derived from the number of picks, never stored. */
  function Turn(s: State): (t: string)
    requires |s.drafters| > 0
    ensures t in s.drafters
  {
    s.drafters[|s.draftedItems| % |s.drafters|]
  }

  /**
   * The draft is over once the pick count reaches rounds * n. `NonPositiveRounds`,
   * `FinishedTurnIsFirst` and `OverExactlyAfterRoundsTimesN` state what that means.
   */
  predicate IsOver(s: State) {
    |s.draftedItems| == s.rounds * |s.drafters|
  }

  /** The state a freshly constructed draft holds. */
  function Initial(drafters: seq<string>, options: seq<string>, rounds: int): State {
    State(drafters, options, [], rounds)
  }

  /** The checks `makeDraft` makes, in its order; `None` means it builds the draft. */
  function CheckDraftArgs(n: nat, m: nat, rounds: int): (e: Option<DraftError>)
    ensures e == Some(TooManyRounds) <==> rounds * n > m
    ensures e == Some(NoOptions) <==> rounds * n <= m && m == 0
    ensures e == Some(NoDrafters) <==> rounds * n <= m && m != 0 && n == 0
    ensures e == None <==> rounds * n <= m && m != 0 && n != 0
  {
    if rounds * n > m then Some(TooManyRounds)
    else if m == 0 then Some(NoOptions)
    else if n == 0 then Some(NoDrafters)
    else None
  }

  /**
   * One pick under the documented contract of `pickItem` (the item is one of the
   * undrafted options): the item leaves the options and a record for it, drafted
   * by the drafter whose turn it was, is appended.
   */
  function Pick(s: State, item: string): (r: State)
    requires |s.drafters| > 0 && item in s.options
    ensures r.drafters == s.drafters && r.rounds == s.rounds
    ensures |r.options| == |s.options| - 1
    ensures |r.draftedItems| == |s.draftedItems| + 1
    ensures r.draftedItems[|s.draftedItems|] == DraftItem(item, |s.draftedItems| + 1, Turn(s))
  {
    s.(options := Remove(s.options, item),
       draftedItems := s.draftedItems + [MakeDraftItem(item, |s.draftedItems| + 1, Turn(s))])
  }

  /**
   * One pick as the code is written, past the over check: the position comes from
   * `indexOf`, which is -1 for an absent item, and `splice(-1, 1)` then drops the last option.
   */
  function PickAsWritten(s: State, item: string): (r: State)
    requires |s.drafters| > 0
    ensures r.drafters == s.drafters && r.rounds == s.rounds
    ensures s.options != [] ==> |r.options| == |s.options| - 1
    ensures |r.draftedItems| == |s.draftedItems| + 1
    ensures r.draftedItems[|s.draftedItems|] == DraftItem(item, |s.draftedItems| + 1, Turn(s))
  {
    var optionsIndex := IndexOf(s.options, item);
    var drafter := Turn(s);
    var index := |s.draftedItems| + 1;
    s.(options := SpliceOne(s.options, optionsIndex),
       draftedItems := s.draftedItems + [MakeDraftItem(item, index, drafter)])
  }

  /**
   * The representation invariant of `simpleDraft`, with `original` the options it was
   * built with. The permutation clause is the abstraction function (all options are the
   * undrafted ones plus the drafted ones); it also gives |options| + |draftedItems| == m.
   * `rounds > 0` is not part of it, because `makeDraft` never checks it.
   */
  ghost predicate Valid(s: State, original: seq<string>) {
    && |s.drafters| > 0
    && |original| > 0
    && s.rounds * |s.drafters| <= |original|
    && (0 <= s.rounds ==> |s.draftedItems| <= s.rounds * |s.drafters|)
    && multiset(AllOptions(s)) == multiset(original)
    && (forall i :: 0 <= i < |s.draftedItems| ==>
          s.draftedItems[i].index == i + 1 && s.draftedItems[i].drafter == s.drafters[i % |s.drafters|])
  }

  /** Picks one after another, stopping with `None` at the first pick the contract forbids. */
  function PickAll(s: State, xs: seq<string>): Option<State>
    requires |s.drafters| > 0
    decreases |xs|
  {
    if xs == [] then Some(s)
    else if IsOver(s) || xs[0] !in s.options then None
    else PickAll(Pick(s, xs[0]), xs[1..])
  }

  lemma MulNonNegative(a: int, b: int)
    requires 0 <= a && 0 <= b
    ensures 0 <= a * b
  {
  }

  /** A freshly built draft satisfies the invariant, starts with the first drafter, and is over at once only with zero rounds. */
  lemma InitialValid(drafters: seq<string>, options: seq<string>, rounds: int)
    requires CheckDraftArgs(|drafters|, |options|, rounds) == None
    ensures Valid(Initial(drafters, options, rounds), options)
    ensures Turn(Initial(drafters, options, rounds)) == drafters[0]
    ensures AllOptions(Initial(drafters, options, rounds)) == options
    ensures IsOver(Initial(drafters, options, rounds)) <==> rounds == 0
  {
    var s := Initial(drafters, options, rounds);
    assert Items(s.draftedItems) == [];
    assert AllOptions(s) == options;
    if 0 <= rounds {
      MulNonNegative(rounds, |drafters|);
    }
    if rounds != 0 {
      assert rounds * |drafters| != 0;
    }
  }

  /** The invariant's length clause: undrafted plus drafted items always make up the original count. */
  lemma ValidCounts(s: State, original: seq<string>)
    requires Valid(s, original)
    ensures |s.options| + |s.draftedItems| == |original|
  {
    assert |multiset(AllOptions(s))| == |AllOptions(s)|;
  }

  lemma ItemsAppend(ds: seq<DraftItem>, d: DraftItem)
    ensures Items(ds + [d]) == Items(ds) + [d.item]
  {
    assert |Items(ds + [d])| == |Items(ds) + [d.item]|;
  }

  /** A pick allowed by the contract keeps the representation invariant and the abstraction function. */
  lemma PickPreservesValid(s: State, original: seq<string>, item: string)
    requires Valid(s, original)
    requires !IsOver(s) && item in s.options
    ensures Valid(Pick(s, item), original)
  {
    var r, k, n := Pick(s, item), |s.draftedItems|, |s.drafters|;
    assert multiset(AllOptions(r)) == multiset(original) by {
      PickKeepsAllOptions(s, item);
    }
    assert forall i :: 0 <= i < |r.draftedItems| ==>
        r.draftedItems[i].index == i + 1 && r.draftedItems[i].drafter == r.drafters[i % n] by {
      PickRecords(s, item);
    }
    assert 0 <= s.rounds ==> |r.draftedItems| <= s.rounds * n;
  }

  /** A pick moves the item from the undrafted options to the drafted ones: all options stay the same. */
  lemma PickKeepsAllOptions(s: State, item: string)
    requires |s.drafters| > 0 && item in s.options
    ensures multiset(AllOptions(Pick(s, item))) == multiset(AllOptions(s))
  {
    var r := Pick(s, item);
    ItemsAppend(s.draftedItems, MakeDraftItem(item, |s.draftedItems| + 1, Turn(s)));
    RemovePermutes(s.options, item);
    assert AllOptions(r) == Remove(s.options, item) + Items(s.draftedItems) + [item];
    assert multiset(s.options)[item] > 0;
    calc {
      multiset(AllOptions(r));
      multiset(Remove(s.options, item)) + multiset(Items(s.draftedItems)) + multiset{item};
      (multiset(s.options) - multiset{item}) + multiset{item} + multiset(Items(s.draftedItems));
      multiset(s.options) + multiset(Items(s.draftedItems));
      multiset(AllOptions(s));
    }
  }

  /** Under the contract the code as written performs exactly the documented pick. */
  lemma PickAsWrittenMatchesContract(s: State, item: string)
    requires |s.drafters| > 0 && item in s.options
    ensures PickAsWritten(s, item) == Pick(s, item)
  {
    RemoveAtIndexOf(s.options, item);
  }

  /**
   * An absent item is not refused: the code drops the last undrafted option, records the
   * absent name as a pick, and the options no longer add up to the original ones.
   */
  lemma AbsentItemCorruptsDraft(s: State, original: seq<string>, item: string)
    requires Valid(s, original)
    requires item !in s.options && s.options != []
    ensures PickAsWritten(s, item).options == s.options[..|s.options| - 1]
    ensures Items(PickAsWritten(s, item).draftedItems) == Items(s.draftedItems) + [item]
    ensures !Valid(PickAsWritten(s, item), original)
  {
    var r, n := PickAsWritten(s, item), |s.options|;
    var kept, picked := s.options[..n - 1], Items(s.draftedItems);
    assert r.options == kept;
    assert Items(r.draftedItems) == picked + [item] by {
      ItemsAppend(s.draftedItems, MakeDraftItem(item, |s.draftedItems| + 1, Turn(s)));
    }
    assert multiset(kept)[item] == 0 by {
      assert item !in kept;
    }
    assert multiset(s.options)[item] == 0;
    assert multiset(AllOptions(r))[item] == multiset(picked)[item] + 1 by {
      assert AllOptions(r) == kept + (picked + [item]);
    }
    assert multiset(AllOptions(s))[item] == multiset(picked)[item];
  }

  /** If the options were duplicate-free, no item is both undrafted and drafted, and neither list repeats. */
  lemma ValidDisjoint(s: State, original: seq<string>)
    requires Valid(s, original) && Distinct(original)
    ensures Distinct(AllOptions(s))
    ensures Distinct(s.options) && Distinct(Items(s.draftedItems))
    ensures forall x :: x in s.options ==> x !in Items(s.draftedItems)
  {
    DistinctPermutation(AllOptions(s), original);
    DistinctSplit(s.options, Items(s.draftedItems));
  }

  /** A draft that is not over (with non-negative rounds) always has an item left to pick. */
  lemma NotOverHasOptions(s: State, original: seq<string>)
    requires Valid(s, original) && !IsOver(s) && 0 <= s.rounds
    ensures |s.options| > 0
  {
    ValidCounts(s, original);
  }

  /**
   * `makeDraft` accepts rounds <= 0: with zero rounds the draft is over from the start,
   * and with negative rounds it is never over.
   */
  lemma NonPositiveRounds(s: State, original: seq<string>)
    requires Valid(s, original) && s.rounds <= 0
    ensures s.rounds == 0 ==> IsOver(s) && s.draftedItems == []
    ensures s.rounds < 0 ==> !IsOver(s)
  {
    if s.rounds < 0 {
      assert s.rounds * |s.drafters| < 0 by {
        MulNonNegative(-s.rounds, |s.drafters|);
        assert (-s.rounds) * |s.drafters| != 0;
      }
    }
  }

  lemma MultipleMod(k: int, n: int)
    requires 0 < n && 0 <= k * n
    ensures (k * n) % n == 0
  {
    var q, r := (k * n) / n, (k * n) % n;
    assert k * n == q * n + r;
    assert (k - q) * n == r;
  }

  /** Once a draft is over the turn is back at the first drafter: rounds * n picks is a whole number of rounds. */
  lemma FinishedTurnIsFirst(s: State, original: seq<string>)
    requires Valid(s, original) && IsOver(s)
    ensures Turn(s) == s.drafters[0]
  {
    MultipleMod(s.rounds, |s.drafters|);
  }

  /** A pick keeps the earlier records and appends one record. */
  lemma PickRecords(s: State, x: string)
    requires |s.drafters| > 0 && x in s.options
    ensures |Pick(s, x).draftedItems| == |s.draftedItems| + 1
    ensures Pick(s, x).draftedItems[|s.draftedItems|] == DraftItem(x, |s.draftedItems| + 1, Turn(s))
    ensures forall i :: 0 <= i < |s.draftedItems| ==> Pick(s, x).draftedItems[i] == s.draftedItems[i]
  {
  }

  lemma PickAllStep(s: State, xs: seq<string>)
    requires |s.drafters| > 0 && xs != [] && PickAll(s, xs).Some?
    ensures !IsOver(s) && xs[0] in s.options
    ensures PickAll(s, xs) == PickAll(Pick(s, xs[0]), xs[1..])
  {
  }

  /** A run of picks keeps the invariant, the drafters and the rounds. */
  lemma {:induction false} PickAllKeepsValid(s: State, original: seq<string>, xs: seq<string>)
    requires Valid(s, original) && PickAll(s, xs).Some?
    ensures Valid(PickAll(s, xs).value, original)
    ensures PickAll(s, xs).value.drafters == s.drafters && PickAll(s, xs).value.rounds == s.rounds
    decreases |xs|
  {
    if xs != [] {
      PickAllStep(s, xs);
      PickPreservesValid(s, original, xs[0]);
      PickAllKeepsValid(Pick(s, xs[0]), original, xs[1..]);
    }
  }

  /** A run of picks keeps the earlier records and appends one record per named item, in order. */
  lemma {:induction false} PickAllAppends(s: State, xs: seq<string>)
    requires |s.drafters| > 0 && PickAll(s, xs).Some?
    ensures |PickAll(s, xs).value.draftedItems| == |s.draftedItems| + |xs|
    ensures forall i :: 0 <= i < |s.draftedItems| ==> PickAll(s, xs).value.draftedItems[i] == s.draftedItems[i]
    ensures forall i :: |s.draftedItems| <= i < |s.draftedItems| + |xs| ==>
              PickAll(s, xs).value.draftedItems[i].item == xs[i - |s.draftedItems|]
    decreases |xs|
  {
    if xs != [] {
      PickAllStep(s, xs);
      var s' := Pick(s, xs[0]);
      PickRecords(s, xs[0]);
      PickAllAppends(s', xs[1..]);
      AppendsStep(s.draftedItems, s'.draftedItems, PickAll(s', xs[1..]).value.draftedItems, xs);
    }
  }

  /** One step of `PickAllAppends`: one record for xs[0], then the records of the rest. */
  lemma AppendsStep(d: seq<DraftItem>, d': seq<DraftItem>, dt: seq<DraftItem>, xs: seq<string>)
    requires xs != [] && |d'| == |d| + 1 && d'[|d|].item == xs[0]
    requires forall i :: 0 <= i < |d| ==> d'[i] == d[i]
    requires |dt| == |d'| + |xs[1..]|
    requires forall i :: 0 <= i < |d'| ==> dt[i] == d'[i]
    requires forall i :: |d'| <= i < |d'| + |xs[1..]| ==> dt[i].item == xs[1..][i - |d'|]
    ensures |dt| == |d| + |xs|
    ensures forall i :: 0 <= i < |d| ==> dt[i] == d[i]
    ensures forall i :: |d| <= i < |d| + |xs| ==> dt[i].item == xs[i - |d|]
  {
    forall i | |d| <= i < |d| + |xs| ensures dt[i].item == xs[i - |d|] {
      if i > |d| {
        assert xs[1..][i - |d'|] == xs[i - |d|];
      }
    }
  }

  /**
   * Round robin: the j-th pick of a run is recorded as (the j-th named item, its position
   * in the whole draft, drafters[position mod n]), whatever the items are.
   */
  lemma {:induction false} PickAllRoundRobin(s: State, xs: seq<string>)
    requires |s.drafters| > 0 && PickAll(s, xs).Some?
    ensures var t := PickAll(s, xs).value;
      && |t.draftedItems| == |s.draftedItems| + |xs|
      && forall j :: 0 <= j < |xs| ==>
           t.draftedItems[|s.draftedItems| + j]
             == DraftItem(xs[j], |s.draftedItems| + j + 1, s.drafters[(|s.draftedItems| + j) % |s.drafters|])
    decreases |xs|
  {
    if xs != [] {
      var k, s' := |s.draftedItems|, Pick(s, xs[0]);
      assert PickAll(s, xs) == PickAll(s', xs[1..]) by {
        PickAllStep(s, xs);
      }
      var t := PickAll(s', xs[1..]).value;
      assert |t.draftedItems| == k + |xs| && t.draftedItems[k] == DraftItem(xs[0], k + 1, s.drafters[k % |s.drafters|]) by {
        PickRecords(s, xs[0]);
        PickAllAppends(s', xs[1..]);
        assert t.draftedItems[k] == s'.draftedItems[k];
      }
      assert forall j :: 0 <= j < |xs| ==> t.draftedItems[k + j] == DraftItem(xs[j], k + j + 1, s.drafters[(k + j) % |s.drafters|]) by {
        PickAllRoundRobin(s', xs[1..]);
        RoundRobinStep(t.draftedItems, xs, k, |s'.draftedItems|, s.drafters, s'.drafters);
      }
    }
  }

  /** One step of `PickAllRoundRobin`: the record of xs[0], then the records of the rest one position later. */
  lemma RoundRobinStep(dt: seq<DraftItem>, xs: seq<string>, k: nat, k': nat, drafters: seq<string>, drafters': seq<string>)
    requires xs != [] && |drafters| > 0 && k' == k + 1 && drafters' == drafters && |dt| == k + |xs|
    requires dt[k] == DraftItem(xs[0], k + 1, drafters[k % |drafters|])
    requires forall j :: 0 <= j < |xs[1..]| ==>
               dt[k' + j] == DraftItem(xs[1..][j], k' + j + 1, drafters'[(k' + j) % |drafters'|])
    ensures forall j :: 0 <= j < |xs| ==> dt[k + j] == DraftItem(xs[j], k + j + 1, drafters[(k + j) % |drafters|])
  {
    forall j | 0 <= j < |xs| ensures dt[k + j] == DraftItem(xs[j], k + j + 1, drafters[(k + j) % |drafters|]) {
      if j > 0 {
        assert xs[1..][j - 1] == xs[j];
        assert k' + (j - 1) == k + j;
      }
    }
  }

  /**
   * A fresh draft (with positive rounds) is over after a run of picks exactly when the
   * run had rounds * n picks, and then it refuses the next pick, whatever the item.
   */
  lemma OverExactlyAfterRoundsTimesN(drafters: seq<string>, options: seq<string>, rounds: int, xs: seq<string>, next: string)
    requires CheckDraftArgs(|drafters|, |options|, rounds) == None && 0 < rounds
    requires PickAll(Initial(drafters, options, rounds), xs).Some?
    ensures var t := PickAll(Initial(drafters, options, rounds), xs).value;
      && t.drafters == drafters
      && (IsOver(t) <==> |xs| == rounds * |drafters|)
      && (IsOver(t) ==> PickAll(t, [next]).None?)
  {
    InitialValid(drafters, options, rounds);
    PickAllKeepsValid(Initial(drafters, options, rounds), options, xs);
    PickAllAppends(Initial(drafters, options, rounds), xs);
  }

  /**
   * Picking the options front to back, k at a time (k at most rounds * n), always
   * succeeds and leaves exactly the options after the first k undrafted.
   */
  lemma {:induction false} InOrderPicks(s: State, original: seq<string>, k: nat)
    requires Valid(s, original) && 0 <= s.rounds
    requires |s.draftedItems| + k <= s.rounds * |s.drafters|
    ensures k <= |s.options|
    ensures PickAll(s, s.options[..k]).Some?
    ensures PickAll(s, s.options[..k]).value.options == s.options[k..]
    decreases k
  {
    ValidCounts(s, original);
    if k > 0 {
      var x := s.options[0];
      var s' := Pick(s, x);
      assert s'.options == s.options[1..];
      PickPreservesValid(s, original, x);
      InOrderPicks(s', original, k - 1);
      assert s.options[..k][1..] == s'.options[..k - 1];
      assert s.options[..k][0] == x;
      assert s'.options[k - 1..] == s.options[k..];
    }
  }


}

/** The scenarios of server/src/draft_test.ts and server/src/routes_test.ts, stated on the model. */
module DraftScenarios {
  import opened DraftModel

  /**
   * The picks tested at server/src/routes_test.ts:168: an item of another draft is
   * picked from the two-team draft, and "Item 7" disappears instead.
   */
  lemma ForeignItemScenario()
    ensures
      var s := Initial(["Team 1", "Team 2"], ["Item 1", "Item 2", "Item 3", "Item 4", "Item 5", "Item 6", "Item 7"], 3);
      var r := PickAsWritten(s, "Snickers");
      && r.options == ["Item 1", "Item 2", "Item 3", "Item 4", "Item 5", "Item 6"]
      && r.draftedItems == [DraftItem("Snickers", 1, "Team 1")]
  {
    var s := Initial(["Team 1", "Team 2"], ["Item 1", "Item 2", "Item 3", "Item 4", "Item 5", "Item 6", "Item 7"], 3);
    assert "Snickers" !in s.options by {
      forall i | 0 <= i < |s.options| ensures s.options[i][0] == 'I' {
        assert i == 0 || i == 1 || i == 2 || i == 3 || i == 4 || i == 5 || i == 6;
      }
    }
    assert PickAsWritten(s, "Snickers").options == s.options[..6];
    assert s.options[..6] == ["Item 1", "Item 2", "Item 3", "Item 4", "Item 5", "Item 6"];
  }

  /**
   * The shape of server/src/draft_test.ts:17-65 (three drafters, options picked front to
   * back): the first round goes to the drafters in their listed order, the rest of the
   * options stay in order, and the turn wraps around to the first drafter.
   */
  lemma FirstRoundFollowsDrafters(a: string, b: string, c: string, o: seq<string>, rounds: int)
    requires 0 < rounds && 3 * rounds <= |o|
    ensures
      var s0 := Initial([a, b, c], o, rounds);
      && Turn(s0) == a
      && PickAll(s0, o[..3]).Some?
      && var t := PickAll(s0, o[..3]).value;
      && t.options == o[3..]
      && t.drafters == [a, b, c]
      && t.draftedItems == [DraftItem(o[0], 1, a), DraftItem(o[1], 2, b), DraftItem(o[2], 3, c)]
      && Turn(t) == a
  {
    var dr := [a, b, c];
    var s0 := Initial(dr, o, rounds);
    assert Valid(s0, o) && Turn(s0) == a by {
      InitialValid(dr, o, rounds);
    }
    assert PickAll(s0, o[..3]).Some? && PickAll(s0, o[..3]).value.options == o[3..] by {
      InOrderPicks(s0, o, 3);
    }
    var t := PickAll(s0, o[..3]).value;
    assert t.drafters == dr by {
      PickAllKeepsValid(s0, o, o[..3]);
    }
    var ds := t.draftedItems;
    assert |ds| == 3 && ds[0] == DraftItem(o[0], 1, a) && ds[1] == DraftItem(o[1], 2, b) && ds[2] == DraftItem(o[2], 3, c) by {
      PickAllRoundRobin(s0, o[..3]);
    }
    assert ds == [DraftItem(o[0], 1, a), DraftItem(o[1], 2, b), DraftItem(o[2], 3, c)];
  }

  /** server/src/draft_test.ts:96-100: one drafter, one item, one round: not over, then over after one pick. */
  lemma SingleItemDraftEnds()
    ensures !IsOver(Initial(["Frank"], ["Hersheys"], 1))
    ensures IsOver(Pick(Initial(["Frank"], ["Hersheys"], 1), "Hersheys"))
  {
  }
}
