/**
 * The class `simpleDraft` of server/src/draft.ts: four fields that `pickItem` updates
 * in place, read-only getters, and the factory `makeDraft`. Every method is proved
 * against the value model in module DraftModel.
 */
module DraftEngine {
  import opened Sequences
  import opened DraftModel

  /** How `pickItem` ends: it drafts the item, or it throws "Draft is over". */
  datatype PickOutcome = Picked | DraftIsOver

  /** How `makeDraft` ends: a new draft, or the error it throws. */
  datatype MakeResult = Made(draft: Draft) | Refused(error: DraftError)

  class Draft {
    var drafters: seq<string>
    var options: seq<string>
    var draftedItems: seq<DraftItem>
    var rounds: int
    /** The options the draft was built with; the abstraction function relates them to the fields. */
    ghost const original: seq<string>

    /** The four fields as a value of the model. */
    function Snapshot(): State
      reads this
    {
      State(drafters, options, draftedItems, rounds)
    }

    ghost predicate Valid()
      reads this
    {
      DraftModel.Valid(Snapshot(), original)
    }

    /** The constructor copies the lists; callers go through `MakeDraft`, which checks the arguments first. */
    constructor (drafters: seq<string>, options: seq<string>, rounds: int)
      requires CheckDraftArgs(|drafters|, |options|, rounds) == None
      ensures Valid()
      ensures Snapshot() == Initial(drafters, options, rounds)
      ensures original == options
    {
      this.drafters := drafters;
      this.options := options;
      this.draftedItems := [];
      this.rounds := rounds;
      this.original := options;
      new;
      InitialValid(drafters, options, rounds);
    }

    /** The drafter whose turn it is: the pick count modulo the number of drafters picks the position. */
    method GetTurn() returns (t: string)
      requires Valid()
      ensures t in drafters
      ensures t == drafters[|draftedItems| % |drafters|]
    {
      t := drafters[|draftedItems| % |drafters|];
    }

    /** The undrafted items (a copy): together with the drafted items they are the original options. */
    method GetUndraftedItems() returns (r: seq<string>)
      requires Valid()
      ensures r == options
      ensures multiset(r) + multiset(Items(draftedItems)) == multiset(original)
    {
      r := options;
    }

    /** The pick records (a copy): record i is the (i+1)-th pick and names drafters[i mod n]. */
    method GetDraftedItems() returns (r: seq<DraftItem>)
      requires Valid()
      ensures r == draftedItems
      ensures forall i :: 0 <= i < |r| ==> r[i].index == i + 1 && r[i].drafter == drafters[i % |drafters|]
    {
      r := draftedItems;
    }

    method GetDrafters() returns (r: seq<string>)
      requires Valid()
      ensures r == drafters && |r| > 0
    {
      r := drafters;
    }

    /** The draft is over after exactly rounds * n picks; before that (with rounds >= 0) an option is left. */
    method IsOver() returns (r: bool)
      requires Valid()
      ensures r <==> |draftedItems| == rounds * |drafters|
      ensures !r && 0 <= rounds ==> |options| > 0
      ensures r ==> drafters[|draftedItems| % |drafters|] == drafters[0]
    {
      r := |draftedItems| == rounds * |drafters|;
      if r {
        FinishedTurnIsFirst(Snapshot(), original);
      } else if 0 <= rounds {
        NotOverHasOptions(Snapshot(), original);
      }
    }

    /**
     * Drafts `item` for the drafter whose turn it is. A finished draft throws and
     * nothing changes; otherwise exactly one pick happens. The documented contract
     * demands that the item is undrafted; the code's own guard against an absent item
     * tests `indexOf` for `undefined`, which never happens, so it is not modelled.
     */
    method PickItem(item: string) returns (r: PickOutcome)
      requires Valid()
      requires item in options || DraftModel.IsOver(Snapshot())
      modifies this
      ensures Valid()
      ensures drafters == old(drafters) && rounds == old(rounds)
      ensures old(DraftModel.IsOver(Snapshot())) ==> r == DraftIsOver && Snapshot() == old(Snapshot())
      ensures !old(DraftModel.IsOver(Snapshot())) ==> r == Picked && Snapshot() == Pick(old(Snapshot()), item)
    {
      var over := IsOver();
      if over {
        return DraftIsOver;
      }
      ghost var before := Snapshot();
      assert PickAsWritten(before, item) == Pick(before, item) && DraftModel.Valid(Pick(before, item), original) by {
        PickAsWrittenMatchesContract(before, item);
        PickPreservesValid(before, original, item);
      }
      var optionsIndex := IndexOf(options, item);
      var drafter := GetTurn();
      var index := |draftedItems| + 1;
      var draftedItem := MakeDraftItem(item, index, drafter);
      var newOptions := SpliceOne(options, optionsIndex);
      var newDrafted := draftedItems + [draftedItem];
      assert State(drafters, newOptions, newDrafted, rounds) == PickAsWritten(before, item);
      options, draftedItems := newOptions, newDrafted;
      r := Picked;
    }
  }

  /** The factory: the three checks in the code's order, then a draft holding exactly the arguments. */
  method MakeDraft(drafters: seq<string>, options: seq<string>, rounds: int) returns (r: MakeResult)
    ensures r.Refused? <==> CheckDraftArgs(|drafters|, |options|, rounds) != None
    ensures r.Refused? ==> CheckDraftArgs(|drafters|, |options|, rounds) == Some(r.error)
    ensures r.Made? ==> fresh(r.draft) && r.draft.Valid() && r.draft.original == options
    ensures r.Made? ==> r.draft.Snapshot() == Initial(drafters, options, rounds)
  {
    if rounds * |drafters| > |options| {
      return Refused(TooManyRounds);
    } else if |options| == 0 {
      return Refused(NoOptions);
    } else if |drafters| == 0 {
      return Refused(NoDrafters);
    }
    var d := new Draft(drafters, options, rounds);
    r := Made(d);
  }
}
