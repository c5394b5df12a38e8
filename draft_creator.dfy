/**
 * The input checks of `buildDraft` in client/src/draft_creator.tsx: both text areas are
 * split into lines, six checks run in a fixed order, and only input that passes all of
 * them reaches `createCallback`. This is the only place where distinct names and a
 * positive number of rounds are enforced, the latter only for a Rounds field holding a
 * number: `parseInt` of anything else gives NaN, which no comparison rejects.
 */
module DraftCreator {
  import opened Sequences
  import DraftModel
  import Routes

  /** JavaScript's `split('\n')`: the text between newlines, so "" gives [""] and a trailing newline an empty last line. */
  function Split(text: string): (lines: seq<string>)
    ensures |lines| >= 1
    ensures forall i :: 0 <= i < |lines| ==> '\n' !in lines[i]
    decreases |text|
  {
    if text == [] then [""]
    else
      var rest := Split(text[1..]);
      if text[0] == '\n' then [""] + rest
      else [[text[0]] + rest[0]] + rest[1..]
  }

  /** The inverse of `Split`: the lines with a newline between each two. */
  function Join(lines: seq<string>): string
    requires |lines| >= 1
    decreases |lines|
  {
    if |lines| == 1 then lines[0] else lines[0] + "\n" + Join(lines[1..])
  }

  /** Splitting loses nothing: joining the lines gives the text back. */
  lemma {:induction false} JoinSplit(text: string)
    ensures Join(Split(text)) == text
    decreases |text|
  {
    if text != [] {
      var rest := Split(text[1..]);
      JoinSplit(text[1..]);
      if text[0] == '\n' {
        assert Split(text) == [""] + rest;
        assert Split(text)[1..] == rest;
      } else {
        var lines := Split(text);
        assert lines == [[text[0]] + rest[0]] + rest[1..];
        if |rest| == 1 {
          assert Join(lines) == [text[0]] + rest[0];
        } else {
          assert lines[1..] == rest[1..];
          assert Join(rest) == rest[0] + "\n" + Join(rest[1..]);
        }
        assert text == [text[0]] + text[1..];
      }
    }
  }

  /** A line without a newline splits to itself. */
  lemma {:induction false} SplitLine(line: string)
    requires '\n' !in line
    ensures Split(line) == [line]
    decreases |line|
  {
    if line != [] {
      assert '\n' !in line[1..];
      SplitLine(line[1..]);
      assert [line[0]] + line[1..] == line;
    }
  }

  /** A line without a newline followed by a newline splits off as the first line. */
  lemma {:induction false} SplitAfterLine(line: string, text: string)
    requires '\n' !in line
    ensures Split(line + "\n" + text) == [line] + Split(text)
    decreases |line|
  {
    var t := line + "\n" + text;
    if line == [] {
      assert t == "\n" + text;
      assert t[1..] == text;
    } else {
      assert t[1..] == line[1..] + "\n" + text;
      assert '\n' !in line[1..];
      SplitAfterLine(line[1..], text);
      assert [line[0]] + line[1..] == line;
    }
  }

  /** Joining lines that hold no newline and splitting again gives the same lines. */
  lemma {:induction false} SplitJoin(lines: seq<string>)
    requires |lines| >= 1
    requires forall i :: 0 <= i < |lines| ==> '\n' !in lines[i]
    ensures Split(Join(lines)) == lines
    decreases |lines|
  {
    if |lines| == 1 {
      SplitLine(lines[0]);
    } else {
      assert '\n' !in lines[0];
      SplitJoin(lines[1..]);
      SplitAfterLine(lines[0], Join(lines[1..]));
      assert [lines[0]] + lines[1..] == lines;
    }
  }

  /** The "empty field" test of `buildDraft` (one line, and that line empty) holds exactly for the empty text. */
  lemma SplitIsEmptyLine(text: string)
    ensures (|Split(text)| == 1 && Split(text)[0] == "") <==> text == ""
  {
    JoinSplit(text);
  }

  /** `noDuplicates`: as many distinct values as elements. */
  function NoDuplicates<T(==)>(arr: seq<T>): (r: bool)
    ensures r <==> Distinct(arr)
  {
    DistinctIffElementCount(arr);
    |arr| == |Elements(arr)|
  }

  /** What `buildDraft` does: one alert per failed check, or a call of `createCallback` with these arguments. */
  datatype Verdict =
    | EmptyFields
    | Duplicates
    | TooManyRoundsForOptions
    | RoundsNotPositive
    | DrafterEmpty
    | BlankLines
    | Create(options: seq<string>, drafters: seq<string>, rounds: int, drafter: string)

  /** The six checks in order. */
  function BuildDraft(optionsValue: string, draftersValue: string, roundValue: int, drafterValue: string): (v: Verdict)
    ensures v == EmptyFields <==> optionsValue == "" || draftersValue == ""
    ensures v == Duplicates <==>
      optionsValue != "" && draftersValue != "" && !(Distinct(Split(optionsValue)) && Distinct(Split(draftersValue)))
    ensures v == TooManyRoundsForOptions <==>
      && optionsValue != "" && draftersValue != ""
      && Distinct(Split(optionsValue)) && Distinct(Split(draftersValue))
      && roundValue * |Split(draftersValue)| > |Split(optionsValue)|
    ensures v == RoundsNotPositive <==>
      && optionsValue != "" && draftersValue != ""
      && Distinct(Split(optionsValue)) && Distinct(Split(draftersValue))
      && roundValue * |Split(draftersValue)| <= |Split(optionsValue)| && roundValue <= 0
    ensures v == DrafterEmpty <==>
      && optionsValue != "" && draftersValue != ""
      && Distinct(Split(optionsValue)) && Distinct(Split(draftersValue))
      && roundValue * |Split(draftersValue)| <= |Split(optionsValue)| && roundValue > 0 && drafterValue == ""
    ensures v.Create? <==>
      && optionsValue != "" && draftersValue != ""
      && Distinct(Split(optionsValue)) && Distinct(Split(draftersValue))
      && roundValue * |Split(draftersValue)| <= |Split(optionsValue)|
      && roundValue > 0 && drafterValue != ""
      && "" !in Split(optionsValue) && "" !in Split(draftersValue)
    ensures v.Create? ==>
      v == Create(Split(optionsValue), Split(draftersValue), roundValue, drafterValue)
  {
    var optionsArr := Split(optionsValue);
    var draftersArr := Split(draftersValue);
    SplitIsEmptyLine(optionsValue);
    SplitIsEmptyLine(draftersValue);
    if (|optionsArr| == 1 && optionsArr[0] == "") || (|draftersArr| == 1 && draftersArr[0] == "") then EmptyFields
    else if !(NoDuplicates(optionsArr) && NoDuplicates(draftersArr)) then Duplicates
    else if roundValue * |draftersArr| > |optionsArr| then TooManyRoundsForOptions
    else if roundValue <= 0 then RoundsNotPositive
    else if drafterValue == "" then DrafterEmpty
    else if "" in optionsArr || "" in draftersArr then BlankLines
    else Create(optionsArr, draftersArr, roundValue, drafterValue)
  }

  /**
   * Whatever `buildDraft` accepts meets every documented precondition of `makeDraft`
   * (non-empty, duplicate-free lists, positive rounds, rounds * n <= m), passes every
   * check of the server's `createDraft`, and lists exactly the lines of the text areas.
   */
  lemma AcceptedMeetsDraftPreconditions(optionsValue: string, draftersValue: string, roundValue: int, drafterValue: string)
    requires BuildDraft(optionsValue, draftersValue, roundValue, drafterValue).Create?
    ensures
      var v := BuildDraft(optionsValue, draftersValue, roundValue, drafterValue);
      && |v.options| > 0 && |v.drafters| > 0
      && Distinct(v.options) && Distinct(v.drafters)
      && v.rounds > 0 && v.rounds * |v.drafters| <= |v.options|
      && DraftModel.CheckDraftArgs(|v.drafters|, |v.options|, v.rounds) == DraftModel.None
      && Routes.CheckCreateArgs(|v.drafters|, |v.options|, v.rounds) == Routes.Ok
      && Join(v.options) == optionsValue && Join(v.drafters) == draftersValue
  {
    JoinSplit(optionsValue);
    JoinSplit(draftersValue);
  }

  /** Two blank lines repeat the empty name, so they are reported as duplicates, not as blank lines. */
  lemma TwoBlankLinesAreDuplicates(optionsValue: string, draftersValue: string, roundValue: int, drafterValue: string, i: nat, j: nat)
    requires optionsValue != "" && draftersValue != ""
    requires i < j < |Split(optionsValue)| && Split(optionsValue)[i] == "" && Split(optionsValue)[j] == ""
    ensures BuildDraft(optionsValue, draftersValue, roundValue, drafterValue) == Duplicates
  {
  }

  /** The smallest such input: an options field holding a single newline. */
  lemma NewlineAloneIsDuplicates(draftersValue: string, roundValue: int, drafterValue: string)
    requires draftersValue != ""
    ensures BuildDraft("\n", draftersValue, roundValue, drafterValue) == Duplicates
  {
    assert Split("\n") == ["", ""] by {
      assert "\n"[1..] == "";
    }
    TwoBlankLinesAreDuplicates("\n", draftersValue, roundValue, drafterValue, 0, 1);
  }
}
