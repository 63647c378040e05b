/**
 * The stand-alone Discord activity page (`activity.js`): module-level
 * state (the board, the gem reserve, the sample scoreboard, the word
 * history and the status line) as the fields of one object, with the gem
 * actions, word submission and start-up that change it.
 */
module DiscordActivity {
  import opened Wrappers
  import opened WordBoard
  import Sorting

  /** An entry of `samplePlayers`; a missing `isActive` reads as false. */
  datatype SamplePlayer = SamplePlayer(id: string, name: string, score: int, isActive: bool)

  /** The word-history line: the word in capitals and its points. */
  datatype HistoryEntry = HistoryEntry(word: string, score: nat)

  /** The id of the local player. */
  const Me := "me"

  /** `samplePlayers` */
  const SamplePlayers: seq<SamplePlayer> := [
    SamplePlayer(Me, "You", 0, true),
    SamplePlayer("1", "Nova", 28, false),
    SamplePlayer("2", "Atlas", 21, false),
    SamplePlayer("3", "Mira", 17, false)
  ]

  function PlayerScore(p: SamplePlayer): int { p.score }

  /** `samplePlayers.find((p) => p.id === "me")`, as an index; -1 when absent. */
  function IndexOfMe(players: seq<SamplePlayer>): (i: int)
    ensures -1 <= i < |players|
    ensures i >= 0 ==> players[i].id == Me && forall j :: 0 <= j < i ==> players[j].id != Me
    ensures i < 0 ==> forall j :: 0 <= j < |players| ==> players[j].id != Me
  {
    if players == [] then -1
    else if players[0].id == Me then 0
    else var k := IndexOfMe(players[1..]); if k < 0 then -1 else k + 1
  }

  /** `player.score += result.score` on the first "me" entry; every other entry is kept. */
  function CreditMe(players: seq<SamplePlayer>, score: nat): (r: seq<SamplePlayer>)
    ensures |r| == |players|
    ensures forall j :: 0 <= j < |players| && j != IndexOfMe(players) ==> r[j] == players[j]
    ensures IndexOfMe(players) >= 0 ==>
      var i := IndexOfMe(players); r[i] == players[i].(score := players[i].score + score)
  {
    var i := IndexOfMe(players);
    if i < 0 then players else players[i := players[i].(score := players[i].score + score)]
  }

  /** Only "me" gains points: every entry with another id is kept. */
  lemma CreditMeOnlyMe(players: seq<SamplePlayer>, score: nat)
    ensures forall j :: 0 <= j < |players| && players[j].id != Me ==> CreditMe(players, score)[j] == players[j]
  {
  }

  /** With "me" on the scoreboard, its total grows by exactly the word's score. */
  lemma CreditMeTotal(players: seq<SamplePlayer>, score: nat)
    requires IndexOfMe(players) >= 0
    ensures Total(CreditMe(players, score)) == Total(players) + score
  {
    var i := IndexOfMe(players);
    TotalUpdate(players, i, score);
  }

  /** The sum of the scoreboard. */
  function Total(players: seq<SamplePlayer>): int {
    if players == [] then 0 else players[0].score + Total(players[1..])
  }

  /** Raising one entry's score raises the total by as much. */
  lemma {:induction false} TotalUpdate(players: seq<SamplePlayer>, i: nat, score: int)
    requires i < |players|
    ensures Total(players[i := players[i].(score := players[i].score + score)]) == Total(players) + score
  {
    var r := players[i := players[i].(score := players[i].score + score)];
    if i == 0 {
      assert r[1..] == players[1..];
    } else {
      TotalUpdate(players[1..], i - 1, score);
      assert r[1..] == players[1..][i - 1 := players[i].(score := players[i].score + score)];
    }
  }

  /** Inserting an entry adds its score to the total. */
  lemma {:induction false} TotalInsert(x: SamplePlayer, s: seq<SamplePlayer>)
    ensures Total(Sorting.Insert(x, s, PlayerScore)) == x.score + Total(s)
  {
    if s == [] || PlayerScore(x) >= PlayerScore(s[0]) {
      assert ([x] + s)[1..] == s;
    } else {
      TotalInsert(x, s[1..]);
      assert ([s[0]] + Sorting.Insert(x, s[1..], PlayerScore))[1..] == Sorting.Insert(x, s[1..], PlayerScore);
    }
  }

  /** Sorting the scoreboard keeps its total. */
  lemma {:induction false} TotalSorted(s: seq<SamplePlayer>)
    ensures Total(Sorting.SortDesc(s, PlayerScore)) == Total(s)
  {
    if s != [] {
      TotalSorted(s[1..]);
      TotalInsert(s[0], Sorting.SortDesc(s[1..], PlayerScore));
    }
  }

  class Activity {
    var board: seq<Tile>
    var gemCount: int
    var players: seq<SamplePlayer>
    var wordHistory: seq<HistoryEntry>
    var status: Status

    /** The reserve stays in [0, 10]. */
    ghost predicate Valid()
      reads this
    {
      0 <= gemCount <= MaxGems
    }

    /** The module's initial values, before `boot`. */
    constructor()
      ensures Valid()
      ensures board == [] && gemCount == 3 && players == SamplePlayers && wordHistory == [] && status == Status("", Info)
    {
      board := [];
      gemCount := 3;
      players := SamplePlayers;
      wordHistory := [];
      status := Status("", Info);
    }

    method FlashStatus(message: string, kind: StatusKind)
      modifies this`status
      ensures status == Status(message, kind)
    {
      status := Status(message, kind);
    }

    /** `updateGemCount`: the reserve becomes `value` clamped to [0, 10]. */
    method UpdateGemCount(value: int)
      modifies this`gemCount
      ensures gemCount == ClampGems(value) && Valid()
    {
      gemCount := ClampGems(value);
    }

    /** `spendGems(cost)`: a reserve below `cost` is kept and refused; otherwise it drops by exactly `cost`. */
    method SpendGems(cost: nat) returns (spent: bool)
      requires Valid()
      modifies this`gemCount
      ensures Valid()
      ensures spent <==> old(gemCount) >= cost
      ensures spent ==> gemCount == old(gemCount) - cost
      ensures !spent ==> gemCount == old(gemCount)
    {
      if gemCount < cost {
        return false;
      }
      UpdateGemCount(gemCount - cost);
      return true;
    }

    /** `applyShuffle`: for one gem, a freshly generated board. */
    method ApplyShuffle(draws: seq<LetterDraw>, ids: seq<string>, picks: BoardPicks)
      requires Valid() && |draws| == BoardSize && |ids| == BoardSize && ValidBoardPicks(picks)
      modifies this`gemCount, this`board, this`status
      ensures Valid()
      ensures old(gemCount) < 1 ==> unchanged(this)
      ensures old(gemCount) >= 1 ==>
        gemCount == old(gemCount) - 1 && board == Board(draws, ids, picks) && status == Status("Board shuffled", Info)
    {
      var spent := SpendGems(1);
      if !spent {
        return;
      }
      board := GenerateBoard(draws, ids, picks);
      FlashStatus("Board shuffled", Info);
    }

    /** `applySwap`: for three gems, two distinct tiles exchange places in the board. */
    method ApplySwap(swapDraws: seq<nat>)
      requires Valid() && (gemCount >= 3 ==> SwapDraws(swapDraws, |board|))
      modifies this`gemCount, this`board, this`status
      ensures Valid()
      ensures old(gemCount) < 3 ==> unchanged(this)
      ensures old(gemCount) >= 3 ==>
        var a := swapDraws[0];
        var b := swapDraws[NextDiffering(swapDraws, a, 1)];
        && a != b && gemCount == old(gemCount) - 3
        && board == Swapped(old(board), a, b) && multiset(board) == multiset(old(board))
        && status == Status("Two tiles swapped", Info)
    {
      var spent := SpendGems(3);
      if !spent {
        return;
      }
      var idxA, idxB := PickSwap(swapDraws);
      SwappedIsPermutation(board, idxA, idxB);
      board := board[idxA := board[idxB]][idxB := board[idxA]];
      FlashStatus("Two tiles swapped", Info);
    }

    /** `applyHint`: for four gems, the letter of the most valuable tile; an empty board shows nothing. */
    method ApplyHint()
      requires Valid()
      modifies this`gemCount, this`status
      ensures Valid() && board == old(board)
      ensures old(gemCount) < 4 ==> unchanged(this)
      ensures old(gemCount) >= 4 ==> gemCount == old(gemCount) - 4
      ensures old(gemCount) >= 4 ==>
        if board == [] then status == old(status) else status == Status(HintMessage(Hint(board).value.letter), HintStatus)
    {
      var spent := SpendGems(4);
      if !spent {
        return;
      }
      var candidate := Hint(board);
      if candidate.None? {
        return;
      }
      FlashStatus(HintMessage(candidate.value.letter), HintStatus);
    }

    /** `renderPlayers` sorts `samplePlayers` in place, highest score first (the drawing is left out). */
    method RenderPlayers()
      modifies this`players
      ensures players == Sorting.SortDesc(old(players), PlayerScore)
      ensures multiset(players) == multiset(old(players)) && Sorting.SortedDesc(players, PlayerScore)
    {
      players := Sorting.SortDesc(players, PlayerScore);
    }

    /** `addWordToHistory`: the newest word goes on top; this page keeps every word. */
    method AddWordToHistory(word: string, score: nat)
      modifies this`wordHistory
      ensures wordHistory == [HistoryEntry(UpperWord(word), score)] + old(wordHistory)
    {
      wordHistory := [HistoryEntry(UpperWord(word), score)] + wordHistory;
    }

    /**
     * The `submit` handler for the trimmed form value: a word that cannot be
     * placed sets an error status; a placed word goes on the history,
     * credits "me" with its score and no one else, adds its capped gems and
     * re-sorts the scoreboard.
     */
    method Submit(formWord: string)
      requires Valid()
      modifies this`wordHistory, this`players, this`gemCount, this`status
      ensures Valid() && board == old(board)
      ensures match Submitted(formWord, board, old(gemCount))
        case Blank => unchanged(this)
        case Unplaced(_) =>
          && status == Status("Letters must exist on the board", Error)
          && wordHistory == old(wordHistory) && players == old(players) && gemCount == old(gemCount)
        case Placed(word, scored) =>
          && wordHistory == [HistoryEntry(UpperWord(word), scored.score)] + old(wordHistory)
          && players == Sorting.SortDesc(CreditMe(old(players), scored.score), PlayerScore)
          && gemCount == old(gemCount) + scored.gems
          && status == Status(ScoredMessage(scored.score), Success)
    {
      var submission := SubmitWord(formWord, board, gemCount);
      ApplySubmission(submission);
    }

    /** The handler's effect once the submission is known. */
    method ApplySubmission(submission: Submission)
      requires Valid() && (submission.Placed? ==> gemCount + submission.scored.gems <= MaxGems)
      modifies this`wordHistory, this`players, this`gemCount, this`status
      ensures Valid() && board == old(board)
      ensures match submission
        case Blank => unchanged(this)
        case Unplaced(_) =>
          && status == Status("Letters must exist on the board", Error)
          && wordHistory == old(wordHistory) && players == old(players) && gemCount == old(gemCount)
        case Placed(word, scored) =>
          && wordHistory == [HistoryEntry(UpperWord(word), scored.score)] + old(wordHistory)
          && players == Sorting.SortDesc(CreditMe(old(players), scored.score), PlayerScore)
          && gemCount == old(gemCount) + scored.gems
          && status == Status(ScoredMessage(scored.score), Success)
    {
      match submission
      case Blank =>
      case Unplaced(_) =>
        FlashStatus("Letters must exist on the board", Error);
      case Placed(word, scored) =>
        RecordScored(word, scored);
    }

    /** What a placed word changes: history, "me"'s score, the reserve, the scoreboard order and the status. */
    method RecordScored(word: string, scored: WordScore)
      requires Valid() && gemCount + scored.gems <= MaxGems
      modifies this`wordHistory, this`players, this`gemCount, this`status
      ensures Valid()
      ensures wordHistory == [HistoryEntry(UpperWord(word), scored.score)] + old(wordHistory)
      ensures players == Sorting.SortDesc(CreditMe(old(players), scored.score), PlayerScore)
      ensures gemCount == old(gemCount) + scored.gems
      ensures status == Status(ScoredMessage(scored.score), Success)
    {
      AddWordToHistory(word, scored.score);
      players := CreditMe(players, scored.score);
      if scored.gems > 0 {
        UpdateGemCount(gemCount + scored.gems);
      }
      RenderPlayers();
      FlashStatus(ScoredMessage(scored.score), Success);
    }

    /** `boot`: a generated board, the reserve re-clamped (3 stays 3) and the scoreboard sorted. */
    method Boot(draws: seq<LetterDraw>, ids: seq<string>, picks: BoardPicks)
      requires Valid() && |draws| == BoardSize && |ids| == BoardSize && ValidBoardPicks(picks)
      modifies this`board, this`gemCount, this`players
      ensures Valid()
      ensures board == Board(draws, ids, picks) && gemCount == old(gemCount)
      ensures players == Sorting.SortDesc(old(players), PlayerScore)
    {
      board := GenerateBoard(draws, ids, picks);
      UpdateGemCount(gemCount);
      RenderPlayers();
    }
  }

  /** A submitted word raises the scoreboard total by exactly its score: only "me" gains, and re-sorting loses no one. */
  lemma SubmitRaisesTotal(players: seq<SamplePlayer>, score: nat)
    requires IndexOfMe(players) >= 0
    ensures Total(Sorting.SortDesc(CreditMe(players, score), PlayerScore)) == Total(players) + score
  {
    CreditMeTotal(players, score);
    TotalSorted(CreditMe(players, score));
  }
}
