/**
 * The game screen of the React front end (`Activity.tsx`): its component
 * state (board, gem reserve, word input, history, feed, status line,
 * player profile and the lobby snapshot the subscription delivers) as the
 * fields of one object, and the handlers that change it. The lobby itself
 * lives in the typed lobby store, which the handlers call.
 */
module ActivityView {
  import opened Wrappers
  import opened WordBoard
  import LobbyCodes
  import PlayerProfiles
  import LobbyServiceTs

  /** Feed and history keep this many entries. */
  const MaxEntries := 12

  datatype HistoryEntry = HistoryEntry(word: string, score: nat)
  datatype FeedEntry = FeedEntry(player: string, detail: string, value: string)

  /** `[entry, ...previous].slice(0, 12)`: the newest entry first, the oldest dropped beyond 12. */
  function Newest<T>(entry: T, previous: seq<T>): (r: seq<T>)
    ensures |r| == if |previous| < MaxEntries then |previous| + 1 else MaxEntries
    ensures r[0] == entry && r[1..] == previous[..|r| - 1]
  {
    ([entry] + previous)[..if |previous| < MaxEntries then |previous| + 1 else MaxEntries]
  }

  /** Adding entries one by one keeps every list at most 12 long, newest first. */
  lemma {:induction false} NewestAll<T>(entries: seq<T>, previous: seq<T>)
    requires |previous| <= MaxEntries
    ensures |AddAll(entries, previous)| <= MaxEntries
    ensures |entries| > 0 ==> AddAll(entries, previous)[0] == entries[|entries| - 1]
    decreases |entries|
  {
    if entries != [] {
      NewestAll(entries[..|entries| - 1], previous);
    }
  }

  /** The list after adding `entries` in order. */
  function AddAll<T>(entries: seq<T>, previous: seq<T>): seq<T>
    decreases |entries|
  {
    if entries == [] then previous else Newest(entries[|entries| - 1], AddAll(entries[..|entries| - 1], previous))
  }

  /** The three gem actions, each with the random draws it consumes. */
  datatype GemAction =
    | Shuffle(draws: seq<LetterDraw>, ids: seq<string>, picks: BoardPicks)
    | Swap(swapDraws: seq<nat>)
    | Hint

  /** The reserve an action needs and spends. */
  function Cost(action: GemAction): (c: nat)
    ensures c == (match action case Shuffle(_, _, _) => 1 case Swap(_) => 3 case Hint => 4)
    ensures 1 <= c <= 4
  {
    match action
    case Shuffle(_, _, _) => 1
    case Swap(_) => 3
    case Hint => 4
  }

  /** The draws an action may need: a full board draw, or swap indexes within the board that end the resampling. */
  predicate Usable(action: GemAction, boardLength: nat) {
    match action
    case Shuffle(draws, ids, picks) => |draws| == BoardSize && |ids| == BoardSize && ValidBoardPicks(picks)
    case Swap(swapDraws) => SwapDraws(swapDraws, boardLength)
    case Hint => true
  }

  /** What a swap leaves behind: the board, the reserve, and whether the handler threw. */
  datatype SwapOutcome = SwapOutcome(board: seq<Tile>, gemCount: nat, threw: bool)

  /**
   * The swap branch as written. No semicolon ends `const nextBoard = [...board]`,
   * so the next line, which starts with `[`, continues that expression. The
   * initializer then reads `nextBoard` before it is declared and throws. The
   * reserve has already been charged; the board is kept and no status is shown.
   */
  function SwapAsWritten(board: seq<Tile>, gemCount: int): (r: SwapOutcome)
    ensures r.board == board && r.gemCount == ClampGems(gemCount - 3) && r.threw
  {
    SwapOutcome(board, ClampGems(gemCount - 3), true)
  }

  /** The intended swap: two distinct tiles exchange places and the reserve pays 3. */
  function SwapIntended(board: seq<Tile>, gemCount: int, a: nat, b: nat): (r: SwapOutcome)
    requires a < |board| && b < |board|
    ensures multiset(r.board) == multiset(board) && |r.board| == |board|
    ensures r.board[a] == board[b] && r.board[b] == board[a]
    ensures forall i :: 0 <= i < |board| && i != a && i != b ==> r.board[i] == board[i]
    ensures r.gemCount == ClampGems(gemCount - 3) && !r.threw
  {
    SwappedIsPermutation(board, a, b);
    SwapOutcome(Swapped(board, a, b), ClampGems(gemCount - 3), false)
  }

  /** On any board whose two drawn tiles differ, the swap as written spends three gems and moves no tile. */
  lemma SwapAsWrittenMovesNothing(board: seq<Tile>, gemCount: int, a: nat, b: nat)
    requires a < |board| && b < |board| && board[a] != board[b] && 3 <= gemCount <= MaxGems
    ensures SwapAsWritten(board, gemCount).board != SwapIntended(board, gemCount, a, b).board
    ensures SwapAsWritten(board, gemCount).gemCount == gemCount - 3
  {
    assert SwapIntended(board, gemCount, a, b).board[a] == board[b];
  }

  /** Why `handleStartMatch` does or does not start the match. */
  datatype StartDecision = NotHost | NotAllReady | Start

  /** The checks of `handleStartMatch`, in order: host first, then a non-empty list of ready players. */
  function Decide(lobby: LobbyServiceTs.Lobby, playerId: string): (d: StartDecision)
    ensures d == NotHost <==> lobby.hostId != Some(playerId)
  {
    if lobby.hostId != Some(playerId) then NotHost
    else if |lobby.players| == 0 || exists i :: 0 <= i < |lobby.players| && lobby.players[i].ready != Some(true) then NotAllReady
    else Start
  }

  /** The match starts exactly when the caller hosts, someone has joined and every player is ready. */
  lemma DecideStartIff(lobby: LobbyServiceTs.Lobby, playerId: string)
    ensures Decide(lobby, playerId) == Start <==>
      lobby.hostId == Some(playerId) && |lobby.players| > 0 &&
      forall i :: 0 <= i < |lobby.players| ==> lobby.players[i].ready == Some(true)
  {
  }

  /** The feed line for a scored word: the upper-cased word in bold and the points as `+N pts`. */
  function ScoredEntry(player: string, word: string, score: nat): (e: FeedEntry)
    ensures e.player == player
    ensures |e.detail| == |word| + 24 && e.detail[..15] == "scored <strong>" && e.detail[15 + |word|..] == "</strong>"
    ensures forall k :: 0 <= k < |word| ==> e.detail[15 + k] == Upper(word[k])
    ensures |e.value| >= 6 && e.value[..1] == "+" && e.value[|e.value| - 4..] == " pts"
    ensures LobbyCodes.AllDigits(e.value[1..|e.value| - 4]) && LobbyCodes.ParseDecimal(e.value[1..|e.value| - 4]) == score
  {
    var digits := LobbyCodes.ToDecimal(score);
    LobbyCodes.ParseToDecimal(score);
    var e := FeedEntry(player, "scored <strong>" + UpperWord(word) + "</strong>", "+" + digits + " pts");
    assert e.value[1..|e.value| - 4] == digits;
    e
  }

  /** The collection after a store update at index `i` whose updater answered `next`. */
  function Replace(before: seq<LobbyServiceTs.Lobby>, i: int, next: Option<LobbyServiceTs.Lobby>): (r: seq<LobbyServiceTs.Lobby>)
    ensures |r| == |before|
    ensures 0 <= i < |before| && next.Some? ==> r[i] == next.value
    ensures forall j :: 0 <= j < |before| && (j != i || next.None?) ==> r[j] == before[j]
  {
    if 0 <= i < |before| && next.Some? then before[i := next.value] else before
  }

  /** The collection after crediting `score` to `playerId` in the active lobby, if there is one. */
  function Credited(before: seq<LobbyServiceTs.Lobby>, active: Option<LobbyServiceTs.Lobby>, playerId: string, score: nat, now: nat)
    : (r: seq<LobbyServiceTs.Lobby>)
    ensures |r| == |before|
    ensures active.None? || score == 0 ==> r == before
  {
    if active.None? || score == 0 then before
    else
      var i := LobbyServiceTs.IndexOfCode(before, active.value.code);
      Replace(before, i, if i < 0 then None else LobbyServiceTs.ScoreUpdate(before[i], playerId, score, now))
  }

  class Activity {
    var board: seq<Tile>
    var gemCount: int
    var wordInput: string
    var wordHistory: seq<HistoryEntry>
    var activityFeed: seq<FeedEntry>
    var status: Status
    var profile: PlayerProfiles.Profile
    var activeLobby: Option<LobbyServiceTs.Lobby>

    /** The reserve stays in [0, 10], the board has 25 tiles and the lists hold at most 12 entries. */
    ghost predicate Valid()
      reads this
    {
      0 <= gemCount <= MaxGems && |board| == BoardSize && |wordHistory| <= MaxEntries && |activityFeed| <= MaxEntries
    }

    /** The initial state: a generated board, three gems, and the profile from the profile store. */
    constructor(draws: seq<LetterDraw>, ids: seq<string>, picks: BoardPicks, profile: PlayerProfiles.Profile)
      requires |draws| == BoardSize && |ids| == BoardSize && ValidBoardPicks(picks)
      ensures Valid()
      ensures board == Board(draws, ids, picks) && gemCount == 3 && wordInput == ""
      ensures wordHistory == [] && activityFeed == [] && activeLobby == None && this.profile == profile
      ensures status == Status("Loading Discord SDK…", Info)
    {
      BoardLetters(draws, ids, picks);
      var generated := GenerateBoard(draws, ids, picks);
      board := generated;
      gemCount := 3;
      wordInput := "";
      wordHistory := [];
      activityFeed := [];
      status := Status("Loading Discord SDK…", Info);
      this.profile := profile;
      activeLobby := None;
    }

    /** The lobby subscription delivering a new snapshot. */
    method ReceiveLobby(lobby: LobbyServiceTs.Lobby)
      modifies this`activeLobby
      ensures activeLobby == Some(lobby)
    {
      activeLobby := Some(lobby);
    }

    method FlashStatus(message: string, kind: StatusKind)
      modifies this`status
      ensures status == Status(message, kind)
    {
      status := Status(message, kind);
    }

    /** `addFeedEntry` */
    method AddFeedEntry(entry: FeedEntry)
      modifies this`activityFeed
      ensures activityFeed == Newest(entry, old(activityFeed))
    {
      activityFeed := Newest(entry, activityFeed);
    }

    /** `addWordToHistory` */
    method AddWordToHistory(word: string, score: nat)
      modifies this`wordHistory
      ensures wordHistory == Newest(HistoryEntry(word, score), old(wordHistory))
    {
      wordHistory := Newest(HistoryEntry(word, score), wordHistory);
    }

    /** `updateGemCount`: the reserve becomes `value` clamped to [0, 10]. */
    method UpdateGemCount(value: int)
      modifies this`gemCount
      ensures gemCount == ClampGems(value)
    {
      gemCount := ClampGems(value);
    }

    /** This player's score credit in the active lobby: `incrementPlayerScore` when a lobby is active. */
    method CreditScore(store: LobbyServiceTs.Store, score: nat, now: nat)
      requires store.Valid()
      modifies store`lobbies, store`log
      ensures store.Valid()
      ensures store.lobbies == Credited(old(store.lobbies), activeLobby, profile.id, score, now)
      ensures activeLobby.None? || score == 0 ==> store.log == old(store.log)
    {
      if activeLobby.Some? {
        var _ := store.IncrementPlayerScore(activeLobby.value.code, profile.id, score, now);
      }
    }

    /** The history, feed, reserve, status and input after a placed word. */
    method RecordScored(word: string, scored: WordScore)
      requires Valid() && gemCount + scored.gems <= MaxGems
      modifies this`wordHistory, this`activityFeed, this`gemCount, this`status, this`wordInput
      ensures Valid()
      ensures wordHistory == Newest(HistoryEntry(word, scored.score), old(wordHistory))
      ensures activityFeed == Newest(ScoredEntry(profile.name, word, scored.score), old(activityFeed))
      ensures gemCount == old(gemCount) + scored.gems
      ensures status == Status(ScoredMessage(scored.score), Success) && wordInput == ""
    {
      AddWordToHistory(word, scored.score);
      AddFeedEntry(ScoredEntry(profile.name, word, scored.score));
      if scored.gems > 0 {
        UpdateGemCount(gemCount + scored.gems);
      }
      FlashStatus(ScoredMessage(scored.score), Success);
      wordInput := "";
    }

    /**
     * `handleWordSubmit`: trims the input and scores it. A word that cannot be
     * placed only sets an error status. A placed word is added to the history
     * and the feed, credited to this player in the active lobby, and adds its
     * capped gems to the reserve, which so stays within 10.
     */
    method HandleWordSubmit(store: LobbyServiceTs.Store, now: nat)
      requires Valid() && store.Valid()
      modifies this`wordHistory, this`activityFeed, this`gemCount, this`status, this`wordInput
      modifies store`lobbies, store`log
      ensures Valid() && store.Valid()
      ensures board == old(board) && profile == old(profile) && activeLobby == old(activeLobby)
      ensures match Submitted(old(wordInput), board, old(gemCount))
        case Blank => unchanged(this) && unchanged(store)
        case Unplaced(_) =>
          && status == Status("Letters must exist on the board", Error) && unchanged(store)
          && wordHistory == old(wordHistory) && activityFeed == old(activityFeed) && gemCount == old(gemCount)
          && wordInput == old(wordInput)
        case Placed(word, scored) =>
          && wordHistory == Newest(HistoryEntry(word, scored.score), old(wordHistory))
          && activityFeed == Newest(ScoredEntry(profile.name, word, scored.score), old(activityFeed))
          && gemCount == old(gemCount) + scored.gems
          && status == Status(ScoredMessage(scored.score), Success) && wordInput == ""
          && store.lobbies == Credited(old(store.lobbies), activeLobby, profile.id, scored.score, now)
    {
      var submission := SubmitWord(wordInput, board, gemCount);
      ApplySubmission(store, submission, now);
    }

    /** The handler's effect once the submission is known. */
    method ApplySubmission(store: LobbyServiceTs.Store, submission: Submission, now: nat)
      requires Valid() && store.Valid()
      requires submission.Placed? ==> gemCount + submission.scored.gems <= MaxGems
      modifies this`wordHistory, this`activityFeed, this`gemCount, this`status, this`wordInput
      modifies store`lobbies, store`log
      ensures Valid() && store.Valid()
      ensures board == old(board) && profile == old(profile) && activeLobby == old(activeLobby)
      ensures match submission
        case Blank => unchanged(this) && unchanged(store)
        case Unplaced(_) =>
          && status == Status("Letters must exist on the board", Error) && unchanged(store)
          && wordHistory == old(wordHistory) && activityFeed == old(activityFeed) && gemCount == old(gemCount)
          && wordInput == old(wordInput)
        case Placed(word, scored) =>
          && wordHistory == Newest(HistoryEntry(word, scored.score), old(wordHistory))
          && activityFeed == Newest(ScoredEntry(profile.name, word, scored.score), old(activityFeed))
          && gemCount == old(gemCount) + scored.gems
          && status == Status(ScoredMessage(scored.score), Success) && wordInput == ""
          && store.lobbies == Credited(old(store.lobbies), activeLobby, profile.id, scored.score, now)
    {
      match submission
      case Blank =>
      case Unplaced(_) =>
        FlashStatus("Letters must exist on the board", Error);
      case Placed(word, scored) =>
        RecordScored(word, scored);
        CreditScore(store, scored.score, now);
    }

    /**
     * `handleGemAction`: an action the reserve cannot pay for changes nothing.
     * Otherwise the reserve drops by exactly its cost; a shuffle replaces the
     * board, a swap exchanges two distinct tiles, and a hint names the letter
     * of the most valuable tile.
     */
    method HandleGemAction(action: GemAction)
      requires Valid() && (gemCount >= Cost(action) ==> Usable(action, |board|))
      modifies this`gemCount, this`board, this`status
      ensures Valid()
      ensures old(gemCount) < Cost(action) ==> unchanged(this)
      ensures old(gemCount) >= Cost(action) ==> gemCount == old(gemCount) - Cost(action)
      ensures old(gemCount) >= Cost(action) ==> match action
        case Shuffle(draws, ids, picks) =>
          board == Board(draws, ids, picks) && status == Status("Board shuffled", Info)
        case Swap(swapDraws) =>
          var a := swapDraws[0];
          var b := swapDraws[NextDiffering(swapDraws, a, 1)];
          a != b && board == SwapIntended(old(board), old(gemCount), a, b).board && status == Status("Swapped two tiles", Info)
        case Hint =>
          board == old(board) && status == Status(HintMessage(WordBoard.Hint(old(board)).value.letter), HintStatus)
    {
      if gemCount < Cost(action) {
        return;
      }
      match action
      case Shuffle(draws, ids, picks) => ShuffleBoard(draws, ids, picks);
      case Swap(swapDraws) => SwapTiles(swapDraws);
      case Hint => ShowHint();
    }

    /** The shuffle branch: one gem, and a freshly generated board. */
    method ShuffleBoard(draws: seq<LetterDraw>, ids: seq<string>, picks: BoardPicks)
      requires Valid() && gemCount >= 1 && |draws| == BoardSize && |ids| == BoardSize && ValidBoardPicks(picks)
      modifies this`gemCount, this`board, this`status
      ensures Valid()
      ensures gemCount == old(gemCount) - 1 && board == Board(draws, ids, picks) && status == Status("Board shuffled", Info)
    {
      UpdateGemCount(gemCount - 1);
      BoardLetters(draws, ids, picks);
      board := GenerateBoard(draws, ids, picks);
      FlashStatus("Board shuffled", Info);
    }

    /** The swap branch, as intended: three gems, and two distinct tiles exchanged. */
    method SwapTiles(swapDraws: seq<nat>)
      requires Valid() && gemCount >= 3 && SwapDraws(swapDraws, |board|)
      modifies this`gemCount, this`board, this`status
      ensures Valid()
      ensures var a := swapDraws[0];
        var b := swapDraws[NextDiffering(swapDraws, a, 1)];
        && a != b && gemCount == old(gemCount) - 3
        && board == SwapIntended(old(board), old(gemCount), a, b).board
        && status == Status("Swapped two tiles", Info)
    {
      UpdateGemCount(gemCount - 3);
      var idxA, idxB := PickSwap(swapDraws);
      board := SwapIntended(board, gemCount + 3, idxA, idxB).board;
      FlashStatus("Swapped two tiles", Info);
    }

    /** The hint branch: four gems, and the letter of the most valuable tile. */
    method ShowHint()
      requires Valid() && gemCount >= 4
      modifies this`gemCount, this`status
      ensures Valid() && gemCount == old(gemCount) - 4
      ensures status == Status(HintMessage(WordBoard.Hint(board).value.letter), HintStatus)
    {
      UpdateGemCount(gemCount - 4);
      var candidate := WordBoard.Hint(board);
      if candidate.Some? {
        FlashStatus(HintMessage(candidate.value.letter), HintStatus);
      }
    }

    /**
     * `handleStartMatch`: without a lobby nothing happens; a caller who is
     * not host, or a lobby with no players or one not ready, gets an error
     * status; otherwise the lobby's status becomes `active`.
     */
    method HandleStartMatch(store: LobbyServiceTs.Store, now: nat)
      requires store.Valid()
      modifies this`status, store`lobbies, store`log
      ensures store.Valid()
      ensures activeLobby.None? ==> unchanged(this) && unchanged(store)
      ensures activeLobby.Some? ==> match Decide(activeLobby.value, profile.id)
        case NotHost => status == Status("Only the host can start the match.", Error) && unchanged(store)
        case NotAllReady => status == Status("All players need to be ready before starting.", Error) && unchanged(store)
        case Start =>
          var i := LobbyServiceTs.IndexOfCode(old(store.lobbies), activeLobby.value.code);
          && status == Status("Match starting in Discord lobby", Success)
          && store.lobbies == Replace(old(store.lobbies), i,
               if i < 0 then None else Some(LobbyServiceTs.StatusUpdate(old(store.lobbies)[i], "active", now)))
    {
      if activeLobby.None? {
        return;
      }
      var lobby := activeLobby.value;
      var decision := Decide(lobby, profile.id);
      if decision == NotHost {
        FlashStatus("Only the host can start the match.", Error);
        return;
      }
      if decision == NotAllReady {
        FlashStatus("All players need to be ready before starting.", Error);
        return;
      }
      var _ := store.SetLobbyStatus(lobby.code, "active", now);
      FlashStatus("Match starting in Discord lobby", Success);
    }
  }
}
