/**
 * The word board shared by both activity front ends (`Activity.tsx` and
 * `activity.js` carry the same code): tiles, word scoring, board
 * generation, the two-tile swap and the hint. Random draws are inputs.
 */
module WordBoard {
  import opened Wrappers
  import Sorting
  import LobbyCodes

  datatype LetterBonus = DL | TL
  datatype WordBonus = DW | TW

  datatype Tile = Tile(letter: char, value: nat, multiplier: Option<LetterBonus>, word: Option<WordBonus>, gem: bool, id: string)

  /** What `scoreWord` returns for a word it can place. */
  datatype WordScore = WordScore(score: nat, gems: nat)

  /** Most gems the reserve holds. */
  const MaxGems := 10
  /** Letters of six or more earn this bonus. */
  const LongWordBonus := 10
  const LongWordLength := 6

  // ---------------------------------------------------------------- letters

  /** `toUpperCase` on the ASCII letters; every other character is kept. */
  function Upper(c: char): (u: char)
    ensures 'a' <= c <= 'z' ==> 'A' <= u <= 'Z' && u as int == c as int - 32
    ensures !('a' <= c <= 'z') ==> u == c
  {
    if 'a' <= c <= 'z' then (c as int - 32) as char else c
  }

  function UpperWord(w: string): (u: string)
    ensures |u| == |w| && forall k :: 0 <= k < |w| ==> u[k] == Upper(w[k])
  {
    if w == [] then [] else [Upper(w[0])] + UpperWord(w[1..])
  }

  // ---------------------------------------------------------------- greedy matching (specification)

  /** `boardCopy.findIndex((tile) => tile.letter === letter && !tile.used)` */
  function FirstFree(board: seq<Tile>, used: seq<bool>, letter: char): (j: int)
    requires |used| == |board|
    ensures -1 <= j < |board|
    ensures j >= 0 ==> board[j].letter == letter && !used[j]
  {
    if board == [] then -1
    else if board[0].letter == letter && !used[0] then 0
    else var k := FirstFree(board[1..], used[1..], letter); if k < 0 then -1 else k + 1
  }

  /** `FirstFree` finds the lowest such tile, and answers -1 only when there is none. */
  lemma {:induction false} FirstFreeIsLowest(board: seq<Tile>, used: seq<bool>, letter: char)
    requires |used| == |board|
    ensures var j := FirstFree(board, used, letter);
      && (j >= 0 ==> forall i :: 0 <= i < j ==> board[i].letter != letter || used[i])
      && (j < 0 ==> forall i :: 0 <= i < |board| ==> board[i].letter != letter || used[i])
  {
    if board != [] && !(board[0].letter == letter && !used[0]) {
      FirstFreeIsLowest(board[1..], used[1..], letter);
      var k := FirstFree(board[1..], used[1..], letter);
      forall i | 0 < i < |board| && (k < 0 || i < k + 1) ensures board[i].letter != letter || used[i] {
        assert board[1..][i - 1] == board[i] && used[1..][i - 1] == used[i];
      }
    }
  }

  /** The letters of the tiles not yet used. */
  function Free(board: seq<Tile>, used: seq<bool>): multiset<char>
    requires |used| == |board|
  {
    if board == [] then multiset{}
    else (if used[0] then multiset{} else multiset{board[0].letter}) + Free(board[1..], used[1..])
  }

  /**
   * The tiles the letters take, in order: each letter takes the lowest-index
   * tile with that letter that is not used yet, or the word cannot be placed.
   */
  function Match(board: seq<Tile>, used: seq<bool>, letters: seq<char>): (r: Option<seq<nat>>)
    requires |used| == |board|
    ensures r.Some? ==> |r.value| == |letters| && OnBoard(board, r.value)
    decreases |letters|
  {
    if letters == [] then Some([])
    else
      var j := FirstFree(board, used, letters[0]);
      if j < 0 then None
      else match Match(board, used[j := true], letters[1..])
        case None => None
        case Some(rest) => Some([j] + rest)
  }

  /** Each letter takes a tile carrying it that the caller had not used, and no tile is taken twice. */
  lemma {:induction false} MatchPlacesOnDistinctTiles(board: seq<Tile>, used: seq<bool>, letters: seq<char>)
    requires |used| == |board|
    ensures var r := Match(board, used, letters);
      r.Some? ==> && (forall k :: 0 <= k < |letters| ==> board[r.value[k]].letter == letters[k] && !used[r.value[k]])
                  && (forall k, l :: 0 <= k < l < |letters| ==> r.value[k] != r.value[l])
    decreases |letters|
  {
    var r := Match(board, used, letters);
    if letters != [] && r.Some? {
      var j := FirstFree(board, used, letters[0]);
      var used' := used[j := true];
      MatchPlacesOnDistinctTiles(board, used', letters[1..]);
      var rest := Match(board, used', letters[1..]).value;
      assert r.value == [j] + rest;
      forall k | 0 <= k < |letters| ensures board[r.value[k]].letter == letters[k] && !used[r.value[k]] {
        if k > 0 {
          assert r.value[k] == rest[k - 1];
        }
      }
      forall k, l | 0 <= k < l < |letters| ensures r.value[k] != r.value[l] {
        if k == 0 {
          assert r.value[l] == rest[l - 1];
          assert !used'[rest[l - 1]];
        } else {
          assert r.value[k] == rest[k - 1] && r.value[l] == rest[l - 1];
        }
      }
    }
  }

  /** Puts the result of the first `|p|` letters in front of the result of the rest. */
  function Prepend(p: seq<nat>, r: Option<seq<nat>>): Option<seq<nat>> {
    match r
    case None => None
    case Some(q) => Some(p + q)
  }

  lemma FirstFreeIffFree(board: seq<Tile>, used: seq<bool>, letter: char)
    requires |used| == |board|
    ensures FirstFree(board, used, letter) >= 0 <==> letter in Free(board, used)
  {
    if board != [] {
      FirstFreeIffFree(board[1..], used[1..], letter);
    }
  }

  /** Using tile `j` takes exactly its letter away from the free letters. */
  lemma FreeAfterUse(board: seq<Tile>, used: seq<bool>, j: nat)
    requires |used| == |board| && j < |board| && !used[j]
    ensures Free(board, used[j := true]) == Free(board, used) - multiset{board[j].letter}
    ensures board[j].letter in Free(board, used)
  {
    FreeTakesOne(board, used, j);
    var c := board[j].letter;
    var x := Free(board, used[j := true]);
    assert x == Free(board, used) - multiset{c} by {
      forall y ensures x[y] == (Free(board, used) - multiset{c})[y] {
        assert (x + multiset{c})[y] == x[y] + multiset{c}[y];
      }
    }
  }

  lemma {:induction false} FreeTakesOne(board: seq<Tile>, used: seq<bool>, j: nat)
    requires |used| == |board| && j < |board| && !used[j]
    ensures Free(board, used[j := true]) + multiset{board[j].letter} == Free(board, used)
  {
    var u := used[j := true];
    if j == 0 {
      assert u[1..] == used[1..];
    } else {
      assert u[1..] == used[1..][j - 1 := true];
      FreeTakesOne(board[1..], used[1..], j - 1);
      assert u[0] == used[0];
    }
  }

  lemma RemoveOneFits(a: multiset<char>, f: multiset<char>, c: char)
    requires c in f
    ensures a <= f - multiset{c} <==> multiset{c} + a <= f
  {
    if multiset{c} + a <= f {
      forall x ensures a[x] <= (f - multiset{c})[x] {
        assert (multiset{c} + a)[x] <= f[x];
      }
    }
  }

  /** A word can be placed exactly when the unused tiles hold each of its letters as often as it does. */
  lemma {:induction false} MatchIffEnoughLetters(board: seq<Tile>, used: seq<bool>, letters: seq<char>)
    requires |used| == |board|
    ensures Match(board, used, letters).Some? <==> multiset(letters) <= Free(board, used)
    decreases |letters|
  {
    if letters != [] {
      var c := letters[0];
      assert letters == [c] + letters[1..];
      assert multiset(letters) == multiset{c} + multiset(letters[1..]);
      FirstFreeIffFree(board, used, c);
      var j := FirstFree(board, used, c);
      if j >= 0 {
        FreeAfterUse(board, used, j);
        MatchIffEnoughLetters(board, used[j := true], letters[1..]);
        RemoveOneFits(multiset(letters[1..]), Free(board, used), c);
      }
    }
  }

  /** `used` with the tiles of `p` marked as well. */
  function Mark(used: seq<bool>, p: seq<nat>): (u: seq<bool>)
    ensures |u| == |used| && forall i :: 0 <= i < |used| ==> u[i] == (used[i] || i in p)
  {
    seq(|used|, i requires 0 <= i < |used| => used[i] || i in p)
  }

  /**
   * Each letter's tile is the lowest-index tile with that letter that neither
   * the caller nor an earlier letter of the word used (by the contract of
   * `FirstFree`).
   */
  lemma {:induction false} MatchTakesLowest(board: seq<Tile>, used: seq<bool>, letters: seq<char>, k: nat)
    requires |used| == |board|
    requires Match(board, used, letters).Some? && k < |letters|
    ensures var p := Match(board, used, letters).value; p[k] == FirstFree(board, Mark(used, p[..k]), letters[k])
    decreases |letters|
  {
    var p := Match(board, used, letters).value;
    var j := FirstFree(board, used, letters[0]);
    var used' := used[j := true];
    var rest := Match(board, used', letters[1..]).value;
    assert p == [j] + rest;
    if k == 0 {
      assert Mark(used, p[..0]) == used;
    } else {
      MatchTakesLowest(board, used', letters[1..], k - 1);
      assert p[..k] == [j] + rest[..k - 1];
      assert Mark(used', rest[..k - 1]) == Mark(used, p[..k]);
    }
  }

  /** Unfolding one step of the greedy matching. */
  lemma MatchStep(board: seq<Tile>, used: seq<bool>, letters: seq<char>, k: nat, j: int)
    requires |used| == |board| && k < |letters| && j == FirstFree(board, used, letters[k])
    ensures j < 0 ==> Match(board, used, letters[k..]) == None
    ensures j >= 0 ==> Match(board, used, letters[k..]) == Prepend([j], Match(board, used[j := true], letters[k + 1..]))
  {
    assert letters[k..][0] == letters[k];
    assert letters[k..][1..] == letters[k + 1..];
  }

  // ---------------------------------------------------------------- scoring (specification)

  /** A tile's letter score: its value, doubled on DL and tripled on TL. */
  function LetterScore(t: Tile): nat {
    match t.multiplier
    case None => t.value
    case Some(DL) => t.value * 2
    case Some(TL) => t.value * 3
  }

  /** A tile's word factor: 2 on DW, 3 on TW, otherwise 1. */
  function WordFactor(t: Tile): nat {
    match t.word
    case None => 1
    case Some(DW) => 2
    case Some(TW) => 3
  }

  /** The product of two naturals, kept out of the larger proofs. */
  function Times(a: nat, b: nat): (c: nat)
    ensures c == a * b
  {
    a * b
  }

  predicate OnBoard(board: seq<Tile>, p: seq<nat>) {
    forall k :: 0 <= k < |p| ==> p[k] < |board|
  }

  /** The three running totals of `scoreWord`: letter scores, word factor, gem tiles. */
  datatype Tally = Tally(base: nat, mult: nat, gems: nat)

  /** The totals after taking one more tile. */
  function Add(t: Tally, tile: Tile): Tally {
    Tally(t.base + LetterScore(tile), Times(t.mult, WordFactor(tile)), t.gems + (if tile.gem then 1 else 0))
  }

  /** The totals over the tiles `p`, in order. */
  function TallyOf(board: seq<Tile>, p: seq<nat>): (t: Tally)
    requires OnBoard(board, p)
    ensures t.mult >= 1 && t.gems <= |p|
  {
    if p == [] then Tally(0, 1, 0) else Add(TallyOf(board, p[..|p| - 1]), board[p[|p| - 1]])
  }

  /** `board.map((tile) => ({ ...tile, used: false }))`: no tile used yet. */
  function NoneUsed(n: nat): (u: seq<bool>)
    ensures |u| == n && forall i :: 0 <= i < n ==> !u[i]
  {
    seq(n, _ => false)
  }

  /** `Math.min(gemsEarned, Math.max(0, 10 - gemCount))` */
  function GemsCapped(earned: nat, gemCount: int): (g: nat)
    ensures g <= earned
    ensures gemCount < MaxGems ==> g <= MaxGems - gemCount
    ensures gemCount >= MaxGems ==> g == 0
    ensures earned <= MaxGems - gemCount ==> g == earned
  {
    var room := if MaxGems - gemCount > 0 then MaxGems - gemCount else 0;
    if earned < room then earned else room
  }

  /** What `scoreWord(word)` answers on `board` with `gemCount` gems in reserve. */
  function Scored(board: seq<Tile>, word: string, gemCount: int): Option<WordScore> {
    var letters := UpperWord(word);
    var m := Match(board, NoneUsed(|board|), letters);
    if m.None? then None else Some(ScoreOf(board, m.value, |letters|, gemCount))
  }

  /** The score of a word of `length` letters placed on the tiles `p`. */
  function ScoreOf(board: seq<Tile>, p: seq<nat>, length: nat, gemCount: int): WordScore
    requires OnBoard(board, p)
  {
    Finished(TallyOf(board, p), length, gemCount)
  }

  /** The long-word bonus for a word of `length` letters. */
  function Bonus(length: nat): nat {
    if length >= LongWordLength then LongWordBonus else 0
  }

  /** The result from the totals: `(base + bonus) * wordMultiplier` points and the capped gems. */
  function Finished(t: Tally, length: nat, gemCount: int): WordScore {
    WordScore(Times(t.base + Bonus(length), t.mult), GemsCapped(t.gems, gemCount))
  }

  /** The letters are placed on distinct tiles when and only when the board holds enough of each letter. */
  lemma ScoredIffEnoughLetters(board: seq<Tile>, word: string, gemCount: int)
    ensures Scored(board, word, gemCount).Some? <==> multiset(UpperWord(word)) <= Free(board, NoneUsed(|board|))
  {
    MatchIffEnoughLetters(board, NoneUsed(|board|), UpperWord(word));
  }

  /** Gems earned never take the reserve above the cap, and never exceed the gem tiles the word covers. */
  lemma ScoredGemsBounded(board: seq<Tile>, word: string, gemCount: int)
    requires 0 <= gemCount <= MaxGems
    ensures var r := Scored(board, word, gemCount);
      r.Some? ==> gemCount + r.value.gems <= MaxGems && r.value.gems <= |word|
  {
  }

  /** On a board without letter or word bonuses a short word scores the sum of its tiles' values. */
  lemma {:induction false} PlainBoardScoresValues(board: seq<Tile>, p: seq<nat>)
    requires OnBoard(board, p)
    requires forall i :: 0 <= i < |board| ==> board[i].multiplier.None? && board[i].word.None?
    ensures TallyOf(board, p).base == ValueSum(board, p) && TallyOf(board, p).mult == 1
  {
    if p != [] {
      PlainBoardScoresValues(board, p[..|p| - 1]);
    }
  }

  function ValueSum(board: seq<Tile>, p: seq<nat>): nat
    requires OnBoard(board, p)
  {
    if p == [] then 0 else ValueSum(board, p[..|p| - 1]) + board[p[|p| - 1]].value
  }

  /** Extending the taken tiles by one adds that tile to the totals. */
  lemma TallyExtend(board: seq<Tile>, p: seq<nat>, j: nat)
    requires OnBoard(board, p) && j < |board|
    ensures OnBoard(board, p + [j])
    ensures TallyOf(board, p + [j]) == Add(TallyOf(board, p), board[j])
  {
    assert (p + [j])[..|p|] == p;
  }

  /**
   * The letters from index `k` on, taken in the order the loop of
   * `ScoreWord` takes them, with the totals `t` so far.
   */
  function Run(board: seq<Tile>, used: seq<bool>, letters: seq<char>, k: nat, t: Tally): Option<Tally>
    requires |used| == |board| && k <= |letters|
    decreases |letters| - k
  {
    if k == |letters| then Some(t)
    else
      var j := FirstFree(board, used, letters[k]);
      if j < 0 then None else Run(board, used[j := true], letters, k + 1, Add(t, board[j]))
  }

  /** Walking the letters in order totals exactly the tiles the greedy matching takes. */
  lemma {:induction false} RunIsMatch(board: seq<Tile>, used: seq<bool>, letters: seq<char>, k: nat, picks: seq<nat>)
    requires |used| == |board| && k <= |letters| && OnBoard(board, picks)
    ensures var m := Match(board, used, letters[k..]);
      Run(board, used, letters, k, TallyOf(board, picks)) == (if m.None? then None else Some(TallyOf(board, picks + m.value)))
    decreases |letters| - k
  {
    if k == |letters| {
      assert letters[k..] == [];
      assert picks + [] == picks;
    } else {
      var j := FirstFree(board, used, letters[k]);
      MatchStep(board, used, letters, k, j);
      if j >= 0 {
        TallyExtend(board, picks, j);
        RunIsMatch(board, used[j := true], letters, k + 1, picks + [j]);
        var m' := Match(board, used[j := true], letters[k + 1..]);
        if m'.Some? {
          assert picks + ([j] + m'.value) == (picks + [j]) + m'.value;
        }
      }
    }
  }

  /** `Scored` as the walk over the letters from a fresh board copy. */
  lemma ScoredIsRun(board: seq<Tile>, word: string, gemCount: int)
    ensures var r := Run(board, NoneUsed(|board|), UpperWord(word), 0, Tally(0, 1, 0));
      Scored(board, word, gemCount) == (if r.None? then None else Some(Finished(r.value, |word|, gemCount)))
  {
    var letters := UpperWord(word);
    RunIsMatch(board, NoneUsed(|board|), letters, 0, []);
    assert letters[0..] == letters;
    var m := Match(board, NoneUsed(|board|), letters);
    if m.Some? {
      assert [] + m.value == m.value;
    }
  }

  // ---------------------------------------------------------------- scoring (the loop)

  /**
   * `scoreWord(word)`: walks the letters with a private `used` mark per
   * tile, adding letter scores and multiplying word factors as it goes.
   * The board itself is a value and is not changed.
   */
  method ScoreWord(board: seq<Tile>, word: string, gemCount: int) returns (r: Option<WordScore>)
    ensures r == Scored(board, word, gemCount)
  {
    var letters := UpperWord(word);
    var used := NoneUsed(|board|);
    var baseScore: nat := 0;
    var wordMultiplier: nat := 1;
    var gemsEarned: nat := 0;
    ScoredIsRun(board, word, gemCount);
    ghost var whole := Run(board, used, letters, 0, Tally(0, 1, 0));
    var k := 0;
    while k < |letters|
      invariant 0 <= k <= |letters| && |used| == |board|
      invariant whole == Run(board, used, letters, k, Tally(baseScore, wordMultiplier, gemsEarned))
    {
      var tileIndex := FirstFree(board, used, letters[k]);
      if tileIndex == -1 {
        return None;
      }
      var tile := board[tileIndex];
      used := used[tileIndex := true];
      var letterScore := LetterScore(tile);
      baseScore := baseScore + letterScore;
      wordMultiplier := Times(wordMultiplier, WordFactor(tile));
      if tile.gem {
        gemsEarned := gemsEarned + 1;
      }
      k := k + 1;
    }
    if |letters| >= LongWordLength {
      baseScore := baseScore + LongWordBonus;
    }
    r := Some(WordScore(Times(baseScore, wordMultiplier), GemsCapped(gemsEarned, gemCount)));
  }

  // ---------------------------------------------------------------- board generation

  /** A letter and its value as `randomLetter` draws them. */
  datatype LetterDraw = LetterDraw(letter: char, value: nat)

  /** A special a tile can be given: a letter bonus, a word bonus, or a gem. */
  datatype Special = Letter(bonus: LetterBonus) | Word(wordBonus: WordBonus) | Gem

  const BoardSize := 25
  /** `multiplierTiles` */
  const MultiplierTiles: seq<Special> := [Letter(DL), Letter(DL), Letter(TL), Letter(TL)]
  /** `wordTiles` */
  const WordTiles: seq<Special> := [Word(DW), Word(DW), Word(TW)]
  /** `gemTileCount` */
  const GemTileCount := 5

  /** The letter groups of `letterPool`: letters, value, weight. */
  datatype LetterGroup = LetterGroup(letters: string, value: nat, weight: nat)
  const LetterPool := [LetterGroup("AEIO", 1, 32), LetterGroup("DGLNRSTU", 2, 28), LetterGroup("BCFHMVPWY", 3, 20),
                       LetterGroup("K", 4, 8), LetterGroup("JX", 5, 6), LetterGroup("QZ", 8, 6)]

  /** A letter/value pair `randomLetter` can produce (the `E`/1 fallback is already in the pool). */
  predicate InPool(d: LetterDraw) {
    exists k :: 0 <= k < |LetterPool| && d.letter in LetterPool[k].letters && d.value == LetterPool[k].value
  }

  function WithSpecial(t: Tile, s: Special): (r: Tile)
    ensures r.letter == t.letter && r.value == t.value && r.id == t.id
  {
    match s
    case Letter(b) => t.(multiplier := Some(b))
    case Word(w) => t.(word := Some(w))
    case Gem => t.(gem := true)
  }

  /** `picks[k]` is the splice position of the `k`-th draw while `n - k` indexes remain. */
  predicate ValidPicks(n: nat, picks: seq<nat>) {
    forall k :: 0 <= k < |picks| && k < n ==> picks[k] < n - k
  }

  /** No element occurs twice. */
  ghost predicate NoRepeats(s: seq<nat>) {
    forall x :: multiset(s)[x] <= 1
  }

  /** The indexes drawn and the indexes left after splicing `avail` at `picks` in turn (stopping once `avail` is empty). */
  datatype Split = Split(chosen: seq<nat>, left: seq<nat>)

  function Splice(avail: seq<nat>, picks: seq<nat>): (r: Split)
    requires ValidPicks(|avail|, picks)
    ensures |r.left| == (if |picks| <= |avail| then |avail| - |picks| else 0)
    ensures |r.chosen| == (if |picks| <= |avail| then |picks| else |avail|)
    decreases |picks|
  {
    if picks == [] then Split([], avail)
    else
      var n := |picks| - 1;
      assert ValidPicks(|avail|, picks[..n]) by {
        forall k | 0 <= k < n && k < |avail| ensures picks[..n][k] < |avail| - k {
          assert picks[..n][k] == picks[k];
        }
      }
      var prev := Splice(avail, picks[..n]);
      if prev.left == [] then prev
      else
        var p := picks[n];
        Split(prev.chosen + [prev.left[p]], prev.left[..p] + prev.left[p + 1..])
  }

  lemma ValidPrefix(n: nat, picks: seq<nat>, m: nat)
    requires ValidPicks(n, picks) && m <= |picks|
    ensures ValidPicks(n, picks[..m])
  {
    forall k | 0 <= k < m && k < n ensures picks[..m][k] < n - k {
      assert picks[..m][k] == picks[k];
    }
  }

  /** Splicing only moves indexes: what was drawn and what is left together are `avail`. */
  lemma {:induction false} SpliceKeeps(avail: seq<nat>, picks: seq<nat>)
    requires ValidPicks(|avail|, picks)
    ensures multiset(Splice(avail, picks).chosen + Splice(avail, picks).left) == multiset(avail)
    decreases |picks|
  {
    if picks != [] {
      var n := |picks| - 1;
      ValidPrefix(|avail|, picks, n);
      SpliceKeeps(avail, picks[..n]);
      var prev := Splice(avail, picks[..n]);
      if prev.left != [] {
        SpliceStep(avail, picks, n);
        assert picks[..n + 1] == picks;
        MoveDrawn(prev.chosen, prev.left, picks[n]);
      }
    }
  }

  /** Moving the element at `p` from what is left to the end of what is drawn keeps the multiset. */
  lemma MoveDrawn(chosen: seq<nat>, left: seq<nat>, p: nat)
    requires p < |left|
    ensures multiset((chosen + [left[p]]) + (left[..p] + left[p + 1..])) == multiset(chosen + left)
  {
    assert left == left[..p] + [left[p]] + left[p + 1..];
    calc {
      multiset((chosen + [left[p]]) + (left[..p] + left[p + 1..]));
      multiset(chosen) + multiset{left[p]} + multiset(left[..p]) + multiset(left[p + 1..]);
      multiset(chosen) + multiset(left[..p] + [left[p]] + left[p + 1..]);
      multiset(chosen + left);
    }
  }

  /** Distinct indexes spliced stay distinct, both among the drawn and against the rest. */
  lemma SpliceDistinct(avail: seq<nat>, picks: seq<nat>)
    requires ValidPicks(|avail|, picks) && NoRepeats(avail)
    ensures NoRepeats(Splice(avail, picks).chosen + Splice(avail, picks).left)
  {
    SpliceKeeps(avail, picks);
  }

  /** Two positions holding the same index count it twice. */
  lemma RepeatCounted(s: seq<nat>, i: nat, j: nat)
    requires i < j < |s|
    ensures s[i] == s[j] ==> multiset(s)[s[i]] >= 2
  {
    assert s == s[..i] + [s[i]] + s[i + 1..j] + [s[j]] + s[j + 1..];
  }

  /** Distinct indexes in index form. */
  lemma NoRepeatsDistinct(s: seq<nat>)
    requires NoRepeats(s)
    ensures forall i, j :: 0 <= i < j < |s| ==> s[i] != s[j]
  {
    forall i, j | 0 <= i < j < |s| ensures s[i] != s[j] {
      RepeatCounted(s, i, j);
    }
  }

  /** The tiles after giving `chosen[k]` the special `types[k]`, in order. */
  function Assigned(tiles: seq<Tile>, chosen: seq<nat>, types: seq<Special>): (r: seq<Tile>)
    requires |chosen| <= |types| && forall k :: 0 <= k < |chosen| ==> chosen[k] < |tiles|
    ensures |r| == |tiles|
    decreases |chosen|
  {
    if chosen == [] then tiles
    else
      var n := |chosen| - 1;
      var prev := Assigned(tiles, chosen[..n], types);
      prev[chosen[n] := WithSpecial(prev[chosen[n]], types[n])]
  }

  /** With distinct targets each chosen tile gets its own special and every other tile is untouched. */
  lemma {:induction false} AssignedAt(tiles: seq<Tile>, chosen: seq<nat>, types: seq<Special>)
    requires |chosen| <= |types| && forall k :: 0 <= k < |chosen| ==> chosen[k] < |tiles|
    requires forall k, l :: 0 <= k < l < |chosen| ==> chosen[k] != chosen[l]
    ensures forall k :: 0 <= k < |chosen| ==> Assigned(tiles, chosen, types)[chosen[k]] == WithSpecial(tiles[chosen[k]], types[k])
    ensures forall i :: 0 <= i < |tiles| && i !in chosen ==> Assigned(tiles, chosen, types)[i] == tiles[i]
    decreases |chosen|
  {
    if chosen != [] {
      var n := |chosen| - 1;
      AssignedAt(tiles, chosen[..n], types);
      forall i | 0 <= i < |tiles| && i !in chosen ensures Assigned(tiles, chosen, types)[i] == tiles[i] {
        assert i !in chosen[..n];
      }
      forall k | 0 <= k < n ensures Assigned(tiles, chosen, types)[chosen[k]] == WithSpecial(tiles[chosen[k]], types[k]) {
        assert chosen[..n][k] == chosen[k];
      }
      assert chosen[n] !in chosen[..n];
    }
  }

  /**
   * `assignSpecial(tilesToAssign, key)`: each special goes on an index
   * spliced out of `availableIndexes`; the loop stops once none is left.
   */
  method AssignSpecial(tiles: seq<Tile>, avail: seq<nat>, types: seq<Special>, picks: seq<nat>)
    returns (tiles': seq<Tile>, avail': seq<nat>, chosen: seq<nat>)
    requires |picks| == |types| && ValidPicks(|avail|, picks)
    requires Below(avail, |tiles|)
    ensures chosen == Splice(avail, picks).chosen && avail' == Splice(avail, picks).left
    ensures Below(chosen, |tiles|)
    ensures tiles' == Assigned(tiles, chosen, types)
  {
    tiles' := tiles;
    avail' := avail;
    chosen := [];
    SpecialStart(tiles, avail, types, picks);
    var k := 0;
    while k < |types|
      invariant AssignedSoFar(tiles, avail, types, picks, k, chosen, avail', tiles')
      decreases |types| - k
    {
      if |avail'| == 0 {
        SpecialDone(tiles, avail, types, picks, k, chosen, avail', tiles');
        return;
      }
      var p := picks[k];
      SpecialStep(tiles, avail, types, picks, k, chosen, avail', tiles');
      var idx := avail'[p];
      avail' := avail'[..p] + avail'[p + 1..];
      chosen := chosen + [idx];
      tiles' := tiles'[idx := WithSpecial(tiles'[idx], types[k])];
      k := k + 1;
    }
    SpecialDone(tiles, avail, types, picks, k, chosen, avail', tiles');
  }

  /** The `assignSpecial` loop after `k` passes: `chosen` and `left` are the first `k` splices and `cur` has their specials. */
  ghost predicate AssignedSoFar(tiles: seq<Tile>, avail: seq<nat>, types: seq<Special>, picks: seq<nat>, k: nat,
                                chosen: seq<nat>, left: seq<nat>, cur: seq<Tile>)
  {
    && |picks| == |types| && ValidPicks(|avail|, picks) && k <= |types| && |chosen| == k
    && ValidPicks(|avail|, picks[..k]) && Split(chosen, left) == Splice(avail, picks[..k])
    && Below(chosen, |tiles|) && Below(left, |tiles|) && cur == Assigned(tiles, chosen, types)
  }

  /** Before the first pass nothing is drawn. */
  lemma SpecialStart(tiles: seq<Tile>, avail: seq<nat>, types: seq<Special>, picks: seq<nat>)
    requires |picks| == |types| && ValidPicks(|avail|, picks) && Below(avail, |tiles|)
    ensures AssignedSoFar(tiles, avail, types, picks, 0, [], avail, tiles)
  {
    ValidPrefix(|avail|, picks, 0);
    assert picks[..0] == [];
  }

  /** One pass of the `assignSpecial` loop keeps its invariant. */
  lemma SpecialStep(tiles: seq<Tile>, avail: seq<nat>, types: seq<Special>, picks: seq<nat>, k: nat,
                    chosen: seq<nat>, left: seq<nat>, cur: seq<Tile>)
    requires AssignedSoFar(tiles, avail, types, picks, k, chosen, left, cur) && k < |types| && left != []
    ensures picks[k] < |left| && left[picks[k]] < |cur|
    ensures var p := picks[k]; var idx := left[p];
      AssignedSoFar(tiles, avail, types, picks, k + 1, chosen + [idx], left[..p] + left[p + 1..],
                    cur[idx := WithSpecial(cur[idx], types[k])])
  {
    SpliceStep(avail, picks, k);
    AssignedStep(tiles, chosen, left[picks[k]], types);
    BelowSpliced(left, picks[k], |tiles|);
  }

  /** The loop ends with every pick made, or with nothing left to splice, and either way it has done all of `Splice`. */
  lemma SpecialDone(tiles: seq<Tile>, avail: seq<nat>, types: seq<Special>, picks: seq<nat>, k: nat,
                    chosen: seq<nat>, left: seq<nat>, cur: seq<Tile>)
    requires AssignedSoFar(tiles, avail, types, picks, k, chosen, left, cur) && (k == |types| || left == [])
    ensures chosen == Splice(avail, picks).chosen && left == Splice(avail, picks).left
    ensures Below(chosen, |tiles|) && cur == Assigned(tiles, chosen, types)
  {
    if k == |types| {
      assert picks[..k] == picks;
    } else {
      SpliceStops(avail, picks, k);
    }
  }

  /** One more pick splices one more index out of what is left. */
  lemma SpliceStep(avail: seq<nat>, picks: seq<nat>, k: nat)
    requires ValidPicks(|avail|, picks) && k < |picks| && ValidPicks(|avail|, picks[..k])
    requires Splice(avail, picks[..k]).left != []
    ensures ValidPicks(|avail|, picks[..k + 1]) && picks[k] < |Splice(avail, picks[..k]).left|
    ensures var prev := Splice(avail, picks[..k]); var p := picks[k];
      Splice(avail, picks[..k + 1]) == Split(prev.chosen + [prev.left[p]], prev.left[..p] + prev.left[p + 1..])
  {
    ValidPrefix(|avail|, picks, k + 1);
    assert picks[..k + 1][..k] == picks[..k];
  }

  /** Splicing one element out keeps the rest below the bound. */
  lemma BelowSpliced(s: seq<nat>, p: nat, n: nat)
    requires Below(s, n) && p < |s|
    ensures Below(s[..p] + s[p + 1..], n) && s[p] < n
  {
    var r := s[..p] + s[p + 1..];
    forall k | 0 <= k < |r| ensures r[k] < n {
      if k < p { assert r[k] == s[k]; } else { assert r[k] == s[k + 1]; }
    }
  }

  /** Assigning one more special updates just that tile. */
  lemma AssignedStep(tiles: seq<Tile>, chosen: seq<nat>, idx: nat, types: seq<Special>)
    requires |chosen| < |types| && Below(chosen, |tiles|) && idx < |tiles|
    ensures Below(chosen + [idx], |tiles|)
    ensures var prev := Assigned(tiles, chosen, types);
      Assigned(tiles, chosen + [idx], types) == prev[idx := WithSpecial(prev[idx], types[|chosen|])]
  {
    assert (chosen + [idx])[..|chosen|] == chosen;
  }

  /** Once nothing is left to splice, further picks draw nothing. */
  lemma {:induction false} SpliceStops(avail: seq<nat>, picks: seq<nat>, k: nat)
    requires ValidPicks(|avail|, picks) && k <= |picks|
    requires ValidPicks(|avail|, picks[..k]) && Splice(avail, picks[..k]).left == []
    ensures Splice(avail, picks) == Splice(avail, picks[..k])
    decreases |picks| - k
  {
    if k < |picks| {
      ValidPrefix(|avail|, picks, k + 1);
      assert picks[..k + 1][..k] == picks[..k];
      SpliceStops(avail, picks, k + 1);
    } else {
      assert picks[..k] == picks;
    }
  }

  /** As many gem specials as there are gem indexes. */
  function Gems(n: nat): (r: seq<Special>)
    ensures |r| == n && forall k :: 0 <= k < n ==> r[k] == Gem
  {
    seq(n, _ => Gem)
  }

  /** The final loop of `generateBoard`: every shuffled index becomes a gem tile. */
  method MarkGems(tiles: seq<Tile>, shuffled: seq<nat>) returns (tiles': seq<Tile>)
    requires forall k :: 0 <= k < |shuffled| ==> shuffled[k] < |tiles|
    ensures tiles' == Assigned(tiles, shuffled, Gems(|shuffled|))
  {
    tiles' := tiles;
    for k := 0 to |shuffled|
      invariant tiles' == Assigned(tiles, shuffled[..k], Gems(|shuffled|))
    {
      var idx := shuffled[k];
      assert shuffled[..k + 1][..k] == shuffled[..k];
      tiles' := tiles'[idx := WithSpecial(tiles'[idx], Gem)];
    }
    assert shuffled[..|shuffled|] == shuffled;
  }

  /** `tiles.keys()` */
  function Indexes(n: nat): (r: seq<nat>)
    ensures |r| == n && forall i :: 0 <= i < n ==> r[i] == i
  {
    seq(n, i => i)
  }

  /** The 25 plain tiles before any special is assigned. */
  function PlainTiles(draws: seq<LetterDraw>, ids: seq<string>): (r: seq<Tile>)
    requires |draws| == BoardSize && |ids| == BoardSize
    ensures |r| == BoardSize
  {
    seq(BoardSize, i requires 0 <= i < BoardSize => Tile(draws[i].letter, draws[i].value, None, None, false, ids[i]))
  }

  /** The random choices of one `generateBoard` call: splice positions for the letter and word bonuses, and the gem draws that stand for the shuffle. */
  datatype BoardPicks = BoardPicks(multipliers: seq<nat>, words: seq<nat>, gems: seq<nat>)

  predicate ValidBoardPicks(p: BoardPicks) {
    && |p.multipliers| == |MultiplierTiles| && ValidPicks(BoardSize, p.multipliers)
    && |p.words| == |WordTiles| && ValidPicks(BoardSize - |MultiplierTiles|, p.words)
    && |p.gems| == GemTileCount && ValidPicks(BoardSize - |MultiplierTiles| - |WordTiles|, p.gems)
  }

  /** Where each kind of special lands. */
  datatype Layout = Layout(multipliers: seq<nat>, words: seq<nat>, gems: seq<nat>)

  function LayoutOf(p: BoardPicks): Layout
    requires ValidBoardPicks(p)
  {
    var first := Splice(Indexes(BoardSize), p.multipliers);
    var second := Splice(first.left, p.words);
    Layout(first.chosen, second.chosen, Splice(second.left, p.gems).chosen)
  }

  /** The board `generateBoard` returns for the given draws. */
  function Board(draws: seq<LetterDraw>, ids: seq<string>, p: BoardPicks): seq<Tile>
    requires |draws| == BoardSize && |ids| == BoardSize && ValidBoardPicks(p)
  {
    var first := Splice(Indexes(BoardSize), p.multipliers);
    var second := Splice(first.left, p.words);
    var gems := Splice(second.left, p.gems).chosen;
    LayoutInRange(p);
    assert first.chosen == LayoutOf(p).multipliers && second.chosen == LayoutOf(p).words && gems == LayoutOf(p).gems;
    Assigned(Assigned(Assigned(PlainTiles(draws, ids), first.chosen, MultiplierTiles), second.chosen, WordTiles),
             gems, Gems(|gems|))
  }

  /** Every element is below `n`. */
  predicate Below(s: seq<nat>, n: nat) {
    forall k :: 0 <= k < |s| ==> s[k] < n
  }

  /** Splicing draws indexes only from `avail`. */
  lemma {:induction false} SpliceBelow(avail: seq<nat>, picks: seq<nat>, n: nat)
    requires ValidPicks(|avail|, picks) && Below(avail, n)
    ensures Below(Splice(avail, picks).chosen, n) && Below(Splice(avail, picks).left, n)
    decreases |picks|
  {
    if picks != [] {
      ValidPrefix(|avail|, picks, |picks| - 1);
      SpliceBelow(avail, picks[..|picks| - 1], n);
    }
  }

  /** Every spliced index is a tile index. */
  lemma LayoutInRange(p: BoardPicks)
    requires ValidBoardPicks(p)
    ensures Below(LayoutOf(p).multipliers, BoardSize) && Below(LayoutOf(p).words, BoardSize)
    ensures Below(LayoutOf(p).gems, BoardSize)
  {
    var first := Splice(Indexes(BoardSize), p.multipliers);
    var second := Splice(first.left, p.words);
    SpliceBelow(Indexes(BoardSize), p.multipliers, BoardSize);
    SpliceBelow(first.left, p.words, BoardSize);
    SpliceBelow(second.left, p.gems, BoardSize);
  }

  /** The three draws of specials together with what is left are the 25 tile indexes. */
  lemma LayoutCounts(p: BoardPicks)
    requires ValidBoardPicks(p)
    ensures var first := Splice(Indexes(BoardSize), p.multipliers);
      var second := Splice(first.left, p.words);
      var third := Splice(second.left, p.gems);
      && multiset(first.chosen + first.left) == multiset(Indexes(BoardSize))
      && multiset(second.chosen + second.left) == multiset(first.left)
      && multiset(third.chosen + third.left) == multiset(second.left)
  {
    var first := Splice(Indexes(BoardSize), p.multipliers);
    var second := Splice(first.left, p.words);
    SpliceKeeps(Indexes(BoardSize), p.multipliers);
    SpliceKeeps(first.left, p.words);
    SpliceKeeps(second.left, p.gems);
  }

  /** `generateBoard`: 25 drawn tiles, then the letter bonuses, the word bonuses and the gems. */
  method GenerateBoard(draws: seq<LetterDraw>, ids: seq<string>, p: BoardPicks) returns (tiles: seq<Tile>)
    requires |draws| == BoardSize && |ids| == BoardSize && ValidBoardPicks(p)
    ensures tiles == Board(draws, ids, p)
  {
    tiles := PlainTiles(draws, ids);
    var avail := Indexes(BoardSize);
    var placed;
    SpliceBelow(avail, p.multipliers, BoardSize);
    tiles, avail, placed := AssignSpecial(tiles, avail, MultiplierTiles, p.multipliers);
    SpliceBelow(avail, p.words, BoardSize);
    tiles, avail, placed := AssignSpecial(tiles, avail, WordTiles, p.words);
    var shuffled := Splice(avail, p.gems).chosen;
    SpliceBelow(avail, p.gems, BoardSize);
    tiles := MarkGems(tiles, shuffled);
  }

  /** Index-distinct sequences have no repeats. */
  lemma {:induction false} DistinctNoRepeats(s: seq<nat>)
    requires forall i, j :: 0 <= i < j < |s| ==> s[i] != s[j]
    ensures NoRepeats(s)
    decreases |s|
  {
    if s != [] {
      var n := |s| - 1;
      DistinctNoRepeats(s[..n]);
      assert s == s[..n] + [s[n]];
      assert s[n] !in multiset(s[..n]);
    }
  }

  /** The parts of a sequence without repeats have none, and share nothing. */
  lemma NoRepeatsParts(a: seq<nat>, b: seq<nat>)
    requires NoRepeats(a + b)
    ensures NoRepeats(a) && NoRepeats(b) && multiset(a) !! multiset(b)
  {
    assert multiset(a + b) == multiset(a) + multiset(b);
    forall x ensures multiset(a)[x] <= 1 && multiset(b)[x] <= 1 && (multiset(a)[x] == 0 || multiset(b)[x] == 0) {
      assert multiset(a + b)[x] == multiset(a)[x] + multiset(b)[x];
    }
  }

  /** A tile with no special yet. */
  predicate Plain(t: Tile) {
    t.multiplier.None? && t.word.None? && !t.gem
  }

  /** Giving specials keeps every tile's letter, value and id. */
  lemma {:induction false} AssignedKeepsLetters(tiles: seq<Tile>, chosen: seq<nat>, types: seq<Special>)
    requires |chosen| <= |types| && Below(chosen, |tiles|)
    ensures forall i :: 0 <= i < |tiles| ==>
      var t := Assigned(tiles, chosen, types)[i]; t.letter == tiles[i].letter && t.value == tiles[i].value && t.id == tiles[i].id
    decreases |chosen|
  {
    if chosen != [] {
      AssignedKeepsLetters(tiles, chosen[..|chosen| - 1], types);
    }
  }

  /** A letter bonus on exactly the tiles `m`, the `k`-th getting `MultiplierTiles[k]`. */
  ghost predicate MultipliersAt(t: seq<Tile>, m: seq<nat>) {
    && |m| == |MultiplierTiles| && Below(m, |t|)
    && (forall i :: 0 <= i < |t| ==> (t[i].multiplier.Some? <==> i in m))
    && (forall k :: 0 <= k < |m| ==> t[m[k]].multiplier == Some(MultiplierTiles[k].bonus))
  }

  /** A word bonus on exactly the tiles `w`, the `k`-th getting `WordTiles[k]`. */
  ghost predicate WordsAt(t: seq<Tile>, w: seq<nat>) {
    && |w| == |WordTiles| && Below(w, |t|)
    && (forall i :: 0 <= i < |t| ==> (t[i].word.Some? <==> i in w))
    && (forall k :: 0 <= k < |w| ==> t[w[k]].word == Some(WordTiles[k].wordBonus))
  }

  /** A gem on exactly the tiles `g`. */
  ghost predicate GemsAt(t: seq<Tile>, g: seq<nat>) {
    forall i :: 0 <= i < |t| ==> (t[i].gem <==> i in g)
  }

  ghost predicate SameMultipliers(a: seq<Tile>, b: seq<Tile>) {
    |a| == |b| && forall i :: 0 <= i < |a| ==> a[i].multiplier == b[i].multiplier
  }

  ghost predicate SameWords(a: seq<Tile>, b: seq<Tile>) {
    |a| == |b| && forall i :: 0 <= i < |a| ==> a[i].word == b[i].word
  }

  /** The letter-bonus pass on plain tiles. */
  lemma LetterLayer(tiles: seq<Tile>, m: seq<nat>)
    requires |m| == |MultiplierTiles| && Below(m, |tiles|) && NoRepeats(m)
    requires forall i :: 0 <= i < |tiles| ==> Plain(tiles[i])
    ensures MultipliersAt(Assigned(tiles, m, MultiplierTiles), m)
    ensures SameWords(Assigned(tiles, m, MultiplierTiles), tiles)
    ensures forall i :: 0 <= i < |tiles| ==> !Assigned(tiles, m, MultiplierTiles)[i].gem
  {
    NoRepeatsDistinct(m);
    AssignedAt(tiles, m, MultiplierTiles);
  }

  /** The word-bonus pass on tiles without word bonuses or gems; letter bonuses are untouched. */
  lemma WordLayer(tiles: seq<Tile>, w: seq<nat>)
    requires |w| == |WordTiles| && Below(w, |tiles|) && NoRepeats(w)
    requires forall i :: 0 <= i < |tiles| ==> tiles[i].word.None? && !tiles[i].gem
    ensures WordsAt(Assigned(tiles, w, WordTiles), w)
    ensures SameMultipliers(Assigned(tiles, w, WordTiles), tiles)
    ensures forall i :: 0 <= i < |tiles| ==> !Assigned(tiles, w, WordTiles)[i].gem
  {
    NoRepeatsDistinct(w);
    AssignedAt(tiles, w, WordTiles);
  }

  /** The gem pass on tiles without gems; both bonuses are untouched. */
  lemma GemLayer(tiles: seq<Tile>, g: seq<nat>)
    requires Below(g, |tiles|) && NoRepeats(g)
    requires forall i :: 0 <= i < |tiles| ==> !tiles[i].gem
    ensures GemsAt(Assigned(tiles, g, Gems(|g|)), g)
    ensures SameMultipliers(Assigned(tiles, g, Gems(|g|)), tiles) && SameWords(Assigned(tiles, g, Gems(|g|)), tiles)
  {
    NoRepeatsDistinct(g);
    AssignedAt(tiles, g, Gems(|g|));
  }

  lemma MultipliersKept(a: seq<Tile>, b: seq<Tile>, m: seq<nat>)
    requires SameMultipliers(a, b) && MultipliersAt(b, m)
    ensures MultipliersAt(a, m)
  {
  }

  lemma WordsKept(a: seq<Tile>, b: seq<Tile>, w: seq<nat>)
    requires SameWords(a, b) && WordsAt(b, w)
    ensures WordsAt(a, w)
  {
  }

  /** The spliced layout: 4 letter bonuses, 3 word bonuses and 5 gems, all on different tiles. */
  lemma LayoutDistinct(p: BoardPicks)
    requires ValidBoardPicks(p)
    ensures |LayoutOf(p).multipliers| == 4 && |LayoutOf(p).words| == 3 && |LayoutOf(p).gems| == GemTileCount
    ensures NoRepeats(LayoutOf(p).multipliers + LayoutOf(p).words + LayoutOf(p).gems)
  {
    var first := Splice(Indexes(BoardSize), p.multipliers);
    var second := Splice(first.left, p.words);
    var third := Splice(second.left, p.gems);
    LayoutCounts(p);
    DistinctNoRepeats(Indexes(BoardSize));
    ChainParts(first.chosen, second.chosen, third.chosen, first.left, second.left, third.left, Indexes(BoardSize));
  }

  /** Three draws in a row and what is left do not repeat what the input did not. */
  lemma ChainParts(m: seq<nat>, w: seq<nat>, g: seq<nat>, l1: seq<nat>, l2: seq<nat>, l3: seq<nat>, all: seq<nat>)
    requires multiset(m + l1) == multiset(all) && multiset(w + l2) == multiset(l1) && multiset(g + l3) == multiset(l2)
    requires NoRepeats(all)
    ensures NoRepeats(m + w + g)
  {
    assert multiset(m + w + g) + multiset(l3) == multiset(all) by {
      calc {
        multiset(m + w + g) + multiset(l3);
        multiset(m) + multiset(w) + (multiset(g) + multiset(l3));
        multiset(m) + multiset(w) + multiset(g + l3);
        multiset(m) + (multiset(w) + multiset(l2));
        multiset(m) + multiset(w + l2);
        multiset(m) + multiset(l1);
        multiset(m + l1);
      }
    }
    forall x ensures multiset(m + w + g)[x] <= 1 {
      assert (multiset(m + w + g) + multiset(l3))[x] == multiset(all)[x];
    }
  }

  /** The three passes of `generateBoard` as named boards. */
  lemma BoardPasses(draws: seq<LetterDraw>, ids: seq<string>, p: BoardPicks)
    requires |draws| == BoardSize && |ids| == BoardSize && ValidBoardPicks(p)
    ensures Below(LayoutOf(p).multipliers, BoardSize) && Below(LayoutOf(p).words, BoardSize) && Below(LayoutOf(p).gems, BoardSize)
    ensures var l := LayoutOf(p);
      var t1 := Assigned(PlainTiles(draws, ids), l.multipliers, MultiplierTiles);
      var t2 := Assigned(t1, l.words, WordTiles);
      Board(draws, ids, p) == Assigned(t2, l.gems, Gems(|l.gems|))
  {
    LayoutInRange(p);
  }

  /** A generated board keeps the drawn letters, values and ids in order. */
  lemma BoardLetters(draws: seq<LetterDraw>, ids: seq<string>, p: BoardPicks)
    requires |draws| == BoardSize && |ids| == BoardSize && ValidBoardPicks(p)
    ensures |Board(draws, ids, p)| == BoardSize
    ensures forall i :: 0 <= i < BoardSize ==>
      var t := Board(draws, ids, p)[i]; t.letter == draws[i].letter && t.value == draws[i].value && t.id == ids[i]
  {
    var l := LayoutOf(p);
    BoardPasses(draws, ids, p);
    var t0 := PlainTiles(draws, ids);
    var t1 := Assigned(t0, l.multipliers, MultiplierTiles);
    var t2 := Assigned(t1, l.words, WordTiles);
    AssignedKeepsLetters(t0, l.multipliers, MultiplierTiles);
    AssignedKeepsLetters(t1, l.words, WordTiles);
    AssignedKeepsLetters(t2, l.gems, Gems(|l.gems|));
  }

  /**
   * Where the specials of a board sit: a letter bonus on exactly the 4
   * letter-bonus tiles, each with its own bonus, a word bonus on exactly the
   * 3 word-bonus tiles and a gem on exactly the 5 gem tiles, no tile getting two.
   */
  ghost predicate LaidOut(t: seq<Tile>, l: Layout) {
    && |t| == BoardSize && |l.gems| == GemTileCount && Below(l.gems, BoardSize)
    && NoRepeats(l.multipliers + l.words + l.gems)
    && MultipliersAt(t, l.multipliers) && WordsAt(t, l.words) && GemsAt(t, l.gems)
  }

  /** The three passes over plain tiles lay the board out so, for any distinct choice of tiles. */
  lemma PassesLayOut(t0: seq<Tile>, m: seq<nat>, w: seq<nat>, g: seq<nat>)
    requires |t0| == BoardSize && forall i :: 0 <= i < |t0| ==> Plain(t0[i])
    requires |m| == |MultiplierTiles| && |w| == |WordTiles| && |g| == GemTileCount
    requires Below(m, BoardSize) && Below(w, BoardSize) && Below(g, BoardSize)
    requires NoRepeats(m + w + g)
    ensures var t1 := Assigned(t0, m, MultiplierTiles);
      var t2 := Assigned(t1, w, WordTiles);
      LaidOut(Assigned(t2, g, Gems(|g|)), Layout(m, w, g))
  {
    assert m + w + g == m + (w + g);
    NoRepeatsParts(m, w + g);
    NoRepeatsParts(w, g);
    var t1 := Assigned(t0, m, MultiplierTiles);
    var t2 := Assigned(t1, w, WordTiles);
    var t3 := Assigned(t2, g, Gems(|g|));
    LetterLayer(t0, m);
    WordLayer(t1, w);
    GemLayer(t2, g);
    MultipliersKept(t2, t1, m);
    MultipliersKept(t3, t2, m);
    WordsKept(t3, t2, w);
  }

  /** A generated board is laid out as its splices chose. */
  lemma BoardLayout(draws: seq<LetterDraw>, ids: seq<string>, p: BoardPicks)
    requires |draws| == BoardSize && |ids| == BoardSize && ValidBoardPicks(p)
    ensures LaidOut(Board(draws, ids, p), LayoutOf(p))
  {
    var l := LayoutOf(p);
    BoardPasses(draws, ids, p);
    LayoutDistinct(p);
    PassesLayOut(PlainTiles(draws, ids), l.multipliers, l.words, l.gems);
  }

  // ---------------------------------------------------------------- swap and hint

  /** The board with the tiles at `a` and `b` exchanged. */
  function Swapped(board: seq<Tile>, a: nat, b: nat): (r: seq<Tile>)
    requires a < |board| && b < |board|
    ensures |r| == |board| && r[a] == board[b] && r[b] == board[a]
    ensures forall i :: 0 <= i < |board| && i != a && i != b ==> r[i] == board[i]
  {
    board[a := board[b]][b := board[a]]
  }

  /** A swap only reorders the board. */
  lemma SwappedIsPermutation(board: seq<Tile>, a: nat, b: nat)
    requires a < |board| && b < |board|
    ensures multiset(Swapped(board, a, b)) == multiset(board)
  {
    if a != b {
      var t := board[a := board[b]];
      UpdateMultiset(board, a, board[b]);
      UpdateMultiset(t, b, board[a]);
      assert t[b] == board[b];
      var r := Swapped(board, a, b);
      forall x ensures multiset(r)[x] == multiset(board)[x] {
        assert (multiset(r) + multiset{board[b]})[x] == (multiset(board) + multiset{board[b]})[x];
      }
    }
  }

  /** Swapping the same two tiles again restores the board. */
  lemma SwappedTwice(board: seq<Tile>, a: nat, b: nat)
    requires a < |board| && b < |board|
    ensures Swapped(Swapped(board, a, b), a, b) == board
  {
  }

  /** Overwriting one element trades it for the new value in the multiset. */
  lemma UpdateMultiset<T>(s: seq<T>, i: nat, v: T)
    requires i < |s|
    ensures multiset(s[i := v]) + multiset{s[i]} == multiset(s) + multiset{v}
  {
    assert s == s[..i] + [s[i]] + s[i + 1..];
    assert s[i := v] == s[..i] + [v] + s[i + 1..];
  }

  /** The first draw from `k` on that differs from `a`. */
  function NextDiffering(draws: seq<nat>, a: nat, k: nat): (r: nat)
    requires exists j :: k <= j < |draws| && draws[j] != a
    ensures k <= r < |draws| && draws[r] != a
    ensures forall j :: k <= j < r ==> draws[j] == a
    decreases |draws| - k
  {
    if draws[k] != a then k else NextDiffering(draws, a, k + 1)
  }

  /** Some later draw differs from the first one, so the resampling ends. */
  predicate SwapDrawsEnd(draws: seq<nat>) {
    |draws| > 0 && exists j :: 1 <= j < |draws| && draws[j] != draws[0]
  }

  /** Swap draws that are board indexes and end the resampling. */
  predicate SwapDraws(draws: seq<nat>, boardLength: nat) {
    SwapDrawsEnd(draws) && forall k :: 0 <= k < |draws| ==> draws[k] < boardLength
  }

  /**
   * The index choice of a swap: `idxA` is the first draw and `idxB` is
   * redrawn while it equals `idxA`. Each draw is `Math.floor(Math.random() * board.length)`.
   */
  method PickSwap(draws: seq<nat>) returns (idxA: nat, idxB: nat)
    requires SwapDrawsEnd(draws)
    ensures idxA == draws[0] && idxB == draws[NextDiffering(draws, draws[0], 1)] && idxA != idxB
  {
    idxA := draws[0];
    var k := 1;
    idxB := draws[k];
    while idxB == idxA
      invariant 1 <= k < |draws| && idxB == draws[k]
      invariant forall j :: 1 <= j < k ==> draws[j] == idxA
      invariant exists j :: k <= j < |draws| && draws[j] != idxA
      invariant NextDiffering(draws, idxA, 1) == NextDiffering(draws, idxA, k)
      decreases |draws| - k
    {
      k := k + 1;
      idxB := draws[k];
    }
  }

  function TileValue(t: Tile): int { t.value }

  /** The hint: the head of the board sorted by value, greatest first; `None` for an empty board. */
  function Hint(board: seq<Tile>): (r: Option<Tile>)
    ensures r.None? <==> board == []
    ensures r.Some? ==> r.value in board && forall i :: 0 <= i < |board| ==> board[i].value <= r.value.value
  {
    if board == [] then None
    else
      var sorted := Sorting.SortDesc(board, TileValue);
      assert sorted[0] in multiset(board);
      forall i | 0 <= i < |board| ensures board[i].value <= sorted[0].value {
        Sorting.SortDescHeadIsMax(board, TileValue, i);
      }
      Some(sorted[0])
  }

  /** The hinted tile is the earliest tile of greatest value (the sort is stable). */
  lemma HintIsFirstMostValuable(board: seq<Tile>, k: nat)
    requires k < |board|
    requires forall j :: 0 <= j < |board| ==> board[j].value <= board[k].value
    requires forall j :: 0 <= j < k ==> board[j].value < board[k].value
    ensures Hint(board) == Some(board[k])
  {
    Sorting.SortDescHeadIsFirstMax(board, TileValue, k);
  }

  // ---------------------------------------------------------------- submitted text

  /** The characters `String.prototype.trim` removes: ECMAScript white space and line terminators. */
  predicate IsSpace(c: char) {
    var n := c as int;
    n == 0x09 || n == 0x0A || n == 0x0B || n == 0x0C || n == 0x0D || n == 0x20 || n == 0xA0 || n == 0x1680
    || (0x2000 <= n <= 0x200A) || n == 0x2028 || n == 0x2029 || n == 0x202F || n == 0x205F || n == 0x3000 || n == 0xFEFF
  }

  function TrimStart(s: string): (r: string)
    ensures |r| <= |s| && r == s[|s| - |r|..]
    ensures forall k :: 0 <= k < |s| - |r| ==> IsSpace(s[k])
    ensures r == [] || !IsSpace(r[0])
  {
    if s != [] && IsSpace(s[0]) then TrimStart(s[1..]) else s
  }

  function TrimEnd(s: string): (r: string)
    ensures |r| <= |s| && r == s[..|r|]
    ensures forall k :: |r| <= k < |s| ==> IsSpace(s[k])
    ensures r == [] || !IsSpace(r[|r| - 1])
  {
    if s != [] && IsSpace(s[|s| - 1]) then TrimEnd(s[..|s| - 1]) else s
  }

  /** `trim()`: the text without its leading and trailing white space. */
  function Trim(s: string): (r: string)
    ensures |r| <= |s|
    ensures r == [] || (!IsSpace(r[0]) && !IsSpace(r[|r| - 1]))
  {
    TrimEnd(TrimStart(s))
  }

  /** Trimming twice trims nothing more, and the trimmed text is empty exactly when the input is all white space. */
  lemma TrimFacts(s: string)
    ensures Trim(Trim(s)) == Trim(s)
    ensures Trim(s) == [] <==> forall k :: 0 <= k < |s| ==> IsSpace(s[k])
  {
    var t := Trim(s);
    if t != [] {
      assert TrimStart(t) == t;
      assert TrimEnd(t) == t;
      var u := TrimStart(s);
      assert u[|t| - 1] == t[|t| - 1];
      assert s[|s| - |u| + |t| - 1] == u[|t| - 1];
    }
  }

  // ---------------------------------------------------------------- the gem reserve

  /** `Math.max(0, Math.min(10, value))` */
  function ClampGems(value: int): (r: nat)
    ensures r <= MaxGems
    ensures 0 <= value <= MaxGems ==> r == value
    ensures value < 0 ==> r == 0
    ensures value > MaxGems ==> r == MaxGems
  {
    if value > MaxGems then MaxGems else if value < 0 then 0 else value
  }

  /** Earned gems are capped so that adding them to a reserve in range loses none to the clamp. */
  lemma EarnedGemsFit(earned: nat, gemCount: int)
    requires 0 <= gemCount <= MaxGems
    ensures ClampGems(gemCount + GemsCapped(earned, gemCount)) == gemCount + GemsCapped(earned, gemCount)
    ensures gemCount + GemsCapped(earned, gemCount) == if gemCount + earned <= MaxGems then gemCount + earned else MaxGems
  {
  }

  /** A word's gems, once added, never push the reserve past its limit. */
  lemma ScoredGemsFit(board: seq<Tile>, word: string, gemCount: int)
    requires 0 <= gemCount <= MaxGems && Scored(board, word, gemCount).Some?
    ensures gemCount + Scored(board, word, gemCount).value.gems <= MaxGems
    ensures ClampGems(gemCount + Scored(board, word, gemCount).value.gems) == gemCount + Scored(board, word, gemCount).value.gems
  {
  }

  // ---------------------------------------------------------------- status line

  datatype StatusKind = Info | Success | Error | HintStatus
  /** What `flashStatus(message, type)` shows. */
  datatype Status = Status(message: string, kind: StatusKind)

  /** `Look for words with <strong>X</strong> for max value!` */
  function HintMessage(letter: char): string {
    "Look for words with <strong>" + [letter] + "</strong> for max value!"
  }

  /** `Word scored N points` */
  function ScoredMessage(score: nat): string {
    "Word scored " + LobbyCodes.ToDecimal(score) + " points"
  }

  // ---------------------------------------------------------------- a submitted word

  /** A submission after trimming: nothing, a word that cannot be placed, or a placed word and its score. */
  datatype Submission = Blank | Unplaced(word: string) | Placed(word: string, scored: WordScore)

  /** The trimmed input and its score on `board`. */
  function Submitted(input: string, board: seq<Tile>, gemCount: int): (s: Submission)
    ensures s.Blank? <==> Trim(input) == []
    ensures !s.Blank? ==> s.word == Trim(input)
    ensures s.Placed? <==> Trim(input) != [] && Scored(board, Trim(input), gemCount).Some?
    ensures s.Placed? ==> s.scored == Scored(board, Trim(input), gemCount).value
  {
    var word := Trim(input);
    if word == [] then Blank
    else
      var r := Scored(board, word, gemCount);
      if r.None? then Unplaced(word) else Placed(word, r.value)
  }

  /** Trims and scores a submitted word; a placed word's gems fit in a reserve that is in range. */
  method SubmitWord(input: string, board: seq<Tile>, gemCount: int) returns (s: Submission)
    ensures s == Submitted(input, board, gemCount)
    ensures 0 <= gemCount <= MaxGems && s.Placed? ==> gemCount + s.scored.gems <= MaxGems
  {
    var word := Trim(input);
    if word == [] {
      return Blank;
    }
    var r := ScoreWord(board, word, gemCount);
    if r.None? {
      return Unplaced(word);
    }
    if 0 <= gemCount <= MaxGems {
      ScoredGemsFit(board, word, gemCount);
    }
    return Placed(word, r.value);
  }
}
