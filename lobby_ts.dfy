/**
 * The typed lobby store (`lobby-service.ts`). The persisted collection is the
 * field `lobbies`; every mutation reads it, finds the lobby by code, applies a
 * pure updater that yields the next lobby or nothing, replaces the lobby at
 * its index, persists, then notifies. The ghost `log` records each write,
 * each in-process notification and each cross-tab announcement, so "no
 * write" is `log == old(log)`. Timestamps are a clock value `now`; 0 stands
 * for a missing timestamp.
 */
module LobbyServiceTs {
  import opened Wrappers
  import opened LobbySettings
  import opened Listeners
  import Sorting
  import LobbyCodes

  datatype PlayerEntry = PlayerEntry(
    id: string,
    name: string,
    score: Option<int>,
    ready: Option<bool>,
    isActive: Option<bool>,
    updatedAt: Option<nat>)

  datatype Lobby = Lobby(
    code: string,
    hostId: Option<string>,
    hostName: Option<string>,
    players: seq<PlayerEntry>,
    createdAt: nat,
    updatedAt: nat,
    status: Option<string>,
    channel: Option<string>,
    maxPlayers: int,
    settings: Settings)

  /** `Partial<Lobby>`: the options `ensureLobby` and `createLobby` build from. */
  datatype LobbySeed = LobbySeed(
    code: Option<string>,
    hostId: Option<string>,
    hostName: Option<string>,
    createdAt: Option<nat>,
    updatedAt: Option<nat>,
    players: Option<seq<PlayerEntry>>,
    status: Option<string>,
    channel: Option<string>,
    maxPlayers: Option<int>,
    settings: Option<Settings>)

  const NoSeed := LobbySeed(None, None, None, None, None, None, None, None, None, None)

  /** `defaultLobbySettings` of this copy. */
  const Defaults := Settings(Some("Unranked"), Some(5), Some(0), Some("Highest score after 5 rounds"),
                             Some("Tournament (NA)"), Some("#spellcast-practice"), Some(6), None)

  /** What the store records as it goes. */
  datatype Event =
    | Wrote(lobbies: seq<Lobby>, listListeners: set<ListenerId>)
    | Notified(code: string, listeners: set<ListenerId>, snapshot: Lobby)
    | Announced(code: string)

  /** JavaScript truthiness of an optional string. */
  predicate Truthy(s: Option<string>) {
    s.Some? && s.value != ""
  }

  // ---------------------------------------------------------------- lookup

  /** `lobbies.findIndex((entry) => entry.code === code)` */
  function IndexOfCode(s: seq<Lobby>, code: string): (i: int)
    ensures -1 <= i < |s|
    ensures 0 <= i ==> s[i].code == code && forall j :: 0 <= j < i ==> s[j].code != code
    ensures i == -1 <==> forall j :: 0 <= j < |s| ==> s[j].code != code
  {
    if s == [] then -1
    else if s[0].code == code then 0
    else var k := IndexOfCode(s[1..], code); if k < 0 then -1 else k + 1
  }

  /** `players.findIndex((entry) => entry.id === id)` */
  function IndexOfPlayer(ps: seq<PlayerEntry>, id: string): (i: int)
    ensures -1 <= i < |ps|
    ensures 0 <= i ==> ps[i].id == id && forall j :: 0 <= j < i ==> ps[j].id != id
    ensures i == -1 <==> forall j :: 0 <= j < |ps| ==> ps[j].id != id
  {
    if ps == [] then -1
    else if ps[0].id == id then 0
    else var k := IndexOfPlayer(ps[1..], id); if k < 0 then -1 else k + 1
  }

  /** `code` is unique across the collection. */
  ghost predicate UniqueCodes(s: seq<Lobby>) {
    forall i, j :: 0 <= i < j < |s| ==> s[i].code != s[j].code
  }

  /** At most one entry per player id. */
  ghost predicate UniqueIds(ps: seq<PlayerEntry>) {
    forall i, j :: 0 <= i < j < |ps| ==> ps[i].id != ps[j].id
  }

  // ---------------------------------------------------------------- building

  /** `buildLobby(code, defaults)` */
  function BuildLobby(code: string, seed: LobbySeed, now: nat): (l: Lobby)
    ensures l.code == code && l.hostId == seed.hostId
    ensures l.hostName == seed.hostName || (seed.hostName.None? && !Truthy(seed.hostId) && l.hostName == Some("Host"))
    ensures l.hostName.None? <==> seed.hostName.None? && Truthy(seed.hostId)
    ensures l.status == seed.status && l.channel == seed.channel
    ensures seed.createdAt.Some? ==> l.createdAt == seed.createdAt.value
    ensures seed.createdAt.None? ==> l.createdAt == now
    ensures seed.updatedAt.Some? ==> l.updatedAt == seed.updatedAt.value
    ensures seed.updatedAt.None? ==> l.updatedAt == now
    ensures seed.players.Some? ==> l.players == seed.players.value
    ensures seed.players.None? ==> l.players == []
    ensures seed.maxPlayers.Some? ==> l.maxPlayers == seed.maxPlayers.value
    ensures seed.maxPlayers.None? ==> l.maxPlayers == 6
    ensures seed.settings.Some? ==> l.settings == seed.settings.value
    ensures seed.settings.None? ==> l.settings == NoSettings
  {
    Lobby(
      code := code,
      hostId := seed.hostId,
      hostName := if seed.hostName.Some? then seed.hostName else if Truthy(seed.hostId) then None else Some("Host"),
      players := seed.players.GetOr([]),
      createdAt := seed.createdAt.GetOr(now),
      updatedAt := seed.updatedAt.GetOr(now),
      status := seed.status,
      channel := seed.channel,
      maxPlayers := seed.maxPlayers.GetOr(Defaults.maxPlayers.value),
      settings := seed.settings.GetOr(NoSettings))
  }

  // ---------------------------------------------------------------- updaters

  function IsReady(p: PlayerEntry): bool {
    p.ready.GetOr(false)
  }

  function ScoreOf(p: PlayerEntry): int {
    p.score.GetOr(0)
  }

  /** `{ ...existing, ...incoming }`: the incoming entry's present fields win. */
  function MergeEntry(existing: PlayerEntry, incoming: PlayerEntry): PlayerEntry {
    PlayerEntry(incoming.id, incoming.name, incoming.score.Or(existing.score), incoming.ready.Or(existing.ready),
                incoming.isActive.Or(existing.isActive), incoming.updatedAt.Or(existing.updatedAt))
  }

  /** The `joinLobby` updater: merge a known id in place, append a new one; the host is not touched. */
  function JoinUpdate(l: Lobby, player: PlayerEntry, now: nat): (r: Lobby)
    ensures r.code == l.code && r.hostId == l.hostId && r.hostName == l.hostName && r.updatedAt == now
    ensures r == l.(players := r.players, updatedAt := now)
    ensures var i := IndexOfPlayer(l.players, player.id);
      if i < 0 then r.players == l.players + [player.(updatedAt := Some(now))]
      else |r.players| == |l.players| && r.players[i] == MergeEntry(l.players[i], player).(updatedAt := Some(now))
           && forall j :: 0 <= j < |l.players| && j != i ==> r.players[j] == l.players[j]
  {
    var i := IndexOfPlayer(l.players, player.id);
    var players := if i < 0 then l.players + [player.(updatedAt := Some(now))]
                   else l.players[i := MergeEntry(l.players[i], player).(updatedAt := Some(now))];
    l.(players := players, updatedAt := now)
  }

  /** The `togglePlayerReady` updater: negate `ready` of the matching player, or nothing for an unknown id. */
  function ToggleReadyUpdate(l: Lobby, playerId: string, now: nat): (r: Option<Lobby>)
    ensures r.None? <==> IndexOfPlayer(l.players, playerId) < 0
    ensures r.Some? ==> var i := IndexOfPlayer(l.players, playerId);
      && r.value.code == l.code && r.value.hostId == l.hostId && r.value.hostName == l.hostName
      && r.value == l.(players := r.value.players, updatedAt := now)
      && |r.value.players| == |l.players| && r.value.updatedAt == now
      && IsReady(r.value.players[i]) == !IsReady(l.players[i])
      && r.value.players[i].ready == Some(!IsReady(l.players[i])) && r.value.players[i].updatedAt == Some(now)
      && r.value.players[i].(ready := l.players[i].ready, updatedAt := l.players[i].updatedAt) == l.players[i]
      && forall j :: 0 <= j < |l.players| && j != i ==> r.value.players[j] == l.players[j]
  {
    var i := IndexOfPlayer(l.players, playerId);
    if i < 0 then None
    else
      var p := l.players[i];
      Some(l.(players := l.players[i := p.(ready := Some(!IsReady(p)), updatedAt := Some(now))], updatedAt := now))
  }

  /** The `incrementPlayerScore` updater: `score = max(0, score + delta)` for the matching player. */
  function ScoreUpdate(l: Lobby, playerId: string, delta: int, now: nat): (r: Option<Lobby>)
    ensures r.None? <==> IndexOfPlayer(l.players, playerId) < 0
    ensures r.Some? ==> var i := IndexOfPlayer(l.players, playerId);
      && r.value.code == l.code && r.value.hostId == l.hostId && r.value.hostName == l.hostName
      && r.value == l.(players := r.value.players, updatedAt := now)
      && |r.value.players| == |l.players| && r.value.updatedAt == now
      && r.value.players[i].score.Some? && r.value.players[i].updatedAt == Some(now)
      && ScoreOf(r.value.players[i]) >= 0
      && (ScoreOf(l.players[i]) + delta >= 0 ==> ScoreOf(r.value.players[i]) == ScoreOf(l.players[i]) + delta)
      && (ScoreOf(l.players[i]) + delta < 0 ==> ScoreOf(r.value.players[i]) == 0)
      && r.value.players[i].(score := l.players[i].score, updatedAt := l.players[i].updatedAt) == l.players[i]
      && forall j :: 0 <= j < |l.players| && j != i ==> r.value.players[j] == l.players[j]
  {
    var i := IndexOfPlayer(l.players, playerId);
    if i < 0 then None
    else
      var p := l.players[i];
      var total := ScoreOf(p) + delta;
      var score := if total > 0 then total else 0;
      Some(l.(players := l.players[i := p.(score := Some(score), updatedAt := Some(now))], updatedAt := now))
  }

  /** The `updatePlayerName` updater: rename the matching player; the host's name follows the host's entry. */
  function RenameUpdate(l: Lobby, playerId: string, name: string, now: nat): (r: Option<Lobby>)
    ensures r.None? <==> (var i := IndexOfPlayer(l.players, playerId); i < 0 || l.players[i].name == name)
    ensures r.Some? ==> var i := IndexOfPlayer(l.players, playerId);
      && r.value.code == l.code && r.value.hostId == l.hostId && r.value.updatedAt == now
      && r.value == l.(hostName := r.value.hostName, players := r.value.players, updatedAt := now)
      && |r.value.players| == |l.players| && r.value.players[i].name == name
      && r.value.players[i].updatedAt == Some(now)
      && r.value.players[i].(name := l.players[i].name, updatedAt := l.players[i].updatedAt) == l.players[i]
      && forall j :: 0 <= j < |l.players| && j != i ==> r.value.players[j] == l.players[j]
    ensures r.Some? && l.hostId == Some(playerId) ==> r.value.hostName == Some(name)
    ensures r.Some? && l.hostId != Some(playerId) ==> r.value.hostName == l.hostName
  {
    var i := IndexOfPlayer(l.players, playerId);
    if i < 0 || l.players[i].name == name then None
    else
      var hostName := if l.hostId == Some(playerId) then Some(name) else l.hostName;
      Some(l.(hostName := hostName, players := l.players[i := l.players[i].(name := name, updatedAt := Some(now))],
              updatedAt := now))
  }

  /** The `setLobbyStatus` updater. */
  function StatusUpdate(l: Lobby, status: string, now: nat): (r: Lobby)
    ensures r.status == Some(status) && r.updatedAt == now
    ensures r.(status := l.status, updatedAt := l.updatedAt) == l
  {
    l.(status := Some(status), updatedAt := now)
  }

  // ---------------------------------------------------------------- listing

  /** `new Date(a.updatedAt || a.createdAt || 0).getTime()` */
  function SortKey(l: Lobby): int {
    if l.updatedAt != 0 then l.updatedAt else l.createdAt
  }

  /** Newest first. */
  ghost predicate NewestFirst(s: seq<Lobby>) {
    forall i, j :: 0 <= i < j < |s| ==> SortKey(s[i]) >= SortKey(s[j])
  }

  /** The order `listLobbies` returns. */
  function SortedNewestFirst(s: seq<Lobby>): (r: seq<Lobby>)
    ensures multiset(r) == multiset(s)
    ensures NewestFirst(r)
  {
    Sorting.SortDesc(s, SortKey)
  }

  // ---------------------------------------------------------------- ensure (pure view)

  /** `getLobby(code)` on a collection: the `!code` guard answers `null` for the empty code. */
  function LookupAsWritten(s: seq<Lobby>, code: string): (r: Option<Lobby>)
    ensures r.Some? <==> code != "" && IndexOfCode(s, code) >= 0
    ensures r.Some? ==> r.value == s[IndexOfCode(s, code)]
  {
    if code == "" then None
    else var i := IndexOfCode(s, code); if i < 0 then None else Some(s[i])
  }

  /** The collection after `ensureLobby` as written: it looks the code up through `getLobby`. */
  function EnsuredAsWritten(s: seq<Lobby>, code: string, seed: LobbySeed, now: nat): seq<Lobby> {
    if LookupAsWritten(s, code).Some? then s else s + [BuildLobby(code, seed, now)]
  }

  /** The collection after `ensureLobby` with the lookup done by code alone (the evidently intended get-or-create). */
  function Ensured(s: seq<Lobby>, code: string, seed: LobbySeed, now: nat): (r: seq<Lobby>)
    ensures IndexOfCode(s, code) >= 0 ==> r == s
    ensures IndexOfCode(s, code) < 0 ==> r == s + [BuildLobby(code, seed, now)]
  {
    if IndexOfCode(s, code) >= 0 then s else s + [BuildLobby(code, seed, now)]
  }

  /** After an ensure the code is present; an absent code was appended with an empty player list (no seed players). */
  lemma EnsuredFinds(s: seq<Lobby>, code: string, seed: LobbySeed, now: nat)
    ensures var r := Ensured(s, code, seed, now);
      && IndexOfCode(r, code) >= 0
      && (IndexOfCode(s, code) < 0 ==> |r| == |s| + 1 && r[..|s|] == s && IndexOfCode(r, code) == |s|
                                       && (seed.players.None? ==> r[|s|].players == []))
  {
    var r := Ensured(s, code, seed, now);
    if IndexOfCode(s, code) < 0 {
      assert r[|s|].code == code;
      assert r[..|s|] == s;
    }
  }

  /** `ensureLobby` is idempotent: a second ensure of the same code, with any seed, changes nothing. */
  lemma EnsuredIdempotent(s: seq<Lobby>, code: string, seed: LobbySeed, now: nat, seed': LobbySeed, now': nat)
    ensures Ensured(Ensured(s, code, seed, now), code, seed', now') == Ensured(s, code, seed, now)
  {
    EnsuredFinds(s, code, seed, now);
  }

  /** Appending a lobby whose code is absent keeps codes unique. */
  lemma AppendFreshKeepsUnique(s: seq<Lobby>, l: Lobby)
    requires UniqueCodes(s) && IndexOfCode(s, l.code) < 0
    ensures UniqueCodes(s + [l])
  {
  }

  /** Replacing a lobby by one with the same code keeps codes unique. */
  lemma ReplaceKeepsUnique(s: seq<Lobby>, i: nat, l: Lobby)
    requires UniqueCodes(s) && i < |s| && s[i].code == l.code
    ensures UniqueCodes(s[i := l])
  {
  }

  lemma EnsuredKeepsUnique(s: seq<Lobby>, code: string, seed: LobbySeed, now: nat)
    requires UniqueCodes(s)
    ensures UniqueCodes(Ensured(s, code, seed, now))
  {
    if IndexOfCode(s, code) < 0 {
      AppendFreshKeepsUnique(s, BuildLobby(code, seed, now));
    }
  }

  /** As written, ensuring the empty code twice leaves two lobbies with code "", whatever the collection held. */
  lemma EnsureAsWrittenDuplicatesEmptyCode(s: seq<Lobby>, seed: LobbySeed, now: nat, seed': LobbySeed, now': nat)
    ensures !UniqueCodes(EnsuredAsWritten(EnsuredAsWritten(s, "", seed, now), "", seed', now'))
  {
    var r := EnsuredAsWritten(EnsuredAsWritten(s, "", seed, now), "", seed', now');
    assert r == s + [BuildLobby("", seed, now)] + [BuildLobby("", seed', now')];
    assert r[|s|].code == r[|s| + 1].code;
  }

  // ---------------------------------------------------------------- join invariants

  /** A join keeps at most one entry per id, and the joiner's id is then present. */
  lemma JoinKeepsIdsUnique(l: Lobby, player: PlayerEntry, now: nat)
    requires UniqueIds(l.players)
    ensures UniqueIds(JoinUpdate(l, player, now).players)
    ensures IndexOfPlayer(JoinUpdate(l, player, now).players, player.id) >= 0
  {
    var r := JoinUpdate(l, player, now);
    var i := IndexOfPlayer(l.players, player.id);
    if i < 0 {
      assert r.players[|l.players|].id == player.id;
    } else {
      assert r.players[i].id == player.id;
    }
  }

  /** Toggling twice gives every player back its readiness; all other player fields and the lobby's host are unchanged. */
  lemma ToggleTwiceRestores(l: Lobby, playerId: string, now: nat, now': nat)
    requires IndexOfPlayer(l.players, playerId) >= 0
    ensures var once := ToggleReadyUpdate(l, playerId, now);
      && once.Some?
      && var twice := ToggleReadyUpdate(once.value, playerId, now');
      && twice.Some?
      && |twice.value.players| == |l.players|
      && forall j :: 0 <= j < |l.players| ==>
           IsReady(twice.value.players[j]) == IsReady(l.players[j])
           && twice.value.players[j].(ready := l.players[j].ready, updatedAt := l.players[j].updatedAt) == l.players[j]
  {
    var i := IndexOfPlayer(l.players, playerId);
    var once := ToggleReadyUpdate(l, playerId, now).value;
    assert once.players[i].id == playerId;
    assert IndexOfPlayer(once.players, playerId) == i;
  }

  /** The host's display name follows a rename of the host's own entry. */
  ghost predicate HostNameInStep(l: Lobby) {
    forall j :: 0 <= j < |l.players| && l.hostId == Some(l.players[j].id) ==> l.hostName == Some(l.players[j].name)
  }

  lemma RenameKeepsHostNameInStep(l: Lobby, playerId: string, name: string, now: nat)
    requires UniqueIds(l.players) && HostNameInStep(l)
    ensures var r := RenameUpdate(l, playerId, name, now); r.Some? ==> HostNameInStep(r.value) && UniqueIds(r.value.players)
  {
    var r := RenameUpdate(l, playerId, name, now);
    if r.Some? {
      var i := IndexOfPlayer(l.players, playerId);
      forall j | 0 <= j < |r.value.players| && r.value.hostId == Some(r.value.players[j].id)
        ensures r.value.hostName == Some(r.value.players[j].name)
      {
        if j != i {
          assert r.value.players[j] == l.players[j];
          assert l.players[j].id != playerId;
        }
      }
    }
  }

  /** A score never goes negative: no player with a negative score remains negative after any update. */
  ghost predicate ScoresNonNegative(l: Lobby) {
    forall j :: 0 <= j < |l.players| ==> ScoreOf(l.players[j]) >= 0
  }

  /** One mutation of a lobby in this copy. */
  datatype Mutation =
    | Join(player: PlayerEntry)
    | ToggleReady(playerId: string)
    | IncrementScore(playerId: string, delta: int)
    | Rename(playerId: string, name: string)
    | SetStatus(status: string)

  /** The lobby after one mutation, or unchanged when the mutation is a no-op. */
  function Apply(l: Lobby, m: Mutation, now: nat): Lobby {
    match m
    case Join(p) => JoinUpdate(l, p, now)
    case ToggleReady(id) => ToggleReadyUpdate(l, id, now).GetOr(l)
    case IncrementScore(id, delta) => if delta == 0 then l else ScoreUpdate(l, id, delta, now).GetOr(l)
    case Rename(id, name) => if name == "" then l else RenameUpdate(l, id, name, now).GetOr(l)
    case SetStatus(status) => if status == "" then l else StatusUpdate(l, status, now)
  }

  function ApplyAll(l: Lobby, ms: seq<Mutation>, now: nat): Lobby
    decreases |ms|
  {
    if ms == [] then l else ApplyAll(Apply(l, ms[0], now), ms[1..], now)
  }

  /** Joins that bring no negative score. */
  predicate JoinsNonNegative(ms: seq<Mutation>) {
    forall k :: 0 <= k < |ms| && ms[k].Join? ==> ms[k].player.score.GetOr(0) >= 0
  }

  /** Any run of mutations keeps every score at or above zero, whatever the sign of the deltas, and never changes the code or the host id. */
  lemma {:induction false} MutationsKeepScoresNonNegative(l: Lobby, ms: seq<Mutation>, now: nat)
    requires ScoresNonNegative(l) && JoinsNonNegative(ms)
    ensures ScoresNonNegative(ApplyAll(l, ms, now))
    ensures ApplyAll(l, ms, now).code == l.code && ApplyAll(l, ms, now).hostId == l.hostId
    decreases |ms|
  {
    if ms != [] {
      var next := Apply(l, ms[0], now);
      forall j | 0 <= j < |next.players| ensures ScoreOf(next.players[j]) >= 0 {
        match ms[0]
        case Join(p) => {
          var i := IndexOfPlayer(l.players, p.id);
          if i >= 0 && j == i {
            assert ScoreOf(next.players[j]) == p.score.Or(l.players[i].score).GetOr(0);
          } else if j < |l.players| {
            assert next.players[j] == l.players[j];
          }
        }
        case ToggleReady(id) => {}
        case IncrementScore(id, delta) => {}
        case Rename(id, name) => {}
        case SetStatus(s) => {}
      }
      assert JoinsNonNegative(ms[1..]) by {
        forall k | 0 <= k < |ms[1..]| && ms[1..][k].Join? ensures ms[1..][k].player.score.GetOr(0) >= 0 {
          assert ms[1..][k] == ms[k + 1];
        }
      }
      MutationsKeepScoresNonNegative(next, ms[1..], now);
    }
  }

  // ---------------------------------------------------------------- the store

  class Store {
    /** The persisted collection (`readLobbies()` / `writeLobbies`). */
    var lobbies: seq<Lobby>
    /** `lobbyListeners` */
    var lobbyListeners: Registry
    /** `lobbyListListeners` */
    var listListeners: set<ListenerId>
    /** Writes, notifications and announcements, oldest first. */
    ghost var log: seq<Event>

    ghost predicate Valid()
      reads this
    {
      UniqueCodes(lobbies) && WellFormed(lobbyListeners) && "" !in lobbyListeners
    }

    /** A store over an existing valid collection, with no listeners. */
    constructor (initial: seq<Lobby>)
      requires UniqueCodes(initial)
      ensures Valid() && lobbies == initial && lobbyListeners == map[] && listListeners == {} && log == []
    {
      lobbies := initial;
      lobbyListeners := map[];
      listListeners := {};
      log := [];
    }

    /** What one successful write records: the write (which notifies list listeners), the lobby's listeners if any, the announcement. */
    ghost function CommitEvents(next: seq<Lobby>, changed: Lobby): seq<Event>
      reads this
    {
      [Wrote(next, listListeners)]
      + (if changed.code in lobbyListeners then [Notified(changed.code, lobbyListeners[changed.code], changed)] else [])
      + [Announced(changed.code)]
    }

    /** The outcome of a replace at index `i` with updater result `next`: nothing written, or exactly that lobby replaced. */
    ghost predicate Replaced(before: seq<Lobby>, logBefore: seq<Event>, i: int, next: Option<Lobby>, r: Option<Lobby>)
      reads this
    {
      if i < 0 || i >= |before| || next.None? then r.None? && lobbies == before && log == logBefore
      else r == next && lobbies == before[i := next.value] && log == logBefore + CommitEvents(lobbies, next.value)
    }

    /** `writeLobbies(next)`, `notifyLobbyListeners(changed)`, `broadcastUpdate(changed)` */
    method Commit(next: seq<Lobby>, changed: Lobby)
      modifies this`lobbies, this`log
      ensures lobbies == next && log == old(log) + CommitEvents(next, changed)
    {
      lobbies := next;
      log := log + [Wrote(next, listListeners)];
      if changed.code in lobbyListeners {
        log := log + [Notified(changed.code, lobbyListeners[changed.code], changed)];
      }
      log := log + [Announced(changed.code)];
    }

    /** `getLobby(code)` */
    function GetLobby(code: string): (r: Option<Lobby>)
      reads this
      ensures r.Some? <==> code != "" && IndexOfCode(lobbies, code) >= 0
      ensures r.Some? ==> r.value.code == code && r.value == lobbies[IndexOfCode(lobbies, code)]
    {
      LookupAsWritten(lobbies, code)
    }

    /** `listLobbies()`: every stored lobby exactly once, newest first. */
    function ListLobbies(): (r: seq<Lobby>)
      reads this
      ensures multiset(r) == multiset(lobbies) && |r| == |lobbies|
      ensures NewestFirst(r)
    {
      SortedNewestFirst(lobbies)
    }

    /**
     * `updateLobby(code, updater)`: an absent code or an updater answering
     * nothing writes nothing and gives nothing; otherwise only the lobby at
     * the found index is replaced.
     */
    method UpdateLobby(code: string, updater: Lobby -> Option<Lobby>) returns (r: Option<Lobby>)
      requires Valid()
      modifies this`lobbies, this`log
      ensures var i := IndexOfCode(old(lobbies), code);
        Replaced(old(lobbies), old(log), i, if i < 0 then None else updater(old(lobbies)[i]), r)
      ensures |lobbies| == |old(lobbies)|
      ensures r.None? || r.value.code == code ==> Valid()
    {
      var index := IndexOfCode(lobbies, code);
      if index == -1 {
        return None;
      }
      var nextLobby := updater(lobbies[index]);
      if nextLobby.None? {
        return None;
      }
      var nextLobbies := lobbies[index := nextLobby.value];
      if nextLobby.value.code == code {
        ReplaceKeepsUnique(lobbies, index, nextLobby.value);
      }
      Commit(nextLobbies, nextLobby.value);
      r := nextLobby;
    }

    /** `ensureLobby(code, options)` as written: the lookup goes through `getLobby`, which never finds the empty code. */
    method EnsureLobbyAsWritten(code: string, seed: LobbySeed, now: nat) returns (lobby: Lobby)
      modifies this`lobbies, this`log
      ensures lobbies == EnsuredAsWritten(old(lobbies), code, seed, now)
      ensures LookupAsWritten(old(lobbies), code).Some? ==> lobby == LookupAsWritten(old(lobbies), code).value && log == old(log)
      ensures LookupAsWritten(old(lobbies), code).None? ==>
        lobby == BuildLobby(code, seed, now) && log == old(log) + CommitEvents(lobbies, lobby)
    {
      var existing := GetLobby(code);
      if existing.Some? {
        return existing.value;
      }
      lobby := BuildLobby(code, seed, now);
      Commit(lobbies + [lobby], lobby);
    }

    /** `ensureLobby(code, options)`, the lookup by code alone: an existing lobby is returned with no write, otherwise one is appended. */
    method EnsureLobby(code: string, seed: LobbySeed, now: nat) returns (lobby: Lobby)
      requires Valid()
      modifies this`lobbies, this`log
      ensures Valid()
      ensures lobbies == Ensured(old(lobbies), code, seed, now)
      ensures IndexOfCode(lobbies, code) >= 0 && lobby.code == code && lobby == lobbies[IndexOfCode(lobbies, code)]
      ensures IndexOfCode(old(lobbies), code) >= 0 ==> log == old(log)
      ensures IndexOfCode(old(lobbies), code) < 0 ==>
        lobby == BuildLobby(code, seed, now) && log == old(log) + CommitEvents(lobbies, lobby)
    {
      var index := IndexOfCode(lobbies, code);
      if index >= 0 {
        return lobbies[index];
      }
      lobby := BuildLobby(code, seed, now);
      EnsuredKeepsUnique(lobbies, code, seed, now);
      EnsuredFinds(lobbies, code, seed, now);
      Commit(lobbies + [lobby], lobby);
    }

    /** `joinLobby(code, player)`: a missing lobby gives nothing; otherwise the join updater is applied. */
    method JoinLobby(code: string, player: PlayerEntry, now: nat) returns (r: Option<Lobby>)
      requires Valid()
      modifies this`lobbies, this`log
      ensures Valid()
      ensures var i := IndexOfCode(old(lobbies), code);
        Replaced(old(lobbies), old(log), i, if i < 0 then None else Some(JoinUpdate(old(lobbies)[i], player, now)), r)
    {
      r := UpdateLobby(code, l => Some(JoinUpdate(l, player, now)));
    }

    /** `togglePlayerReady(code, playerId)` */
    method TogglePlayerReady(code: string, playerId: string, now: nat) returns (r: Option<Lobby>)
      requires Valid()
      modifies this`lobbies, this`log
      ensures Valid()
      ensures var i := IndexOfCode(old(lobbies), code);
        Replaced(old(lobbies), old(log), i, if i < 0 then None else ToggleReadyUpdate(old(lobbies)[i], playerId, now), r)
    {
      r := UpdateLobby(code, l => ToggleReadyUpdate(l, playerId, now));
    }

    /** `incrementPlayerScore(code, playerId, delta)`: a zero delta is answered before anything is read. */
    method IncrementPlayerScore(code: string, playerId: string, delta: int, now: nat) returns (r: Option<Lobby>)
      requires Valid()
      modifies this`lobbies, this`log
      ensures Valid()
      ensures delta == 0 ==> r.None? && lobbies == old(lobbies) && log == old(log)
      ensures delta != 0 ==> var i := IndexOfCode(old(lobbies), code);
        Replaced(old(lobbies), old(log), i, if i < 0 then None else ScoreUpdate(old(lobbies)[i], playerId, delta, now), r)
    {
      if delta == 0 {
        return None;
      }
      r := UpdateLobby(code, l => ScoreUpdate(l, playerId, delta, now));
    }

    /** `updatePlayerName(code, playerId, name)`: an empty name is answered before anything is read. */
    method UpdatePlayerName(code: string, playerId: string, name: string, now: nat) returns (r: Option<Lobby>)
      requires Valid()
      modifies this`lobbies, this`log
      ensures Valid()
      ensures name == "" ==> r.None? && lobbies == old(lobbies) && log == old(log)
      ensures name != "" ==> var i := IndexOfCode(old(lobbies), code);
        Replaced(old(lobbies), old(log), i, if i < 0 then None else RenameUpdate(old(lobbies)[i], playerId, name, now), r)
    {
      if name == "" {
        return None;
      }
      r := UpdateLobby(code, l => RenameUpdate(l, playerId, name, now));
    }

    /** `setLobbyStatus(code, status)`: an empty status is answered before anything is read; otherwise an unconditional replace. */
    method SetLobbyStatus(code: string, status: string, now: nat) returns (r: Option<Lobby>)
      requires Valid()
      modifies this`lobbies, this`log
      ensures Valid()
      ensures status == "" ==> r.None? && lobbies == old(lobbies) && log == old(log)
      ensures status != "" ==> var i := IndexOfCode(old(lobbies), code);
        Replaced(old(lobbies), old(log), i, if i < 0 then None else Some(StatusUpdate(old(lobbies)[i], status, now)), r)
    {
      if status == "" {
        return None;
      }
      r := UpdateLobby(code, l => Some(StatusUpdate(l, status, now)));
    }

    /** The codes `createLobby` tries in turn: the requested code if it is non-empty, then one per draw. */
    static function Attempts(seed: LobbySeed, draws: seq<nat>): (a: seq<string>)
      requires forall k :: 0 <= k < |draws| ==> draws[k] < 9000
      ensures |a| == |draws| + (if Truthy(seed.code) then 1 else 0)
      ensures forall k :: 0 <= k < |a| ==> (Truthy(seed.code) && k == 0 && a[k] == seed.code.value) || LobbyCodes.IsGeneratedCode(a[k])
      ensures Truthy(seed.code) ==> a[0] == seed.code.value
    {
      var generated := seq(|draws|, k requires 0 <= k < |draws| => LobbyCodes.GenerateLobbyCode(draws[k]));
      if Truthy(seed.code) then [seed.code.value] + generated else generated
    }

    /** The resampling loop of `createLobby`: the first attempted code no stored lobby has. */
    static method FirstFree(s: seq<Lobby>, attempts: seq<string>) returns (k: nat)
      requires exists m :: 0 <= m < |attempts| && IndexOfCode(s, attempts[m]) < 0
      ensures k < |attempts| && IndexOfCode(s, attempts[k]) < 0
      ensures forall j :: 0 <= j < k ==> IndexOfCode(s, attempts[j]) >= 0
    {
      k := 0;
      while IndexOfCode(s, attempts[k]) >= 0
        invariant 0 <= k < |attempts|
        invariant forall j :: 0 <= j < k ==> IndexOfCode(s, attempts[j]) >= 0
        invariant exists m :: k <= m < |attempts| && IndexOfCode(s, attempts[m]) < 0
        decreases |attempts| - k
      {
        k := k + 1;
      }
    }

    /**
     * `createLobby(options)`: takes the first attempted code that no stored
     * lobby has and appends the new lobby. The caller's draws must hold a
     * free code: the loop runs until it meets one.
     */
    method CreateLobby(seed: LobbySeed, draws: seq<nat>, now: nat) returns (lobby: Lobby, attempt: nat)
      requires Valid()
      requires forall k :: 0 <= k < |draws| ==> draws[k] < 9000
      requires exists k :: 0 <= k < |Attempts(seed, draws)| && IndexOfCode(lobbies, Attempts(seed, draws)[k]) < 0
      modifies this`lobbies, this`log
      ensures Valid()
      ensures attempt < |Attempts(seed, draws)| && lobby.code == Attempts(seed, draws)[attempt]
      ensures forall j :: 0 <= j < attempt ==> IndexOfCode(old(lobbies), Attempts(seed, draws)[j]) >= 0
      ensures IndexOfCode(old(lobbies), lobby.code) < 0
      ensures lobbies == old(lobbies) + [lobby] && lobby == BuildLobby(lobby.code, seed, now)
      ensures !Truthy(seed.code) ==> LobbyCodes.IsGeneratedCode(lobby.code)
      ensures log == old(log) + CommitEvents(lobbies, lobby)
    {
      var attempts := Attempts(seed, draws);
      attempt := FirstFree(lobbies, attempts);
      lobby := BuildLobby(attempts[attempt], seed, now);
      AppendFreshKeepsUnique(lobbies, lobby);
      Commit(lobbies + [lobby], lobby);
    }

    /** `subscribeToLobby(code, callback)`: registers the callback and hands it the current lobby, if any. */
    method SubscribeToLobby(code: string, callback: ListenerId) returns (initial: Option<Lobby>)
      requires Valid()
      modifies this`lobbyListeners
      ensures Valid()
      ensures code == "" ==> lobbyListeners == old(lobbyListeners) && initial.None?
      ensures code != "" ==> lobbyListeners == Added(old(lobbyListeners), code, callback)
      ensures initial == GetLobby(code)
    {
      if code == "" {
        return None;
      }
      lobbyListeners := Added(lobbyListeners, code, callback);
      initial := GetLobby(code);
    }

    /** The function `subscribeToLobby` returns. */
    method UnsubscribeFromLobby(code: string, callback: ListenerId)
      requires Valid()
      modifies this`lobbyListeners
      ensures Valid()
      ensures lobbyListeners == Removed(old(lobbyListeners), code, callback)
    {
      lobbyListeners := Removed(lobbyListeners, code, callback);
    }

    /** `subscribeToLobbyList(callback)`: registers the callback and hands it the current listing. */
    method SubscribeToLobbyList(callback: ListenerId) returns (initial: seq<Lobby>)
      requires Valid()
      modifies this`listListeners
      ensures Valid()
      ensures listListeners == old(listListeners) + {callback}
      ensures initial == ListLobbies()
    {
      listListeners := listListeners + {callback};
      initial := ListLobbies();
    }

    /** The function `subscribeToLobbyList` returns. */
    method UnsubscribeFromLobbyList(callback: ListenerId)
      requires Valid()
      modifies this`listListeners
      ensures Valid()
      ensures listListeners == old(listListeners) - {callback}
    {
      listListeners := listListeners - {callback};
    }
  }
}
