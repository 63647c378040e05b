/**
 * The drifted, untyped lobby store (`scripts/lobby-service.js`). It differs
 * from the typed copy in four ways: `updateLobby` first creates a missing
 * lobby, the first joiner becomes host, `togglePlayerReady` takes an optional
 * forced value and skips no-change writes, and every write keeps
 * `playerCount` equal to the number of players. Untyped arguments are
 * modelled as JavaScript values so that truthiness and `typeof` tests can be
 * written out.
 */
module LobbyServiceJs {
  import opened Wrappers
  import opened LobbySettings
  import opened Listeners
  import Sorting
  import LobbyCodes

  /** A JavaScript value, as far as the store inspects one. */
  datatype Value = Undefined | Null | Bool(b: bool) | Num(n: int) | Str(s: string)

  /** `Boolean(v)` (NaN is not modelled). */
  predicate Truthy(v: Value) {
    match v
    case Undefined => false
    case Null => false
    case Bool(b) => b
    case Num(n) => n != 0
    case Str(s) => s != ""
  }

  /** Truthiness of an optional string (`null`/`undefined` or a string). */
  predicate Present(s: Option<string>) {
    s.Some? && s.value != ""
  }

  datatype PlayerEntry = PlayerEntry(
    id: string,
    name: string,
    score: int,
    ready: bool,
    isActive: bool,
    joinedAt: nat,
    updatedAt: nat)

  /** The `player` argument of `joinLobby`: any of its fields may be missing or of any type. */
  datatype JoinRequest = JoinRequest(id: string, name: string, score: Value, ready: Value, isActive: Value, joinedAt: nat)

  datatype Lobby = Lobby(
    code: string,
    hostId: Option<string>,
    hostName: Option<string>,
    channel: string,
    status: string,
    settings: Settings,
    players: seq<PlayerEntry>,
    maxPlayers: int,
    playerCount: nat,
    createdAt: nat,
    updatedAt: nat)

  /** The `defaults` / `options` object the store builds lobbies from. */
  datatype LobbySeed = LobbySeed(
    code: Option<string>,
    hostId: Option<string>,
    hostName: Option<string>,
    channel: Option<string>,
    channelName: Option<string>,
    status: Option<string>,
    settings: Option<Settings>,
    maxPlayers: Option<int>)

  const NoSeed := LobbySeed(None, None, None, None, None, None, None, None)

  /** `defaultLobbySettings` of this copy. */
  const Defaults := Settings(Some("Competitive Draft"), Some(5), Some(30), Some("Highest score after 5 rounds"),
                             Some("Tournament (NA)"), Some("#spellcast-practice"), Some(6), None)

  const DefaultChannel := "#spellcast-practice"
  const DefaultMaxPlayers := 6

  datatype Event =
    | Wrote(lobbies: seq<Lobby>, listListeners: set<ListenerId>)
    | Notified(code: string, listeners: set<ListenerId>, snapshot: Lobby)
    | Announced(code: string)

  // ---------------------------------------------------------------- lookup

  /** `lobbies.findIndex((entry) => entry.code === code)` */
  function IndexOfCode(s: seq<Lobby>, code: string): (i: int)
    ensures -1 <= i < |s|
    ensures 0 <= i ==> s[i].code == code && forall j :: 0 <= j < i ==> s[j].code != code
    ensures i == -1 <==> forall j :: 0 <= j < |s| ==> s[j].code != code
  {
    if s == [] then -1
    else if s[0].code == code then 0
    else var k := IndexOfCode(s[1..], code); if k < 0 then -1 else k + 1
  }

  /** `players.findIndex((entry) => entry.id === id)` */
  function IndexOfPlayer(ps: seq<PlayerEntry>, id: string): (i: int)
    ensures -1 <= i < |ps|
    ensures 0 <= i ==> ps[i].id == id && forall j :: 0 <= j < i ==> ps[j].id != id
    ensures i == -1 <==> forall j :: 0 <= j < |ps| ==> ps[j].id != id
  {
    if ps == [] then -1
    else if ps[0].id == id then 0
    else var k := IndexOfPlayer(ps[1..], id); if k < 0 then -1 else k + 1
  }

  ghost predicate UniqueCodes(s: seq<Lobby>) {
    forall i, j :: 0 <= i < j < |s| ==> s[i].code != s[j].code
  }

  ghost predicate UniqueIds(ps: seq<PlayerEntry>) {
    forall i, j :: 0 <= i < j < |ps| ==> ps[i].id != ps[j].id
  }

  /** `playerCount` agrees with the player list. */
  ghost predicate Counted(s: seq<Lobby>) {
    forall i :: 0 <= i < |s| ==> s[i].playerCount == |s[i].players|
  }

  // ---------------------------------------------------------------- building

  /** `buildLobby(code, defaults)`: every default is taken with `||`, so a falsy supplied value falls back. */
  function BuildLobby(code: string, seed: LobbySeed, now: nat): (l: Lobby)
    ensures l.code == code && l.players == [] && l.playerCount == 0
    ensures l.createdAt == now && l.updatedAt == now
    ensures l.status == (if Present(seed.status) then seed.status.value else "waiting")
    ensures l.settings == Merge(Defaults, seed.settings.GetOr(NoSettings))
    ensures l.hostId.Some? <==> Present(seed.hostId)
    ensures Present(seed.hostId) ==> l.hostId == seed.hostId
    ensures Present(l.hostId) == Present(seed.hostId)
    ensures !Present(seed.hostId) && !Present(seed.hostName) ==> l.hostName == Some("Host")
    ensures Present(seed.hostName) ==> l.hostName == seed.hostName
    ensures !Present(seed.hostName) && Present(seed.hostId) ==> l.hostName == seed.hostName
    ensures l.channel != ""
    ensures Present(seed.channel) ==> l.channel == seed.channel.value
    ensures !Present(seed.channel) && Present(seed.channelName) ==> l.channel == seed.channelName.value
    ensures !Present(seed.channel) && !Present(seed.channelName) ==> l.channel == DefaultChannel
    ensures seed.maxPlayers.Some? && seed.maxPlayers.value != 0 ==> l.maxPlayers == seed.maxPlayers.value
    ensures seed.maxPlayers.None? || seed.maxPlayers.value == 0 ==> l.maxPlayers == DefaultMaxPlayers
  {
    Lobby(
      code := code,
      hostId := if Present(seed.hostId) then seed.hostId else None,
      hostName := if Present(seed.hostName) then seed.hostName
                  else if Present(seed.hostId) then seed.hostName else Some("Host"),
      channel := if Present(seed.channel) then seed.channel.value
                 else if Present(seed.channelName) then seed.channelName.value else DefaultChannel,
      status := if Present(seed.status) then seed.status.value else "waiting",
      settings := Merge(Defaults, seed.settings.GetOr(NoSettings)),
      players := [],
      maxPlayers := if seed.maxPlayers.Some? && seed.maxPlayers.value != 0 then seed.maxPlayers.value else DefaultMaxPlayers,
      playerCount := 0,
      createdAt := now,
      updatedAt := now)
  }

  /** A lobby handed back to `updateLobby` as its `defaults` (`joinLobby` passes the ensured lobby). */
  function SeedOf(l: Lobby): LobbySeed {
    LobbySeed(Some(l.code), l.hostId, l.hostName, Some(l.channel), None, Some(l.status), Some(l.settings), Some(l.maxPlayers))
  }

  /** The lobby `updateLobby` writes: the mutator's result with `playerCount` and `updatedAt` stamped. */
  function Stamped(l: Lobby, now: nat): (r: Lobby)
    ensures r.playerCount == |r.players| && r.updatedAt == now
    ensures r.(playerCount := l.playerCount, updatedAt := l.updatedAt) == l
  {
    l.(playerCount := |l.players|, updatedAt := now)
  }

  // ---------------------------------------------------------------- mutators

  /** The entry `joinLobby` writes for `player` (`playerData`). */
  function PlayerData(req: JoinRequest, freshId: string, code: string, now: nat): (p: PlayerEntry)
    ensures p.id == (if req.id != "" then req.id else freshId)
    ensures p.name != ""
    ensures req.name != "" ==> p.name == req.name
    ensures req.name == "" ==> p.name == "Player " + code
    ensures req.score.Num? ==> p.score == req.score.n
    ensures !req.score.Num? ==> p.score == 0
    ensures p.ready <==> Truthy(req.ready)
    ensures !p.isActive <==> req.isActive == Bool(false)
    ensures req.joinedAt != 0 ==> p.joinedAt == req.joinedAt
    ensures req.joinedAt == 0 ==> p.joinedAt == now
    ensures p.updatedAt == now
  {
    PlayerEntry(
      id := if req.id != "" then req.id else freshId,
      name := if req.name != "" then req.name else "Player " + code,
      score := if req.score.Num? then req.score.n else 0,
      ready := Truthy(req.ready),
      isActive := req.isActive != Bool(false),
      joinedAt := if req.joinedAt != 0 then req.joinedAt else now,
      updatedAt := now)
  }

  /** The `joinLobby` mutator: the entry with the request's id is overwritten, otherwise appended; a hostless lobby gets the joiner as host. */
  function JoinMutation(l: Lobby, req: JoinRequest, freshId: string, now: nat): (r: Lobby)
    ensures var p := PlayerData(req, freshId, l.code, now); var i := IndexOfPlayer(l.players, req.id);
      && (i < 0 ==> r.players == l.players + [p])
      && (i >= 0 ==> r.players == l.players[i := p])
    ensures Present(l.hostId) ==> r.hostId == l.hostId && r.hostName == l.hostName
    ensures !Present(l.hostId) ==> var p := PlayerData(req, freshId, l.code, now);
      r.hostId == Some(p.id) && r.hostName == Some(p.name)
    ensures r.code == l.code && r.status == l.status && r.settings == l.settings
    ensures r == l.(hostId := r.hostId, hostName := r.hostName, players := r.players)
  {
    var p := PlayerData(req, freshId, l.code, now);
    var i := IndexOfPlayer(l.players, req.id);
    var players := if i >= 0 then l.players[i := p] else l.players + [p];
    l.(hostId := if Present(l.hostId) then l.hostId else Some(p.id),
       hostName := if Present(l.hostId) then l.hostName else Some(p.name),
       players := players)
  }

  /** The `togglePlayerReady` mutator: the forced boolean if one is given, else the negation; no change gives nothing. */
  function ToggleMutation(l: Lobby, playerId: string, force: Value, now: nat): (r: Option<Lobby>)
    ensures var i := IndexOfPlayer(l.players, playerId);
      r.None? <==> i < 0 || (force.Bool? && force.b == l.players[i].ready)
    ensures r.Some? ==> var i := IndexOfPlayer(l.players, playerId);
      && |r.value.players| == |l.players|
      && r.value.players[i].ready == (if force.Bool? then force.b else !l.players[i].ready)
      && r.value.players[i].ready != l.players[i].ready
      && r.value.players[i] == l.players[i].(ready := r.value.players[i].ready, updatedAt := now)
      && (forall j :: 0 <= j < |l.players| && j != i ==> r.value.players[j] == l.players[j])
      && r.value == l.(players := r.value.players)
  {
    var i := IndexOfPlayer(l.players, playerId);
    if i == -1 then None
    else
      var current := l.players[i];
      var readyValue := if force.Bool? then force.b else !current.ready;
      if readyValue == current.ready then None
      else Some(l.(players := l.players[i := current.(ready := readyValue, updatedAt := now)]))
  }

  /** The `incrementPlayerScore` mutator. */
  function ScoreMutation(l: Lobby, playerId: string, delta: int, now: nat): (r: Option<Lobby>)
    ensures r.None? <==> IndexOfPlayer(l.players, playerId) < 0
    ensures r.Some? ==> var i := IndexOfPlayer(l.players, playerId);
      && |r.value.players| == |l.players|
      && r.value.players[i].score >= 0
      && r.value.players[i].score >= l.players[i].score + delta
      && (r.value.players[i].score == 0 || r.value.players[i].score == l.players[i].score + delta)
      && r.value.players[i] == l.players[i].(score := r.value.players[i].score, updatedAt := now)
      && (forall j :: 0 <= j < |l.players| && j != i ==> r.value.players[j] == l.players[j])
      && r.value == l.(players := r.value.players)
  {
    var i := IndexOfPlayer(l.players, playerId);
    if i == -1 then None
    else
      var current := l.players[i];
      var total := current.score + delta;
      Some(l.(players := l.players[i := current.(score := if total > 0 then total else 0, updatedAt := now)]))
  }

  /** The `updatePlayerName` mutator. */
  function RenameMutation(l: Lobby, playerId: string, name: string, now: nat): (r: Option<Lobby>)
    ensures r.None? <==> (var i := IndexOfPlayer(l.players, playerId); i < 0 || l.players[i].name == name)
    ensures r.Some? ==> var i := IndexOfPlayer(l.players, playerId);
      && |r.value.players| == |l.players|
      && r.value.players[i] == l.players[i].(name := name, updatedAt := now)
      && (forall j :: 0 <= j < |l.players| && j != i ==> r.value.players[j] == l.players[j])
      && r.value.hostName == (if l.hostId == Some(playerId) then Some(name) else l.hostName)
      && r.value == l.(players := r.value.players, hostName := r.value.hostName)
  {
    var i := IndexOfPlayer(l.players, playerId);
    if i == -1 then None
    else
      var current := l.players[i];
      if current.name == name then None
      else
        var hostName := if l.hostId == Some(playerId) then Some(name) else l.hostName;
        Some(l.(hostName := hostName, players := l.players[i := current.(name := name, updatedAt := now)]))
  }

  /** The `setLobbyStatus` mutator. */
  function StatusMutation(l: Lobby, status: string): (r: Lobby)
    ensures r.status == status && r.(status := l.status) == l
  {
    l.(status := status)
  }

  // ---------------------------------------------------------------- lemmas about the mutators

  /** Once a host is set, no join changes it; a hostless lobby gets the joiner, whose id is never empty when the fresh id is not. */
  lemma JoinHost(l: Lobby, req: JoinRequest, freshId: string, now: nat)
    requires freshId != ""
    ensures Present(JoinMutation(l, req, freshId, now).hostId)
    ensures Present(l.hostId) ==> JoinMutation(l, req, freshId, now).hostId == l.hostId
  {
  }

  /** One join step of a run of joins. */
  datatype Joiner = Joiner(req: JoinRequest, freshId: string, now: nat)

  function JoinAll(l: Lobby, js: seq<Joiner>): Lobby
    decreases |js|
  {
    if js == [] then l
    else JoinAll(Stamped(JoinMutation(l, js[0].req, js[0].freshId, js[0].now), js[0].now), js[1..])
  }

  /** The first joiner of a hostless lobby stays host through every later join. */
  lemma {:induction false} FirstJoinerStaysHost(l: Lobby, js: seq<Joiner>)
    requires !Present(l.hostId) && js != []
    requires forall k :: 0 <= k < |js| ==> js[k].freshId != ""
    ensures var first := PlayerData(js[0].req, js[0].freshId, l.code, js[0].now);
      JoinAll(l, js).hostId == Some(first.id) && JoinAll(l, js).hostName == Some(first.name)
  {
    var next := Stamped(JoinMutation(l, js[0].req, js[0].freshId, js[0].now), js[0].now);
    HostStable(next, js[1..]);
  }

  lemma {:induction false} HostStable(l: Lobby, js: seq<Joiner>)
    requires Present(l.hostId)
    ensures JoinAll(l, js).hostId == l.hostId && JoinAll(l, js).hostName == l.hostName
    ensures JoinAll(l, js).code == l.code
    decreases |js|
  {
    if js != [] {
      var next := Stamped(JoinMutation(l, js[0].req, js[0].freshId, js[0].now), js[0].now);
      HostStable(next, js[1..]);
    }
  }

  /** A join keeps at most one entry per id, given a fresh id nobody holds when the request has none. */
  lemma JoinKeepsIdsUnique(l: Lobby, req: JoinRequest, freshId: string, now: nat)
    requires UniqueIds(l.players)
    requires req.id == "" ==> IndexOfPlayer(l.players, freshId) < 0
    ensures UniqueIds(JoinMutation(l, req, freshId, now).players)
  {
    var r := JoinMutation(l, req, freshId, now);
    var p := PlayerData(req, freshId, l.code, now);
    var i := IndexOfPlayer(l.players, req.id);
    if req.id != "" {
      if i < 0 {
        assert r.players[|l.players|] == p;
      } else {
        assert r.players[i] == p;
      }
    } else {
      if i < 0 {
        assert r.players[|l.players|] == p;
      } else {
        assert r.players[i] == p;
      }
    }
  }

  /** A re-join overwrites the whole entry: a request with no numeric score resets the score to 0 and a missing `ready` clears it. */
  lemma RejoinResets(l: Lobby, req: JoinRequest, freshId: string, now: nat)
    requires req.id != "" && IndexOfPlayer(l.players, req.id) >= 0
    requires !req.score.Num? && !Truthy(req.ready)
    ensures var i := IndexOfPlayer(l.players, req.id); var r := JoinMutation(l, req, freshId, now);
      |r.players| == |l.players| && r.players[i].score == 0 && !r.players[i].ready
  {
  }

  /** An unforced toggle applied twice gives the player its readiness back; a forced toggle applied twice is a no-op the second time. */
  lemma ToggleTwice(l: Lobby, playerId: string, force: Value, now: nat, now': nat)
    requires ToggleMutation(l, playerId, force, now).Some?
    ensures var once := ToggleMutation(l, playerId, force, now).value;
      var i := IndexOfPlayer(l.players, playerId);
      && IndexOfPlayer(once.players, playerId) == i
      && (force.Bool? ==> ToggleMutation(once, playerId, force, now').None?)
      && (!force.Bool? ==> (ToggleMutation(once, playerId, force, now').Some?
            && ToggleMutation(once, playerId, force, now').value.players[i].ready == l.players[i].ready))
  {
    var once := ToggleMutation(l, playerId, force, now).value;
    var i := IndexOfPlayer(l.players, playerId);
    assert once.players[i].id == playerId;
  }

  // ---------------------------------------------------------------- ensure (pure view)

  /** `getLobby(code)` on a collection: the `!code` guard answers `null` for the empty code. */
  function LookupAsWritten(s: seq<Lobby>, code: string): (r: Option<Lobby>)
    ensures r.Some? <==> code != "" && IndexOfCode(s, code) >= 0
    ensures r.Some? ==> r.value == s[IndexOfCode(s, code)]
  {
    if code == "" then None
    else var i := IndexOfCode(s, code); if i < 0 then None else Some(s[i])
  }

  /** The collection after `ensureLobby` as written. */
  function EnsuredAsWritten(s: seq<Lobby>, code: string, seed: LobbySeed, now: nat): seq<Lobby> {
    if LookupAsWritten(s, code).Some? then s else s + [BuildLobby(code, seed, now)]
  }

  /** The collection after `ensureLobby` with the lookup by code alone. */
  function Ensured(s: seq<Lobby>, code: string, seed: LobbySeed, now: nat): (r: seq<Lobby>)
    ensures IndexOfCode(s, code) >= 0 ==> r == s
    ensures IndexOfCode(s, code) < 0 ==> r == s + [BuildLobby(code, seed, now)]
    ensures IndexOfCode(r, code) >= 0
    ensures IndexOfCode(s, code) < 0 ==> IndexOfCode(r, code) == |s|
  {
    if IndexOfCode(s, code) >= 0 then s
    else
      var r := s + [BuildLobby(code, seed, now)];
      assert r[|s|].code == code;
      r
  }

  lemma EnsuredIdempotent(s: seq<Lobby>, code: string, seed: LobbySeed, now: nat, seed': LobbySeed, now': nat)
    ensures Ensured(Ensured(s, code, seed, now), code, seed', now') == Ensured(s, code, seed, now)
  {
  }

  lemma AppendFreshKeepsValid(s: seq<Lobby>, l: Lobby)
    requires UniqueCodes(s) && Counted(s) && IndexOfCode(s, l.code) < 0 && l.playerCount == |l.players|
    ensures UniqueCodes(s + [l]) && Counted(s + [l])
  {
  }

  lemma ReplaceKeepsValid(s: seq<Lobby>, i: nat, l: Lobby)
    requires UniqueCodes(s) && Counted(s) && i < |s| && s[i].code == l.code && l.playerCount == |l.players|
    ensures UniqueCodes(s[i := l]) && Counted(s[i := l])
  {
  }

  lemma EnsuredKeepsValid(s: seq<Lobby>, code: string, seed: LobbySeed, now: nat)
    requires UniqueCodes(s) && Counted(s)
    ensures UniqueCodes(Ensured(s, code, seed, now)) && Counted(Ensured(s, code, seed, now))
  {
    if IndexOfCode(s, code) < 0 {
      AppendFreshKeepsValid(s, BuildLobby(code, seed, now));
    }
  }

  /** Off the empty code the as-written ensure and the lookup by code alone agree, in the collection and in the lobby handed on. */
  lemma EnsuredAgreesOffEmpty(s: seq<Lobby>, code: string, seed: LobbySeed, now: nat)
    requires code != ""
    ensures EnsuredAsWritten(s, code, seed, now) == Ensured(s, code, seed, now)
    ensures LookupAsWritten(s, code).Some? <==> IndexOfCode(s, code) >= 0
    ensures Store.Current(s, code, seed, now)
            == (if LookupAsWritten(s, code).Some? then LookupAsWritten(s, code).value else BuildLobby(code, seed, now))
  {
  }

  /** As written, ensuring the empty code twice leaves two lobbies with code "". */
  lemma EnsureAsWrittenDuplicatesEmptyCode(s: seq<Lobby>, seed: LobbySeed, now: nat, seed': LobbySeed, now': nat)
    ensures !UniqueCodes(EnsuredAsWritten(EnsuredAsWritten(s, "", seed, now), "", seed', now'))
  {
    var r := EnsuredAsWritten(EnsuredAsWritten(s, "", seed, now), "", seed', now');
    assert r == s + [BuildLobby("", seed, now)] + [BuildLobby("", seed', now')];
    assert r[|s|].code == r[|s| + 1].code;
  }

  // ---------------------------------------------------------------- listing

  function SortKey(l: Lobby): int {
    if l.updatedAt != 0 then l.updatedAt else l.createdAt
  }

  ghost predicate NewestFirst(s: seq<Lobby>) {
    forall i, j :: 0 <= i < j < |s| ==> SortKey(s[i]) >= SortKey(s[j])
  }

  // ---------------------------------------------------------------- the store

  class Store {
    var lobbies: seq<Lobby>
    var lobbyListeners: Registry
    var listListeners: set<ListenerId>
    ghost var log: seq<Event>

    ghost predicate Valid()
      reads this
    {
      UniqueCodes(lobbies) && Counted(lobbies) && WellFormed(lobbyListeners) && "" !in lobbyListeners
    }

    constructor (initial: seq<Lobby>)
      requires UniqueCodes(initial) && Counted(initial)
      ensures Valid() && lobbies == initial && lobbyListeners == map[] && listListeners == {} && log == []
    {
      lobbies := initial;
      lobbyListeners := map[];
      listListeners := {};
      log := [];
    }

    ghost function CommitEvents(next: seq<Lobby>, changed: Lobby): seq<Event>
      reads this
    {
      [Wrote(next, listListeners)]
      + (if changed.code in lobbyListeners then [Notified(changed.code, lobbyListeners[changed.code], changed)] else [])
      + [Announced(changed.code)]
    }

    /** The events an ensure of `code` records against `before`: none when the code is present. */
    ghost function EnsureEvents(before: seq<Lobby>, code: string, seed: LobbySeed, now: nat): seq<Event>
      reads this
    {
      if IndexOfCode(before, code) >= 0 then []
      else CommitEvents(Ensured(before, code, seed, now), BuildLobby(code, seed, now))
    }

    /** The lobby `updateLobby` hands its mutator: the stored one, or the one the ensure appended. */
    static function Current(before: seq<Lobby>, code: string, seed: LobbySeed, now: nat): (l: Lobby)
      ensures l.code == code
      ensures IndexOfCode(before, code) >= 0 ==> l == before[IndexOfCode(before, code)]
      ensures IndexOfCode(before, code) < 0 ==> l == BuildLobby(code, seed, now)
    {
      var s := Ensured(before, code, seed, now);
      s[IndexOfCode(s, code)]
    }

    /**
     * The outcome of `updateLobby` against `before` when the mutator answers
     * `m` for the current lobby: the lobby is ensured; nothing more is
     * written when `m` is nothing, otherwise the stamped `m` replaces it.
     */
    ghost predicate Updated(before: seq<Lobby>, logBefore: seq<Event>, code: string, seed: LobbySeed, now: nat,
                            m: Option<Lobby>, r: Lobby)
      reads this
    {
      var s := Ensured(before, code, seed, now);
      var i := IndexOfCode(s, code);
      var logEnsured := logBefore + EnsureEvents(before, code, seed, now);
      if m.None? then r == s[i] && lobbies == s && log == logEnsured
      else r == Stamped(m.value, now) && lobbies == s[i := r] && log == logEnsured + CommitEvents(lobbies, r)
    }

    method Commit(next: seq<Lobby>, changed: Lobby)
      modifies this`lobbies, this`log
      ensures lobbies == next && log == old(log) + CommitEvents(next, changed)
    {
      lobbies := next;
      log := log + [Wrote(next, listListeners)];
      if changed.code in lobbyListeners {
        log := log + [Notified(changed.code, lobbyListeners[changed.code], changed)];
      }
      log := log + [Announced(changed.code)];
    }

    /** `getLobby(code)` */
    function GetLobby(code: string): (r: Option<Lobby>)
      reads this
      ensures r.Some? <==> code != "" && IndexOfCode(lobbies, code) >= 0
      ensures r.Some? ==> r.value.code == code && r.value == lobbies[IndexOfCode(lobbies, code)]
    {
      LookupAsWritten(lobbies, code)
    }

    /** `listLobbies()` */
    function ListLobbies(): (r: seq<Lobby>)
      reads this
      ensures multiset(r) == multiset(lobbies) && |r| == |lobbies|
      ensures NewestFirst(r)
    {
      Sorting.SortDesc(lobbies, SortKey)
    }

    /** `ensureLobby(code, defaults)` as written, through `getLobby`. */
    method EnsureLobbyAsWritten(code: string, seed: LobbySeed, now: nat) returns (lobby: Lobby)
      modifies this`lobbies, this`log
      ensures lobbies == EnsuredAsWritten(old(lobbies), code, seed, now)
      ensures LookupAsWritten(old(lobbies), code).Some? ==> lobby == LookupAsWritten(old(lobbies), code).value && log == old(log)
      ensures LookupAsWritten(old(lobbies), code).None? ==>
        lobby == BuildLobby(code, seed, now) && log == old(log) + CommitEvents(lobbies, lobby)
    {
      var existing := GetLobby(code);
      if existing.Some? {
        return existing.value;
      }
      lobby := BuildLobby(code, seed, now);
      Commit(lobbies + [lobby], lobby);
    }

    /** `ensureLobby(code, defaults)`, the lookup by code alone. */
    method EnsureLobby(code: string, seed: LobbySeed, now: nat) returns (lobby: Lobby)
      requires Valid()
      modifies this`lobbies, this`log
      ensures Valid()
      ensures lobbies == Ensured(old(lobbies), code, seed, now)
      ensures lobby == lobbies[IndexOfCode(lobbies, code)]
      ensures log == old(log) + EnsureEvents(old(lobbies), code, seed, now)
    {
      var index := IndexOfCode(lobbies, code);
      if index >= 0 {
        return lobbies[index];
      }
      lobby := BuildLobby(code, seed, now);
      EnsuredKeepsValid(lobbies, code, seed, now);
      Commit(lobbies + [lobby], lobby);
    }

    /** `updateLobby(code, mutator, defaults)`: a missing lobby is created first; a mutator answering nothing returns the current lobby unwritten. */
    method UpdateLobby(code: string, mutator: Lobby -> Option<Lobby>, seed: LobbySeed, now: nat) returns (r: Lobby)
      requires Valid()
      requires mutator(Current(lobbies, code, seed, now)).Some? ==> mutator(Current(lobbies, code, seed, now)).value.code == code
      modifies this`lobbies, this`log
      ensures Valid()
      ensures Updated(old(lobbies), old(log), code, seed, now, mutator(Current(old(lobbies), code, seed, now)), r)
      ensures r.playerCount == |r.players| && r.code == code
    {
      var lobby := EnsureLobby(code, seed, now);
      var updated := mutator(lobby);
      if updated.None? {
        return lobby;
      }
      var next := Stamped(updated.value, now);
      var index := IndexOfCode(lobbies, code);
      // The ensure above leaves the code present, so the source's `push` branch is never taken.
      assert index >= 0;
      ReplaceKeepsValid(lobbies, index, next);
      Commit(lobbies[index := next], next);
      r := next;
    }

    /** `joinLobby(code, player, defaults)`: ensure, then update with the ensured lobby as defaults. */
    method JoinLobby(code: string, req: JoinRequest, freshId: string, seed: LobbySeed, now: nat) returns (r: Lobby)
      requires Valid()
      modifies this`lobbies, this`log
      ensures Valid()
      ensures var s := Ensured(old(lobbies), code, seed, now); var i := IndexOfCode(s, code);
        && r == Stamped(JoinMutation(s[i], req, freshId, now), now)
        && lobbies == s[i := r]
        && log == old(log) + EnsureEvents(old(lobbies), code, seed, now) + CommitEvents(lobbies, r)
    {
      var base := EnsureLobby(code, seed, now);
      r := UpdateLobby(code, l => Some(JoinMutation(l, req, freshId, now)), SeedOf(base), now);
    }

    /** `togglePlayerReady(code, playerId, forceValue)`: an empty id is answered before anything is read. */
    method TogglePlayerReady(code: string, playerId: string, force: Value, now: nat) returns (r: Option<Lobby>)
      requires Valid()
      modifies this`lobbies, this`log
      ensures Valid()
      ensures playerId == "" ==> r.None? && lobbies == old(lobbies) && log == old(log)
      ensures playerId != "" ==> r.Some? && Updated(old(lobbies), old(log), code, NoSeed, now,
          ToggleMutation(Current(old(lobbies), code, NoSeed, now), playerId, force, now), r.value)
    {
      if playerId == "" {
        return None;
      }
      var lobby := UpdateLobby(code, l => ToggleMutation(l, playerId, force, now), NoSeed, now);
      r := Some(lobby);
    }

    /** `incrementPlayerScore(code, playerId, delta)`: a zero delta is answered before anything is read. */
    method IncrementPlayerScore(code: string, playerId: string, delta: int, now: nat) returns (r: Option<Lobby>)
      requires Valid()
      modifies this`lobbies, this`log
      ensures Valid()
      ensures delta == 0 ==> r.None? && lobbies == old(lobbies) && log == old(log)
      ensures delta != 0 ==> r.Some? && Updated(old(lobbies), old(log), code, NoSeed, now,
          ScoreMutation(Current(old(lobbies), code, NoSeed, now), playerId, delta, now), r.value)
    {
      if delta == 0 {
        return None;
      }
      var lobby := UpdateLobby(code, l => ScoreMutation(l, playerId, delta, now), NoSeed, now);
      r := Some(lobby);
    }

    /** `updatePlayerName(code, playerId, name)`: an empty name is answered before anything is read. */
    method UpdatePlayerName(code: string, playerId: string, name: string, now: nat) returns (r: Option<Lobby>)
      requires Valid()
      modifies this`lobbies, this`log
      ensures Valid()
      ensures name == "" ==> r.None? && lobbies == old(lobbies) && log == old(log)
      ensures name != "" ==> r.Some? && Updated(old(lobbies), old(log), code, NoSeed, now,
          RenameMutation(Current(old(lobbies), code, NoSeed, now), playerId, name, now), r.value)
    {
      if name == "" {
        return None;
      }
      var lobby := UpdateLobby(code, l => RenameMutation(l, playerId, name, now), NoSeed, now);
      r := Some(lobby);
    }

    /** `setLobbyStatus(code, status)`: an empty status is answered before anything is read. */
    method SetLobbyStatus(code: string, status: string, now: nat) returns (r: Option<Lobby>)
      requires Valid()
      modifies this`lobbies, this`log
      ensures Valid()
      ensures status == "" ==> r.None? && lobbies == old(lobbies) && log == old(log)
      ensures status != "" ==> r.Some? && r.value.status == status
      ensures status != "" ==> r.Some? && Updated(old(lobbies), old(log), code, NoSeed, now,
          Some(StatusMutation(Current(old(lobbies), code, NoSeed, now), status)), r.value)
    {
      if status == "" {
        return None;
      }
      var lobby := UpdateLobby(code, l => Some(StatusMutation(l, status)), NoSeed, now);
      r := Some(lobby);
    }

    /** The codes `createLobby` tries in turn: the requested code if it is non-empty, then one per draw. */
    static function Attempts(seed: LobbySeed, draws: seq<nat>): (a: seq<string>)
      requires forall k :: 0 <= k < |draws| ==> draws[k] < 9000
      ensures |a| == |draws| + (if Present(seed.code) then 1 else 0)
      ensures forall k :: 0 <= k < |a| ==> (Present(seed.code) && k == 0 && a[k] == seed.code.value) || LobbyCodes.IsGeneratedCode(a[k])
      ensures Present(seed.code) ==> a[0] == seed.code.value
    {
      var generated := seq(|draws|, k requires 0 <= k < |draws| => LobbyCodes.GenerateLobbyCode(draws[k]));
      if Present(seed.code) then [seed.code.value] + generated else generated
    }

    static method FirstFree(s: seq<Lobby>, attempts: seq<string>) returns (k: nat)
      requires exists m :: 0 <= m < |attempts| && IndexOfCode(s, attempts[m]) < 0
      ensures k < |attempts| && IndexOfCode(s, attempts[k]) < 0
      ensures forall j :: 0 <= j < k ==> IndexOfCode(s, attempts[j]) >= 0
    {
      k := 0;
      while IndexOfCode(s, attempts[k]) >= 0
        invariant 0 <= k < |attempts|
        invariant forall j :: 0 <= j < k ==> IndexOfCode(s, attempts[j]) >= 0
        invariant exists m :: k <= m < |attempts| && IndexOfCode(s, attempts[m]) < 0
        decreases |attempts| - k
      {
        k := k + 1;
      }
    }

    /** `createLobby(options)`: the first attempted code no stored lobby has; the collection grows by that one lobby. */
    method CreateLobby(seed: LobbySeed, draws: seq<nat>, now: nat) returns (lobby: Lobby, attempt: nat)
      requires Valid()
      requires forall k :: 0 <= k < |draws| ==> draws[k] < 9000
      requires exists k :: 0 <= k < |Attempts(seed, draws)| && IndexOfCode(lobbies, Attempts(seed, draws)[k]) < 0
      modifies this`lobbies, this`log
      ensures Valid()
      ensures attempt < |Attempts(seed, draws)| && lobby.code == Attempts(seed, draws)[attempt]
      ensures forall j :: 0 <= j < attempt ==> IndexOfCode(old(lobbies), Attempts(seed, draws)[j]) >= 0
      ensures IndexOfCode(old(lobbies), lobby.code) < 0
      ensures lobbies == old(lobbies) + [lobby] && lobby == BuildLobby(lobby.code, seed, now)
      ensures !Present(seed.code) ==> LobbyCodes.IsGeneratedCode(lobby.code)
      ensures log == old(log) + CommitEvents(lobbies, lobby)
    {
      var attempts := Attempts(seed, draws);
      attempt := FirstFree(lobbies, attempts);
      lobby := BuildLobby(attempts[attempt], seed, now);
      AppendFreshKeepsValid(lobbies, lobby);
      Commit(lobbies + [lobby], lobby);
    }

    /** `subscribeToLobby(code, callback)` */
    method SubscribeToLobby(code: string, callback: ListenerId) returns (initial: Option<Lobby>)
      requires Valid()
      modifies this`lobbyListeners
      ensures Valid()
      ensures code == "" ==> lobbyListeners == old(lobbyListeners) && initial.None?
      ensures code != "" ==> lobbyListeners == Added(old(lobbyListeners), code, callback)
      ensures initial == GetLobby(code)
    {
      if code == "" {
        return None;
      }
      lobbyListeners := Added(lobbyListeners, code, callback);
      initial := GetLobby(code);
    }

    /** The function `subscribeToLobby` returns. */
    method UnsubscribeFromLobby(code: string, callback: ListenerId)
      requires Valid()
      modifies this`lobbyListeners
      ensures Valid()
      ensures lobbyListeners == Removed(old(lobbyListeners), code, callback)
    {
      lobbyListeners := Removed(lobbyListeners, code, callback);
    }

    /** `subscribeToLobbyList(callback)` */
    method SubscribeToLobbyList(callback: ListenerId) returns (initial: seq<Lobby>)
      requires Valid()
      modifies this`listListeners
      ensures Valid()
      ensures listListeners == old(listListeners) + {callback}
      ensures initial == ListLobbies()
    {
      listListeners := listListeners + {callback};
      initial := ListLobbies();
    }

    /** The function `subscribeToLobbyList` returns. */
    method UnsubscribeFromLobbyList(callback: ListenerId)
      requires Valid()
      modifies this`listListeners
      ensures Valid()
      ensures listListeners == old(listListeners) - {callback}
    {
      listListeners := listListeners - {callback};
    }
  }
}
