# wordhex lobby store and word scoring, modelled in Dafny

wordhex is a word game for Discord: players join a lobby and score words on a shared board of letter tiles. This project models two parts of it.

- **The lobby store**: a browser-local collection of lobbies kept under one storage key.
  - Every mutation finds a lobby by its code, applies a pure updater, writes the whole collection back, notifies that lobby's listeners and announces the change to other tabs.
  - Two drifted copies exist: a typed one (`LobbyServiceTs`) and an untyped one (`LobbyServiceJs`).
  - They differ in their defaults, in whether a join creates the lobby and names a host, and in forced readiness.
- **The word game screens**, in two versions: the React activity (`ActivityView`) and the plain-script Discord page (`DiscordActivity`). Both share the same board and scoring code (`WordBoard`):
  - a 25-tile board carrying letter bonuses, word bonuses and gems;
  - greedy scoring of a typed word;
  - a gem reserve capped at 10, which pays for shuffle, swap and hint.

Modules:

| module | file | models |
|---|---|---|
| `Wrappers` | wrappers.dfy | the `Option` type |
| `LobbyCodes` | lobby_codes.dfy | `String(n)` for naturals, and four-digit lobby codes |
| `LobbySettings` | settings.dfy | the partial settings bag and its spread merge |
| `Listeners` | listeners.dfy | the per-code listener registry (`Map<string, Set>`) |
| `PlayerProfiles` | profiles.dfy | the stored player profile (`ensurePlayerProfile`, `updatePlayerProfile`) |
| `LobbyServiceTs` | lobby_ts.dfy | the typed lobby store, with its updaters and class `Store` |
| `LobbyServiceJs` | lobby_js.dfy | the untyped lobby store, with its mutators and class `Store` |
| `Sorting` | sorting.dfy | the stable `Array.prototype.sort` with a descending key, as an insertion sort |
| `WordBoard` | word_board.dfy | tiles, `scoreWord`, `generateBoard`, swap, hint, `trim`, the gem clamp |
| `ActivityView` | activity_view.dfy | the React component's state (class `Activity`) and its handlers |
| `DiscordActivity` | discord_activity.dfy | the Discord page's module state (class `Activity`) and its handlers |

How the pieces are represented:

- **Store state.**
  - Each `Store` class holds the persisted collection in the field `lobbies`, plus both listener registries.
  - A ghost `log` records every write, lobby notification and cross-tab announcement. So "nothing was written" is stated as `log == old(log)`.
  - `Valid()` says the codes are unique. In the untyped copy it also says each `playerCount` matches its players.
- **The activity screens.**
  - Their state is a class whose fields are the React state hooks, or the page's module variables.
  - `Valid()` keeps the gem reserve in [0, 10]. In the React view it also keeps the board at 25 tiles and the feed and history at 12 entries or fewer.
- **Time and randomness are inputs.**
  - The clock is a `nat` parameter `now`. Zero stands for a missing timestamp.
  - Each random choice is supplied by the caller:
    - letter draws for the board;
    - splice positions for the specials;
    - index draws for the swap;
    - code draws for lobby creation;
    - fresh ids.
- **Loops that wait for luck.** The swap's resampling loop and the lobby-code collision loop are given draws under a requirement that a usable draw exists.

## Where the code departs from its documented design

The model follows the code in each case below. Two places take the corrected behaviour of a Findings row instead, and "## Left out" names them: the empty code in the untyped store (see the `ensureLobby` item), and the swap branch of the React screen's `handleGemAction`, which as written throws after charging three gems.

- **Typed `joinLobby` (lobby-service.ts:207-219):**
  - it neither creates a missing lobby nor names a host;
  - for an unknown code it writes nothing and answers nothing;
  - only the untyped copy ensures the lobby and makes the first joiner host.
- **Typed `togglePlayerReady` (lobby-service.ts:221-234):**
  - it takes no forced value;
  - it always flips the player's readiness, with no same-value guard.
- **`ensureLobby` idempotence** holds for every code except `""`, in both copies (see Findings). The untyped store's `updateLobby` and `joinLobby` use the corrected ensure, so for `""` they follow the intended get-or-create rather than the code; "## Left out" names them.
- **Settings defaults differ between the copies:**
  - the typed `buildLobby` keeps the seed's settings, or `{}`;
  - the untyped one spreads the seed's settings over `defaultLobbySettings`.
- **Updater results:**
  - the untyped `updateLobby` returns the current lobby when the mutator answers nothing;
  - the typed one returns nothing.

## Model

| member | source | states |
|---|---|---|
| LobbyCodes.ParseToDecimal | wordhex/WordHex/src/services/lobby-service.ts:101 | `String(n)` of a natural number is all decimal digits and parses back to `n`, so the rendering loses nothing |
| LobbyCodes.GenerateLobbyCode | wordhex/WordHex/src/services/lobby-service.ts:101 | the code for draw `d < 9000` is four decimal digits, does not start with `0`, and has the value `1000 + d` |
| LobbyCodes.FourDigits | wordhex/scripts/lobby-service.js:63-65 | every number in [1000, 9999] renders as exactly four characters with no leading zero |
| LobbyCodes.GeneratedCodesDistinct | wordhex/scripts/lobby-service.js:63-65 | two different draws never produce the same lobby code |
| LobbySettings.MergeIdentity | wordhex/scripts/lobby-service.js:131 | spreading an empty settings bag on either side of a merge changes nothing |
| LobbySettings.MergeOverDefaults | wordhex/scripts/lobby-service.js:131 | over complete defaults the merged settings are complete; for each of the eight fields the seed's value wins when supplied and the default is kept otherwise |
| LobbySettings.MergeIdempotent | wordhex/scripts/lobby-service.js:131 | merging the same overrides a second time gives the same settings |
| Listeners.Added | wordhex/WordHex/src/services/lobby-service.ts:292-296 | after a subscribe the code's set is exactly its previous set (or none) plus the callback, no code but this one is added, and "no empty set" stays true |
| Listeners.Removed | wordhex/WordHex/src/services/lobby-service.ts:299-304 | after an unsubscribe a kept set is exactly the previous set less the callback; a set is dropped only when the callback was its last member; no code appears and no empty set remains |
| Listeners.RemovedAfterAdded | wordhex/WordHex/src/services/lobby-service.ts:292-304 | subscribing a callback that was not registered and then unsubscribing it restores the registry exactly |
| Listeners.RemovedIdempotent | wordhex/scripts/lobby-service.js:297-302 | calling an unsubscribe function a second time changes nothing |
| Listeners.OtherCodesUntouched | wordhex/scripts/lobby-service.js:290-302 | subscribe and unsubscribe leave every other code's listener set as it was |
| PlayerProfiles.DefaultName | wordhex/WordHex/src/services/lobby-service.ts:332 | a generated name is `"Player "` followed by a four-digit lobby code |
| PlayerProfiles.Patched | wordhex/WordHex/src/services/lobby-service.ts:340 | the patched profile takes `id`, `name` and `createdAt` from the updates when given and from the current profile otherwise, gains or overwrites every other key the updates carry, keeps the rest, and stamps `updatedAt` |
| PlayerProfiles.ProfileStore.constructor | wordhex/WordHex/src/services/lobby-service.ts:328 | the store starts with the given parsed profile key and no writes |
| PlayerProfiles.ProfileStore.EnsurePlayerProfile | wordhex/WordHex/src/services/lobby-service.ts:321-335 | a stored profile with non-empty id and name is returned without a write; otherwise a fresh profile (new id, default name, creation time) is written and returned |
| PlayerProfiles.ProfileStore.UpdatePlayerProfile | wordhex/WordHex/src/services/lobby-service.ts:337-347 | no updates behaves as `ensurePlayerProfile` (a usable stored profile is returned unwritten, otherwise the fresh one is written); with updates the ensured profile is patched, written and returned, after the fresh one when one was made |
| LobbyServiceTs.IndexOfCode | wordhex/WordHex/src/services/lobby-service.ts:184 | the index of the first lobby with the code, or -1 exactly when no lobby has it |
| LobbyServiceTs.IndexOfPlayer | wordhex/WordHex/src/services/lobby-service.ts:210 | the index of the first player with the id, or -1 exactly when no player has it |
| LobbyServiceTs.BuildLobby | wordhex/WordHex/src/services/lobby-service.ts:166-180 | a new lobby has the code, the seeded host id, status and channel; host name is the seed's, else `"Host"` unless a host id was given; each supplied timestamp, player list, max players and settings is kept, and a missing one is now, none, 6 and `{}` |
| LobbyServiceTs.JoinUpdate | wordhex/WordHex/src/services/lobby-service.ts:207-219 | a new id is appended with its `updatedAt` stamped; a known id has the incoming fields spread over its entry; no other entry changes, and the lobby keeps every field but its players and `updatedAt` |
| LobbyServiceTs.ToggleReadyUpdate | wordhex/WordHex/src/services/lobby-service.ts:221-234 | nothing for an unknown player; otherwise that player's `ready` becomes the negation of its readiness and its `updatedAt` is now, its other fields and every other entry are unchanged, and the lobby keeps every field but its players and `updatedAt` |
| LobbyServiceTs.ScoreUpdate | wordhex/WordHex/src/services/lobby-service.ts:236-251 | nothing for an unknown player; otherwise that player's score becomes `max(0, score + delta)` and its `updatedAt` is now, every other entry is unchanged, and the lobby keeps every field but its players and `updatedAt` |
| LobbyServiceTs.RenameUpdate | wordhex/WordHex/src/services/lobby-service.ts:253-266 | nothing for an unknown player or an unchanged name; otherwise the player is renamed and stamped, `hostName` follows exactly when the player is the host, and the lobby keeps every other field but `updatedAt` |
| LobbyServiceTs.StatusUpdate | wordhex/WordHex/src/services/lobby-service.ts:268-271 | the status is set and `updatedAt` stamped; every other field is unchanged |
| LobbyServiceTs.SortedNewestFirst | wordhex/WordHex/src/services/lobby-service.ts:273-281 | the listing is a permutation of the collection ordered by `updatedAt`, else `createdAt`, else 0, newest first |
| LobbyServiceTs.LookupAsWritten | wordhex/WordHex/src/services/lobby-service.ts:131-136 | the lookup finds a lobby exactly when the code is non-empty and present, and then returns the first lobby with that code |
| LobbyServiceTs.Ensured | wordhex/WordHex/src/services/lobby-service.ts:196-205 | the collection is unchanged when the code is present, and otherwise gains the built lobby at its end |
| LobbyServiceTs.EnsuredFinds | wordhex/WordHex/src/services/lobby-service.ts:196-205 | after an ensure the code is present, and a newly built lobby is found at the end |
| LobbyServiceTs.EnsuredIdempotent | wordhex/WordHex/src/services/lobby-service.ts:196-205 | ensuring the same code a second time, with any seed and time, changes nothing more |
| LobbyServiceTs.AppendFreshKeepsUnique | wordhex/WordHex/src/services/lobby-service.ts:199-200 | appending a lobby with an unused code keeps codes unique |
| LobbyServiceTs.ReplaceKeepsUnique | wordhex/WordHex/src/services/lobby-service.ts:188-189 | replacing a lobby by one with the same code keeps codes unique |
| LobbyServiceTs.EnsuredKeepsUnique | wordhex/WordHex/src/services/lobby-service.ts:196-205 | the corrected ensure keeps codes unique |
| LobbyServiceTs.EnsureAsWrittenDuplicatesEmptyCode | wordhex/WordHex/src/services/lobby-service.ts:196-198 | ensuring `""` twice, as written, always leaves two lobbies with the code `""` |
| LobbyServiceTs.JoinKeepsIdsUnique | wordhex/WordHex/src/services/lobby-service.ts:209-216 | a join keeps player ids unique and leaves the joining id present |
| LobbyServiceTs.ToggleTwiceRestores | wordhex/WordHex/src/services/lobby-service.ts:221-234 | toggling a known player twice gives back its readiness and keeps the other entries |
| LobbyServiceTs.RenameKeepsHostNameInStep | wordhex/WordHex/src/services/lobby-service.ts:253-266 | when `hostName` is the host entry's name, it still is after any rename |
| LobbyServiceTs.MutationsKeepScoresNonNegative | wordhex/WordHex/src/services/lobby-service.ts:207-251 | any sequence of joins (with non-negative scores), ready toggles and score increments keeps every score non-negative, and the code and host |
| LobbyServiceTs.Store.constructor | wordhex/WordHex/src/services/lobby-service.ts:81-86 | the store starts with a collection of unique codes, no listeners and no events |
| LobbyServiceTs.Store.Commit | wordhex/WordHex/src/services/lobby-service.ts:188-192 | a write stores the collection and records the write (with list listeners notified), the lobby's listeners if it has any, and the announcement |
| LobbyServiceTs.Store.GetLobby | wordhex/WordHex/src/services/lobby-service.ts:131-136 | the stored lobby with the code when the code is non-empty and present, and nothing otherwise |
| LobbyServiceTs.Store.ListLobbies | wordhex/WordHex/src/services/lobby-service.ts:273-281 | a newest-first permutation of the stored collection |
| LobbyServiceTs.Store.UpdateLobby | wordhex/WordHex/src/services/lobby-service.ts:182-194 | an unknown code or an updater answering nothing writes nothing; otherwise exactly that index is replaced and the commit events recorded; the count is kept |
| LobbyServiceTs.Store.EnsureLobbyAsWritten | wordhex/WordHex/src/services/lobby-service.ts:196-205 | the collection becomes the as-written ensure; a found lobby is returned without events, otherwise the built lobby is appended and committed |
| LobbyServiceTs.Store.EnsureLobby | wordhex/WordHex/src/services/lobby-service.ts:196-205 | the corrected ensure: codes stay unique, the lobby with the code is returned, and events are recorded only when it was created |
| LobbyServiceTs.Store.JoinLobby | wordhex/WordHex/src/services/lobby-service.ts:207-219 | an unknown code changes nothing (no implicit create); otherwise the lobby is replaced by the join update |
| LobbyServiceTs.Store.TogglePlayerReady | wordhex/WordHex/src/services/lobby-service.ts:221-234 | the lobby is replaced by the toggle update, or nothing is written when the code or player is unknown |
| LobbyServiceTs.Store.IncrementPlayerScore | wordhex/WordHex/src/services/lobby-service.ts:236-251 | a zero delta writes nothing; otherwise the lobby is replaced by the score update, or nothing is written |
| LobbyServiceTs.Store.UpdatePlayerName | wordhex/WordHex/src/services/lobby-service.ts:253-266 | an empty name writes nothing; otherwise the lobby is replaced by the rename update, or nothing is written |
| LobbyServiceTs.Store.SetLobbyStatus | wordhex/WordHex/src/services/lobby-service.ts:268-271 | an empty status writes nothing; otherwise the found lobby gets the status unconditionally |
| LobbyServiceTs.Store.Attempts | wordhex/WordHex/src/services/lobby-service.ts:309-311 | the codes `createLobby` tries, in order: a supplied non-empty code first, then one generated code per draw |
| LobbyServiceTs.Store.FirstFree | wordhex/WordHex/src/services/lobby-service.ts:310-312 | the resampling loop stops at the first attempt that no lobby uses |
| LobbyServiceTs.Store.CreateLobby | wordhex/WordHex/src/services/lobby-service.ts:307-319 | the new lobby's code is the first unused attempt (generated when none was supplied); it is appended, codes stay unique, and the commit is recorded |
| LobbyServiceTs.Store.SubscribeToLobby | wordhex/WordHex/src/services/lobby-service.ts:292-298 | an empty code registers nothing; otherwise the callback is added; the initial delivery is the current lobby, if any |
| LobbyServiceTs.Store.UnsubscribeFromLobby | wordhex/WordHex/src/services/lobby-service.ts:299-304 | the returned function removes the callback as `Listeners.Removed` states |
| LobbyServiceTs.Store.SubscribeToLobbyList | wordhex/WordHex/src/services/lobby-service.ts:283-286 | the callback joins the list listeners and first receives the sorted listing |
| LobbyServiceTs.Store.UnsubscribeFromLobbyList | wordhex/WordHex/src/services/lobby-service.ts:287-289 | the returned function removes the callback |
| LobbyServiceJs.IndexOfCode | wordhex/scripts/lobby-service.js:173 | the index of the first lobby with the code, or -1 exactly when no lobby has it |
| LobbyServiceJs.IndexOfPlayer | wordhex/scripts/lobby-service.js:192 | the index of the first player with the id, or -1 exactly when no player has it |
| LobbyServiceJs.BuildLobby | wordhex/scripts/lobby-service.js:123-138 | a new lobby has the code, no players and count 0; each default falls back when falsy: host id the seed's when truthy, channel the seed's channel, else its channel name, else `#spellcast-practice`, max players the seed's when non-zero, else 6, status `"waiting"`; settings are the defaults overridden by the seed's |
| LobbyServiceJs.Stamped | wordhex/scripts/lobby-service.js:166-171 | the count is recomputed from the players and `updatedAt` stamped; nothing else changes |
| LobbyServiceJs.PlayerData | wordhex/scripts/lobby-service.js:193-201 | the joining entry: the given id or a fresh one, the given name or `"Player " + code`, a numeric score or 0, a boolean `ready`, active unless explicitly false, the given `joinedAt` or now, and stamped |
| LobbyServiceJs.JoinMutation | wordhex/scripts/lobby-service.js:189-214 | the joiner's entry replaces a known id or is appended; a lobby without a host gets the joiner as host (id and name); every other lobby field, count and timestamps included, is kept |
| LobbyServiceJs.ToggleMutation | wordhex/scripts/lobby-service.js:221-231 | nothing for an unknown player or when the forced value equals the current one; otherwise readiness becomes the forced value or its negation, and only that entry changes |
| LobbyServiceJs.ScoreMutation | wordhex/scripts/lobby-service.js:236-248 | nothing for an unknown player; otherwise that score becomes `max(0, score + delta)` and only that entry changes |
| LobbyServiceJs.RenameMutation | wordhex/scripts/lobby-service.js:253-263 | nothing for an unknown player or an unchanged name; otherwise the player is renamed and `hostName` follows exactly when the player is the host |
| LobbyServiceJs.StatusMutation | wordhex/scripts/lobby-service.js:268 | only the status changes |
| LobbyServiceJs.JoinHost | wordhex/scripts/lobby-service.js:210-211 | after a join the lobby has a host, and an existing host is kept |
| LobbyServiceJs.FirstJoinerStaysHost | wordhex/scripts/lobby-service.js:208-212 | in any run of joins on a hostless lobby the first joiner becomes host and stays host |
| LobbyServiceJs.HostStable | wordhex/scripts/lobby-service.js:210-211 | once a lobby has a host, no run of joins changes its id or name |
| LobbyServiceJs.JoinKeepsIdsUnique | wordhex/scripts/lobby-service.js:192-207 | a join keeps player ids unique, given that a generated id is not already present |
| LobbyServiceJs.RejoinResets | wordhex/scripts/lobby-service.js:193-204 | a re-join without a numeric score or a truthy ready resets that entry's score to 0 and clears `ready` |
| LobbyServiceJs.ToggleTwice | wordhex/scripts/lobby-service.js:219-232 | an unforced toggle done twice restores readiness; the same forced value a second time is a no-op |
| LobbyServiceJs.LookupAsWritten | wordhex/scripts/lobby-service.js:152-157 | the lookup finds a lobby exactly when the code is non-empty and present, and then returns the first lobby with that code |
| LobbyServiceJs.Ensured | wordhex/scripts/lobby-service.js:140-150 | the collection is unchanged when the code is present, and otherwise gains the built lobby at its end; afterwards the code is present |
| LobbyServiceJs.EnsuredIdempotent | wordhex/scripts/lobby-service.js:140-150 | ensuring the same code a second time changes nothing more |
| LobbyServiceJs.AppendFreshKeepsValid | wordhex/scripts/lobby-service.js:144-146 | appending a lobby with an unused code and a correct count keeps codes unique and counts correct |
| LobbyServiceJs.ReplaceKeepsValid | wordhex/scripts/lobby-service.js:173-175 | replacing a lobby by one with the same code and a correct count keeps codes unique and counts correct |
| LobbyServiceJs.EnsuredKeepsValid | wordhex/scripts/lobby-service.js:140-150 | the corrected ensure keeps codes unique and counts correct |
| LobbyServiceJs.EnsuredAgreesOffEmpty | wordhex/scripts/lobby-service.js:140-163 | for every non-empty code the as-written ensure and the lookup by code alone give the same collection and hand the mutator the same lobby, so the corrected path departs from the code only for `""` |
| LobbyServiceJs.EnsureAsWrittenDuplicatesEmptyCode | wordhex/scripts/lobby-service.js:140-142 | ensuring `""` twice, as written, always leaves two lobbies with the code `""` |
| LobbyServiceJs.Store.constructor | wordhex/scripts/lobby-service.js:43-48 | the store starts with a collection of unique codes and correct counts, no listeners and no events |
| LobbyServiceJs.Store.Current | wordhex/scripts/lobby-service.js:159-163 | the lobby handed to a mutator is the stored one for the code, or the freshly built one when it was missing |
| LobbyServiceJs.Store.Commit | wordhex/scripts/lobby-service.js:179-181 | a write stores the collection and records the write, the lobby's listeners if it has any, and the announcement |
| LobbyServiceJs.Store.GetLobby | wordhex/scripts/lobby-service.js:152-157 | the stored lobby with the code when the code is non-empty and present, and nothing otherwise |
| LobbyServiceJs.Store.ListLobbies | wordhex/scripts/lobby-service.js:271-279 | a newest-first permutation of the stored collection |
| LobbyServiceJs.Store.EnsureLobbyAsWritten | wordhex/scripts/lobby-service.js:140-150 | the collection becomes the as-written ensure; a found lobby is returned without events, otherwise the built lobby is appended and committed |
| LobbyServiceJs.Store.EnsureLobby | wordhex/scripts/lobby-service.js:140-150 | the corrected ensure: the lobby with the code is returned and the events are exactly those of a creation, or none |
| LobbyServiceJs.Store.UpdateLobby | wordhex/scripts/lobby-service.js:159-183 | the lobby is ensured first; a mutator answering nothing returns it; otherwise the stamped result replaces it and is committed |
| LobbyServiceJs.Store.JoinLobby | wordhex/scripts/lobby-service.js:185-217 | the lobby is ensured with the seed, then replaced by the stamped join mutation; the log gains the ensure's events and one commit |
| LobbyServiceJs.Store.TogglePlayerReady | wordhex/scripts/lobby-service.js:219-232 | an empty id writes nothing; otherwise the update runs the toggle mutation on the current lobby |
| LobbyServiceJs.Store.IncrementPlayerScore | wordhex/scripts/lobby-service.js:234-249 | a zero delta writes nothing; otherwise the update runs the score mutation on the current lobby |
| LobbyServiceJs.Store.UpdatePlayerName | wordhex/scripts/lobby-service.js:251-264 | an empty name writes nothing; otherwise the update runs the rename mutation on the current lobby |
| LobbyServiceJs.Store.SetLobbyStatus | wordhex/scripts/lobby-service.js:266-269 | an empty status writes nothing; otherwise the current lobby gets the status |
| LobbyServiceJs.Store.Attempts | wordhex/scripts/lobby-service.js:307-309 | the codes `createLobby` tries, in order: a supplied non-empty code first, then one generated code per draw |
| LobbyServiceJs.Store.FirstFree | wordhex/scripts/lobby-service.js:308-310 | the resampling loop stops at the first attempt that no lobby uses |
| LobbyServiceJs.Store.CreateLobby | wordhex/scripts/lobby-service.js:305-317 | the new lobby's code is the first unused attempt (generated when none was supplied); it is appended, codes stay unique, and the commit is recorded |
| LobbyServiceJs.Store.SubscribeToLobby | wordhex/scripts/lobby-service.js:290-296 | an empty code registers nothing; otherwise the callback is added; the initial delivery is the current lobby, if any |
| LobbyServiceJs.Store.UnsubscribeFromLobby | wordhex/scripts/lobby-service.js:297-302 | the returned function removes the callback as `Listeners.Removed` states |
| LobbyServiceJs.Store.SubscribeToLobbyList | wordhex/scripts/lobby-service.js:281-284 | the callback joins the list listeners and first receives the sorted listing |
| LobbyServiceJs.Store.UnsubscribeFromLobbyList | wordhex/scripts/lobby-service.js:285-287 | the returned function removes the callback |
| Sorting.Insert | wordhex/WordHex/src/services/lobby-service.ts:275-279 | inserting adds exactly the one element to the multiset of the sequence |
| Sorting.InsertSorted | wordhex/WordHex/src/services/lobby-service.ts:275-279 | inserting into a greatest-first sequence keeps it greatest-first |
| Sorting.SortDesc | wordhex/discord-activity/public/scripts/activity.js:39-40 | the sort is a permutation of its input, ordered greatest key first |
| Sorting.SortDescHeadIsMax | wordhex/WordHex/src/app/Activity.tsx:252 | the head of the sorted sequence has a key no smaller than any element's |
| Sorting.SortDescHeadIsFirstMax | wordhex/WordHex/src/app/Activity.tsx:252 | the head of the sorted sequence is the earliest element of greatest key (the sort is stable) |
| WordBoard.Upper | wordhex/WordHex/src/app/Activity.tsx:167 | `toUpperCase` maps `a`–`z` to `A`–`Z` and keeps every other character |
| WordBoard.UpperWord | wordhex/WordHex/src/app/Activity.tsx:167 | the upper-cased word has the same length and is upper-cased character by character |
| WordBoard.FirstFree | wordhex/WordHex/src/app/Activity.tsx:174 | a tile found carries the letter and is unused |
| WordBoard.FirstFreeIsLowest | wordhex/WordHex/src/app/Activity.tsx:174 | the tile found is the lowest such, and -1 means none is free |
| WordBoard.FirstFreeIffFree | wordhex/WordHex/src/app/Activity.tsx:174-175 | a tile is found exactly when an unused tile carries the letter |
| WordBoard.FreeAfterUse | wordhex/WordHex/src/app/Activity.tsx:176-177 | using a free tile takes exactly its letter away from the free letters |
| WordBoard.Match | wordhex/WordHex/src/app/Activity.tsx:173-177 | the greedy walk places every letter on a tile of the board |
| WordBoard.MatchPlacesOnDistinctTiles | wordhex/WordHex/src/app/Activity.tsx:174-177 | each letter lands on an unused tile carrying it, and no tile is taken twice |
| WordBoard.MatchIffEnoughLetters | wordhex/WordHex/src/app/Activity.tsx:173-177 | a word can be placed exactly when the unused tiles hold each of its letters at least as often as the word does |
| WordBoard.Mark | wordhex/WordHex/src/app/Activity.tsx:177 | marking tiles used sets exactly those tiles |
| WordBoard.MatchTakesLowest | wordhex/discord-activity/public/scripts/activity.js:184-189 | each letter takes the lowest free tile left by the letters before it |
| WordBoard.TallyOf | wordhex/WordHex/src/app/Activity.tsx:178-184 | the word factor is at least 1 and the gem count at most the number of tiles taken |
| WordBoard.NoneUsed | wordhex/WordHex/src/app/Activity.tsx:168 | the fresh board copy marks no tile used |
| WordBoard.GemsCapped | wordhex/WordHex/src/app/Activity.tsx:188 | earned gems are reduced only as far as the reserve's headroom under 10 requires |
| WordBoard.ScoredIffEnoughLetters | wordhex/WordHex/src/app/Activity.tsx:166-194 | `scoreWord` answers a score exactly when the board holds enough of each of the word's letters |
| WordBoard.ScoredGemsBounded | wordhex/WordHex/src/app/Activity.tsx:184-188 | gems from a word keep a reserve in range at or below 10 and never exceed the word's length |
| WordBoard.PlainBoardScoresValues | wordhex/WordHex/src/app/Activity.tsx:178-191 | without letter or word bonuses the totals are the sum of the tile values with factor 1 |
| WordBoard.RunIsMatch | wordhex/WordHex/src/app/Activity.tsx:173-185 | walking the letters totals exactly the tiles the greedy match takes |
| WordBoard.ScoredIsRun | wordhex/WordHex/src/app/Activity.tsx:166-194 | the score is the walk's totals with the long-word bonus, times the word factor, and the capped gems |
| WordBoard.ScoreWord | wordhex/discord-activity/public/scripts/activity.js:171-209 | the loop computes exactly the specified score, or nothing when a letter cannot be placed |
| WordBoard.WithSpecial | wordhex/WordHex/src/app/Activity.tsx:59 | giving a special keeps the tile's letter, value and id |
| WordBoard.Splice | wordhex/WordHex/src/app/Activity.tsx:58 | one index is drawn per pick while any remain, so as many are drawn as there are picks or indexes, and the rest are left |
| WordBoard.SpliceKeeps | wordhex/WordHex/src/app/Activity.tsx:58 | what is drawn and what is left together are the available indexes |
| WordBoard.SpliceDistinct | wordhex/WordHex/src/app/Activity.tsx:53-58 | splicing distinct indexes draws distinct indexes, none of them left behind |
| WordBoard.Assigned | wordhex/WordHex/src/app/Activity.tsx:55-61 | assigning specials keeps the board's size |
| WordBoard.AssignedAt | wordhex/WordHex/src/app/Activity.tsx:59 | with distinct targets each chosen tile gets its own special and every other tile is untouched |
| WordBoard.AssignSpecial | wordhex/WordHex/src/app/Activity.tsx:55-61 | the loop draws exactly `Splice`'s indexes, leaves its remainder, and gives the `k`-th drawn tile the `k`-th special |
| WordBoard.MarkGems | wordhex/WordHex/src/app/Activity.tsx:67-69 | the gem loop gives every shuffled index a gem |
| WordBoard.Indexes | wordhex/WordHex/src/app/Activity.tsx:53 | `tiles.keys()` is 0 to 24 in order |
| WordBoard.PlainTiles | wordhex/WordHex/src/app/Activity.tsx:52 | 25 tiles are drawn |
| WordBoard.LayoutInRange | wordhex/WordHex/src/app/Activity.tsx:55-69 | every spliced index is a tile index |
| WordBoard.LayoutCounts | wordhex/WordHex/src/app/Activity.tsx:53-66 | the three draws of specials and what each leaves account for all 25 indexes |
| WordBoard.GenerateBoard | wordhex/discord-activity/public/scripts/activity.js:67-88 | the method builds exactly the specified board for the given draws |
| WordBoard.AssignedKeepsLetters | wordhex/WordHex/src/app/Activity.tsx:59 | no special changes a tile's letter, value or id |
| WordBoard.LetterLayer | wordhex/WordHex/src/app/Activity.tsx:63 | the letter-bonus pass puts `DL, DL, TL, TL` on exactly its tiles, adding no word bonus and no gem |
| WordBoard.WordLayer | wordhex/WordHex/src/app/Activity.tsx:64 | the word-bonus pass puts `DW, DW, TW` on exactly its tiles and keeps the letter bonuses |
| WordBoard.GemLayer | wordhex/WordHex/src/app/Activity.tsx:66-69 | the gem pass puts gems on exactly its tiles and keeps both bonuses |
| WordBoard.LayoutDistinct | wordhex/discord-activity/public/scripts/activity.js:69-82 | 4 letter bonuses, 3 word bonuses and 5 gems land on 12 different tiles |
| WordBoard.BoardPasses | wordhex/discord-activity/public/scripts/activity.js:67-88 | the generated board is the three passes applied in order to the plain tiles |
| WordBoard.BoardLetters | wordhex/discord-activity/public/scripts/activity.js:68 | a generated board keeps the drawn letters, values and ids in order |
| WordBoard.PassesLayOut | wordhex/WordHex/src/app/Activity.tsx:51-72 | the three passes over plain tiles lay out every bonus and gem on its chosen tile and nowhere else |
| WordBoard.BoardLayout | wordhex/WordHex/src/app/Activity.tsx:51-72 | a generated board carries each special exactly where its splice put it |
| WordBoard.Swapped | wordhex/discord-activity/public/scripts/activity.js:133 | the two chosen tiles exchange places and every other tile is kept |
| WordBoard.SwappedIsPermutation | wordhex/discord-activity/public/scripts/activity.js:133 | a swap only reorders the board |
| WordBoard.SwappedTwice | wordhex/discord-activity/public/scripts/activity.js:133 | swapping the same two tiles again restores the board |
| WordBoard.NextDiffering | wordhex/discord-activity/public/scripts/activity.js:131-132 | the resampling stops at the first later draw that differs from the first one |
| WordBoard.PickSwap | wordhex/discord-activity/public/scripts/activity.js:130-132 | the loop picks the first draw and the first later draw that differs from it, so the two indexes differ |
| WordBoard.Hint | wordhex/WordHex/src/app/Activity.tsx:252 | the hinted tile is on the board and no tile is worth more; nothing only for an empty board |
| WordBoard.HintIsFirstMostValuable | wordhex/discord-activity/public/scripts/activity.js:140 | the hinted tile is the earliest of greatest value |
| WordBoard.TrimStart | wordhex/WordHex/src/app/Activity.tsx:202 | leading white space is removed, and only that |
| WordBoard.TrimEnd | wordhex/WordHex/src/app/Activity.tsx:202 | trailing white space is removed, and only that |
| WordBoard.Trim | wordhex/WordHex/src/app/Activity.tsx:202 | the trimmed text neither starts nor ends with white space |
| WordBoard.TrimFacts | wordhex/WordHex/src/app/Activity.tsx:202-203 | trimming is idempotent, and gives nothing exactly when the input is all white space |
| WordBoard.ClampGems | wordhex/WordHex/src/app/Activity.tsx:162 | `Math.max(0, Math.min(10, value))`: the value when in range, 0 below, 10 above |
| WordBoard.EarnedGemsFit | wordhex/WordHex/src/app/Activity.tsx:218-219 | adding capped gems to a reserve in range is never cut by the clamp, and reaches the sum or 10 |
| WordBoard.ScoredGemsFit | wordhex/discord-activity/public/scripts/activity.js:233 | a placed word's gems never push the reserve past 10, so the clamp keeps them all |
| WordBoard.Submitted | wordhex/WordHex/src/app/Activity.tsx:202-208 | a blank input is nothing, otherwise the trimmed word, placed with its score exactly when `scoreWord` answers |
| WordBoard.SubmitWord | wordhex/discord-activity/public/scripts/activity.js:221-228 | the method computes the specified submission, and a placed word's gems fit the reserve |
| ActivityView.Newest | wordhex/WordHex/src/app/Activity.tsx:154-158 | the new entry comes first, followed by the previous entries cut so that at most 12 remain |
| ActivityView.NewestAll | wordhex/WordHex/src/app/Activity.tsx:196-198 | adding entries one by one keeps a list at most 12 long, with the last one added first |
| ActivityView.Cost | wordhex/WordHex/src/app/Activity.tsx:231-234 | a shuffle costs 1, a swap 3, a hint 4 |
| ActivityView.SwapAsWritten | wordhex/WordHex/src/app/Activity.tsx:246-247 | the swap as written throws after the charge: the reserve pays 3 and the board is unchanged |
| ActivityView.SwapIntended | wordhex/WordHex/src/app/Activity.tsx:239-249 | the intended swap exchanges the two tiles, keeps every other tile, and charges 3 |
| ActivityView.SwapAsWrittenMovesNothing | wordhex/WordHex/src/app/Activity.tsx:246-247 | on any board whose two drawn tiles differ, the swap as written charges 3 gems and leaves the board the intended swap would have changed |
| ActivityView.Decide | wordhex/WordHex/src/app/Activity.tsx:264-274 | the first check refuses exactly the callers who are not the host |
| ActivityView.DecideStartIff | wordhex/WordHex/src/app/Activity.tsx:264-277 | the match starts exactly when the caller is the host, at least one player has joined, and every player is ready |
| ActivityView.ScoredEntry | wordhex/WordHex/src/app/Activity.tsx:210-214 | the feed line names the player; its detail is `scored <strong>`, the word upper-cased letter by letter, `</strong>`; its value is `+`, the decimal digits of the score (they parse back to it), ` pts` |
| ActivityView.Replace | wordhex/WordHex/src/app/Activity.tsx:215-216 | the collection after a store update changes at most the updated index |
| ActivityView.Credited | wordhex/WordHex/src/app/Activity.tsx:215-217 | with no active lobby, or a zero score, the collection is untouched; its size never changes |
| ActivityView.Activity.constructor | wordhex/WordHex/src/app/Activity.tsx:77-84 | the initial state: a generated board, 3 gems, empty input, history and feed, no lobby, the profile, and the loading status |
| ActivityView.Activity.ReceiveLobby | wordhex/WordHex/src/app/Activity.tsx:130-131 | a delivered snapshot becomes the active lobby |
| ActivityView.Activity.FlashStatus | wordhex/WordHex/src/app/Activity.tsx:150-152 | the status becomes the message and its kind |
| ActivityView.Activity.AddFeedEntry | wordhex/WordHex/src/app/Activity.tsx:154-159 | the feed becomes `Newest(entry, feed)` |
| ActivityView.Activity.AddWordToHistory | wordhex/WordHex/src/app/Activity.tsx:196-198 | the history becomes `Newest(word and score, history)` |
| ActivityView.Activity.UpdateGemCount | wordhex/WordHex/src/app/Activity.tsx:161-164 | the reserve becomes the clamped value |
| ActivityView.Activity.CreditScore | wordhex/WordHex/src/app/Activity.tsx:215-217 | the store collection becomes `Credited`, and nothing is recorded without an active lobby or with a zero score |
| ActivityView.Activity.RecordScored | wordhex/WordHex/src/app/Activity.tsx:209-222 | a placed word updates history, feed, reserve (by exactly the gems), status and input |
| ActivityView.Activity.HandleWordSubmit | wordhex/WordHex/src/app/Activity.tsx:200-224 | blank input changes nothing; an unplaceable word only shows the error; a placed word is recorded and credited; board, profile and lobby are kept |
| ActivityView.Activity.ApplySubmission | wordhex/WordHex/src/app/Activity.tsx:203-222 | the effect of each kind of submission, as for `HandleWordSubmit` |
| ActivityView.Activity.HandleGemAction | wordhex/WordHex/src/app/Activity.tsx:231-257 | a reserve below the cost changes nothing, and then no draws are needed; otherwise the cost is paid once and the chosen action's effect follows, the swap taking the corrected exchange |
| ActivityView.Activity.ShuffleBoard | wordhex/WordHex/src/app/Activity.tsx:235-238 | one gem is paid, the board is regenerated and the status says so |
| ActivityView.Activity.SwapTiles | wordhex/WordHex/src/app/Activity.tsx:239-249 | three gems are paid and the two drawn distinct tiles exchange places (the intended swap) |
| ActivityView.Activity.ShowHint | wordhex/WordHex/src/app/Activity.tsx:250-255 | four gems are paid and the status names the letter of the hinted tile |
| ActivityView.Activity.HandleStartMatch | wordhex/WordHex/src/app/Activity.tsx:264-277 | no lobby changes nothing; a non-host or an unready lobby only sees an error; otherwise the status becomes `active` in the store |
| DiscordActivity.IndexOfMe | wordhex/discord-activity/public/scripts/activity.js:231 | the index of the first `"me"` entry, or -1 exactly when there is none |
| DiscordActivity.CreditMe | wordhex/discord-activity/public/scripts/activity.js:231-232 | the first `"me"` entry gains the score and every other entry is kept |
| DiscordActivity.CreditMeOnlyMe | wordhex/discord-activity/public/scripts/activity.js:231-232 | entries with any other id are kept |
| DiscordActivity.CreditMeTotal | wordhex/discord-activity/public/scripts/activity.js:232 | with `"me"` present the scoreboard total grows by exactly the score |
| DiscordActivity.TotalSorted | wordhex/discord-activity/public/scripts/activity.js:39-40 | sorting the scoreboard keeps its total |
| DiscordActivity.SubmitRaisesTotal | wordhex/discord-activity/public/scripts/activity.js:230-234 | a scored word raises the scoreboard total by exactly its score, after the re-sort |
| DiscordActivity.Activity.constructor | wordhex/discord-activity/public/scripts/activity.js:25-35 | the module state before `boot`: no board, 3 gems, the sample players, no history |
| DiscordActivity.Activity.FlashStatus | wordhex/discord-activity/public/scripts/activity.js:158-160 | the status becomes the message and its kind |
| DiscordActivity.Activity.UpdateGemCount | wordhex/discord-activity/public/scripts/activity.js:106-107 | the reserve becomes the clamped value |
| DiscordActivity.Activity.SpendGems | wordhex/discord-activity/public/scripts/activity.js:115-119 | it spends exactly when the reserve covers the cost; then the reserve drops by the cost, otherwise it is kept |
| DiscordActivity.Activity.ApplyShuffle | wordhex/discord-activity/public/scripts/activity.js:121-126 | below one gem nothing changes; otherwise one gem is paid and the board is regenerated |
| DiscordActivity.Activity.ApplySwap | wordhex/discord-activity/public/scripts/activity.js:128-136 | below three gems nothing changes and no draws are needed; otherwise three gems are paid and two distinct tiles exchange places |
| DiscordActivity.Activity.ApplyHint | wordhex/discord-activity/public/scripts/activity.js:138-143 | below four gems nothing changes; otherwise four gems are paid and the status names the hinted letter, if any |
| DiscordActivity.Activity.RenderPlayers | wordhex/discord-activity/public/scripts/activity.js:37-40 | the scoreboard is sorted in place: a permutation, highest score first |
| DiscordActivity.Activity.AddWordToHistory | wordhex/discord-activity/public/scripts/activity.js:211-216 | the upper-cased word and score go on top of an unbounded history |
| DiscordActivity.Activity.Submit | wordhex/discord-activity/public/scripts/activity.js:218-239 | blank input changes nothing; an unplaceable word only shows the error; a placed word is recorded; the board is kept |
| DiscordActivity.Activity.ApplySubmission | wordhex/discord-activity/public/scripts/activity.js:222-236 | the effect of each kind of submission, as for `Submit` |
| DiscordActivity.Activity.RecordScored | wordhex/discord-activity/public/scripts/activity.js:230-235 | a placed word updates history, credits `"me"`, raises the reserve by exactly the gems, re-sorts the scoreboard and sets the status |
| DiscordActivity.Activity.Boot | wordhex/discord-activity/public/scripts/activity.js:289-293 | a generated board, the reserve kept, and the scoreboard sorted |

## Left out

- **Storage and serialisation are not modelled:**
  - `localStorage`, `JSON.parse`/`stringify`, `safeParse` and `clone`/`structuredClone`;
  - storage is taken to be available, and the collection is the field itself;
  - the unavailable-storage fallback `window.__wordhexProfile`, and the malformed-data fallback to `[]`;
  - as a result, the round trip of `writeLobbies`/`readLobbies` is not stated.
- **Cross-tab propagation**: `BroadcastChannel` posting and receiving, and the `storage` event handlers. An announcement is only recorded in the ghost `log`.
- **Listener callbacks** are opaque ids. Running them, their `try`/`catch`, and the `typeof callback !== "function"` guards are not modelled. Notifications are recorded in `log` with the set of ids they reach.
- **Dates** are a `nat` clock supplied by the caller. ISO strings and `Date` parsing are not modelled.
- **Randomness** is supplied by the caller:
  - `randomLetter`'s weighted sampling is not modelled, and a letter draw is any letter/value pair of the pool;
  - `crypto.randomUUID` and `randomId` become given id strings;
  - the random-comparator shuffle of the gem indexes becomes a sequence of splice positions, which reaches any choice of distinct remaining indexes in any order.
- **WordBoard.PickSwap and the swap handlers**: the resampling `while` loop is given its draws. Termination is assumed through the requirement that some draw differs from the first. With one tile or none the source loops forever, and that case is excluded by that requirement.
- **LobbyServiceTs.Store.CreateLobby and LobbyServiceJs.Store.CreateLobby**: the collision loop is given a finite list of draws, one of which is unused. When every code is taken the source never stops, and that case is excluded.
- LobbyServiceJs.Store.UpdateLobby: for the code `""` it takes the corrected get-or-create. As written, `getLobby("")` answers `null`, so the code pushes a fresh `""` lobby, hands that fresh lobby to the mutator, and writes the result over the first stored `""` lobby. The model instead hands the mutator the stored `""` lobby and appends nothing. For every other code the two agree (LobbyServiceJs.EnsuredAgreesOffEmpty).
- LobbyServiceJs.Store.Current: for the code `""` with a stored `""` lobby it is that stored lobby, where the code hands the mutator a freshly built one; the same departure as UpdateLobby's.
- LobbyServiceJs.Store.JoinLobby: for the code `""` the code appends two `""` lobbies, one in its own `ensureLobby` and one inside `updateLobby`; the model, through the corrected ensure, appends one.
- LobbyServiceJs.Store.TogglePlayerReady: goes through UpdateLobby, so for the code `""` it follows the corrected path described there.
- LobbyServiceJs.Store.IncrementPlayerScore: goes through UpdateLobby, so for the code `""` it follows the corrected path described there.
- LobbyServiceJs.Store.UpdatePlayerName: goes through UpdateLobby, so for the code `""` it follows the corrected path described there.
- LobbyServiceJs.Store.SetLobbyStatus: goes through UpdateLobby, so for the code `""` it follows the corrected path described there.
- PlayerProfiles.Patched: a patched `createdAt` is a clock value like every other timestamp, where the code stores whatever string the caller gave; a patched `updatedAt` is not kept, because the spread overwrites it.
- ActivityView.Activity.HandleGemAction: a swap takes the corrected SwapTiles (two tiles exchanged, status "Swapped two tiles"). As written, Activity.tsx:246-247 throws after `updateGemCount(gemCount - 3)`, so the board is kept and no status is shown; ActivityView.SwapAsWritten and ActivityView.SwapAsWrittenMovesNothing model that outcome (see Findings).
- **Rendering and the page**:
  - React rendering, the DOM, focus handling, and the CSS colours set beside `flashStatus`;
  - the timer (`resetTimer`, the round countdown);
  - the Discord SDK (`useDiscordSdk`, `initDiscord`, which renames `"me"`, channel lookups);
  - `sessionStorage` caching of the lobby code;
  - the join-and-subscribe effect, which calls the modelled store operations.
- `updateGemCount` in the Discord page also disables the buttons whose cost exceeds the reserve. Only the reserve is modelled.
- **Other React handlers**: `handleReadyToggle`, `handleHostRename` and `addLetterToInput`, and the derived `lobbyStatusMessage` and `matchSettings` values.
  - They are thin wrappers over store operations, or presentation, and are not modelled.
  - `getPlayerProfile` is `ensurePlayerProfile` under another name.
- **JavaScript values**:
  - numbers are unbounded integers: `NaN`, fractions and float rounding are not modelled;
  - untyped fields are modelled as a small `Value` type, enough for `typeof ... === "number"` and `Boolean(...)`;
  - `toUpperCase` is modelled on ASCII letters only.
- **Untyped `updateLobby`**:
  - the `lobbies.push(next)` branch (lobby-service.js:176-177) cannot be reached, because the lobby was ensured just before and nothing runs in between; the model replaces at the found index;
  - the `Array.isArray(updated.players)` fallback is not needed, since every mutator yields a players list.
- **Files not in this model**: `editor.js`, `discord-auth.js` and `discord.ts`, and the rest of the repository, all outside the lobby store and the two game screens.

## Findings

| source | as written | input that shows it | evidently intended | confidence | as-written member | corrected member |
|---|---|---|---|---|---|---|
| wordhex/WordHex/src/services/lobby-service.ts:196-198 | `ensureLobby` looks the code up with `getLobby`, whose `!code` guard answers `null` for `""`, so every call appends one more lobby | `ensureLobby("")` twice, on any collection: two lobbies with code `""` | get-or-create: the second call finds the first lobby, and codes stay unique | high; not executed | LobbyServiceTs.EnsureAsWrittenDuplicatesEmptyCode | LobbyServiceTs.EnsuredKeepsUnique |
| wordhex/scripts/lobby-service.js:140-142 | the same guard in the untyped copy; `updateLobby("", ...)` and `joinLobby("", ...)` reach it as well | `ensureLobby("")` twice, on any collection: two lobbies with code `""` | get-or-create: the second call finds the first lobby, and codes stay unique | high; not executed | LobbyServiceJs.EnsureAsWrittenDuplicatesEmptyCode | LobbyServiceJs.EnsuredKeepsValid |
| wordhex/WordHex/src/app/Activity.tsx:246-247 | no semicolon ends line 246, so the next line's `[` continues it: `[...board][nextBoard[idxA], nextBoard[idxB]] = ...` reads `nextBoard` inside its own initialiser and throws, after `updateGemCount(gemCount - 3)` has run | a swap with 3 or more gems, on a board whose two drawn tiles differ: 3 gems are spent and the board is unchanged | the two tiles exchange places and 3 gems are spent | high for the parse, medium for the charged gems surviving the throw; not executed | ActivityView.SwapAsWrittenMovesNothing | ActivityView.Activity.SwapTiles |
