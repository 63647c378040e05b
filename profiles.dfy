/**
 * The local player profile (`ensurePlayerProfile` / `updatePlayerProfile`),
 * written identically in both lobby-service copies. The profile lives under
 * its own storage key; `stored` is what reading that key gives (`None` when
 * it is absent or does not parse). The random id and the random four-digit
 * name suffix are caller-supplied draws; timestamps are a clock value, with 0
 * standing for a missing one.
 */
module PlayerProfiles {
  import opened Wrappers
  import LobbyCodes

  /** The stored record; `extra` holds its keys other than `id`, `name`, `createdAt` and `updatedAt`. */
  datatype Profile = Profile(id: string, name: string, createdAt: nat, updatedAt: nat, extra: map<string, string>)

  /** `Partial<Record<string, string>>`: any key may be given; its `updatedAt` is always overwritten, so it is not kept. */
  datatype ProfilePatch = ProfilePatch(
    id: Option<string>,
    name: Option<string>,
    createdAt: Option<nat>,
    extra: map<string, string>)

  /** `stored && stored.id && stored.name`: a profile with a non-empty id and name. */
  predicate Usable(p: Option<Profile>) {
    p.Some? && p.value.id != "" && p.value.name != ""
  }

  /** `Player ${generateLobbyCode()}` */
  function DefaultName(draw: nat): (name: string)
    requires draw < 9000
    ensures |name| == 11 && name[..7] == "Player " && LobbyCodes.IsGeneratedCode(name[7..])
  {
    "Player " + LobbyCodes.GenerateLobbyCode(draw)
  }

  /** `{ ...current, ...updates, updatedAt: now }` */
  function Patched(current: Profile, updates: ProfilePatch, now: nat): (p: Profile)
    ensures p.updatedAt == now
    ensures updates.id.Some? ==> p.id == updates.id.value
    ensures updates.id.None? ==> p.id == current.id
    ensures updates.name.Some? ==> p.name == updates.name.value
    ensures updates.name.None? ==> p.name == current.name
    ensures updates.createdAt.Some? ==> p.createdAt == updates.createdAt.value
    ensures updates.createdAt.None? ==> p.createdAt == current.createdAt
    ensures p.extra.Keys == current.extra.Keys + updates.extra.Keys
    ensures forall k :: k in updates.extra ==> p.extra[k] == updates.extra[k]
    ensures forall k :: k in current.extra && k !in updates.extra ==> p.extra[k] == current.extra[k]
  {
    Profile(
      id := updates.id.GetOr(current.id),
      name := updates.name.GetOr(current.name),
      createdAt := updates.createdAt.GetOr(current.createdAt),
      updatedAt := now,
      extra := current.extra + updates.extra)
  }

  class ProfileStore {
    /** The parsed content of the profile key. */
    var stored: Option<Profile>
    /** Every profile written to the key, oldest first. */
    ghost var writes: seq<Profile>

    constructor (initial: Option<Profile>)
      ensures stored == initial && writes == []
    {
      stored := initial;
      writes := [];
    }

    /**
     * `ensurePlayerProfile`: a usable stored profile is returned and nothing
     * is written; otherwise a new one is made from the draws and persisted.
     * With a non-empty fresh id the key holds a usable profile afterwards, so
     * a second call returns the same profile without writing.
     */
    method EnsurePlayerProfile(freshId: string, draw: nat, now: nat) returns (p: Profile)
      requires draw < 9000
      modifies this
      ensures Usable(old(stored)) ==> p == old(stored).value && stored == old(stored) && writes == old(writes)
      ensures !Usable(old(stored)) ==>
        p == Profile(freshId, DefaultName(draw), now, 0, map[]) && stored == Some(p) && writes == old(writes) + [p]
      ensures freshId != "" ==> Usable(stored)
    {
      if Usable(stored) {
        p := stored.value;
        return;
      }
      p := Profile(freshId, DefaultName(draw), now, 0, map[]);
      stored := Some(p);
      writes := writes + [p];
    }

    /**
     * `updatePlayerProfile`: without a patch object it is `ensurePlayerProfile`;
     * otherwise the ensured profile is patched, stamped and persisted.
     */
    method UpdatePlayerProfile(updates: Option<ProfilePatch>, freshId: string, draw: nat, now: nat) returns (p: Profile)
      requires draw < 9000
      modifies this
      ensures var current := if Usable(old(stored)) then old(stored).value else Profile(freshId, DefaultName(draw), now, 0, map[]);
        && (updates.None? ==> p == current && stored == Some(current))
        && (updates.None? && Usable(old(stored)) ==> stored == old(stored) && writes == old(writes))
        && (updates.None? && !Usable(old(stored)) ==> writes == old(writes) + [current])
        && (updates.Some? ==> p == Patched(current, updates.value, now) && stored == Some(p))
        && (updates.Some? && Usable(old(stored)) ==> writes == old(writes) + [p])
        && (updates.Some? && !Usable(old(stored)) ==> writes == old(writes) + [current, p])
    {
      if updates.None? {
        p := EnsurePlayerProfile(freshId, draw, now);
        return;
      }
      var current := EnsurePlayerProfile(freshId, draw, now);
      p := Patched(current, updates.value, now);
      stored := Some(p);
      writes := writes + [p];
    }
  }
}
