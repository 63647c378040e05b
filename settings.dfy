/**
 * The lobby settings bag (`Partial<LobbySettings>`): every field may be
 * absent. Both lobby-service copies build it by spreading one bag over
 * another; `Merge` is that spread, field by field.
 */
module LobbySettings {
  import opened Wrappers

  datatype Settings = Settings(
    mode: Option<string>,
    rounds: Option<int>,
    roundDuration: Option<int>,
    winCondition: Option<string>,
    dictionary: Option<string>,
    channel: Option<string>,
    maxPlayers: Option<int>,
    roundDurationSeconds: Option<int>)

  /** `{}` */
  const NoSettings := Settings(None, None, None, None, None, None, None, None)

  /** Every field of the typed `LobbySettings` record is present (`roundDurationSeconds` is optional there too). */
  predicate Complete(s: Settings) {
    s.mode.Some? && s.rounds.Some? && s.roundDuration.Some? && s.winCondition.Some?
    && s.dictionary.Some? && s.channel.Some? && s.maxPlayers.Some?
  }

  /** `{ ...base, ...over }`: a field present in `over` wins, otherwise `base`'s is kept. */
  function Merge(base: Settings, over: Settings): Settings {
    Settings(
      over.mode.Or(base.mode),
      over.rounds.Or(base.rounds),
      over.roundDuration.Or(base.roundDuration),
      over.winCondition.Or(base.winCondition),
      over.dictionary.Or(base.dictionary),
      over.channel.Or(base.channel),
      over.maxPlayers.Or(base.maxPlayers),
      over.roundDurationSeconds.Or(base.roundDurationSeconds))
  }

  /** Spreading `{}` on either side changes nothing. */
  lemma MergeIdentity(s: Settings)
    ensures Merge(s, NoSettings) == s && Merge(NoSettings, s) == s
  {
  }

  /** Over complete defaults the merged bag is complete, keeps every override and falls back to the default elsewhere. */
  lemma MergeOverDefaults(defaults: Settings, over: Settings)
    requires Complete(defaults)
    ensures Complete(Merge(defaults, over))
    ensures over.mode.Some? ==> Merge(defaults, over).mode == over.mode
    ensures over.mode.None? ==> Merge(defaults, over).mode == defaults.mode
    ensures over.rounds.Some? ==> Merge(defaults, over).rounds == over.rounds
    ensures over.rounds.None? ==> Merge(defaults, over).rounds == defaults.rounds
    ensures over.roundDuration.Some? ==> Merge(defaults, over).roundDuration == over.roundDuration
    ensures over.roundDuration.None? ==> Merge(defaults, over).roundDuration == defaults.roundDuration
    ensures over.winCondition.Some? ==> Merge(defaults, over).winCondition == over.winCondition
    ensures over.winCondition.None? ==> Merge(defaults, over).winCondition == defaults.winCondition
    ensures over.dictionary.Some? ==> Merge(defaults, over).dictionary == over.dictionary
    ensures over.dictionary.None? ==> Merge(defaults, over).dictionary == defaults.dictionary
    ensures over.channel.Some? ==> Merge(defaults, over).channel == over.channel
    ensures over.channel.None? ==> Merge(defaults, over).channel == defaults.channel
    ensures over.maxPlayers.Some? ==> Merge(defaults, over).maxPlayers == over.maxPlayers
    ensures over.maxPlayers.None? ==> Merge(defaults, over).maxPlayers == defaults.maxPlayers
    ensures over.roundDurationSeconds.Some? ==> Merge(defaults, over).roundDurationSeconds == over.roundDurationSeconds
    ensures over.roundDurationSeconds.None? ==> Merge(defaults, over).roundDurationSeconds == defaults.roundDurationSeconds
  {
  }

  /** Applying the same overrides twice is the same as once. */
  lemma MergeIdempotent(base: Settings, over: Settings)
    ensures Merge(Merge(base, over), over) == Merge(base, over)
  {
  }
}
