/**
 * The settings logic of the welcome cog (cogs/welcome.py): the guild_settings row read by
 * `get_settings`, the field-wise merge of `upsert_settings`, and the choice of welcome
 * channel, message and autorole that `on_member_join` makes from the stored settings.
 * The table is a map from guild id to row; reading and writing it are plain map
 * operations.
 */
module Welcome {
  import opened Wrappers

  type GuildId = int

  /** config.py's default welcome channel. */
  const WELCOME_CHANNEL_ID: int := 130846133123123123904946593

  /** The built-in template used when no welcome message is stored. */
  const DEFAULT_WELCOME_MESSAGE: string :=
    "{mention}, welcome to **{server}**.\nYou are now entering a monitored cyber operations zone."

  /** A guild_settings row: welcome_channel_id, welcome_message, autorole_id and
      default_announce_id, each of which may be NULL. */
  type Row = (Option<int>, Option<string>, Option<int>, Option<int>)

  /** The table, keyed by guild_id. */
  type Table = map<GuildId, Row>

  /** The settings dictionary; `None` is Python's `None`. */
  datatype Settings = Settings(
    welcomeChannelId: Option<int>,
    welcomeMessage: Option<string>,
    autoroleId: Option<int>,
    defaultAnnounceId: Option<int>)

  /** The dictionary `upsert_settings` starts from when the guild has no row. */
  const Blank: Settings := Settings(None, None, None, None)

  /** The row written for a settings dictionary, in the column order of the INSERT. */
  function ToRow(s: Settings): Row
  {
    (s.welcomeChannelId, s.welcomeMessage, s.autoroleId, s.defaultAnnounceId)
  }

  /** `get_settings`: `None` without a row; otherwise columns 0 to 3 under the four keys. */
  function GetSettings(table: Table, guild: GuildId): (s: Option<Settings>)
    ensures s.None? <==> guild !in table
    ensures s.Some? ==> ToRow(s.value) == table[guild]
  {
    if guild !in table then None
    else
      var row := table[guild];
      Some(Settings(row.0, row.1, row.2, row.3))
  }

  /** Writing a dictionary and reading it back gives the same dictionary. */
  lemma WriteThenRead(table: Table, guild: GuildId, s: Settings)
    ensures GetSettings(table[guild := ToRow(s)], guild) == Some(s)
  {
  }

  /** One field of the merge: a given value replaces the stored one, `None` keeps it. */
  function Keep<T>(given: Option<T>, stored: Option<T>): Option<T>
  {
    if given.Some? then given else stored
  }

  /** The four `if ... is not None` assignments of `upsert_settings`, field by field. */
  function Merge(current: Settings, update: Settings): Settings
  {
    Settings(
      Keep(update.welcomeChannelId, current.welcomeChannelId),
      Keep(update.welcomeMessage, current.welcomeMessage),
      Keep(update.autoroleId, current.autoroleId),
      Keep(update.defaultAnnounceId, current.defaultAnnounceId))
  }

  /** `upsert_settings(guild, ...)`: start from the stored dictionary, or all-`None`
      without a row, overwrite the fields whose argument is not `None`, and write the
      guild's row; other guilds' rows are untouched. */
  method UpsertSettings(table: Table, guild: GuildId, welcomeChannelId: Option<int>,
                        welcomeMessage: Option<string>, autoroleId: Option<int>,
                        defaultAnnounceId: Option<int>)
    returns (table': Table)
    ensures GetSettings(table', guild) == Some(Merge(GetSettings(table, guild).GetOr(Blank),
      Settings(welcomeChannelId, welcomeMessage, autoroleId, defaultAnnounceId)))
    ensures forall g :: g != guild ==> GetSettings(table', g) == GetSettings(table, g)
  {
    var current := GetSettings(table, guild).GetOr(Blank);
    if welcomeChannelId.Some? {
      current := current.(welcomeChannelId := welcomeChannelId);
    }
    if welcomeMessage.Some? {
      current := current.(welcomeMessage := welcomeMessage);
    }
    if autoroleId.Some? {
      current := current.(autoroleId := autoroleId);
    }
    if defaultAnnounceId.Some? {
      current := current.(defaultAnnounceId := defaultAnnounceId);
    }
    table' := table[guild := ToRow(current)];
  }

  /** A missing row merges as if every field were `None`. */
  lemma MissingRowIsBlank(table: Table, guild: GuildId, update: Settings)
    requires guild !in table
    ensures Merge(GetSettings(table, guild).GetOr(Blank), update) == update
  {
  }

  /** A `None` argument leaves its field as stored; a given one replaces exactly that field. */
  lemma MergeFieldwise(current: Settings, update: Settings)
    ensures var m := Merge(current, update);
      && (update.welcomeChannelId.None? ==> m.welcomeChannelId == current.welcomeChannelId)
      && (update.welcomeChannelId.Some? ==> m.welcomeChannelId == update.welcomeChannelId)
      && (update.welcomeMessage.None? ==> m.welcomeMessage == current.welcomeMessage)
      && (update.welcomeMessage.Some? ==> m.welcomeMessage == update.welcomeMessage)
      && (update.autoroleId.None? ==> m.autoroleId == current.autoroleId)
      && (update.autoroleId.Some? ==> m.autoroleId == update.autoroleId)
      && (update.defaultAnnounceId.None? ==> m.defaultAnnounceId == current.defaultAnnounceId)
      && (update.defaultAnnounceId.Some? ==> m.defaultAnnounceId == update.defaultAnnounceId)
  {
  }

  /** An update of one field changes no other field. */
  lemma SetChannelOnly(current: Settings, c: int)
    ensures Merge(current, Settings(Some(c), None, None, None)) == current.(welcomeChannelId := Some(c))
  {
  }

  /** Applying the same update twice is applying it once. */
  lemma MergeIdempotent(current: Settings, update: Settings)
    ensures Merge(Merge(current, update), update) == Merge(current, update)
  {
  }

  /** No update resets a stored field to `None`. */
  lemma MergeNeverResets(current: Settings, update: Settings)
    ensures var m := Merge(current, update);
      && (current.welcomeChannelId.Some? ==> m.welcomeChannelId.Some?)
      && (current.welcomeMessage.Some? ==> m.welcomeMessage.Some?)
      && (current.autoroleId.Some? ==> m.autoroleId.Some?)
      && (current.defaultAnnounceId.Some? ==> m.defaultAnnounceId.Some?)
  {
  }

  // ---------- on_member_join ----------

  /** The stored welcome channel id, when there is one that Python treats as true. */
  function StoredChannel(settings: Option<Settings>): Option<int>
  {
    if settings.Some? && settings.value.welcomeChannelId.Some? && settings.value.welcomeChannelId.value != 0
    then settings.value.welcomeChannelId else None
  }

  /** The stored welcome message, when there is a non-empty one. */
  function StoredMessage(settings: Option<Settings>): Option<string>
  {
    if settings.Some? && settings.value.welcomeMessage.Some? && settings.value.welcomeMessage.value != ""
    then settings.value.welcomeMessage else None
  }

  /** `settings.get("welcome_channel_id") or WELCOME_CHANNEL_ID`: a missing row, a NULL or
      a zero id falls back to the configured channel. The result is never 0, so the
      channel is always looked up. */
  function WelcomeChannelId(settings: Option<Settings>): (id: int)
    ensures id != 0
    ensures StoredChannel(settings).Some? ==> id == StoredChannel(settings).value
    ensures StoredChannel(settings).None? ==> id == WELCOME_CHANNEL_ID
  {
    var stored := settings.GetOr(Blank).welcomeChannelId.GetOr(0);
    if stored != 0 then stored else WELCOME_CHANNEL_ID
  }

  /** `settings.get("welcome_message") or <template>`: a missing or empty message falls
      back to the built-in template, so the template used is never empty. */
  function WelcomeMessage(settings: Option<Settings>): (m: string)
    ensures m != ""
    ensures StoredMessage(settings).Some? ==> m == StoredMessage(settings).value
    ensures StoredMessage(settings).None? ==> m == DEFAULT_WELCOME_MESSAGE
  {
    var stored := settings.GetOr(Blank).welcomeMessage.GetOr("");
    if stored != "" then stored else DEFAULT_WELCOME_MESSAGE
  }

  /** `if autorole_id:`: the role to grant on join, only for a stored non-zero id. */
  function AutoroleToGrant(settings: Option<Settings>): (r: Option<int>)
    ensures r.Some? ==> r.value != 0 && settings.Some? && settings.value.autoroleId == r
    ensures r.None? ==> settings.None? || settings.value.autoroleId.GetOr(0) == 0
  {
    var stored := settings.GetOr(Blank).autoroleId.GetOr(0);
    if stored != 0 then Some(stored) else None
  }

  /** `/welcome_set_channel` followed by a join: the join greets in the channel just set,
      whatever else the guild had stored. */
  method SetChannelThenJoin(table: Table, guild: GuildId, channel: int) returns (used: int)
    requires channel != 0
    ensures used == channel
  {
    var t := UpsertSettings(table, guild, Some(channel), None, None, None);
    used := WelcomeChannelId(GetSettings(t, guild));
  }

  /** `/welcome_set_message` with an empty template is stored, yet joins keep using the
      built-in template; a non-empty one is used as given. */
  method SetMessageThenJoin(table: Table, guild: GuildId, template: string) returns (used: string)
    ensures template == "" ==> used == DEFAULT_WELCOME_MESSAGE
    ensures template != "" ==> used == template
  {
    var t := UpsertSettings(table, guild, None, Some(template), None, None);
    used := WelcomeMessage(GetSettings(t, guild));
  }

  /** `/welcome_set_autorole` followed by a join: the role just set is granted, unless its
      id is 0, which Python treats as unset. */
  method SetAutoroleThenJoin(table: Table, guild: GuildId, role: int) returns (granted: Option<int>)
    ensures role != 0 ==> granted == Some(role)
    ensures role == 0 ==> granted == None
  {
    var t := UpsertSettings(table, guild, None, None, Some(role), None);
    granted := AutoroleToGrant(GetSettings(t, guild));
  }
}
