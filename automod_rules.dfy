/**
 * The pure decision logic of the auto-moderation cog (cogs/automod.py): its configuration,
 * the admin test, the sliding time window used for joins and for spam, the message filter
 * chain, the parsing of the `/firewall` mode, the watchdog's release test and the shape
 * of a captcha code.
 */
module AutoModRules {
  import opened Text

  type UserId = int
  type RoleId = int
  type ChannelId = int
  type GuildId = int
  type MessageId = int
  /** Seconds since the epoch, as read from the clock by the caller. */
  type Time = int

  /** The values the cog imports from config.py. */
  datatype Config = Config(
    adminRoleIds: set<RoleId>,
    verifiedRoleId: RoleId,        // 0 means "no verified role configured"
    raidJoinWindow: int,           // seconds
    raidJoinThreshold: int,
    lockdownHardThreshold: int,
    autoReleaseMinutes: int)       // <= 0 switches the watchdog off

  /** The values config.py ships with. */
  const DefaultConfig := Config({1231231313123123}, 123435345345, 30, 5, 15, -1)

  const BAD_WORDS: set<string> := {"badword1", "badword2"}
  /** The two alternatives of the invite pattern, matched case-insensitively. */
  const INVITE_PREFIXES: seq<string> := ["discord.gg/", "discord.com/invite/"]
  const SPAM_WINDOW: int := 5
  const SPAM_MAX_MSG: int := 5
  const CODE_MIN: nat := 1000
  const CODE_MAX: nat := 9999

  /** A guild member or message author, as far as the cog looks at it. */
  datatype User = User(
    id: UserId,
    bot: bool,
    isMember: bool,                // a guild Member rather than a bare User
    administrator: bool,           // guild_permissions.administrator
    roles: set<RoleId>,
    dmsOpen: bool)                 // a direct message to this user is accepted

  /** `is_admin_member`: administrator permission, or one of the configured admin roles. */
  predicate IsAdminMember(u: User, cfg: Config)
  {
    u.administrator || exists r :: r in u.roles && r in cfg.adminRoleIds
  }

  /** `isinstance(member, discord.Member) and is_admin_member(member)`: the staff test of
      `admin_check` and `on_message`; a bare User never passes it. */
  predicate IsStaff(u: User, cfg: Config)
  {
    u.isMember && IsAdminMember(u, cfg)
  }

  // ---------- sliding window ----------

  /** The list comprehension `[t for t in ts if now - t <= window]`. */
  function Recent(ts: seq<Time>, now: Time, window: int): (r: seq<Time>)
    ensures |r| <= |ts|
    ensures forall t :: t in r <==> t in ts && now - t <= window
    decreases |ts|
  {
    if ts == [] then []
    else (if now - ts[0] <= window then [ts[0]] else []) + Recent(ts[1..], now, window)
  }

  /** Pruning keeps the original order: it distributes over concatenation. */
  lemma {:induction false} RecentAppend(a: seq<Time>, b: seq<Time>, now: Time, window: int)
    ensures Recent(a + b, now, window) == Recent(a, now, window) + Recent(b, now, window)
    decreases |a|
  {
    if a == [] {
      assert a + b == b;
    } else {
      assert (a + b)[0] == a[0];
      assert (a + b)[1..] == a[1..] + b;
      RecentAppend(a[1..], b, now, window);
      var head := if now - a[0] <= window then [a[0]] else [];
      assert head + (Recent(a[1..], now, window) + Recent(b, now, window))
          == (head + Recent(a[1..], now, window)) + Recent(b, now, window);
    }
  }

  /** Appending the current time and pruning leaves the current time as the newest entry,
      after the surviving older entries in their original order. */
  lemma RecordThenPrune(ts: seq<Time>, now: Time, window: int)
    requires window >= 0
    ensures Recent(ts + [now], now, window) == Recent(ts, now, window) + [now]
  {
    RecentAppend(ts, [now], now, window);
  }

  /** Pruning a pruned window again at the same time changes nothing. */
  lemma {:induction false} RecentIdempotent(ts: seq<Time>, now: Time, window: int)
    ensures Recent(Recent(ts, now, window), now, window) == Recent(ts, now, window)
    decreases |ts|
  {
    if ts != [] {
      RecentIdempotent(ts[1..], now, window);
      var head := if now - ts[0] <= window then [ts[0]] else [];
      RecentAppend(head, Recent(ts[1..], now, window), now, window);
    }
  }

  /** A window whose entries are all recent is kept whole. */
  lemma {:induction false} RecentKeepsFresh(ts: seq<Time>, now: Time, window: int)
    requires forall k :: 0 <= k < |ts| ==> now - ts[k] <= window
    ensures Recent(ts, now, window) == ts
    decreases |ts|
  {
    if ts != [] {
      RecentKeepsFresh(ts[1..], now, window);
    }
  }

  /** With a 30-second window, joins at 0, 5, 10, 15 and 20 are all still counted at 20. */
  lemma EarlyJoinsKept()
    ensures Recent([0, 5, 10, 15, 20], 20, 30) == [0, 5, 10, 15, 20]
  {
    var ts: seq<Time> := [0, 5, 10, 15, 20];
    RecentKeepsFresh(ts, 20, 30);
  }

  /** At 40 the joins at 0 and 5 have left the 30-second window. */
  lemma EarlyJoinsAt40()
    ensures Recent([0, 5, 10, 15, 20], 40, 30) == [10, 15, 20]
  {
    var ts: seq<Time> := [0, 5, 10, 15, 20];
    var tail: seq<Time> := [5, 10, 15, 20];
    var kept: seq<Time> := [10, 15, 20];
    assert ts[1..] == tail && tail[1..] == kept;
    assert Recent(ts, 40, 30) == Recent(tail, 40, 30);
    assert Recent(tail, 40, 30) == Recent(kept, 40, 30);
    RecentKeepsFresh(kept, 40, 30);
  }

  /** With a 30-second window, joins at 0, 5, 10, 15 and 20 all count at 20; a join at 40
      finds only the last three of them still in the window. */
  lemma JoinWindowExample()
    ensures Recent([0, 5, 10, 15, 20], 20, 30) == [0, 5, 10, 15, 20]
    ensures Recent([0, 5, 10, 15, 20] + [40], 40, 30) == [10, 15, 20, 40]
  {
    EarlyJoinsKept();
    RecordThenPrune([0, 5, 10, 15, 20], 40, 30);
    EarlyJoinsAt40();
  }

  // ---------- message filters ----------

  /** `any(bad in content.lower() for bad in BAD_WORDS)`. */
  predicate HasBadWord(content: string)
  {
    exists w :: w in BAD_WORDS && Contains(Lower(content), w)
  }

  /** `INVITE_RE.search(content)` with re.IGNORECASE. */
  predicate HasInvite(content: string)
  {
    exists k :: 0 <= k < |INVITE_PREFIXES| && Contains(Lower(content), INVITE_PREFIXES[k])
  }

  /** What `on_message` does with a message; at most one action per message. */
  datatype Verdict = Ignore | DeleteBadWord | DeleteInvite | CountForSpam

  /** The short-circuit chain of `on_message`: DMs, bots and staff are ignored; then bad
      words, then invite links; whatever passes both is counted for spam. */
  function Classify(inGuild: bool, author: User, content: string, cfg: Config): (v: Verdict)
    ensures v == Ignore <==> !inGuild || author.bot || IsStaff(author, cfg)
    ensures v == DeleteBadWord ==> HasBadWord(content)
    ensures v == DeleteInvite ==> HasInvite(content) && !HasBadWord(content)
    ensures v == CountForSpam ==> !HasBadWord(content) && !HasInvite(content)
  {
    if !inGuild || author.bot then Ignore
    else if IsStaff(author, cfg) then Ignore
    else if HasBadWord(content) then DeleteBadWord
    else if HasInvite(content) then DeleteInvite
    else CountForSpam
  }

  /** The filters ignore case: a message and its lower-cased copy get the same verdict. */
  lemma ClassifyIgnoresCase(inGuild: bool, author: User, content: string, cfg: Config)
    ensures Classify(inGuild, author, Lower(content), cfg) == Classify(inGuild, author, content, cfg)
  {
    LowerIdempotent(content);
  }

  /** The member's spam window after recording a message at `now`. */
  function SpamWindow(history: seq<Time>, now: Time): (w: seq<Time>)
    ensures |w| > 0 && w[|w| - 1] == now
    ensures forall t :: t in w ==> now - t <= SPAM_WINDOW
  {
    RecordThenPrune(history, now, SPAM_WINDOW);
    Recent(history + [now], now, SPAM_WINDOW)
  }

  /** A mute fires only when the window holds more than SPAM_MAX_MSG messages,
      that is, when at least SPAM_MAX_MSG earlier messages fall in the last 5 seconds. */
  lemma SpamNeedsBurst(history: seq<Time>, now: Time)
    ensures |SpamWindow(history, now)| > SPAM_MAX_MSG
        <==> |Recent(history, now, SPAM_WINDOW)| >= SPAM_MAX_MSG
  {
    RecordThenPrune(history, now, SPAM_WINDOW);
  }

  // ---------- the /firewall command ----------

  datatype FirewallMode = ModeOn | ModeOff | ModeStatus | ModeInvalid

  /** `mode.lower()` compared with "on", "off" and "status". */
  function ParseMode(mode: string): FirewallMode
  {
    var m := Lower(mode);
    if m == "on" then ModeOn
    else if m == "off" then ModeOff
    else if m == "status" then ModeStatus
    else ModeInvalid
  }

  /** The mode is read case-insensitively. */
  lemma ParseModeIgnoresCase(mode: string)
    ensures ParseMode(Lower(mode)) == ParseMode(mode)
    ensures ParseMode("ON") == ModeOn && ParseMode("Off") == ModeOff && ParseMode("STATUS") == ModeStatus
  {
    LowerIdempotent(mode);
    assert Lower("ON") == "on";
    assert Lower("Off") == "off";
    assert Lower("STATUS") == "status";
  }

  // ---------- watchdog ----------

  /** `firewall_watchdog`'s test: on, auto-release configured, and strictly more than
      `minutes * 60` seconds since the last raid. */
  predicate ShouldRelease(enabled: bool, lastRaid: Time, now: Time, minutes: int)
  {
    enabled && minutes > 0 && now - lastRaid > minutes * 60
  }

  /** The release boundary is strict: exactly `minutes * 60` seconds is not enough, one
      second more is; a non-positive setting never releases. */
  lemma ReleaseBoundary(lastRaid: Time, minutes: int, now: Time)
    ensures minutes <= 0 ==> !ShouldRelease(true, lastRaid, now, minutes)
    ensures minutes > 0 ==> !ShouldRelease(true, lastRaid, lastRaid + minutes * 60, minutes)
    ensures minutes > 0 ==> ShouldRelease(true, lastRaid, lastRaid + minutes * 60 + 1, minutes)
    ensures !ShouldRelease(false, lastRaid, now, minutes)
  {
  }

  // ---------- captcha codes ----------

  /** A label as `str(random.randint(1000, 9999))` can produce it. */
  predicate IsCodeLabel(s: string)
  {
    |s| == 4 && AllDigits(s) && s[0] != '0'
  }

  /** Every code the cog can draw renders as a four-digit label. */
  lemma CodeLabel(n: nat)
    requires CODE_MIN <= n <= CODE_MAX
    ensures IsCodeLabel(NatToString(n))
  {
    NatToStringRoundTrip(n);
    DigitCountFour(n);
  }

  // ---------- log texts ----------

  /** The reason logged when the join count trips the raid threshold. */
  function RaidReason(count: nat, window: int): string
  {
    Join([IntToString(count), " joins in ", IntToString(window), "s (auto)"], "")
  }

  /** The reason logged when the join count trips the lockdown threshold. */
  function LockdownReason(count: nat, window: int): string
  {
    Join([IntToString(count), " joins in ", IntToString(window), "s (auto lockdown)"], "")
  }
}
