# Auto-moderation bot: a verified model

This project models, in Dafny, the logic at the centre of a community-chat moderation bot.

The main part is the auto-moderation cog (`AutoModCog`). It keeps a sliding window of recent joins, a two-state firewall with its last trigger time, the captchas waiting for an answer, and a 5-second message window per member. Its handlers are:

- member joins: the raid and lockdown thresholds, then gating the newcomer behind a captcha;
- messages: the bad-word filter, then the invite filter, then spam counting;
- the captcha prompt and its buttons;
- enabling and disabling the firewall, and the `/firewall on|off|status` command;
- the watchdog that releases the firewall after a quiet period.

Three smaller pieces of data logic sit beside it:

- the dashboard turns grouped log rows into chart labels and zero-filled series, renders the log as text, and checks the login form;
- the welcome cog merges settings updates field by field and picks the welcome channel, message and autorole with their fallbacks;
- the assistant cog has an offline keyword reply.

Files:

- `wrappers.dfy`: `Option`, the model of Python's `None`.
- `text.dfy`: Python's string behaviour that the model needs. This covers ASCII lower-casing, `sub in s`, `str(n)` and `int(s)`, `join` and `split`, and code-point ordering.
- `automod_rules.dfy`: the cog's pure decisions. This covers the configuration, the sliding window, the filter chain, the mode parser, the release test and the shape of a code.
- `automod.dfy`: the platform as the cog sees it, the captcha view, the loops over channels, and the `AutoModCog` class.
  - The fields of `AutoModCog` are the cog's state.
  - `log` holds the rows `log_db` inserts.
  - `effects` holds the platform calls that took effect.
  - `Valid()` says every pending code is a four-digit label. The constructor sets it up, and every handler requires it and keeps it.
- `dashboard.dfy`: `get_logs_text`, `get_stats` and the credential check of `do_login`.
- `welcome.dfy`: `get_settings`, `upsert_settings` and the fallbacks of `on_member_join`.
- `ai.dfy`: `simple_reply`.

Time, random numbers and the outcome of each platform call are inputs:

- every handler takes `now`;
- a captcha takes its code and the sequence of distractor draws;
- each channel, message and role says whether the platform accepts the calls the source guards with `except discord.Forbidden`.

Where the source catches Forbidden, a refused call leaves no effect and the handler goes on. This covers the per-channel overwrites, the message deletions, the role grants and the captcha DM. The other sends (log-channel posts, the verification-channel prompt, interaction replies) are assumed to succeed.

Behaviour of the code worth noting:

- Pending captchas never expire. `on_timeout` does nothing and there is no sweep. The prompt's view stops taking presses `CAPTCHA_EXPIRE_SECONDS` (300 s) after its last interaction. So a member whose prompt timed out stays gated, and their pending entry is kept until a later join replaces it.
- Leaving the guild does not drop a pending captcha.
- A button press is checked against the code of the prompt it belongs to, not against the pending entry. So a challenge issued later does not invalidate an earlier prompt.
- The firewall state is one per cog and shared by all guilds. The watchdog disables it through the first guild only: the calls for the other guilds find it already off.
- `/firewall status` reports the join window as last pruned, without pruning it again.

## Model

| member | source | states |
|---|---|---|
| Text.LowerShape | cogs/automod.py:327 | lower-casing keeps the length, leaves no upper-case letter, and changes nothing in lower-case text |
| Text.LowerIdempotent | cogs/ai.py:23 | lower-casing twice is lower-casing once |
| Text.ContainsAt | cogs/automod.py:330 | `sub in s` holds exactly when `sub` occurs at some index of `s` |
| Text.NatToStringRoundTrip | cogs/automod.py:203-206 | `str(n)` is a digit string of `DigitCount(n)` digits with no leading zero, and `int(str(n)) == n` |
| Text.NatToStringInjective | cogs/automod.py:57 | different codes render as different labels |
| Text.SplitJoin | dashboard.py:87 | splitting a `"\n".join` at line breaks gives the parts back when no part holds one |
| Text.LessIrreflexive | dashboard.py:115-116 | no string sorts before itself |
| Text.LessTransitive | dashboard.py:115-116 | the string order used by `sorted` is transitive |
| Text.LessTotal | dashboard.py:115-116 | two different strings are ordered one way, never both ways |
| AutoModRules.Recent | cogs/automod.py:275 | the pruned window keeps exactly the entries at most `window` seconds old, and never grows |
| AutoModRules.RecentAppend | cogs/automod.py:275 | pruning distributes over concatenation, so it keeps the original order |
| AutoModRules.RecordThenPrune | cogs/automod.py:274-275 | after a join at `now`, the window is the surviving older entries in order, followed by `now` |
| AutoModRules.RecentIdempotent | cogs/automod.py:359 | pruning a pruned window again at the same time changes nothing |
| AutoModRules.RecentKeepsFresh | cogs/automod.py:275 | a window whose entries are all recent is kept whole |
| AutoModRules.JoinWindowExample | cogs/automod.py:274-281 | with a 30 s window, joins at 0, 5, 10, 15 and 20 all count at t=20; a join at t=40 leaves 10, 15, 20 and 40 |
| AutoModRules.Classify | cogs/automod.py:317-343 | a message is ignored exactly for DMs, bots and guild members passing `is_admin_member`; a bad-word verdict means a bad word occurs; an invite verdict means an invite and no bad word; spam counting means neither |
| AutoModRules.ClassifyIgnoresCase | cogs/automod.py:327-343 | a message and its lower-cased copy get the same verdict |
| AutoModRules.SpamWindow | cogs/automod.py:356-359 | after a message the author's window ends with `now`, and every entry is within 5 seconds |
| AutoModRules.SpamNeedsBurst | cogs/automod.py:360 | the mute threshold is passed exactly when at least 5 earlier messages are still in the window |
| AutoModRules.ParseModeIgnoresCase | cogs/automod.py:393-400 | the mode is read case-insensitively ("ON", "Off" and "STATUS" are recognised) |
| AutoModRules.ReleaseBoundary | cogs/automod.py:188-191 | no release when off or when minutes <= 0; exactly `minutes*60` seconds is not enough, one second more is |
| AutoModRules.CodeLabel | cogs/automod.py:203 | every code from 1000 to 9999 renders as four digits without a leading zero |
| AutoMod.ActionNameInjective | cogs/automod.py:122-141 | different actions are logged under different names |
| AutoMod.CountActionAppend | cogs/automod.py:134-141 | counting the entries of one action adds up over concatenated logs |
| AutoMod.ExactlyOneCorrectButton | cogs/automod.py:59-67 | a well-formed prompt has exactly one button showing the correct code |
| AutoMod.AtMostOneDistractor | cogs/automod.py:60-62 | a set of fewer than three labels that holds the code misses one of any two different distractors, so the draws are not used up |
| AutoMod.RenderedLabels | cogs/automod.py:62 | every rendered draw from 1000..9999 is a four-digit label |
| AutoMod.DistractorsDrawn | cogs/automod.py:60-64 | every button other than the correct one shows a drawn code |
| AutoMod.ViewOfThree | cogs/automod.py:60-64 | three different four-digit labels, one of them the code, form a well-formed prompt |
| AutoMod.CollectOptions | cogs/automod.py:60-62 | the `while len(options) < 3` loop ends with three labels: the code and the labels of the draws consumed so far |
| AutoMod.ListOfThree | cogs/automod.py:63 | `list(options)` of a three-element set lists each member exactly once |
| AutoMod.NewCaptchaView | cogs/automod.py:53-67 | the prompt is for the member and its correct code is `str(code)`; it has 3 distinct four-digit labels, one of them the code; every other label was drawn, and the label set is exactly the code plus the labels of the first draws the loop consumed |
| AutoMod.ChannelLoop | cogs/automod.py:171-182 | a loop over the text channels issues exactly the calls of `ChannelEffects`, in channel order |
| AutoMod.LockdownLocksPermitted | cogs/automod.py:171-182 | after a lockdown, every channel that accepts overwrites denies sending to the default role; channels that refuse are unchanged |
| AutoMod.LockStateMatchesCalls | cogs/automod.py:171-182 | with distinct channel ids, channel k's overwrite changes in the lockdown exactly when the loop issues a lock call for it |
| AutoMod.LockEffectsExact | cogs/automod.py:171-182 | the lockdown touches a channel exactly when it accepts overwrites and does not already deny sending |
| AutoMod.LockdownIdempotent | cogs/automod.py:174 | a second lockdown changes no channel and issues no call |
| AutoMod.MemberEffectsExact | cogs/automod.py:242-246 | the gating and ungating loops make exactly one call per channel that accepts overwrites, that channel's call, and none for a channel that refuses |
| AutoMod.GateEffectsExact | cogs/automod.py:298-307 | gating sets `GateMember(id, m')` exactly when `m'` is the joining member and `id` a channel that accepts overwrites; there are as many calls as such channels |
| AutoMod.UngateEffectsExact | cogs/automod.py:242-246 | ungating clears `UngateMember(id, m')` exactly when `m'` is the verified member and `id` a channel that accepts overwrites; there are as many calls as such channels |
| AutoMod.AutoModCog.constructor | cogs/automod.py:98-108 | the firewall starts off with raid time 0, and there are no windows, no pending captchas, no log and no effects |
| AutoMod.AutoModCog.EnableFirewall | cogs/automod.py:145-154 | no change at all when already on; otherwise on, raid time `now`, one announcement and one `firewall_on` row, nothing else changed |
| AutoMod.AutoModCog.DisableFirewall | cogs/automod.py:156-164 | no change at all when already off; otherwise off, one announcement and one `firewall_off` row; the raid time is kept |
| AutoMod.AutoModCog.TemporaryLockdown | cogs/automod.py:166-183 | one announcement, the lock calls of `ChannelEffects(Lock, ...)`, the locked channels, and one `lockdown_on` row; the firewall and the windows are unchanged |
| AutoMod.AutoModCog.FirewallWatchdog | cogs/automod.py:186-193 | when the release test holds, the firewall goes off with exactly one `firewall_off` (for the first guild); otherwise nothing changes |
| AutoMod.AutoModCog.StartCaptcha | cogs/automod.py:201-227 | the member's pending entry becomes the new code (replacing any earlier one); the prompt is well-formed; delivery is to the verification channel, else a DM, else a warning; one `captcha_start` |
| AutoMod.AutoModCog.CaptchaSuccess | cogs/automod.py:229-261 | the pending entry is removed; the calls are prompt deletion, per-channel ungating, the role grant when configured and grantable, and the announcement; one `captcha_pass` with the presser as actor |
| AutoMod.AutoModCog.PressCaptchaButton | cogs/automod.py:80-92 | another user gets "not for you" and nothing changes; a wrong label gets "Try again" and nothing changes; the correct label verifies and removes the pending entry |
| AutoMod.AutoModCog.GateAndChallenge | cogs/automod.py:296-308 | the member is denied sending and reacting on every channel that accepts overwrites, then a captcha is issued |
| AutoMod.AutoModCog.RaidCheck | cogs/automod.py:279-286 | a window of at least the raid threshold turns the firewall on; it is stamped and logged only if it was off |
| AutoMod.AutoModCog.LockdownCheck | cogs/automod.py:288-293 | a window of at least the hard threshold locks the guild down and logs `lockdown_on`, whatever the firewall's state; a smaller window changes nothing |
| AutoMod.AutoModCog.OnMemberJoin | cogs/automod.py:265-308 | bots change nothing; otherwise the join window is the old window plus `now`, pruned (so for a non-negative window it ends with `now`), the join is logged, the thresholds apply, and a member joining while the firewall is on is gated and challenged |
| AutoMod.AutoModCog.OnMemberRemove | cogs/automod.py:310-314 | a non-bot member's departure logs one `leave`; nothing else changes |
| AutoMod.AutoModCog.OnMessage | cogs/automod.py:316-373 | ignored messages change nothing; a bad word or an invite deletes the message and logs once, without touching the spam window; other messages enter the window, and only a window of more than 5 mutes the author and logs once |
| AutoMod.AutoModCog.FirewallCommand | cogs/automod.py:381-410 | a caller that is not a guild member passing `is_admin_member` gets "Admin only" and no change; "on" and "off" (any case) go through enable and disable, and "off" keeps the last raid time; "status" reports without changing anything; any other mode gets the usage text |
| AutoMod.EnableTwiceLogsOnce | cogs/automod.py:145-149 | two `/firewall on` commands on a fresh cog leave it on with the first command's raid time and exactly one `firewall_on` |
| AutoMod.BareUserRefused | cogs/automod.py:40-46 | `/firewall on` from a caller that is not a guild member is refused even with the administrator permission: the firewall stays off and nothing is logged |
| AutoMod.CaptchaRoundTrip | cogs/automod.py:80-92 | issue, then a wrong press, then the correct press: retry with the captcha still pending, then verification with nothing pending, one `captcha_start` and one `captcha_pass` |
| Dashboard.TargetText | dashboard.py:82 | the target column shows "-" exactly when the user id is missing or 0 |
| Dashboard.FormatLines | dashboard.py:79-86 | one line per row, in row order |
| Dashboard.GetLogsText | dashboard.py:58-87 | "No database yet." without a database, "No moderation logs yet." without rows, otherwise the rows' lines joined by line breaks |
| Dashboard.LogsTextLines | dashboard.py:79-87 | when no field holds a line break, the text splits back into exactly the rows' lines, in order |
| Dashboard.Insert | dashboard.py:115 | inserting into an ascending sequence keeps it strictly ascending, with exactly one element more or none |
| Dashboard.SortedDistinct | dashboard.py:115-116 | `sorted(set(xs))` is strictly ascending and holds exactly the values of `xs` |
| Dashboard.AscendingUnique | dashboard.py:115-116 | two strictly ascending sequences with the same elements are equal |
| Dashboard.AscendingValuesDetermined | dashboard.py:115-116 | any labels meeting the label contract are exactly `sorted(set(values))` |
| Dashboard.DateIndex | dashboard.py:118 | the index maps each date to its position and holds no other key |
| Dashboard.FillCounts | dashboard.py:121-126 | after the fill loop each action's list has one cell per date, holding the count of the last row for that date and action, or 0 |
| Dashboard.BuildSeries | dashboard.py:128-137 | one smooth line series per action, in the actions' order, carrying that action's list |
| Dashboard.GetStats | dashboard.py:90-139 | empty labels and series without a database or rows; otherwise the labels are the distinct dates in ascending order, the series names are the distinct actions in ascending order, and every series holds one cell per label with its count |
| Dashboard.CountOfGroup | dashboard.py:121-126 | with one row per (date, action), the filled cell is that row's count |
| Dashboard.CountOfAbsent | dashboard.py:119-126 | a (date, action) without a row keeps the cell 0 |
| Dashboard.PivotCells | dashboard.py:119-126 | each group's count sits at its cell and every other cell is 0 |
| Dashboard.LoginExact | dashboard.py:235-245 | a session cookie is issued exactly for "admin"/"DEV"; it signs that user for 604800 s, HTTP-only, SameSite=lax |
| Dashboard.LoginRejects | dashboard.py:235 | the comparison is case-sensitive and needs both fields |
| Welcome.GetSettings | cogs/welcome.py:38-55 | `None` exactly when the guild has no row; otherwise the four keys hold columns 0 to 3 |
| Welcome.WriteThenRead | cogs/welcome.py:82-99 | the row written for a dictionary reads back as the same dictionary |
| Welcome.UpsertSettings | cogs/welcome.py:57-100 | the guild's settings become the stored ones (or all `None`) merged with the arguments; other guilds are unchanged |
| Welcome.MissingRowIsBlank | cogs/welcome.py:66-71 | without a row the update is merged into all-`None` fields |
| Welcome.MergeFieldwise | cogs/welcome.py:73-80 | each `None` argument keeps its field and each given one replaces exactly that field |
| Welcome.SetChannelOnly | cogs/welcome.py:73-74 | setting the channel changes no other field |
| Welcome.MergeIdempotent | cogs/welcome.py:73-80 | applying the same update twice is applying it once |
| Welcome.MergeNeverResets | cogs/welcome.py:73-80 | no update resets a stored field to `None` |
| Welcome.WelcomeChannelId | cogs/welcome.py:116-119 | a stored non-zero channel is used, else WELCOME_CHANNEL_ID; the id is never 0, so the channel is always looked up |
| Welcome.WelcomeMessage | cogs/welcome.py:121-124 | a stored non-empty message is used, else the built-in template; the result is never empty |
| Welcome.AutoroleToGrant | cogs/welcome.py:183-185 | a role is granted only for a stored non-zero autorole id |
| Welcome.SetChannelThenJoin | cogs/welcome.py:204-206 | after `/welcome_set_channel` the next join greets in that channel |
| Welcome.SetMessageThenJoin | cogs/welcome.py:227-229 | after `/welcome_set_message` a non-empty template is used, and an empty one falls back to the built-in template |
| Welcome.SetAutoroleThenJoin | cogs/welcome.py:247-249 | after `/welcome_set_autorole` the next join grants that role, unless its id is 0 |
| AI.SimpleReply | cogs/ai.py:22-28 | the reply is one of the three fixed texts |
| AI.RepliesDistinct | cogs/ai.py:25-28 | the three texts are different |
| AI.ReplyCases | cogs/ai.py:24-28 | greeting exactly when "hello" or "hi" occurs, even with "help"; help exactly when "help" occurs without them; the acknowledgement otherwise |
| AI.SimpleReplyIgnoresCase | cogs/ai.py:23 | the reply does not depend on letter case |
| AI.GreetingInsideWord | cogs/ai.py:24-25 | "hi" matches inside words: "This needs HELP" gets the greeting |

## Left out

- Posts to the log channel (`log_channel`), the prompt sent to the verification channel and the interaction replies are assumed to succeed. The source does not catch Forbidden around them, so a refusal there would abort the handler midway. For example, a refused lockdown announcement locks no channel and logs nothing, and a refused firewall announcement leaves the flag set without a `firewall_on` row. The model does not capture these aborted runs.
- AutoMod.NewCaptchaView: the button order is left open, since `list(set)` followed by `random.shuffle` fixes no order. It also requires at least two distinct distractors among the draws. The source loop instead keeps drawing, and ends with probability 1.
- AutoMod.AutoModCog.StartCaptcha: the code and the draws are parameters, with the code required to be in 1000..9999 (what `randint` returns). `OnMemberJoin` and `GateAndChallenge` carry the same requirements.
- AutoMod.AutoModCog.PressCaptchaButton: requires the pressed button to be one of the prompt's labels. The platform only delivers presses of existing buttons.
- Discord I/O (send, set_permissions, delete, add_roles, channel and role lookups) is not executed. It is an abstract effect list. The texts of channel posts and DMs are reduced to the kind of the post.
- `log_db` returns early when the bot has no database. That case is left out: the bot opens its database before loading the cogs.
- Time is an integer number of seconds, and one handler reads the clock once. Floating-point timestamps are left out.
- Async scheduling, concurrent handlers and the `tasks.loop` timer are left out. Each handler is one atomic step, and the watchdog is a method called with the current time.
- AutoMod.AutoModCog.PressCaptchaButton: the view's `CAPTCHA_EXPIRE_SECONDS` timeout is left out. In the source the view stops taking presses 300 s after its last interaction, and a late press changes nothing; the model judges every press.
- The invite regular expression is a case-insensitive substring test for its two literal alternatives.
- Lower-casing maps only ASCII letters. Python's full Unicode `str.lower` is left out.
- The SQL queries are left out. The grouped and log rows are inputs, and the `GUILD_ID` filter, `ORDER BY` and `LIMIT` are assumed already applied. The strftime rendering of timestamps and SQLite's `date()` are opaque strings.
- FastAPI routes, HTML pages, the cookie-reading `get_logged_in_user` and the itsdangerous signature are left out. The signed cookie value is the username it signs.
- `str.format` of the welcome template, embeds, avatars, the rules and verification fields, and the DM with its link button are left out. So is the role lookup for the autorole.
- The OpenAI call in `ai_answer` is left out. Only the offline `simple_reply` is modelled.
- The other cogs (admin, moderation, tickets, backups, roles, fun, help) and bot.py are not part of this model. They hold no logic beyond library calls.
