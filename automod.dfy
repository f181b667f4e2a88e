/**
 * The auto-moderation cog of cogs/automod.py as a class whose fields are the cog's
 * in-memory state: the join window, the firewall flag and its last trigger time, the
 * pending captchas and the per-member spam windows. Two more fields record what the
 * handlers do outside that state: `log` holds the rows `log_db` inserts into
 * moderation_logs, and `effects` the platform calls that took effect (posts to the log
 * channel, permission overwrites, deletions, role grants, challenge deliveries).
 * Each handler takes the current time and the random draws as parameters.
 */
module AutoMod {
  import opened Wrappers
  import opened Text
  import opened AutoModRules

  // ---------- the platform, as the cog sees it ----------

  /** A text channel's `send_messages` overwrite for the default role: None, True or False. */
  datatype SendOverwrite = Unset | Allowed | Denied

  /** A text channel; `permitted` is false when `set_permissions` on it raises Forbidden. */
  datatype Channel = Channel(id: ChannelId, everyoneSend: SendOverwrite, permitted: bool)

  /** What `guild.get_role(VERIFIED_ROLE_ID)` and `add_roles` come to. */
  datatype RoleLookup = RoleMissing | RoleForbidden | RoleGrantable

  datatype Guild = Guild(
    id: GuildId,
    channels: seq<Channel>,          // guild.text_channels
    hasLogChannel: bool,             // LOG_CHANNEL_ID resolves to a text channel
    hasVerificationChannel: bool,    // VERIFICATION_CHANNEL_ID resolves to a text channel
    verifiedRole: RoleLookup)

  /** An incoming message; `channelPermitted` and `deletable` say whether muting in its
      channel and deleting it are allowed. */
  datatype Message = Message(
    id: MessageId,
    author: User,
    channel: ChannelId,
    channelPermitted: bool,
    content: string,
    deletable: bool)

  /** The texts `log_channel` posts, by kind. */
  datatype Notice =
    | FirewallOnNotice(reason: string)
    | FirewallOffNotice
    | LockdownNotice
    | DmClosedNotice(member: UserId)
    | CaptchaPassedNotice(member: UserId)
    | BadWordNotice(author: UserId, channel: ChannelId)
    | InviteNotice(author: UserId, channel: ChannelId)
    | SpamMuteNotice(author: UserId, channel: ChannelId)

  datatype Delivery = ToVerificationChannel | ToDirectMessage

  datatype Effect =
    | Post(guild: GuildId, notice: Notice)          // log_channel
    | LockChannel(channel: ChannelId)               // default role: send_messages=False
    | GateMember(channel: ChannelId, member: UserId) // send_messages=False, add_reactions=False
    | MuteMember(channel: ChannelId, member: UserId) // send_messages=False
    | UngateMember(channel: ChannelId, member: UserId) // overwrite=None
    | DeleteMessage(message: MessageId)
    | GrantRole(member: UserId, role: RoleId)
    | SendChallenge(via: Delivery, member: UserId, code: string, labels: seq<string>)

  datatype Action =
    | Join | Leave | FirewallOn | FirewallOff | LockdownOn
    | CaptchaStart | CaptchaPass | BadwordDelete | InviteDelete | SpamMute

  /** The `action` column written for each kind of entry. */
  function ActionName(a: Action): string
  {
    match a
    case Join => "join"
    case Leave => "leave"
    case FirewallOn => "firewall_on"
    case FirewallOff => "firewall_off"
    case LockdownOn => "lockdown_on"
    case CaptchaStart => "captcha_start"
    case CaptchaPass => "captcha_pass"
    case BadwordDelete => "badword_delete"
    case InviteDelete => "invite_delete"
    case SpamMute => "spam_mute"
  }

  /** Different actions are logged under different names. */
  lemma ActionNameInjective(a: Action, b: Action)
    requires ActionName(a) == ActionName(b)
    ensures a == b
  {
    match a
    case Join => assert ActionName(a)[0] == 'j';
    case Leave => assert ActionName(a)[0] == 'l' && ActionName(a)[1] == 'e';
    case FirewallOn => assert |ActionName(a)| == 11;
    case FirewallOff => assert |ActionName(a)| == 12;
    case LockdownOn => assert ActionName(a)[1] == 'o';
    case CaptchaStart => assert |ActionName(a)| == 13 && ActionName(a)[0] == 'c';
    case CaptchaPass => assert |ActionName(a)| == 12 && ActionName(a)[0] == 'c';
    case BadwordDelete => assert ActionName(a)[0] == 'b';
    case InviteDelete => assert ActionName(a)[0] == 'i';
    case SpamMute => assert ActionName(a)[0] == 's';
  }

  /** A row of moderation_logs; `createdAt` is the handler's clock reading. */
  datatype LogEntry = LogEntry(
    guild: GuildId,
    user: Option<UserId>,
    actor: Option<UserId>,
    action: Action,
    reason: string,
    createdAt: Time)

  /** Number of entries of `log` with the given action. */
  function CountAction(log: seq<LogEntry>, a: Action): nat
    decreases |log|
  {
    if log == [] then 0
    else CountAction(log[..|log| - 1], a) + (if log[|log| - 1].action == a then 1 else 0)
  }

  lemma {:induction false} CountActionAppend(x: seq<LogEntry>, y: seq<LogEntry>, a: Action)
    ensures CountAction(x + y, a) == CountAction(x, a) + CountAction(y, a)
    decreases |y|
  {
    if y == [] {
      assert x + y == x;
    } else {
      CountActionAppend(x, y[..|y| - 1], a);
      assert (x + y)[..|x + y| - 1] == x + y[..|y| - 1];
    }
  }

  lemma CountActionSingle(e: LogEntry, a: Action)
    ensures CountAction([e], a) == if e.action == a then 1 else 0
  {
    assert [e][..0] == [];
  }

  /** A pending captcha: the code issued and the time it was issued. */
  datatype Pending = Pending(code: string, issuedAt: Time)

  /** A captcha prompt: who it is for, the correct label, and the button labels in order. */
  datatype CaptchaView = CaptchaView(member: User, correctCode: string, labels: seq<string>)

  /** Three distinct four-digit labels, one of them the correct code. */
  predicate WellFormedView(v: CaptchaView)
  {
    && |v.labels| == 3
    && (forall a, b :: 0 <= a < b < |v.labels| ==> v.labels[a] != v.labels[b])
    && v.correctCode in v.labels
    && forall k :: 0 <= k < |v.labels| ==> IsCodeLabel(v.labels[k])
  }

  /** Exactly one button of a well-formed prompt carries the correct code. */
  lemma ExactlyOneCorrectButton(v: CaptchaView)
    requires WellFormedView(v)
    ensures exists k :: 0 <= k < 3 && v.labels[k] == v.correctCode
    ensures forall j, k :: (0 <= j < 3 && 0 <= k < 3 && v.labels[j] == v.correctCode
                            && v.labels[k] == v.correctCode) ==> j == k
  {
    var k :| 0 <= k < 3 && v.labels[k] == v.correctCode;
  }

  /** Random draws that contain two different distractors; `random.randint` delivers such
      draws with probability 1, which is what makes the loop of `CaptchaView.__init__` end. */
  predicate HasTwoDistractors(correct: string, draws: seq<nat>)
  {
    exists j, k :: 0 <= j < |draws| && 0 <= k < |draws|
      && NatToString(draws[j]) != NatToString(draws[k])
      && NatToString(draws[j]) != correct && NatToString(draws[k]) != correct
  }

  predicate DrawsInRange(draws: seq<nat>)
  {
    forall k :: 0 <= k < |draws| ==> CODE_MIN <= draws[k] <= CODE_MAX
  }

  /** `s` is the rendering of one of the first `upto` draws. */
  predicate Drawn(s: string, draws: seq<nat>, upto: int)
  {
    exists m :: 0 <= m < upto && m < |draws| && s == NatToString(draws[m])
  }

  /** A subset is no larger than its superset. */
  lemma {:induction false} SubsetSize<T>(a: set<T>, b: set<T>)
    requires a <= b
    ensures |a| <= |b|
    decreases |a|
  {
    if a != {} {
      var x :| x in a;
      SubsetSize(a - {x}, b - {x});
    }
  }

  /** A set of fewer than three labels that holds the correct code holds at most one of
      two different distractors. */
  lemma AtMostOneDistractor(options: set<string>, correct: string, x: string, y: string)
    requires |options| < 3 && correct in options
    requires x != y && x != correct && y != correct
    ensures x !in options || y !in options
  {
    if x in options && y in options {
      SubsetSize({correct, x, y}, options);
    }
  }

  /** A set of exactly three elements is the set of any three different members of it. */
  lemma ThreeMembers<T>(s: set<T>, a: T, b: T, c: T)
    requires |s| == 3 && a in s && b in s && c in s && a != b && b != c && a != c
    ensures s == {a, b, c}
  {
    if x :| x in s && x !in {a, b, c} {
      SubsetSize({a, b, c, x}, s);
    }
  }

  /** A set with at least `n` elements has a member outside any set of fewer than `n`. */
  lemma MemberOutside<T>(s: set<T>, t: set<T>)
    requires |t| < |s|
    ensures exists x :: x in s && x !in t
  {
    if s <= t {
      SubsetSize(s, t);
    }
  }

  /** Adding an element after a union is adding it to the second operand. */
  lemma UnionStep<T>(c: set<T>, r: set<T>, x: T)
    ensures (c + r) + {x} == c + (r + {x})
  {
  }

  /** The labels of the first `n` draws. */
  ghost function Rendered(draws: seq<nat>, n: nat): (r: set<string>)
    requires n <= |draws|
    ensures forall s :: s in r <==> Drawn(s, draws, n)
  {
    set m | 0 <= m < n :: NatToString(draws[m])
  }

  /** One more draw adds its label. */
  lemma RenderedStep(draws: seq<nat>, n: nat)
    requires n < |draws|
    ensures Rendered(draws, n + 1) == Rendered(draws, n) + {NatToString(draws[n])}
  {
  }

  /** Drawn labels of in-range draws are four-digit codes. */
  lemma RenderedLabels(draws: seq<nat>, n: nat)
    requires n <= |draws| && DrawsInRange(draws)
    ensures forall s :: s in Rendered(draws, n) ==> IsCodeLabel(s)
  {
    forall s | s in Rendered(draws, n)
      ensures IsCodeLabel(s)
    {
      var m :| 0 <= m < n && s == NatToString(draws[m]);
      CodeLabel(draws[m]);
    }
  }

  /** Three different labels, one of them the correct code, all four-digit codes, make a
      well-formed prompt. */
  lemma ViewOfThree(v: CaptchaView, options: set<string>)
    requires |v.labels| == 3 && options == {v.labels[0], v.labels[1], v.labels[2]}
    requires v.labels[0] != v.labels[1] && v.labels[1] != v.labels[2] && v.labels[0] != v.labels[2]
    requires v.correctCode in options && forall s :: s in options ==> IsCodeLabel(s)
    ensures WellFormedView(v)
  {
  }

  /** Every label of the prompt other than the correct code comes from a draw. */
  lemma DistractorsDrawn(v: CaptchaView, options: set<string>, draws: seq<nat>, n: nat)
    requires |v.labels| == 3 && options == {v.labels[0], v.labels[1], v.labels[2]}
    requires n <= |draws| && options == {v.correctCode} + Rendered(draws, n)
    ensures forall k :: 0 <= k < 3 && v.labels[k] != v.correctCode ==>
              Drawn(v.labels[k], draws, |draws|)
  {
    forall k | 0 <= k < 3 && v.labels[k] != v.correctCode
      ensures Drawn(v.labels[k], draws, |draws|)
    {
      assert v.labels[k] in Rendered(draws, n);
      var m :| 0 <= m < n && v.labels[k] == NatToString(draws[m]);
    }
  }

  /** `CaptchaView.__init__`: starting from the correct code, add `str(randint(1000, 9999))`
      to a set until it holds three labels (the distractors are taken from `draws`, in
      order); the buttons then show the three labels in an order the model leaves open,
      as `list(options)` and `random.shuffle` do. */
  method NewCaptchaView(member: User, code: nat, draws: seq<nat>)
    returns (view: CaptchaView)
    requires CODE_MIN <= code <= CODE_MAX
    requires DrawsInRange(draws) && HasTwoDistractors(NatToString(code), draws)
    ensures view.member == member && view.correctCode == NatToString(code)
    ensures WellFormedView(view)
    ensures forall k :: 0 <= k < 3 && view.labels[k] != view.correctCode ==>
              Drawn(view.labels[k], draws, |draws|)
    ensures exists n: nat :: n <= |draws| &&
              {view.labels[0], view.labels[1], view.labels[2]} == {view.correctCode} + Rendered(draws, n)
  {
    var correct := NatToString(code);
    var options, n := CollectOptions(correct, draws);
    CodeLabel(code);
    RenderedLabels(draws, n);
    var labels := ListOfThree(options);
    view := CaptchaView(member, correct, labels);
    ViewOfThree(view, options);
    DistractorsDrawn(view, options, draws, n);
  }

  /** `list(options)` for a set of three: its members, each once, in an order the model
      leaves open. */
  method ListOfThree<T>(options: set<T>) returns (labels: seq<T>)
    requires |options| == 3
    ensures |labels| == 3 && options == {labels[0], labels[1], labels[2]}
    ensures labels[0] != labels[1] && labels[1] != labels[2] && labels[0] != labels[2]
  {
    MemberOutside(options, {});
    var a :| a in options;
    MemberOutside(options, {a});
    var b :| b in options && b !in {a};
    MemberOutside(options, {a, b});
    var c :| c in options && c !in {a, b};
    ThreeMembers(options, a, b, c);
    labels := [a, b, c];
  }

  /** While the set holds fewer than three labels, one of two different distractors is
      not among the labels drawn so far, so the draws are not used up. */
  lemma DrawsRemain(options: set<string>, correct: string, draws: seq<nat>, n: nat, j: nat, k: nat)
    requires n <= |draws| && |options| < 3 && options == {correct} + Rendered(draws, n)
    requires j < |draws| && k < |draws| && NatToString(draws[j]) != NatToString(draws[k])
    requires NatToString(draws[j]) != correct && NatToString(draws[k]) != correct
    ensures n < |draws|
  {
    var x, y := NatToString(draws[j]), NatToString(draws[k]);
    AtMostOneDistractor(options, correct, x, y);
    if x !in options {
      assert !Drawn(x, draws, n);
    } else {
      assert !Drawn(y, draws, n);
    }
  }

  /** The drawing loop of `CaptchaView.__init__`: the set ends up holding the correct
      code and the labels of the first `n` draws, three labels in all. */
  method CollectOptions(correct: string, draws: seq<nat>) returns (options: set<string>, n: nat)
    requires HasTwoDistractors(correct, draws)
    ensures n <= |draws| && |options| == 3
    ensures options == {correct} + Rendered(draws, n)
  {
    ghost var j, k :| 0 <= j < |draws| && 0 <= k < |draws|
      && NatToString(draws[j]) != NatToString(draws[k])
      && NatToString(draws[j]) != correct && NatToString(draws[k]) != correct;
    options := {correct};
    n := 0;
    while |options| < 3
      invariant n <= |draws| && |options| <= 3
      invariant options == {correct} + Rendered(draws, n)
      decreases |draws| - n
    {
      DrawsRemain(options, correct, draws, n, j, k);
      var shown := NatToString(draws[n]);
      RenderedStep(draws, n);
      UnionStep({correct}, Rendered(draws, n), shown);
      options := options + {shown};
      n := n + 1;
    }
  }

  // ---------- per-channel loops ----------

  /** The three loops over `guild.text_channels`. */
  datatype ChannelOp = Lock | Gate(member: UserId) | Ungate(member: UserId)

  /** The call one iteration makes; channels that raise Forbidden give none. Lock skips
      channels whose default-role overwrite is already False. */
  function ChannelStep(op: ChannelOp, c: Channel): seq<Effect>
  {
    if !c.permitted then []
    else match op
      case Lock => if c.everyoneSend != Denied then [LockChannel(c.id)] else []
      case Gate(m) => [GateMember(c.id, m)]
      case Ungate(m) => [UngateMember(c.id, m)]
  }

  /** The calls of a whole loop, channel by channel. */
  function ChannelEffects(op: ChannelOp, cs: seq<Channel>): seq<Effect>
    decreases |cs|
  {
    if cs == [] then [] else ChannelEffects(op, cs[..|cs| - 1]) + ChannelStep(op, cs[|cs| - 1])
  }

  /** One of the loops over `guild.text_channels`, issuing its calls in channel order. */
  method ChannelLoop(op: ChannelOp, cs: seq<Channel>) returns (calls: seq<Effect>)
    ensures calls == ChannelEffects(op, cs)
  {
    calls := [];
    var i := 0;
    while i < |cs|
      invariant 0 <= i <= |cs|
      invariant calls == ChannelEffects(op, cs[..i])
    {
      assert cs[..i + 1][..i] == cs[..i];
      calls := calls + ChannelStep(op, cs[i]);
      i := i + 1;
    }
    assert cs[..i] == cs;
  }

  /** A channel after the lockdown loop has visited it. */
  function Locked(c: Channel): Channel
  {
    if c.permitted then c.(everyoneSend := Denied) else c
  }

  function LockedChannels(cs: seq<Channel>): (r: seq<Channel>)
    ensures |r| == |cs|
  {
    seq(|cs|, k requires 0 <= k < |cs| => Locked(cs[k]))
  }

  /** After a lockdown every channel that accepts overwrites denies sending to the default
      role, channels that raised Forbidden are as before, and no channel is added or lost. */
  lemma LockdownLocksPermitted(cs: seq<Channel>)
    ensures forall k :: 0 <= k < |cs| ==>
      LockedChannels(cs)[k].id == cs[k].id && LockedChannels(cs)[k].permitted == cs[k].permitted
      && (cs[k].permitted ==> LockedChannels(cs)[k].everyoneSend == Denied)
      && (!cs[k].permitted ==> LockedChannels(cs)[k] == cs[k])
  {
  }

  /** With distinct channel ids, a channel's overwrite changes in the lockdown exactly
      when the loop issues a lock call for it. */
  lemma LockStateMatchesCalls(cs: seq<Channel>, k: nat)
    requires forall i, j :: 0 <= i < j < |cs| ==> cs[i].id != cs[j].id
    requires k < |cs|
    ensures LockedChannels(cs)[k] != cs[k] <==> LockChannel(cs[k].id) in ChannelEffects(Lock, cs)
  {
    LockEffectsExact(cs, cs[k].id);
  }

  /** The lockdown loop touches exactly the permitted channels not yet denied. */
  lemma {:induction false} LockEffectsExact(cs: seq<Channel>, id: ChannelId)
    ensures LockChannel(id) in ChannelEffects(Lock, cs) <==>
      exists k :: 0 <= k < |cs| && cs[k].id == id && cs[k].permitted && cs[k].everyoneSend != Denied
    decreases |cs|
  {
    if cs != [] {
      var init := cs[..|cs| - 1];
      LockEffectsExact(init, id);
      assert forall k :: 0 <= k < |init| ==> init[k] == cs[k];
    }
  }

  lemma {:induction false} ChannelEffectsNone(op: ChannelOp, cs: seq<Channel>)
    requires forall k :: 0 <= k < |cs| ==> ChannelStep(op, cs[k]) == []
    ensures ChannelEffects(op, cs) == []
    decreases |cs|
  {
    if cs != [] {
      ChannelEffectsNone(op, cs[..|cs| - 1]);
    }
  }

  /** A second lockdown right after the first issues no permission call at all. */
  lemma LockdownIdempotent(cs: seq<Channel>)
    ensures LockedChannels(LockedChannels(cs)) == LockedChannels(cs)
    ensures ChannelEffects(Lock, LockedChannels(cs)) == []
  {
    ChannelEffectsNone(Lock, LockedChannels(cs));
  }

  /** Number of channels that accept permission overwrites. */
  function PermittedCount(cs: seq<Channel>): nat
    decreases |cs|
  {
    if cs == [] then 0
    else PermittedCount(cs[..|cs| - 1]) + (if cs[|cs| - 1].permitted then 1 else 0)
  }

  /** The call the gating or ungating loop makes on a channel that accepts it. */
  function MemberCall(op: ChannelOp, id: ChannelId): Effect
    requires !op.Lock?
  {
    match op
    case Gate(m) => GateMember(id, m)
    case Ungate(m) => UngateMember(id, m)
  }

  /** The gating and ungating loops make one call per channel that accepts overwrites and
      none elsewhere: as many calls as such channels, each one that channel's call, and
      every such channel's call among them. */
  lemma {:induction false} MemberEffectsExact(op: ChannelOp, cs: seq<Channel>)
    requires !op.Lock?
    ensures |ChannelEffects(op, cs)| == PermittedCount(cs)
    ensures forall e :: e in ChannelEffects(op, cs) ==>
      exists k :: 0 <= k < |cs| && cs[k].permitted && e == MemberCall(op, cs[k].id)
    ensures forall k :: 0 <= k < |cs| && cs[k].permitted ==> MemberCall(op, cs[k].id) in ChannelEffects(op, cs)
    decreases |cs|
  {
    if cs != [] {
      var init, last := cs[..|cs| - 1], cs[|cs| - 1];
      MemberEffectsExact(op, init);
      assert ChannelStep(op, last) == if last.permitted then [MemberCall(op, last.id)] else [];
      assert forall k :: 0 <= k < |init| ==> init[k] == cs[k];
      forall e | e in ChannelEffects(op, cs)
        ensures exists k :: 0 <= k < |cs| && cs[k].permitted && e == MemberCall(op, cs[k].id)
      {
        if e in ChannelEffects(op, init) {
          var k :| 0 <= k < |init| && init[k].permitted && e == MemberCall(op, init[k].id);
          assert cs[k] == init[k];
        } else {
          assert cs[|cs| - 1] == last;
        }
      }
    }
  }

  /** The gating loop of `on_member_join` sets `GateMember(id, m')` exactly when `m'` is
      the joining member and `id` is a channel that accepts overwrites; the number of
      calls is the number of such channels. */
  lemma GateEffectsExact(cs: seq<Channel>, m: UserId)
    ensures |ChannelEffects(Gate(m), cs)| == PermittedCount(cs)
    ensures forall e :: e in ChannelEffects(Gate(m), cs) ==> e.GateMember? && e.member == m
    ensures forall id, m' :: GateMember(id, m') in ChannelEffects(Gate(m), cs) <==>
      m' == m && exists k :: 0 <= k < |cs| && cs[k].id == id && cs[k].permitted
  {
    MemberEffectsExact(Gate(m), cs);
  }

  /** The ungating loop of `captcha_success` clears `UngateMember(id, m')` exactly when
      `m'` is the verified member and `id` is a channel that accepts overwrites; the
      number of calls is the number of such channels. */
  lemma UngateEffectsExact(cs: seq<Channel>, m: UserId)
    ensures |ChannelEffects(Ungate(m), cs)| == PermittedCount(cs)
    ensures forall e :: e in ChannelEffects(Ungate(m), cs) ==> e.UngateMember? && e.member == m
    ensures forall id, m' :: UngateMember(id, m') in ChannelEffects(Ungate(m), cs) <==>
      m' == m && exists k :: 0 <= k < |cs| && cs[k].id == id && cs[k].permitted
  {
    MemberEffectsExact(Ungate(m), cs);
  }

  /** A post to the log channel, when the guild has one. */
  function PostIf(g: Guild, n: Notice): seq<Effect>
  {
    if g.hasLogChannel then [Post(g.id, n)] else []
  }

  /** How `start_captcha` delivers the prompt: the verification channel if there is one,
      else a direct message, else a warning in the log channel. */
  function DeliveryEffects(g: Guild, member: User, view: CaptchaView): seq<Effect>
  {
    if g.hasVerificationChannel then [SendChallenge(ToVerificationChannel, member.id, view.correctCode, view.labels)]
    else if member.dmsOpen then [SendChallenge(ToDirectMessage, member.id, view.correctCode, view.labels)]
    else PostIf(g, DmClosedNotice(member.id))
  }

  // ---------- replies ----------

  const NOT_FOR_YOU: string := "This verification is not for you."
  const WRONG_CODE: string := "❌ Wrong code. Try again."
  const VERIFIED: string := "✅ Verification complete. Welcome to the server."
  const ADMIN_ONLY: string := "❌ Admin only."
  const GUILD_NOT_FOUND: string := "Guild not found."
  const FIREWALL_ENABLED: string := "✅ Firewall enabled."
  const FIREWALL_DISABLED: string := "✅ Firewall disabled."
  const USAGE: string := "Usage: `/firewall mode:on|off|status`"
  const MANUAL_ENABLE: string := "Manual enable"

  /** The `/firewall status` reply. */
  function StatusText(enabled: bool, window: int, joins: nat): string
  {
    "Firewall status: **" + (if enabled then "ENABLED" else "DISABLED") + "**\n"
    + "Recent joins in " + IntToString(window) + "s: " + IntToString(joins)
  }

  // ---------- the cog ----------

  class AutoModCog {
    const cfg: Config
    var msgHistory: map<UserId, seq<Time>>
    var joinTimes: seq<Time>
    var firewallEnabled: bool
    var lastRaidTime: Time
    var pendingCaptcha: map<UserId, Pending>
    var log: seq<LogEntry>
    var effects: seq<Effect>

    /** Every pending code is a label the prompt can show. */
    ghost predicate Valid()
      reads this
    {
      forall m :: m in pendingCaptcha ==> IsCodeLabel(pendingCaptcha[m].code)
    }

    constructor (cfg: Config)
      ensures Valid() && this.cfg == cfg
      ensures msgHistory == map[] && joinTimes == [] && !firewallEnabled && lastRaidTime == 0
      ensures pendingCaptcha == map[] && log == [] && effects == []
    {
      this.cfg := cfg;
      msgHistory := map[];
      joinTimes := [];
      firewallEnabled := false;
      lastRaidTime := 0;
      pendingCaptcha := map[];
      log := [];
      effects := [];
    }

    /** `enable_firewall`: a no-op when already on; otherwise turn on, stamp the raid time,
        announce and log one `firewall_on`. */
    method EnableFirewall(g: Guild, reason: string, actor: Option<UserId>, now: Time)
      requires Valid()
      modifies this
      ensures Valid()
      ensures old(firewallEnabled) ==> unchanged(this)
      ensures !old(firewallEnabled) ==>
        && firewallEnabled && lastRaidTime == now
        && log == old(log) + [LogEntry(g.id, None, actor, FirewallOn, reason, now)]
        && effects == old(effects) + PostIf(g, FirewallOnNotice(reason))
      ensures joinTimes == old(joinTimes) && msgHistory == old(msgHistory)
      ensures pendingCaptcha == old(pendingCaptcha)
    {
      if firewallEnabled {
        return;
      }
      firewallEnabled := true;
      lastRaidTime := now;
      effects := effects + PostIf(g, FirewallOnNotice(reason));
      log := log + [LogEntry(g.id, None, actor, FirewallOn, reason, now)];
    }

    /** `disable_firewall`: a no-op when already off; otherwise turn off, announce and log
        one `firewall_off`. The raid time is kept. */
    method DisableFirewall(g: Guild, actor: Option<UserId>, now: Time)
      requires Valid()
      modifies this
      ensures Valid()
      ensures !old(firewallEnabled) ==> unchanged(this)
      ensures old(firewallEnabled) ==>
        && !firewallEnabled
        && log == old(log) + [LogEntry(g.id, None, actor, FirewallOff, "", now)]
        && effects == old(effects) + PostIf(g, FirewallOffNotice)
      ensures lastRaidTime == old(lastRaidTime) && joinTimes == old(joinTimes)
      ensures msgHistory == old(msgHistory) && pendingCaptcha == old(pendingCaptcha)
    {
      if !firewallEnabled {
        return;
      }
      firewallEnabled := false;
      effects := effects + PostIf(g, FirewallOffNotice);
      log := log + [LogEntry(g.id, None, actor, FirewallOff, "", now)];
    }

    /** `temporary_lockdown`: announce, deny sending to the default role on every channel
        that does not already deny it (skipping channels that raise Forbidden), and log one
        `lockdown_on`. Returns the guild with its channels' new overwrites. */
    method TemporaryLockdown(g: Guild, actor: Option<UserId>, reason: string, now: Time)
      returns (g': Guild)
      requires Valid()
      modifies this
      ensures Valid()
      ensures g' == g.(channels := LockedChannels(g.channels))
      ensures effects == old(effects) + PostIf(g, LockdownNotice) + ChannelEffects(Lock, g.channels)
      ensures log == old(log) + [LogEntry(g.id, None, actor, LockdownOn, reason, now)]
      ensures firewallEnabled == old(firewallEnabled) && lastRaidTime == old(lastRaidTime)
      ensures joinTimes == old(joinTimes) && msgHistory == old(msgHistory)
      ensures pendingCaptcha == old(pendingCaptcha)
    {
      effects := effects + PostIf(g, LockdownNotice);
      var calls := ChannelLoop(Lock, g.channels);
      effects := effects + calls;
      g' := g.(channels := LockedChannels(g.channels));
      log := log + [LogEntry(g.id, None, actor, LockdownOn, reason, now)];
    }

    /** `firewall_watchdog`: when on, auto-release configured and strictly more than
        `minutes * 60` seconds since the last raid, disable the firewall for every guild;
        only the first guild's call finds it on, so exactly one `firewall_off` is logged. */
    method FirewallWatchdog(guilds: seq<Guild>, now: Time)
      requires Valid()
      modifies this
      ensures Valid()
      ensures ShouldRelease(old(firewallEnabled), old(lastRaidTime), now, cfg.autoReleaseMinutes)
                && |guilds| > 0 ==>
        && !firewallEnabled
        && log == old(log) + [LogEntry(guilds[0].id, None, None, FirewallOff, "", now)]
        && effects == old(effects) + PostIf(guilds[0], FirewallOffNotice)
        && lastRaidTime == old(lastRaidTime) && joinTimes == old(joinTimes)
        && msgHistory == old(msgHistory) && pendingCaptcha == old(pendingCaptcha)
      ensures (!ShouldRelease(old(firewallEnabled), old(lastRaidTime), now, cfg.autoReleaseMinutes)
               || |guilds| == 0) ==> unchanged(this)
    {
      if !firewallEnabled || cfg.autoReleaseMinutes <= 0 {
        return;
      }
      if now - lastRaidTime > cfg.autoReleaseMinutes * 60 {
        var i := 0;
        while i < |guilds|
          invariant 0 <= i <= |guilds| && Valid()
          invariant i == 0 ==> unchanged(this)
          invariant i > 0 ==>
            && !firewallEnabled
            && log == old(log) + [LogEntry(guilds[0].id, None, None, FirewallOff, "", now)]
            && effects == old(effects) + PostIf(guilds[0], FirewallOffNotice)
            && lastRaidTime == old(lastRaidTime) && joinTimes == old(joinTimes)
            && msgHistory == old(msgHistory) && pendingCaptcha == old(pendingCaptcha)
        {
          DisableFirewall(guilds[i], None, now);
          i := i + 1;
        }
      }
    }

    /** `start_captcha`: record the code as the member's only pending captcha (replacing
        any earlier one), build the prompt, deliver it and log `captcha_start`. */
    method StartCaptcha(member: User, g: Guild, code: nat, draws: seq<nat>, now: Time)
      returns (view: CaptchaView)
      requires Valid()
      requires CODE_MIN <= code <= CODE_MAX
      requires DrawsInRange(draws) && HasTwoDistractors(NatToString(code), draws)
      modifies this
      ensures Valid()
      ensures pendingCaptcha == old(pendingCaptcha)[member.id := Pending(NatToString(code), now)]
      ensures view.member == member && view.correctCode == NatToString(code) && WellFormedView(view)
      ensures effects == old(effects) + DeliveryEffects(g, member, view)
      ensures log == old(log) + [LogEntry(g.id, Some(member.id), None, CaptchaStart, "", now)]
      ensures firewallEnabled == old(firewallEnabled) && lastRaidTime == old(lastRaidTime)
      ensures joinTimes == old(joinTimes) && msgHistory == old(msgHistory)
    {
      var codeText := NatToString(code);
      CodeLabel(code);
      pendingCaptcha := pendingCaptcha[member.id := Pending(codeText, now)];
      // CaptchaView(self, member, int(code)) renders the code again with str().
      NatToStringRoundTrip(code);
      view := NewCaptchaView(member, ParseDigits(codeText), draws);
      if g.hasVerificationChannel {
        effects := effects + [SendChallenge(ToVerificationChannel, member.id, view.correctCode, view.labels)];
      } else if member.dmsOpen {
        effects := effects + [SendChallenge(ToDirectMessage, member.id, view.correctCode, view.labels)];
      } else {
        effects := effects + PostIf(g, DmClosedNotice(member.id));
      }
      log := log + [LogEntry(g.id, Some(member.id), None, CaptchaStart, "", now)];
    }

    /** `captcha_success`: drop the member's pending entry, delete the prompt, clear the
        member's overwrites channel by channel, grant the verified role when configured and
        grantable, announce and log `captcha_pass` with the presser as actor. */
    method CaptchaSuccess(member: User, presser: UserId, g: Guild, prompt: MessageId,
                          promptDeletable: bool, now: Time)
      returns (reply: string)
      requires Valid()
      modifies this
      ensures Valid()
      ensures reply == VERIFIED
      ensures pendingCaptcha == old(pendingCaptcha) - {member.id}
      ensures effects == old(effects)
        + (if promptDeletable then [DeleteMessage(prompt)] else [])
        + ChannelEffects(Ungate(member.id), g.channels)
        + (if cfg.verifiedRoleId != 0 && g.verifiedRole == RoleGrantable
           then [GrantRole(member.id, cfg.verifiedRoleId)] else [])
        + PostIf(g, CaptchaPassedNotice(member.id))
      ensures log == old(log) + [LogEntry(g.id, Some(member.id), Some(presser), CaptchaPass, "", now)]
      ensures firewallEnabled == old(firewallEnabled) && lastRaidTime == old(lastRaidTime)
      ensures joinTimes == old(joinTimes) && msgHistory == old(msgHistory)
    {
      pendingCaptcha := pendingCaptcha - {member.id};
      var out := effects;
      if promptDeletable {
        out := out + [DeleteMessage(prompt)];
      }
      var calls := ChannelLoop(Ungate(member.id), g.channels);
      out := out + calls;
      if cfg.verifiedRoleId != 0 && g.verifiedRole == RoleGrantable {
        out := out + [GrantRole(member.id, cfg.verifiedRoleId)];
      }
      reply := VERIFIED;
      effects := out + PostIf(g, CaptchaPassedNotice(member.id));
      log := log + [LogEntry(g.id, Some(member.id), Some(presser), CaptchaPass, "", now)];
    }

    /** `CaptchaButton.callback`: a press by anyone but the challenged member is refused; a
        wrong label asks to try again; the correct label (the prompt's own code) completes
        verification. Only the last case changes any state. */
    method PressCaptchaButton(view: CaptchaView, button: nat, presser: UserId, g: Guild,
                              prompt: MessageId, promptDeletable: bool, now: Time)
      returns (reply: string)
      requires Valid()
      requires button < |view.labels|
      modifies this
      ensures Valid()
      ensures presser != view.member.id ==> reply == NOT_FOR_YOU && unchanged(this)
      ensures presser == view.member.id && view.labels[button] != view.correctCode ==>
                reply == WRONG_CODE && unchanged(this)
      ensures presser == view.member.id && view.labels[button] == view.correctCode ==>
        && reply == VERIFIED
        && pendingCaptcha == old(pendingCaptcha) - {view.member.id}
        && log == old(log) + [LogEntry(g.id, Some(view.member.id), Some(presser), CaptchaPass, "", now)]
        && effects == old(effects)
             + (if promptDeletable then [DeleteMessage(prompt)] else [])
             + ChannelEffects(Ungate(view.member.id), g.channels)
             + (if cfg.verifiedRoleId != 0 && g.verifiedRole == RoleGrantable
                then [GrantRole(view.member.id, cfg.verifiedRoleId)] else [])
             + PostIf(g, CaptchaPassedNotice(view.member.id))
        && firewallEnabled == old(firewallEnabled) && lastRaidTime == old(lastRaidTime)
        && joinTimes == old(joinTimes) && msgHistory == old(msgHistory)
    {
      if presser != view.member.id {
        reply := NOT_FOR_YOU;
        return;
      }
      if view.labels[button] == view.correctCode {
        reply := CaptchaSuccess(view.member, presser, g, prompt, promptDeletable, now);
      } else {
        reply := WRONG_CODE;
      }
    }

    /** The gating branch of `on_member_join`: deny the member sending and reacting on
        every channel that allows it, then issue the captcha. */
    method GateAndChallenge(member: User, g: Guild, code: nat, draws: seq<nat>, now: Time)
      returns (view: CaptchaView)
      requires Valid()
      requires CODE_MIN <= code <= CODE_MAX
      requires DrawsInRange(draws) && HasTwoDistractors(NatToString(code), draws)
      modifies this
      ensures Valid()
      ensures pendingCaptcha == old(pendingCaptcha)[member.id := Pending(NatToString(code), now)]
      ensures view.member == member && view.correctCode == NatToString(code) && WellFormedView(view)
      ensures effects == old(effects) + ChannelEffects(Gate(member.id), g.channels)
                         + DeliveryEffects(g, member, view)
      ensures log == old(log) + [LogEntry(g.id, Some(member.id), None, CaptchaStart, "", now)]
      ensures firewallEnabled == old(firewallEnabled) && lastRaidTime == old(lastRaidTime)
      ensures joinTimes == old(joinTimes) && msgHistory == old(msgHistory)
    {
      var calls := ChannelLoop(Gate(member.id), g.channels);
      effects := effects + calls;
      view := StartCaptcha(member, g, code, draws, now);
    }

    /** The raid check of `on_member_join` for a window of `n` joins: at the threshold,
        enable the firewall with the automatic reason. */
    method RaidCheck(g: Guild, n: nat, now: Time)
      requires Valid()
      modifies this
      ensures Valid()
      ensures firewallEnabled == (old(firewallEnabled) || n >= cfg.raidJoinThreshold)
      ensures lastRaidTime ==
        (if n >= cfg.raidJoinThreshold && !old(firewallEnabled) then now else old(lastRaidTime))
      ensures log == old(log)
        + (if n >= cfg.raidJoinThreshold && !old(firewallEnabled)
           then [LogEntry(g.id, None, None, FirewallOn, RaidReason(n, cfg.raidJoinWindow), now)] else [])
      ensures effects == old(effects)
        + (if n >= cfg.raidJoinThreshold && !old(firewallEnabled)
           then PostIf(g, FirewallOnNotice(RaidReason(n, cfg.raidJoinWindow))) else [])
      ensures joinTimes == old(joinTimes) && msgHistory == old(msgHistory)
      ensures pendingCaptcha == old(pendingCaptcha)
    {
      if n >= cfg.raidJoinThreshold {
        EnableFirewall(g, RaidReason(n, cfg.raidJoinWindow), None, now);
      }
    }

    /** The lockdown check of `on_member_join` for a window of `n` joins: at the hard
        threshold, lock the guild down, whatever the firewall's state. */
    method LockdownCheck(g: Guild, n: nat, now: Time) returns (g': Guild)
      requires Valid()
      modifies this
      ensures Valid()
      ensures g' == (if n >= cfg.lockdownHardThreshold then g.(channels := LockedChannels(g.channels)) else g)
      ensures log == old(log)
        + (if n >= cfg.lockdownHardThreshold
           then [LogEntry(g.id, None, None, LockdownOn, LockdownReason(n, cfg.raidJoinWindow), now)] else [])
      ensures effects == old(effects)
        + (if n >= cfg.lockdownHardThreshold
           then PostIf(g, LockdownNotice) + ChannelEffects(Lock, g.channels) else [])
      ensures firewallEnabled == old(firewallEnabled) && lastRaidTime == old(lastRaidTime)
      ensures joinTimes == old(joinTimes) && msgHistory == old(msgHistory)
      ensures pendingCaptcha == old(pendingCaptcha)
    {
      g' := g;
      if n >= cfg.lockdownHardThreshold {
        g' := TemporaryLockdown(g, None, LockdownReason(n, cfg.raidJoinWindow), now);
      }
    }

    /** `on_member_join`: bots change nothing. Otherwise record the join in the window,
        log it, enable the firewall at the raid threshold, lock down at the hard threshold,
        and if the firewall is then on, gate the member on every channel and issue a captcha. */
    method OnMemberJoin(member: User, g: Guild, now: Time, code: nat, draws: seq<nat>)
      returns (g': Guild, view: Option<CaptchaView>)
      requires Valid()
      requires CODE_MIN <= code <= CODE_MAX
      requires DrawsInRange(draws) && HasTwoDistractors(NatToString(code), draws)
      modifies this
      ensures Valid()
      ensures member.bot ==> unchanged(this) && g' == g && view == None
      ensures !member.bot ==>
        var n := |joinTimes|;
        var raid := n >= cfg.raidJoinThreshold;
        var lock := n >= cfg.lockdownHardThreshold;
        var tripped := raid && !old(firewallEnabled);
        && joinTimes == Recent(old(joinTimes) + [now], now, cfg.raidJoinWindow)
        && firewallEnabled == (old(firewallEnabled) || raid)
        && lastRaidTime == (if tripped then now else old(lastRaidTime))
        && g' == (if lock then g.(channels := LockedChannels(g.channels)) else g)
        && msgHistory == old(msgHistory)
        && (firewallEnabled ==>
              && view.Some? && view.value.member == member
              && view.value.correctCode == NatToString(code) && WellFormedView(view.value)
              && pendingCaptcha == old(pendingCaptcha)[member.id := Pending(NatToString(code), now)])
        && (!firewallEnabled ==> view == None && pendingCaptcha == old(pendingCaptcha))
        && log == old(log)
             + [LogEntry(g.id, Some(member.id), None, Join, "", now)]
             + (if tripped then [LogEntry(g.id, None, None, FirewallOn, RaidReason(n, cfg.raidJoinWindow), now)] else [])
             + (if lock then [LogEntry(g.id, None, None, LockdownOn, LockdownReason(n, cfg.raidJoinWindow), now)] else [])
             + (if firewallEnabled then [LogEntry(g.id, Some(member.id), None, CaptchaStart, "", now)] else [])
        && effects == old(effects)
             + (if tripped then PostIf(g, FirewallOnNotice(RaidReason(n, cfg.raidJoinWindow))) else [])
             + (if lock then PostIf(g, LockdownNotice) + ChannelEffects(Lock, g.channels) else [])
             + (if firewallEnabled
                then ChannelEffects(Gate(member.id), g'.channels) + DeliveryEffects(g', member, view.value)
                else [])
    {
      g' := g;
      view := None;
      if member.bot {
        return;
      }
      joinTimes := Recent(joinTimes + [now], now, cfg.raidJoinWindow);
      log := log + [LogEntry(g.id, Some(member.id), None, Join, "", now)];
      RaidCheck(g, |joinTimes|, now);
      g' := LockdownCheck(g, |joinTimes|, now);
      if firewallEnabled {
        var v := GateAndChallenge(member, g', code, draws, now);
        view := Some(v);
      }
    }

    /** `on_member_remove`: log `leave` for a non-bot member. */
    method OnMemberRemove(member: User, g: Guild, now: Time)
      requires Valid()
      modifies this
      ensures Valid()
      ensures member.bot ==> unchanged(this)
      ensures !member.bot ==> log == old(log) + [LogEntry(g.id, Some(member.id), None, Leave, "", now)]
      ensures effects == old(effects) && firewallEnabled == old(firewallEnabled)
      ensures lastRaidTime == old(lastRaidTime) && joinTimes == old(joinTimes)
      ensures msgHistory == old(msgHistory) && pendingCaptcha == old(pendingCaptcha)
    {
      if member.bot {
        return;
      }
      log := log + [LogEntry(g.id, Some(member.id), None, Leave, "", now)];
    }

    /** `on_message`: run the filter chain; a bad word or an invite deletes the message and
        logs once; otherwise the message enters the author's 5-second window, and a window
        of more than SPAM_MAX_MSG messages mutes the author in that channel. */
    method OnMessage(msg: Message, guild: Option<Guild>, now: Time)
      requires Valid()
      modifies this
      ensures Valid()
      ensures var v := Classify(guild.Some?, msg.author, msg.content, cfg);
        && (v == Ignore ==> unchanged(this))
        && (v == DeleteBadWord ==>
              && effects == old(effects) + (if msg.deletable then [DeleteMessage(msg.id)] else [])
                 + PostIf(guild.value, BadWordNotice(msg.author.id, msg.channel))
              && log == old(log) + [LogEntry(guild.value.id, Some(msg.author.id), None, BadwordDelete, "", now)])
        && (v == DeleteInvite ==>
              && effects == old(effects) + (if msg.deletable then [DeleteMessage(msg.id)] else [])
                 + PostIf(guild.value, InviteNotice(msg.author.id, msg.channel))
              && log == old(log) + [LogEntry(guild.value.id, Some(msg.author.id), None, InviteDelete, "", now)])
        && (v != CountForSpam ==> msgHistory == old(msgHistory))
        && (v == CountForSpam ==>
              var w := SpamWindow(if msg.author.id in old(msgHistory) then old(msgHistory)[msg.author.id] else [], now);
              && msgHistory == old(msgHistory)[msg.author.id := w]
              && (|w| > SPAM_MAX_MSG ==>
                    && effects == old(effects)
                       + (if msg.channelPermitted then [MuteMember(msg.channel, msg.author.id)] else [])
                       + PostIf(guild.value, SpamMuteNotice(msg.author.id, msg.channel))
                    && log == old(log) + [LogEntry(guild.value.id, Some(msg.author.id), None, SpamMute, "", now)])
              && (|w| <= SPAM_MAX_MSG ==> effects == old(effects) && log == old(log)))
      ensures firewallEnabled == old(firewallEnabled) && lastRaidTime == old(lastRaidTime)
      ensures joinTimes == old(joinTimes) && pendingCaptcha == old(pendingCaptcha)
    {
      var v := Classify(guild.Some?, msg.author, msg.content, cfg);
      if v == Ignore {
        return;
      }
      var g := guild.value;
      var author := msg.author;
      if v == DeleteBadWord {
        if msg.deletable {
          effects := effects + [DeleteMessage(msg.id)];
        }
        effects := effects + PostIf(g, BadWordNotice(author.id, msg.channel));
        log := log + [LogEntry(g.id, Some(author.id), None, BadwordDelete, "", now)];
        return;
      }
      if v == DeleteInvite {
        if msg.deletable {
          effects := effects + [DeleteMessage(msg.id)];
        }
        effects := effects + PostIf(g, InviteNotice(author.id, msg.channel));
        log := log + [LogEntry(g.id, Some(author.id), None, InviteDelete, "", now)];
        return;
      }
      var hist := if author.id in msgHistory then msgHistory[author.id] else [];
      msgHistory := msgHistory[author.id := Recent(hist + [now], now, SPAM_WINDOW)];
      if |msgHistory[author.id]| > SPAM_MAX_MSG {
        if msg.channelPermitted {
          effects := effects + [MuteMember(msg.channel, author.id)];
        }
        effects := effects + PostIf(g, SpamMuteNotice(author.id, msg.channel));
        log := log + [LogEntry(g.id, Some(author.id), None, SpamMute, "", now)];
      }
    }

    /** The `/firewall` command: guild members that pass `is_admin_member` only; the mode is lower-cased; "on" and "off" go
        through `EnableFirewall` and `DisableFirewall`, "status" only reads, and anything
        else gets the usage text. */
    method FirewallCommand(caller: Option<User>, guild: Option<Guild>, mode: string, now: Time)
      returns (reply: string)
      requires Valid()
      modifies this
      ensures Valid()
      ensures caller.None? || !IsStaff(caller.value, cfg) ==> reply == ADMIN_ONLY && unchanged(this)
      ensures caller.Some? && IsStaff(caller.value, cfg) ==>
        && (guild.None? ==> reply == GUILD_NOT_FOUND && unchanged(this))
        && (guild.Some? && ParseMode(mode) == ModeOn ==>
              && reply == FIREWALL_ENABLED && firewallEnabled
              && (old(firewallEnabled) ==> unchanged(this))
              && (!old(firewallEnabled) ==>
                    && lastRaidTime == now
                    && log == old(log) + [LogEntry(guild.value.id, None, Some(caller.value.id), FirewallOn, MANUAL_ENABLE, now)]
                    && effects == old(effects) + PostIf(guild.value, FirewallOnNotice(MANUAL_ENABLE))))
        && (guild.Some? && ParseMode(mode) == ModeOff ==>
              && reply == FIREWALL_DISABLED && !firewallEnabled
              && (!old(firewallEnabled) ==> unchanged(this))
              && (old(firewallEnabled) ==>
                    && lastRaidTime == old(lastRaidTime)
                    && log == old(log) + [LogEntry(guild.value.id, None, Some(caller.value.id), FirewallOff, "", now)]
                    && effects == old(effects) + PostIf(guild.value, FirewallOffNotice)))
        && (guild.Some? && ParseMode(mode) == ModeStatus ==>
              reply == StatusText(firewallEnabled, cfg.raidJoinWindow, |joinTimes|) && unchanged(this))
        && (guild.Some? && ParseMode(mode) == ModeInvalid ==> reply == USAGE && unchanged(this))
      ensures joinTimes == old(joinTimes) && msgHistory == old(msgHistory)
      ensures pendingCaptcha == old(pendingCaptcha)
    {
      if caller.None? || !IsStaff(caller.value, cfg) {
        reply := ADMIN_ONLY;
        return;
      }
      if guild.None? {
        reply := GUILD_NOT_FOUND;
        return;
      }
      var m := ParseMode(mode);
      if m == ModeOn {
        EnableFirewall(guild.value, MANUAL_ENABLE, Some(caller.value.id), now);
        reply := FIREWALL_ENABLED;
      } else if m == ModeOff {
        DisableFirewall(guild.value, Some(caller.value.id), now);
        reply := FIREWALL_DISABLED;
      } else if m == ModeStatus {
        reply := StatusText(firewallEnabled, cfg.raidJoinWindow, |joinTimes|);
      } else {
        reply := USAGE;
      }
    }
  }

  // ---------- scenarios ----------

  /** Two `/firewall on` commands in a row on a fresh cog: the firewall is on, the raid
      time is that of the first command, and the log holds one `firewall_on`. */
  method EnableTwiceLogsOnce(cfg: Config, admin: User, g: Guild, t1: Time, t2: Time)
    returns (entries: nat, enabled: bool, raidTime: Time)
    requires IsStaff(admin, cfg)
    ensures entries == 1 && enabled && raidTime == t1
  {
    var cog := new AutoModCog(cfg);
    var r1 := cog.FirewallCommand(Some(admin), Some(g), "on", t1);
    var r2 := cog.FirewallCommand(Some(admin), Some(g), "ON", t2);
    ParseModeIgnoresCase("ON");
    assert ParseMode("on") == ModeOn by { assert Lower("on") == "on"; }
    assert cog.log == [LogEntry(g.id, None, Some(admin.id), FirewallOn, MANUAL_ENABLE, t1)];
    CountActionSingle(cog.log[0], FirewallOn);
    entries := CountAction(cog.log, FirewallOn);
    enabled := cog.firewallEnabled;
    raidTime := cog.lastRaidTime;
  }

  /** `/firewall on` from a caller that is not a guild Member (a bare User) is refused even
      with the administrator permission: the firewall stays off and nothing is logged. */
  method BareUserRefused(cfg: Config, caller: User, g: Guild, now: Time)
    returns (reply: string, enabled: bool, entries: nat)
    requires !caller.isMember
    ensures reply == ADMIN_ONLY && !enabled && entries == 0
  {
    var cog := new AutoModCog(cfg);
    reply := cog.FirewallCommand(Some(caller), Some(g), "on", now);
    enabled := cog.firewallEnabled;
    entries := |cog.log|;
  }

  /** A captcha issued on a fresh cog, answered by its member first with a wrong button and
      then with the button showing the code: the wrong press asks to try again and keeps
      the challenge pending, the right one verifies the member, nothing is pending any more,
      and the log holds one `captcha_start` followed by one `captcha_pass`. */
  method CaptchaRoundTrip(cfg: Config, member: User, g: Guild, code: nat, draws: seq<nat>, now: Time)
    returns (retry: string, pendingAfterRetry: bool, reply: string, stillPending: bool,
             starts: nat, passes: nat)
    requires CODE_MIN <= code <= CODE_MAX
    requires DrawsInRange(draws) && HasTwoDistractors(NatToString(code), draws)
    ensures retry == WRONG_CODE && pendingAfterRetry
    ensures reply == VERIFIED && !stillPending && starts == 1 && passes == 1
  {
    var cog := new AutoModCog(cfg);
    var view := cog.StartCaptcha(member, g, code, draws, now);
    ExactlyOneCorrectButton(view);
    var k :| 0 <= k < 3 && view.labels[k] == view.correctCode;
    var w := if k == 0 then 1 else 0;
    retry := cog.PressCaptchaButton(view, w, member.id, g, 0, true, now);
    pendingAfterRetry := member.id in cog.pendingCaptcha;
    reply := cog.PressCaptchaButton(view, k, member.id, g, 0, true, now);
    stillPending := member.id in cog.pendingCaptcha;
    var start := LogEntry(g.id, Some(member.id), None, CaptchaStart, "", now);
    var pass := LogEntry(g.id, Some(member.id), Some(member.id), CaptchaPass, "", now);
    assert cog.log == [start] + [pass];
    CountActionAppend([start], [pass], CaptchaStart);
    CountActionAppend([start], [pass], CaptchaPass);
    CountActionSingle(start, CaptchaStart);
    CountActionSingle(start, CaptchaPass);
    CountActionSingle(pass, CaptchaStart);
    CountActionSingle(pass, CaptchaPass);
    starts := CountAction(cog.log, CaptchaStart);
    passes := CountAction(cog.log, CaptchaPass);
  }
}
