// The Windows core's translation of SDK client events into the domain
// events it hands to the desktop UI.

module WinEvent {
  import opened Common
  import Client

  /** A channel member from a NAMES reply. */
  datatype MemberInfo = MemberInfo(nick: string, isOp: bool, isHalfop: bool, isVoiced: bool)

  /** A chat message with the metadata taken from its tags. */
  datatype MessageData = MessageData(fromNick: string, target: string, text: string, msgid: Option<string>,
                                     replyTo: Option<string>, editOf: Option<string>, batchId: Option<string>,
                                     isAction: bool, timestampMs: int)

  datatype DomainEvent =
    | Connected
    | Registered(nick: string)
    | Authenticated(did: string)
    | AuthFailed(reason: string)
    | Joined(channel: string, nick: string)
    | Parted(channel: string, nick: string)
    | Message(data: MessageData)
    | TagMsg(sender: string, target: string, tags: map<string, string>)
    | Names(channel: string, members: seq<MemberInfo>)
    | TopicChanged(channel: string, text: string, topicSetBy: Option<string>)
    | ModeChanged(channel: string, mode: string, arg: Option<string>, setBy: string)
    | Kicked(channel: string, nick: string, kicker: string, reason: string)
    | NickChanged(oldNick: string, newNick: string)
    | AwayChanged(nick: string, awayMsg: Option<string>)
    | UserQuit(nick: string, reason: string)
    | BatchStart(id: string, batchType: string, target: string)
    | BatchEnd(id: string)
    | Notice(text: string)
    | Disconnected(reason: string)

  // ---------------------------------------------------------------------
  // NAMES prefixes.

  /** One NAMES entry: a single leading '@', '%' or '+' gives the rank and is removed. */
  function Member(n: string): (r: MemberInfo)
    ensures r.isOp <==> n != [] && n[0] == '@'
    ensures r.isHalfop <==> n != [] && n[0] == '%'
    ensures r.isVoiced <==> n != [] && n[0] == '+'
    ensures r.isOp || r.isHalfop || r.isVoiced ==> r.nick == n[1..]
    ensures !(r.isOp || r.isHalfop || r.isVoiced) ==> r.nick == n
  {
    if n == [] then MemberInfo(n, false, false, false)
    else if n[0] == '@' then MemberInfo(n[1..], true, false, false)
    else if n[0] == '%' then MemberInfo(n[1..], false, true, false)
    else if n[0] == '+' then MemberInfo(n[1..], false, false, true)
    else MemberInfo(n, false, false, false)
  }

  /** The NAMES entry a member is listed as. */
  function Listed(m: MemberInfo): (r: string)
    ensures EndsWith(r, m.nick) && |r| <= |m.nick| + 1
  {
    (if m.isOp then "@" else if m.isHalfop then "%" else if m.isVoiced then "+" else "") + m.nick
  }

  predicate RankPrefix(c: char)
  {
    c == '@' || c == '%' || c == '+'
  }

  /** A member with at most one rank, whose unranked nick does not itself look ranked. */
  predicate WellRanked(m: MemberInfo)
  {
    (if m.isOp then 1 else 0) + (if m.isHalfop then 1 else 0) + (if m.isVoiced then 1 else 0) <= 1 &&
    (!(m.isOp || m.isHalfop || m.isVoiced) ==> m.nick == [] || !RankPrefix(m.nick[0]))
  }

  /** Parsing a listed member gives the member back; only one prefix character is ever removed. */
  lemma MemberListedRoundTrip(m: MemberInfo)
    requires WellRanked(m)
    ensures Member(Listed(m)) == m
  {
    var l := Listed(m);
    if m.isOp || m.isHalfop || m.isVoiced {
      assert l[1..] == m.nick;
    }
  }

  /** Every entry of the list becomes a member in the same position. */
  function Members(nicks: seq<string>): (r: seq<MemberInfo>)
    ensures |r| == |nicks| && forall i | 0 <= i < |nicks| :: r[i] == Member(nicks[i])
  {
    if nicks == [] then [] else [Member(nicks[0])] + Members(nicks[1..])
  }

  // ---------------------------------------------------------------------
  // CTCP ACTION.

  const ACTION_PREFIX: string := "\U{1}ACTION "
  const CTCP_DELIM: char := '\U{1}'

  predicate IsAction(text: string)
  {
    StartsWith(text, ACTION_PREFIX) && EndsWith(text, [CTCP_DELIM])
  }

  /** `trim_start_matches`: every leading repetition of the prefix is removed. */
  function TrimStartMatches(s: string, p: string): (r: string)
    requires p != []
    ensures |r| <= |s| && r == s[|s| - |r|..] && !StartsWith(r, p)
    ensures !StartsWith(s, p) ==> r == s
    decreases |s|
  {
    if StartsWith(s, p) then TrimStartMatches(s[|p|..], p) else s
  }

  /** `trim_end_matches`: every trailing occurrence of the character is removed. */
  function TrimEndMatches(s: string, c: char): (r: string)
    ensures r <= s && (r == [] || r[|r| - 1] != c)
    ensures forall i | |r| <= i < |s| :: s[i] == c
  {
    if s != [] && s[|s| - 1] == c then TrimEndMatches(s[..|s| - 1], c) else s
  }

  /** The displayed text: an action loses its wrapper, anything else is kept as is. */
  function ActionText(text: string): (r: string)
    ensures !IsAction(text) ==> r == text
    ensures IsAction(text) ==> |r| < |text| && !StartsWith(r, ACTION_PREFIX) && (r == [] || r[|r| - 1] != CTCP_DELIM)
  {
    if IsAction(text) then TrimEndMatches(TrimStartMatches(text, ACTION_PREFIX), CTCP_DELIM) else text
  }

  /** Wrapping a body as an action and reading it back gives the body, when the body does not itself carry the markers. */
  lemma ActionRoundTrip(body: string)
    requires !StartsWith(body, ACTION_PREFIX) && (body == [] || body[|body| - 1] != CTCP_DELIM)
    ensures IsAction(ACTION_PREFIX + body + [CTCP_DELIM])
    ensures ActionText(ACTION_PREFIX + body + [CTCP_DELIM]) == body
  {
    AppendAssoc(ACTION_PREFIX, body, [CTCP_DELIM]);
    Unwrap(body, ACTION_PREFIX, CTCP_DELIM, body + [CTCP_DELIM]);
  }

  /** The round trip for any prefix whose last character is not the delimiter. */
  lemma Unwrap(body: string, p: string, c: char, u: string)
    requires u == body + [c]
    requires p != [] && p[|p| - 1] != c && !StartsWith(body, p) && (body == [] || body[|body| - 1] != c)
    ensures StartsWith(p + u, p) && EndsWith(p + u, [c])
    ensures TrimEndMatches(TrimStartMatches(p + u, p), c) == body
  {
    assert u[|u| - 1..] == [c];
    AppendEnds(p, u, [c]);
    NoPrefixWithDelim(body, p, c, u);
    TrimStartOnce(u, p);
    TrimEndOnce(body, c);
  }

  lemma TrimStartOnce(u: string, p: string)
    requires p != [] && !StartsWith(u, p)
    ensures TrimStartMatches(p + u, p) == u
  {
    assert (p + u)[..|p|] == p && (p + u)[|p|..] == u;
  }

  lemma TrimEndOnce(body: string, c: char)
    requires body == [] || body[|body| - 1] != c
    ensures TrimEndMatches(body + [c], c) == body
  {
    assert (body + [c])[..|body|] == body;
  }

  /** Appending the delimiter cannot create a prefix that ends in something else. */
  lemma NoPrefixWithDelim(body: string, p: string, c: char, u: string)
    requires u == body + [c] && p != [] && p[|p| - 1] != c && !StartsWith(body, p)
    ensures !StartsWith(u, p)
  {
    if |p| <= |body| {
      assert u[..|p|] == body[..|p|];
    }
  }

  // ---------------------------------------------------------------------
  // The conversion.

  function TagValue(tags: map<string, string>, key: string): (r: Option<string>)
    ensures r.Some? <==> key in tags
    ensures r.Some? ==> r.value == tags[key]
  {
    if key in tags then Some(tags[key]) else None
  }

  /**
   * A message's metadata. `parseTime` is the RFC 3339 parser (returning
   * Unix milliseconds) and `now` the current time, used when the `time` tag
   * is missing or unparseable.
   */
  function MessageOf(sender: string, target: string, text: string, tags: map<string, string>,
                     parseTime: string -> Option<int>, now: int): (r: MessageData)
    ensures r.fromNick == sender && r.target == target && r.text == ActionText(text)
    ensures r.isAction <==> IsAction(text)
    ensures r.msgid == TagValue(tags, "msgid") && r.replyTo == TagValue(tags, "+reply")
    ensures r.editOf == TagValue(tags, "+draft/edit") && r.batchId == TagValue(tags, "batch")
    ensures "time" in tags && parseTime(tags["time"]).Some? ==> r.timestampMs == parseTime(tags["time"]).value
    ensures !("time" in tags && parseTime(tags["time"]).Some?) ==> r.timestampMs == now
  {
    var ts := if "time" in tags && parseTime(tags["time"]).Some? then parseTime(tags["time"]).value else now;
    MessageData(sender, target, ActionText(text), TagValue(tags, "msgid"), TagValue(tags, "+reply"),
                TagValue(tags, "+draft/edit"), TagValue(tags, "batch"), IsAction(text), ts)
  }

  /** The notice for a private-chat history target (its SDK variant is not part of this model). */
  function ChatHistoryNotice(nick: string, timestamp: Option<string>): (r: DomainEvent)
    ensures r.Notice? && r.text == "DM: " + nick + " (last: " + (if timestamp.Some? then timestamp.value else "?") + ")"
  {
    Notice("DM: " + nick + " (last: " + (if timestamp.Some? then timestamp.value else "?") + ")")
  }

  /** The events the UI only sees as notices. */
  predicate NoticeOnly(e: Client.Event)
  {
    e.NamesEnd? || e.ServerNotice? || e.Invited? || e.WhoisReply? || e.RawLine?
  }

  /** `convert_event`: every SDK event has a domain event. */
  function Convert(e: Client.Event, parseTime: string -> Option<int>, now: int): (r: DomainEvent)
    ensures r.Notice? <==> NoticeOnly(e)
    ensures e.Message? ==> r == Message(MessageOf(e.sender, e.target, e.text, e.tags, parseTime, now))
    ensures e.Names? ==> r.Names? && r.channel == e.channel && r.members == Members(e.nicks)
    ensures e.NamesEnd? ==> r == Notice("")
    ensures e.Invited? ==> r == Notice(e.inviter + " invited you to " + e.channel)
    ensures e.WhoisReply? ==> r == Notice("WHOIS " + e.nick + ": " + e.info)
    ensures e.ServerNotice? ==> r == Notice(e.text)
    ensures e.RawLine? ==> r == Notice(e.line)
    ensures e.Kicked? ==> r == Kicked(e.channel, e.nick, e.kicker, e.reason)
    ensures e.TopicChanged? ==> r == TopicChanged(e.channel, e.topic, e.topicSetBy)
  {
    match e
    case Connected => Connected
    case Registered(nick) => Registered(nick)
    case Authenticated(did) => Authenticated(did)
    case AuthFailed(reason) => AuthFailed(reason)
    case Joined(channel, nick) => Joined(channel, nick)
    case Parted(channel, nick) => Parted(channel, nick)
    case Message(sender, target, text, tags) => Message(MessageOf(sender, target, text, tags, parseTime, now))
    case TagMsg(sender, target, tags) => TagMsg(sender, target, tags)
    case Names(channel, nicks) => Names(channel, Members(nicks))
    case NamesEnd(_) => Notice("")
    case TopicChanged(channel, topic, setBy) => TopicChanged(channel, topic, setBy)
    case ModeChanged(channel, mode, arg, setBy) => ModeChanged(channel, mode, arg, setBy)
    case Kicked(channel, nick, kicker, reason) => Kicked(channel, nick, kicker, reason)
    case NickChanged(oldNick, newNick) => NickChanged(oldNick, newNick)
    case AwayChanged(nick, awayMsg) => AwayChanged(nick, awayMsg)
    case UserQuit(nick, reason) => UserQuit(nick, reason)
    case BatchStart(id, batchType, target) => BatchStart(id, batchType, target)
    case BatchEnd(id) => BatchEnd(id)
    case ServerNotice(text) => Notice(text)
    case Disconnected(reason) => Disconnected(reason)
    case Invited(channel, inviter) => Notice(inviter + " invited you to " + channel)
    case WhoisReply(nick, info) => Notice("WHOIS " + nick + ": " + info)
    case RawLine(line) => Notice(line)
  }

  /** The `type` field of the JSON sent to the UI (variant names in snake case). */
  function TypeTag(d: DomainEvent): (r: string)
    ensures r != []
  {
    match d
    case Connected => "connected"
    case Registered(_) => "registered"
    case Authenticated(_) => "authenticated"
    case AuthFailed(_) => "auth_failed"
    case Joined(_, _) => "joined"
    case Parted(_, _) => "parted"
    case Message(_) => "message"
    case TagMsg(_, _, _) => "tag_msg"
    case Names(_, _) => "names"
    case TopicChanged(_, _, _) => "topic_changed"
    case ModeChanged(_, _, _, _) => "mode_changed"
    case Kicked(_, _, _, _) => "kicked"
    case NickChanged(_, _) => "nick_changed"
    case AwayChanged(_, _) => "away_changed"
    case UserQuit(_, _) => "user_quit"
    case BatchStart(_, _, _) => "batch_start"
    case BatchEnd(_) => "batch_end"
    case Notice(_) => "notice"
    case Disconnected(_) => "disconnected"
  }

  /** Distinct domain-event kinds have distinct type tags, so the UI can tell them apart. */
  lemma TypeTagsDistinguishKinds(a: DomainEvent, b: DomainEvent)
    requires TypeTag(a) == TypeTag(b)
    ensures a.Connected? == b.Connected? && a.Message? == b.Message? && a.Names? == b.Names? && a.Notice? == b.Notice?
    ensures a.Kicked? == b.Kicked? && a.Disconnected? == b.Disconnected? && a.TopicChanged? == b.TopicChanged?
  {
    var ta := TypeTag(a);
    assert |ta| > 0;
    if a.Connected? != b.Connected? || a.Message? != b.Message? || a.Names? != b.Names? || a.Notice? != b.Notice? ||
       a.Kicked? != b.Kicked? || a.Disconnected? != b.Disconnected? || a.TopicChanged? != b.TopicChanged? {
      TagFirstChars(a);
      TagFirstChars(b);
      assert false;
    }
  }

  lemma TagFirstChars(d: DomainEvent)
    ensures d.Connected? <==> TypeTag(d) == "connected"
    ensures d.Message? <==> TypeTag(d) == "message"
    ensures d.Names? <==> TypeTag(d) == "names"
    ensures d.Notice? <==> TypeTag(d) == "notice"
    ensures d.Kicked? <==> TypeTag(d) == "kicked"
    ensures d.Disconnected? <==> TypeTag(d) == "disconnected"
    ensures d.TopicChanged? <==> TypeTag(d) == "topic_changed"
  {
  }
}
