// Channel messages: per-session flood control, the +n/+m/+E send gates,
// the bounded in-memory history, echo-message delivery, message editing and
// deletion, CHATHISTORY requests and the signature attached to each message.
// Clocks, generated msgids, plugin hooks, the database and Ed25519 are
// parameters.

module Messaging {
  import opened Common
  import opened Server
  import Credentials

  const ERR_CANNOTSENDTOCHAN: nat := 404

  /** Flood control admits at most FLOOD_MAX channel messages per FLOOD_WINDOW_MS. */
  const FLOOD_WINDOW_MS: nat := 2000
  const FLOOD_MAX: nat := 5

  /** CHATHISTORY: the limit used when the parameter does not parse, and its cap. */
  const DEFAULT_HISTORY_LIMIT: nat := 50
  const MAX_HISTORY_LIMIT: nat := 500

  predicate IsChannelTarget(t: string) { |t| > 0 && (t[0] == '#' || t[0] == '&') }

  // ---------------------------------------------------------------------
  // Flood control.

  /** `u64::saturating_sub`. */
  function SatSub(a: nat, b: nat): nat { if a >= b then a - b else 0 }

  predicate IsRecent(now: nat, t: nat) { SatSub(now, t) < FLOOD_WINDOW_MS }

  /** The `retain` over a session's send times: the recent ones, in their order. */
  function Recent(ts: seq<nat>, now: nat): (r: seq<nat>)
    ensures |r| <= |ts|
    ensures forall t :: t in r <==> t in ts && IsRecent(now, t)
  {
    if ts == [] then []
    else
      assert ts == [ts[0]] + ts[1..];
      if IsRecent(now, ts[0]) then [ts[0]] + Recent(ts[1..], now) else Recent(ts[1..], now)
  }

  lemma {:induction false} RecentAppend(a: seq<nat>, b: seq<nat>, now: nat)
    ensures Recent(a + b, now) == Recent(a, now) + Recent(b, now)
  {
    if a == [] {
      assert a + b == b;
    } else {
      assert (a + b)[1..] == a[1..] + b;
      RecentAppend(a[1..], b, now);
    }
  }

  /** Pruning at `p` and then at a later `n` is pruning at `n`, when no time lies after `p`. */
  lemma {:induction false} RecentTwice(a: seq<nat>, p: nat, n: nat)
    requires p <= n
    requires forall t :: t in a ==> t <= p
    ensures Recent(Recent(a, p), n) == Recent(a, n)
  {
    if a != [] {
      assert forall t :: t in a[1..] ==> t in a;
      RecentTwice(a[1..], p, n);
    }
  }

  /** The `retain` loop over a session's send times. */
  method PruneTimes(ts: seq<nat>, now: nat) returns (kept: seq<nat>)
    ensures kept == Recent(ts, now)
  {
    kept := [];
    var i := 0;
    while i < |ts|
      invariant 0 <= i <= |ts|
      invariant kept == Recent(ts[..i], now)
    {
      assert ts[..i + 1] == ts[..i] + [ts[i]];
      RecentAppend(ts[..i], [ts[i]], now);
      if SatSub(now, ts[i]) < FLOOD_WINDOW_MS {
        kept := kept + [ts[i]];
      }
      i := i + 1;
    }
    assert ts[..|ts|] == ts;
  }

  datatype FloodVerdict = FloodVerdict(kept: seq<nat>, accepted: bool)

  /** One flood check: prune, refuse while FLOOD_MAX recent sends remain, otherwise record `now`. */
  function FloodStep(ts: seq<nat>, now: nat): (r: FloodVerdict)
    ensures r.accepted <==> |Recent(ts, now)| < FLOOD_MAX
    ensures r.accepted ==> 0 < |r.kept| <= FLOOD_MAX && r.kept[|r.kept| - 1] == now
    ensures !r.accepted ==> |r.kept| >= FLOOD_MAX && forall t :: t in r.kept ==> IsRecent(now, t)
  {
    var kept := Recent(ts, now);
    if |kept| >= FLOOD_MAX then FloodVerdict(kept, false) else FloodVerdict(kept + [now], true)
  }

  /** The stored times and the accepted send times after a run of flood checks from an empty record. */
  datatype FloodRecord = FloodRecord(stored: seq<nat>, accepted: seq<nat>)

  function Replay(nows: seq<nat>): FloodRecord
  {
    if nows == [] then FloodRecord([], [])
    else
      var prev := Replay(nows[..|nows| - 1]);
      var now := nows[|nows| - 1];
      var step := FloodStep(prev.stored, now);
      FloodRecord(step.kept, prev.accepted + if step.accepted then [now] else [])
  }

  predicate NonDecreasing(s: seq<nat>) { forall i, j :: 0 <= i <= j < |s| ==> s[i] <= s[j] }

  /** With a clock that never goes back, the stored times are exactly the accepted ones still recent. */
  lemma {:induction false} ReplayInvariant(nows: seq<nat>)
    requires |nows| > 0 && NonDecreasing(nows)
    ensures Replay(nows).stored == Recent(Replay(nows).accepted, nows[|nows| - 1])
    ensures |Replay(nows).stored| <= FLOOD_MAX
    ensures forall t :: t in Replay(nows).accepted ==> t <= nows[|nows| - 1]
  {
    var init := nows[..|nows| - 1];
    var now := nows[|nows| - 1];
    var prev := Replay(init);
    var step := FloodStep(prev.stored, now);
    if init == [] {
      assert Recent([now], now) == [now];
    } else {
      ReplayInvariant(init);
      var p := init[|init| - 1];
      RecentTwice(prev.accepted, p, now);
      assert Recent(prev.stored, now) == Recent(prev.accepted, now);
      if step.accepted {
        RecentAppend(prev.accepted, [now], now);
        assert Recent([now], now) == [now];
      } else {
        assert prev.accepted + [] == prev.accepted;
      }
    }
  }

  /** At most FLOOD_MAX channel messages of one session are accepted in the window ending at any send. */
  lemma FloodBound(nows: seq<nat>)
    requires |nows| > 0 && NonDecreasing(nows)
    ensures |Recent(Replay(nows).accepted, nows[|nows| - 1])| <= FLOOD_MAX
  {
    ReplayInvariant(nows);
  }

  // ---------------------------------------------------------------------
  // Channel modes that gate a message.

  datatype Refusal = Flooding | NoExternal | Moderated | EncryptedOnly

  predicate MayVoice(ch: ChannelState, sid: string)
  {
    sid in ch.ops || sid in ch.halfops || sid in ch.voiced
  }

  /** The +n, +m and +E checks, in that order; a target with no channel state is not gated. */
  function ModeGate(ch: Option<ChannelState>, sid: string, tags: map<string, string>): (r: Option<Refusal>)
    ensures r.Some? ==> ch.Some? && r.value != Flooding
    ensures r == Some(NoExternal) <==> ch.Some? && ch.value.noExtMsg && sid !in ch.value.members
    ensures r == None <==>
      ch.None? ||
      ((ch.value.noExtMsg ==> sid in ch.value.members) &&
       (ch.value.moderated ==> MayVoice(ch.value, sid)) &&
       (ch.value.encryptedOnly ==> "+encrypted" in tags))
  {
    match ch
    case None => None
    case Some(c) =>
      if c.noExtMsg && sid !in c.members then Some(NoExternal)
      else if c.moderated && !MayVoice(c, sid) then Some(Moderated)
      else if c.encryptedOnly && "+encrypted" !in tags then Some(EncryptedOnly)
      else None
  }

  /** A voiced member is only ever stopped by +E, and an encrypted message from them passes. */
  lemma VoicedMemberSpeaks(ch: ChannelState, sid: string, tags: map<string, string>)
    requires sid in ch.members && MayVoice(ch, sid)
    ensures ModeGate(Some(ch), sid, tags) == None || ModeGate(Some(ch), sid, tags) == Some(EncryptedOnly)
    ensures "+encrypted" in tags ==> ModeGate(Some(ch), sid, tags) == None
  {
  }

  // ---------------------------------------------------------------------
  // Channel history.

  /** The history deque after `pop_front` while it is longer than MAX_HISTORY. */
  function Bounded(h: seq<HistoryMessage>): (r: seq<HistoryMessage>)
    ensures |r| == if |h| > MAX_HISTORY then MAX_HISTORY else |h|
    ensures r == h[|h| - |r|..]
  {
    if |h| > MAX_HISTORY then h[|h| - MAX_HISTORY..] else h
  }

  /** `push_back` and then `pop_front` while over MAX_HISTORY. */
  method PushHistory(h: seq<HistoryMessage>, m: HistoryMessage) returns (r: seq<HistoryMessage>)
    ensures r == Bounded(h + [m])
  {
    var s := h + [m];
    r := s;
    while |r| > MAX_HISTORY
      invariant |r| <= |s| && r == s[|s| - |r|..]
      invariant |s| > MAX_HISTORY ==> |r| >= MAX_HISTORY
      invariant |s| <= MAX_HISTORY ==> r == s
      decreases |r|
    {
      r := r[1..];
    }
  }

  /** The newest message is kept, last, and the history never exceeds MAX_HISTORY. */
  lemma PushKeepsNewest(h: seq<HistoryMessage>, m: HistoryMessage)
    ensures var r := Bounded(h + [m]); 0 < |r| <= MAX_HISTORY && r[|r| - 1] == m
  {
  }

  /** A full history loses exactly its oldest entry. */
  lemma {:induction false} PushDropsOldest(h: seq<HistoryMessage>, m: HistoryMessage)
    requires |h| == MAX_HISTORY
    ensures Bounded(h + [m]) == h[1..] + [m]
  {
    assert (h + [m])[1..] == h[1..] + [m];
  }

  /** A history below the bound only grows. */
  lemma PushBelowBound(h: seq<HistoryMessage>, m: HistoryMessage)
    requires |h| < MAX_HISTORY
    ensures Bounded(h + [m]) == h + [m]
  {
  }

  // ---------------------------------------------------------------------
  // Delivery to channel members.

  /** Capability sets of sessions: message-tags, server-time and echo-message. */
  datatype Caps = Caps(messageTags: set<string>, serverTime: set<string>, echoMessage: set<string>)

  /** Which rendering of a message a recipient gets. */
  datatype LineKind = Plain | Tagged | TaggedWithTime

  function LineFor(caps: Caps, s: string): LineKind
  {
    if s in caps.messageTags then (if s in caps.serverTime then TaggedWithTime else Tagged) else Plain
  }

  /** The members a PRIVMSG/NOTICE goes to, with the line each one gets. */
  function Recipients(members: set<string>, sender: string, caps: Caps): (r: map<string, LineKind>)
    ensures r.Keys <= members
    ensures forall s :: s in members && s != sender ==> s in r
    ensures sender in r <==> sender in members && sender in caps.echoMessage
    ensures forall s :: s in r ==> (r[s] == Plain <==> s !in caps.messageTags)
    ensures forall s :: s in r ==> (r[s] == TaggedWithTime <==> s in caps.messageTags && s in caps.serverTime)
  {
    map s | s in members && (s != sender || s in caps.echoMessage) :: LineFor(caps, s)
  }

  /**
   * A channel TAGMSG: tag-capable members get it as is; a plain member gets
   * the PRIVMSG fallback only for a `+react` tag.
   */
  function TagmsgRecipients(members: set<string>, sender: string, caps: Caps, hasReact: bool): (r: map<string, LineKind>)
    ensures r.Keys <= members
    ensures sender in r ==> sender in caps.echoMessage
    ensures forall s :: s in r && r[s] == Plain ==> hasReact
    ensures forall s :: s in members && s != sender && (s in caps.messageTags || hasReact) ==> s in r
  {
    map s | s in members && (s != sender || s in caps.echoMessage) && (s in caps.messageTags || hasReact)
      :: LineFor(caps, s)
  }

  // ---------------------------------------------------------------------
  // Message signatures.

  /** `did \0 target \0 text \0 timestamp`, as UTF-8. */
  function SigningInput(did: string, target: string, text: string, timestamp: nat): seq<byte>
  {
    Utf8(did + "\0" + target + "\0" + text + "\0" + DecimalString(timestamp))
  }

  predicate ClientSigValid(c: Credentials.Crypto, vk: seq<byte>, msg: seq<byte>, sig: string)
  {
    var b := c.b64Decode(sig);
    b.Some? && |b.value| == 64 && c.verify(vk, msg, b.value)
  }

  /**
   * `resolve_signature`: guests get no signature; a client signature that
   * verifies under the session's registered key is kept; otherwise the
   * server signs.
   */
  function ResolveSignature(c: Credentials.Crypto, did: Option<string>, target: string, text: string,
                            timestamp: nat, clientSig: Option<string>, sessionKey: Option<seq<byte>>,
                            serverKey: seq<byte>): (r: Option<string>)
    ensures r.None? <==> did.None?
  {
    if did.None? then None
    else
      var msg := SigningInput(did.value, target, text, timestamp);
      if clientSig.Some? && sessionKey.Some? && ClientSigValid(c, sessionKey.value, msg, clientSig.value)
      then clientSig
      else Some(c.b64Encode(c.sign(serverKey, msg)))
  }

  /** Every signature attached to an authenticated message verifies, under the client's key or the server's. */
  lemma SignatureVerifies(c: Credentials.Crypto, did: string, target: string, text: string, timestamp: nat,
                          clientSig: Option<string>, sessionKey: Option<seq<byte>>, serverKey: seq<byte>)
    requires Credentials.Sound(c)
    ensures var r := ResolveSignature(c, Some(did), target, text, timestamp, clientSig, sessionKey, serverKey);
            var msg := SigningInput(did, target, text, timestamp);
            var b := c.b64Decode(r.value);
            b.Some? && |b.value| == 64 &&
            (c.verify(c.publicOf(serverKey), msg, b.value) ||
             (sessionKey.Some? && c.verify(sessionKey.value, msg, b.value)))
  {
    var msg := SigningInput(did, target, text, timestamp);
    var r := ResolveSignature(c, Some(did), target, text, timestamp, clientSig, sessionKey, serverKey);
    if !(clientSig.Some? && sessionKey.Some? && ClientSigValid(c, sessionKey.value, msg, clientSig.value)) {
      assert r.value == c.b64Encode(c.sign(serverKey, msg));
      assert c.b64Decode(r.value) == Some(c.sign(serverKey, msg));
    }
  }

  /** A client signature that verifies is passed on unchanged. */
  lemma ClientSignatureKept(c: Credentials.Crypto, did: string, target: string, text: string, timestamp: nat,
                            sig: string, sessionKey: seq<byte>, serverKey: seq<byte>)
    requires ClientSigValid(c, sessionKey, SigningInput(did, target, text, timestamp), sig)
    ensures ResolveSignature(c, Some(did), target, text, timestamp, Some(sig), Some(sessionKey), serverKey) == Some(sig)
  {
  }

  // ---------------------------------------------------------------------
  // Editing and deleting.

  /** What the database holds about an earlier message. */
  datatype StoredMessage = StoredMessage(sender: string, deleted: bool)

  /** Outcome of the authorship checks; `Ignored` and `AlreadyDeleted` return silently. */
  datatype EditVerdict = Ignored | NotFound | AuthorMismatch | AlreadyDeleted | Allowed

  /** The nick of a hostmask: the text before the first `!`. */
  function SenderNick(hostmask: string): (r: string)
    ensures r <= hostmask && '!' !in r
    ensures |r| < |hostmask| ==> hostmask[|r|] == '!'
  {
    match FindChar(hostmask, '!')
    case Some(i) => hostmask[..i]
    case None => hostmask
  }

  /** `handle_edit`: channel targets only, the original must exist, be the editor's, and not be deleted. */
  function EditCheck(target: string, original: Option<StoredMessage>, nick: string): (r: EditVerdict)
    ensures r == Allowed <==>
      IsChannelTarget(target) && original.Some? && NickEq(SenderNick(original.value.sender), nick) &&
      !original.value.deleted
    ensures r == AuthorMismatch ==> original.Some? && !NickEq(SenderNick(original.value.sender), nick)
  {
    if !IsChannelTarget(target) then Ignored
    else match original
      case None => NotFound
      case Some(row) =>
        if !NickEq(SenderNick(row.sender), nick) then AuthorMismatch
        else if row.deleted then AlreadyDeleted
        else Allowed
  }

  /** `handle_delete`: as for an edit, except that a channel operator may delete anyone's message. */
  function DeleteCheck(target: string, original: Option<StoredMessage>, nick: string, isOp: bool): (r: EditVerdict)
    ensures r == Allowed <==>
      IsChannelTarget(target) && original.Some? &&
      (NickEq(SenderNick(original.value.sender), nick) || isOp) && !original.value.deleted
    ensures r == AuthorMismatch ==> !isOp
  {
    if !IsChannelTarget(target) then Ignored
    else match original
      case None => NotFound
      case Some(row) =>
        if !NickEq(SenderNick(row.sender), nick) && !isOp then AuthorMismatch
        else if row.deleted then AlreadyDeleted
        else Allowed
  }

  /** Whoever may edit a message may delete it. */
  lemma EditorMayDelete(target: string, original: Option<StoredMessage>, nick: string, isOp: bool)
    requires EditCheck(target, original, nick) == Allowed
    ensures DeleteCheck(target, original, nick, isOp) == Allowed
  {
  }

  /** The first history entry carrying a msgid. */
  function FirstWithMsgid(h: seq<HistoryMessage>, id: string): (r: Option<nat>)
    ensures r.Some? ==> r.value < |h| && h[r.value].msgid == Some(id)
    ensures r.Some? ==> forall j :: 0 <= j < r.value ==> h[j].msgid != Some(id)
    ensures r.None? <==> forall j :: 0 <= j < |h| ==> h[j].msgid != Some(id)
  {
    if h == [] then None
    else if h[0].msgid == Some(id) then Some(0)
    else match FirstWithMsgid(h[1..], id)
      case None => None
      case Some(i) => Some(i + 1)
  }

  /** An edited entry: new text, the edit's msgid in its tags; `msgid` itself keeps the original id. */
  function Edited(m: HistoryMessage, text: string, editId: string): HistoryMessage
  {
    m.(text := text, tags := m.tags["msgid" := editId])
  }

  /** The history after an edit: only the first entry with the original msgid changes. */
  function EditHistorySpec(h: seq<HistoryMessage>, id: string, text: string, editId: string): (r: seq<HistoryMessage>)
    ensures |r| == |h|
    ensures forall j :: 0 <= j < |h| && h[j].msgid != Some(id) ==> r[j] == h[j]
    ensures forall j :: 0 <= j < |h| ==> r[j].msgid == h[j].msgid && r[j].from == h[j].from
  {
    match FirstWithMsgid(h, id)
    case None => h
    case Some(i) => h[i := Edited(h[i], text, editId)]
  }

  /** The edited entry carries the new text and the edit's msgid tag. */
  lemma EditReplacesText(h: seq<HistoryMessage>, id: string, text: string, editId: string, i: nat)
    requires i < |h| && h[i].msgid == Some(id)
    requires forall j :: 0 <= j < i ==> h[j].msgid != Some(id)
    ensures EditHistorySpec(h, id, text, editId)[i].text == text
    ensures EditHistorySpec(h, id, text, editId)[i].tags == h[i].tags["msgid" := editId]
  {
    assert FirstWithMsgid(h, id) == Some(i);
  }

  /** Since the entry keeps its original msgid, a second edit of the same message replaces the first. */
  lemma EditTwice(h: seq<HistoryMessage>, id: string, t1: string, e1: string, t2: string, e2: string)
    ensures EditHistorySpec(EditHistorySpec(h, id, t1, e1), id, t2, e2) == EditHistorySpec(h, id, t2, e2)
  {
    var h1 := EditHistorySpec(h, id, t1, e1);
    match FirstWithMsgid(h, id)
    case None =>
    case Some(i) =>
      assert FirstWithMsgid(h1, id) == Some(i);
      assert h1[i].tags["msgid" := e2] == h[i].tags["msgid" := e2];
      assert Edited(h1[i], t2, e2) == Edited(h[i], t2, e2);
  }

  /** The loop over `history.iter_mut()` that edits the first match and breaks. */
  method EditHistory(h: seq<HistoryMessage>, id: string, text: string, editId: string) returns (r: seq<HistoryMessage>)
    ensures r == EditHistorySpec(h, id, text, editId)
  {
    r := h;
    var i := 0;
    while i < |r|
      invariant 0 <= i <= |r| && r == h
      invariant forall j :: 0 <= j < i ==> h[j].msgid != Some(id)
    {
      if r[i].msgid == Some(id) {
        r := r[i := Edited(r[i], text, editId)];
        return;
      }
      i := i + 1;
    }
  }

  /** The history after a delete: `retain` of the entries with another msgid. */
  function WithoutMsgid(h: seq<HistoryMessage>, id: string): (r: seq<HistoryMessage>)
    ensures |r| <= |h|
    ensures forall m :: m in r <==> m in h && m.msgid != Some(id)
  {
    if h == [] then []
    else
      assert h == [h[0]] + h[1..];
      if h[0].msgid == Some(id) then WithoutMsgid(h[1..], id) else [h[0]] + WithoutMsgid(h[1..], id)
  }

  lemma {:induction false} WithoutMsgidAppend(a: seq<HistoryMessage>, b: seq<HistoryMessage>, id: string)
    ensures WithoutMsgid(a + b, id) == WithoutMsgid(a, id) + WithoutMsgid(b, id)
  {
    if a == [] {
      assert a + b == b;
    } else {
      assert (a + b)[1..] == a[1..] + b;
      WithoutMsgidAppend(a[1..], b, id);
    }
  }

  /** A history holding no entry with the msgid is left as it is. */
  lemma {:induction false} WithoutAbsentMsgid(h: seq<HistoryMessage>, id: string)
    requires forall j :: 0 <= j < |h| ==> h[j].msgid != Some(id)
    ensures WithoutMsgid(h, id) == h
  {
    if h != [] {
      WithoutAbsentMsgid(h[1..], id);
    }
  }

  /** Deleting twice is deleting once, and an edit after a delete finds nothing to change. */
  lemma DeleteIsFinal(h: seq<HistoryMessage>, id: string, text: string, editId: string)
    ensures WithoutMsgid(WithoutMsgid(h, id), id) == WithoutMsgid(h, id)
    ensures EditHistorySpec(WithoutMsgid(h, id), id, text, editId) == WithoutMsgid(h, id)
  {
    var d := WithoutMsgid(h, id);
    assert forall j :: 0 <= j < |d| ==> d[j] in d;
    WithoutAbsentMsgid(d, id);
  }

  /** The `retain` loop. */
  method DeleteFromHistory(h: seq<HistoryMessage>, id: string) returns (r: seq<HistoryMessage>)
    ensures r == WithoutMsgid(h, id)
  {
    r := [];
    var i := 0;
    while i < |h|
      invariant 0 <= i <= |h|
      invariant r == WithoutMsgid(h[..i], id)
    {
      assert h[..i + 1] == h[..i] + [h[i]];
      WithoutMsgidAppend(h[..i], [h[i]], id);
      if h[i].msgid != Some(id) {
        r := r + [h[i]];
      }
      i := i + 1;
    }
    assert h[..|h|] == h;
  }

  /** A delete goes to tag-capable members only, and never back to its sender. */
  function DeleteRecipients(members: set<string>, sender: string, caps: Caps): (r: set<string>)
    ensures sender !in r
    ensures r <= members && r <= caps.messageTags
    ensures forall s :: s in members && s in caps.messageTags && s != sender ==> s in r
  {
    set s | s in members && s != sender && s in caps.messageTags
  }

  // ---------------------------------------------------------------------
  // CHATHISTORY.

  /** The limit parameter: `parse::<usize>().unwrap_or(50).min(500)`. */
  function HistoryLimit(s: string): (r: nat)
    ensures r <= MAX_HISTORY_LIMIT
    ensures ParseU64(s).None? ==> r == DEFAULT_HISTORY_LIMIT
  {
    var n := ParseU64(s).UnwrapOr(DEFAULT_HISTORY_LIMIT);
    if n < MAX_HISTORY_LIMIT then n else MAX_HISTORY_LIMIT
  }

  /** A limit written in decimal is honoured up to the cap. */
  lemma HistoryLimitOf(n: nat)
    requires n <= U64_MAX
    ensures HistoryLimit(DecimalString(n)) == if n < MAX_HISTORY_LIMIT then n else MAX_HISTORY_LIMIT
  {
    ParseU64Decimal(n);
  }

  /** The database query a CHATHISTORY request turns into. */
  datatype HistoryQuery =
    | Before(before: nat, limit: nat)
    | After(after: nat, limit: nat)
    | Latest(limit: nat)
    | Between(start: nat, end: nat, limit: nat)
    | NoQuery

  datatype ChathistoryReply =
    | NeedMoreParams
    | NoSuchChannel(target: string)
    | NotInChannel(target: string)
    | Query(target: string, query: HistoryQuery)

  function QueryLimit(q: HistoryQuery): nat
  {
    if q.NoQuery? then 0 else q.limit
  }

  /** `parse_chathistory_ts`: an optional `timestamp=` prefix, then RFC 3339 (a parameter). */
  function ParseHistoryTs(s: string, rfc3339: string -> Option<nat>): Option<nat>
  {
    var prefix := "timestamp=";
    rfc3339(if StartsWith(s, prefix) then s[|prefix|..] else s)
  }

  /** `handle_chathistory` up to the database call. */
  function Chathistory(params: seq<string>, channels: map<string, ChannelState>, sid: string,
                       rfc3339: string -> Option<nat>): (r: ChathistoryReply)
    ensures r == NeedMoreParams <==> |params| < 3
    ensures r.Query? ==> r.target == LowerStr(params[1]) && r.target in channels && sid in channels[r.target].members
    ensures r.Query? ==> QueryLimit(r.query) <= MAX_HISTORY_LIMIT
    ensures |params| >= 3 && LowerStr(params[1]) in channels && sid in channels[LowerStr(params[1])].members ==> r.Query?
  {
    if |params| < 3 then NeedMoreParams
    else
      var sub := UpperStr(params[0]);
      var target := LowerStr(params[1]);
      if target !in channels then NoSuchChannel(target)
      else if sid !in channels[target].members then NotInChannel(target)
      else
        var q :=
          if sub == "BEFORE" then
            if |params| < 4 then NoQuery
            else Before(ParseHistoryTs(params[2], rfc3339).UnwrapOr(U64_MAX), HistoryLimit(params[3]))
          else if sub == "AFTER" then
            if |params| < 4 then NoQuery
            else After(ParseHistoryTs(params[2], rfc3339).UnwrapOr(0), HistoryLimit(params[3]))
          else if sub == "LATEST" then
            if |params| < 4 then NoQuery
            else if params[2] == "*" then Latest(HistoryLimit(params[3]))
            else After(ParseHistoryTs(params[2], rfc3339).UnwrapOr(0), HistoryLimit(params[3]))
          else if sub == "BETWEEN" then
            if |params| < 5 then NoQuery
            else Between(ParseHistoryTs(params[2], rfc3339).UnwrapOr(0),
                         ParseHistoryTs(params[3], rfc3339).UnwrapOr(U64_MAX), HistoryLimit(params[4]))
          else NoQuery;
        Query(target, q)
  }

  /** The subcommand is case-insensitive: `latest *` and `LATEST *` ask for the same rows. */
  lemma LatestAnyCase(target: string, limit: string, channels: map<string, ChannelState>, sid: string,
                      rfc3339: string -> Option<nat>)
    requires LowerStr(target) in channels && sid in channels[LowerStr(target)].members
    ensures Chathistory(["latest", target, "*", limit], channels, sid, rfc3339) ==
            Query(LowerStr(target), Latest(HistoryLimit(limit)))
  {
    assert UpperStr("latest") == "LATEST";
  }

  // ---------------------------------------------------------------------
  // The server side: flood records and channel state.

  datatype Command = Privmsg | Notice

  /** The sending session. */
  datatype Sender = Sender(sid: string, nick: Option<string>, hostmask: string, did: Option<string>,
                           msgKey: Option<seq<byte>>)

  function NickOrStar(s: Sender): string { s.nick.UnwrapOr("*") }

  /** What the plugin `on_message` hook answered. */
  datatype PluginVerdict = PluginVerdict(suppress: bool, rewrite: Option<string>)

  /** The server's signing key and the primitives. */
  datatype Signer = Signer(crypto: Credentials.Crypto, serverKey: seq<byte>)

  datatype SendOutcome =
    | Refused(reason: Refusal)
    | Suppressed
    | Delivered(msgid: string, tags: map<string, string>, recipients: map<string, LineKind>)

  /** The tags stored and sent with a channel message: the client's, the msgid, the signature. */
  function FullTags(tags: map<string, string>, msgid: string, sig: Option<string>): (r: map<string, string>)
    ensures "msgid" in r && r["msgid"] == msgid
    ensures sig.Some? ==> "+freeq.at/sig" in r && r["+freeq.at/sig"] == sig.value
    ensures forall k :: k in tags && k != "msgid" && k != "+freeq.at/sig" ==> k in r && r[k] == tags[k]
  {
    var t := tags["msgid" := msgid];
    if sig.Some? then t["+freeq.at/sig" := sig.value] else t
  }

  function TagValue(tags: map<string, string>, k: string): Option<string>
  {
    if k in tags then Some(tags[k]) else None
  }

  function Members(channels: map<string, ChannelState>, target: string): set<string>
  {
    if target in channels then channels[target].members else {}
  }

  function ChannelAt(channels: map<string, ChannelState>, target: string): Option<ChannelState>
  {
    if target in channels then Some(channels[target]) else None
  }

  class Messenger {
    /** `msg_timestamps`: each session's recent channel-send times, in milliseconds. */
    var msgTimestamps: map<string, seq<nat>>
    var channels: map<string, ChannelState>

    constructor(channels: map<string, ChannelState>)
      ensures this.channels == channels && msgTimestamps == map[]
    {
      this.channels := channels;
      msgTimestamps := map[];
    }

    function SendTimes(sid: string): seq<nat>
      reads this
    {
      if sid in msgTimestamps then msgTimestamps[sid] else []
    }

    /** The flood check; the pruned record is stored even when the message is refused. */
    method CheckFlood(sid: string, now: nat) returns (accepted: bool)
      modifies this
      ensures accepted == FloodStep(old(SendTimes(sid)), now).accepted
      ensures msgTimestamps == old(msgTimestamps)[sid := FloodStep(old(SendTimes(sid)), now).kept]
      ensures channels == old(channels)
    {
      var kept := PruneTimes(SendTimes(sid), now);
      if |kept| >= FLOOD_MAX {
        msgTimestamps := msgTimestamps[sid := kept];
        return false;
      }
      msgTimestamps := msgTimestamps[sid := kept + [now]];
      accepted := true;
    }

    /**
     * A PRIVMSG or NOTICE to a channel target (after the edit dispatch):
     * flood check, mode gates, plugin hook, signature, history (PRIVMSG only)
     * and delivery. `now` is in milliseconds, `timestamp` in seconds.
     */
    method SendChannel(sender: Sender, command: Command, target: string, text: string,
                       tags: map<string, string>, now: nat, timestamp: nat, plugin: PluginVerdict,
                       msgid: string, signer: Signer, caps: Caps) returns (out: SendOutcome)
      modifies this
      ensures msgTimestamps == old(msgTimestamps)[sender.sid := FloodStep(old(SendTimes(sender.sid)), now).kept]
      ensures out == Refused(Flooding) <==> !FloodStep(old(SendTimes(sender.sid)), now).accepted
      ensures FloodStep(old(SendTimes(sender.sid)), now).accepted ==>
        (out.Refused? <==> ModeGate(ChannelAt(old(channels), target), sender.sid, tags).Some?)
      ensures out.Refused? && out.reason != Flooding ==>
        Some(out.reason) == ModeGate(ChannelAt(old(channels), target), sender.sid, tags)
      ensures out == Suppressed ==> plugin.suppress
      ensures out.Delivered? ==>
        out.msgid == msgid &&
        out.tags == FullTags(tags, msgid,
          ResolveSignature(signer.crypto, sender.did, target, plugin.rewrite.UnwrapOr(text), timestamp,
                           TagValue(tags, "+freeq.at/sig"), sender.msgKey, signer.serverKey)) &&
        out.recipients == Recipients(Members(old(channels), target), sender.sid, caps)
      ensures out.Delivered? && command == Privmsg && target in old(channels) ==>
        channels == old(channels)[target := old(channels)[target].(history :=
          Bounded(old(channels)[target].history +
                  [HistoryMessage(sender.hostmask, plugin.rewrite.UnwrapOr(text), timestamp, out.tags, Some(msgid))]))]
      ensures !(out.Delivered? && command == Privmsg && target in old(channels)) ==> channels == old(channels)
    {
      var ok := CheckFlood(sender.sid, now);
      if !ok {
        return Refused(Flooding);
      }
      var gate := ModeGate(ChannelAt(channels, target), sender.sid, tags);
      if gate.Some? {
        return Refused(gate.value);
      }
      if plugin.suppress {
        return Suppressed;
      }
      var body := plugin.rewrite.UnwrapOr(text);
      var sig := ResolveSignature(signer.crypto, sender.did, target, body, timestamp,
                                  TagValue(tags, "+freeq.at/sig"), sender.msgKey, signer.serverKey);
      var fullTags := FullTags(tags, msgid, sig);
      if command == Privmsg && target in channels {
        var ch := channels[target];
        var h := PushHistory(ch.history, HistoryMessage(sender.hostmask, body, timestamp, fullTags, Some(msgid)));
        channels := channels[target := ch.(history := h)];
      }
      out := Delivered(msgid, fullTags, Recipients(Members(channels, target), sender.sid, caps));
    }

    /** `handle_edit`: bypasses flood control and the mode gates. */
    method Edit(sender: Sender, target: string, newText: string, originalId: string,
                original: Option<StoredMessage>, editId: string, caps: Caps)
      returns (verdict: EditVerdict, recipients: map<string, LineKind>)
      modifies this
      ensures verdict == EditCheck(target, original, NickOrStar(sender))
      ensures verdict == Allowed && target in old(channels) ==>
        channels == old(channels)[target := old(channels)[target].(history :=
          EditHistorySpec(old(channels)[target].history, originalId, newText, editId))]
      ensures !(verdict == Allowed && target in old(channels)) ==> channels == old(channels)
      ensures msgTimestamps == old(msgTimestamps)
      ensures recipients == if verdict == Allowed then Recipients(Members(old(channels), target), sender.sid, caps) else map[]
    {
      verdict := EditCheck(target, original, NickOrStar(sender));
      if verdict != Allowed {
        return verdict, map[];
      }
      if target in channels {
        var ch := channels[target];
        var h := EditHistory(ch.history, originalId, newText, editId);
        channels := channels[target := ch.(history := h)];
      }
      recipients := Recipients(Members(channels, target), sender.sid, caps);
    }

    /** `handle_delete`: author or channel operator; never echoed to the sender. */
    method Delete(sender: Sender, target: string, originalId: string, original: Option<StoredMessage>, caps: Caps)
      returns (verdict: EditVerdict, recipients: set<string>)
      modifies this
      ensures verdict == DeleteCheck(target, original, NickOrStar(sender),
                                     target in old(channels) && sender.sid in old(channels)[target].ops)
      ensures verdict == Allowed && target in old(channels) ==>
        channels == old(channels)[target := old(channels)[target].(history :=
          WithoutMsgid(old(channels)[target].history, originalId))]
      ensures !(verdict == Allowed && target in old(channels)) ==> channels == old(channels)
      ensures msgTimestamps == old(msgTimestamps)
      ensures recipients == if verdict == Allowed then DeleteRecipients(Members(old(channels), target), sender.sid, caps) else {}
    {
      var isOp := target in channels && sender.sid in channels[target].ops;
      verdict := DeleteCheck(target, original, NickOrStar(sender), isOp);
      if verdict != Allowed {
        return verdict, {};
      }
      if target in channels {
        var ch := channels[target];
        var h := DeleteFromHistory(ch.history, originalId);
        channels := channels[target := ch.(history := h)];
      }
      recipients := DeleteRecipients(Members(channels, target), sender.sid, caps);
    }
  }
}
