// The bridge between an IRC control channel and a local agent: which
// messages it queues, the nick-to-DID table it keeps from ACCOUNT and WHOIS
// lines, and the cursor it keeps into the reply file. The broker session,
// the IRC connection, JSON encoding and the clock are not modelled.

module PiBridge {
  import opened Common
  import opened BotsOutput
  import WinEvent

  // ---------------------------------------------------------------------
  // Learning DIDs.

  /** The nick of a `:nick!user@host` prefix: every leading ':' dropped, then everything up to the first '!'. */
  function PrefixNick(prefix: string): (r: string)
    ensures '!' !in r
  {
    var p := WinEvent.TrimStartMatches(prefix, ":");
    match FindChar(p, '!')
    case None => p
    case Some(k) => p[..k]
  }

  /**
   * `parse_account_notify`: a line holding " ACCOUNT " whose second
   * space-separated token is exactly "ACCOUNT" gives the prefix's nick and
   * the trimmed rest after the second space.
   */
  function ParseAccountNotify(line: string): (r: Option<(string, string)>)
    ensures r.Some? ==> Contains(line, " ACCOUNT ")
    ensures r.Some? ==> '!' !in r.value.0
  {
    if !Contains(line, " ACCOUNT ") then None
    else match FindChar(line, ' ')
      case None => None
      case Some(i) =>
        var after := line[i + 1..];
        match FindChar(after, ' ')
        case None => None
        case Some(j) =>
          if after[..j] != "ACCOUNT" then None
          else Some((PrefixNick(line[..i]), Trim(after[j + 1..])))
  }

  /** An ACCOUNT notification names the nick of its prefix and the trimmed account. */
  lemma AccountNotifyRoundTrip(nick: string, userHost: string, did: string)
    requires ' ' !in nick && '!' !in nick && (nick == [] || nick[0] != ':')
    requires ' ' !in userHost
    ensures ParseAccountNotify(":" + nick + "!" + userHost + " ACCOUNT " + did) == Some((nick, Trim(did)))
  {
    var prefix := ":" + nick + "!" + userHost;
    assert ' ' !in prefix;
    AccountLineSplit(prefix, did);
    PrefixNickOf(nick, userHost);
  }

  /** A prefix without spaces, then " ACCOUNT ", then the account. */
  lemma AccountLineSplit(prefix: string, did: string)
    requires ' ' !in prefix
    ensures ParseAccountNotify(prefix + " ACCOUNT " + did) == Some((PrefixNick(prefix), Trim(did)))
  {
    var line := prefix + " ACCOUNT " + did;
    assert ContainsAt(line, " ACCOUNT ", |prefix|) by {
      assert line[|prefix|..|prefix| + 9] == " ACCOUNT ";
    }
    FindCharAfter(prefix, ' ', "ACCOUNT " + did);
    assert prefix + [' '] + ("ACCOUNT " + did) == line;
    assert line[..|prefix|] == prefix;
    AccountCommand(did);
    assert line[|prefix| + 1..] == "ACCOUNT " + did;
  }

  lemma AccountCommand(did: string)
    ensures FindChar("ACCOUNT " + did, ' ') == Some(7)
    ensures ("ACCOUNT " + did)[..7] == "ACCOUNT" && ("ACCOUNT " + did)[8..] == did
  {
    FindCharAfter("ACCOUNT", ' ', did);
    assert "ACCOUNT" + [' '] + did == "ACCOUNT " + did;
  }

  lemma PrefixNickOf(nick: string, userHost: string)
    requires '!' !in nick && (nick == [] || nick[0] != ':')
    ensures PrefixNick(":" + nick + "!" + userHost) == nick
  {
    var p := ":" + nick + "!" + userHost;
    var q := nick + "!" + userHost;
    assert p[1..] == q;
    assert !StartsWith(q, ":") by {
      if nick == [] {
        assert q[0] == '!';
      } else {
        assert q[0] == nick[0];
      }
    }
    assert WinEvent.TrimStartMatches(p, ":") == q;
    FindCharAfter(nick, '!', userHost);
    assert nick + ['!'] + userHost == q;
  }

  /** A line whose command is anything but ACCOUNT teaches nothing, even when it mentions " ACCOUNT " later. */
  lemma OtherCommandIgnored(prefix: string, cmd: string, rest: string)
    requires ' ' !in prefix && ' ' !in cmd && cmd != "ACCOUNT"
    ensures ParseAccountNotify(prefix + " " + cmd + " " + rest) == None
  {
    var line := prefix + " " + cmd + " " + rest;
    FindCharAfter(prefix, ' ', cmd + " " + rest);
    assert prefix + [' '] + (cmd + " " + rest) == line;
    var after := line[|prefix| + 1..];
    assert after == cmd + [' '] + rest;
    FindCharAfter(cmd, ' ', rest);
    assert after[..|cmd|] == cmd;
  }

  /** `parse_whois_did`: the trimmed text from the first "did:" on. */
  function ParseWhoisDid(info: string): (r: Option<string>)
    ensures r.Some? <==> Contains(info, "did:")
  {
    match Find(info, "did:")
    case None => None
    case Some(idx) => Some(Trim(info[idx..]))
  }

  /** A WHOIS line naming a DID gives that DID, trimmed, when no earlier "did:" occurs. */
  lemma WhoisDidFound(pre: string, did: string)
    requires StartsWith(did, "did:")
    requires forall j: nat | j < |pre| :: !ContainsAt(pre + did, "did:", j)
    ensures ParseWhoisDid(pre + did) == Some(Trim(did))
  {
    var s := pre + did;
    assert s[|pre|..] == did;
    assert ContainsAt(s, "did:", |pre|);
    var idx := Find(s, "did:").value;
    assert idx == |pre|;
  }

  /** What a WHOIS line yields always starts with "did:". */
  lemma WhoisDidShape(info: string)
    requires Contains(info, "did:")
    ensures StartsWith(ParseWhoisDid(info).value, "did:")
  {
    var idx := Find(info, "did:").value;
    var s := info[idx..];
    assert s[..4] == info[idx..idx + 4] == "did:";
    TrimKeepsPrefix(s, 4);
  }

  /** Trimming keeps a prefix that starts and ends with non-whitespace. */
  lemma TrimKeepsPrefix(s: string, k: nat)
    requires 0 < k <= |s| && !IsWhitespace(s[0]) && !IsWhitespace(s[k - 1])
    ensures |Trim(s)| >= k && Trim(s)[..k] == s[..k]
  {
    assert TrimStart(s) == s;
    var r := TrimEnd(s);
  }

  // ---------------------------------------------------------------------
  // Gating channel messages.

  datatype Config = Config(allowedDid: string, channel: Option<string>, prefix: string)

  /** A message event as the bridge sees it; `inBatch` is whether it carries a `batch` tag. */
  datatype Msg = Msg(from: string, target: string, text: string, inBatch: bool)

  /** What the bridge does with a message. */
  datatype Gate =
    | Ignore
    | AskWhois
    | Deny
    | Queue(did: string, payload: string)

  predicate EqIgnoreAsciiCase(a: string, b: string)
  {
    LowerStr(a) == LowerStr(b)
  }

  /** With a control channel configured, only messages to it or to the bot itself are looked at. */
  predicate Addressed(cfg: Config, botNick: string, target: string)
  {
    cfg.channel.Some? ==> EqIgnoreAsciiCase(target, cfg.channel.value) || EqIgnoreAsciiCase(target, botNick)
  }

  /** The command after the prefix, trimmed; none when the trimmed text does not start with the prefix. */
  function Payload(prefix: string, text: string): (r: Option<string>)
    ensures r.Some? <==> StartsWith(Trim(text), prefix)
    ensures r.Some? ==> Trim(text) == prefix + Trim(text)[|prefix|..] && r.value == Trim(Trim(text)[|prefix|..])
  {
    var t := Trim(text);
    if StartsWith(t, prefix) then
      PrefixThenRest(t, prefix);
      Some(Trim(t[|prefix|..]))
    else None
  }

  /** The DID table is keyed by lower-cased nick. */
  function DidOf(nickDids: map<string, string>, nick: string): Option<string>
  {
    if LowerStr(nick) in nickDids then Some(nickDids[LowerStr(nick)]) else None
  }

  /**
   * The checks of the message handler, in order: batch, addressing, prefix,
   * empty payload, unknown sender, wrong DID.
   */
  function GateMessage(cfg: Config, botNick: string, nickDids: map<string, string>, m: Msg): (g: Gate)
    ensures g.Queue? <==>
      !m.inBatch && Addressed(cfg, botNick, m.target) &&
      Payload(cfg.prefix, m.text).Some? && Payload(cfg.prefix, m.text).value != [] &&
      DidOf(nickDids, m.from) == Some(cfg.allowedDid)
    ensures g.Queue? ==> g.did == cfg.allowedDid && g.payload == Payload(cfg.prefix, m.text).value
    ensures g.Queue? ==> g.payload != [] && (g.payload[0] != ' ' && g.payload[|g.payload| - 1] != ' ')
    ensures g.AskWhois? <==>
      !m.inBatch && Addressed(cfg, botNick, m.target) &&
      Payload(cfg.prefix, m.text).Some? && Payload(cfg.prefix, m.text).value != [] &&
      DidOf(nickDids, m.from).None?
    ensures g.Deny? ==> DidOf(nickDids, m.from).Some? && DidOf(nickDids, m.from).value != cfg.allowedDid
  {
    if m.inBatch || !Addressed(cfg, botNick, m.target) then Ignore
    else match Payload(cfg.prefix, m.text)
      case None => Ignore
      case Some(payload) =>
        if payload == [] then Ignore
        else match DidOf(nickDids, m.from)
          case None => AskWhois
          case Some(did) => if did != cfg.allowedDid then Deny else Queue(did, payload)
  }

  /** A message in a batch (history playback) is never acted on. */
  lemma BatchIgnored(cfg: Config, botNick: string, nickDids: map<string, string>, m: Msg)
    requires m.inBatch
    ensures GateMessage(cfg, botNick, nickDids, m) == Ignore
  {
  }

  /** The prefix alone, or followed by blanks, is not a command. */
  lemma BarePrefixIgnored(cfg: Config, botNick: string, nickDids: map<string, string>, m: Msg)
    requires Payload(cfg.prefix, m.text) == Some([])
    ensures GateMessage(cfg, botNick, nickDids, m) == Ignore
  {
  }

  /** The line written to the outbox for a queued command. */
  datatype OutboxEntry = OutboxEntry(ts: int, from: string, did: string, target: string, text: string)

  /** A line the bridge sends: PRIVMSG to a target, or a raw command. */
  datatype Send = Privmsg(to: string, text: string) | Raw(line: string)

  const QUEUED: string := "✅ queued"
  const AUTH_PENDING: string := "Auth pending — try again in a moment."
  const ACCESS_DENIED: string := "Access denied."

  /** The DID table after learning a (nick, DID) pair, keyed by the lower-cased nick. */
  function Learned(nickDids: map<string, string>, pair: Option<(string, string)>): (r: map<string, string>)
    ensures pair.None? ==> r == nickDids
    ensures pair.Some? ==> LowerStr(pair.value.0) in r && r[LowerStr(pair.value.0)] == pair.value.1
    ensures pair.Some? ==> forall n | n in nickDids && n != LowerStr(pair.value.0) :: n in r && r[n] == nickDids[n]
    ensures r.Keys <= nickDids.Keys + (if pair.Some? then {LowerStr(pair.value.0)} else {})
  {
    match pair
    case None => nickDids
    case Some(p) => nickDids[LowerStr(p.0) := p.1]
  }

  function WhoisPair(nick: string, info: string): Option<(string, string)>
  {
    match ParseWhoisDid(info)
    case None => None
    case Some(did) => Some((nick, did))
  }

  /** A learned DID is what the sender lookup then finds, under any ASCII casing of the nick. */
  lemma LearnedIsFound(nickDids: map<string, string>, nick: string, other: string, did: string)
    requires EqIgnoreAsciiCase(nick, other)
    ensures DidOf(Learned(nickDids, Some((nick, did))), other) == Some(did)
  {
  }

  /** What the sender is told. */
  function Answer(g: Gate, m: Msg): (r: seq<Send>)
    ensures g.Ignore? <==> r == []
    ensures g.AskWhois? ==> r == [Raw("WHOIS " + m.from), Privmsg(m.target, AUTH_PENDING)]
    ensures g.Deny? ==> r == [Privmsg(m.target, ACCESS_DENIED)]
    ensures g.Queue? ==> r == [Privmsg(m.target, QUEUED)]
  {
    match g
    case Ignore => []
    case AskWhois => [Raw("WHOIS " + m.from), Privmsg(m.target, AUTH_PENDING)]
    case Deny => [Privmsg(m.target, ACCESS_DENIED)]
    case Queue(_, _) => [Privmsg(m.target, QUEUED)]
  }

  /** The outbox after a message: one entry more exactly when it was queued. */
  function Enqueued(outbox: seq<OutboxEntry>, g: Gate, m: Msg, now: int): (r: seq<OutboxEntry>)
    ensures !g.Queue? ==> r == outbox
    ensures g.Queue? ==> r == outbox + [OutboxEntry(now, m.from, g.did, m.target, g.payload)]
  {
    if g.Queue? then outbox + [OutboxEntry(now, m.from, g.did, m.target, g.payload)] else outbox
  }

  /** Every command in the outbox came from the allowed DID. */
  predicate AllFrom(outbox: seq<OutboxEntry>, allowed: string)
  {
    forall i | 0 <= i < |outbox| :: outbox[i].did == allowed
  }

  /** Queuing keeps the outbox to commands from the allowed DID. */
  lemma QueuedOnlyAllowed(cfg: Config, botNick: string, nickDids: map<string, string>, m: Msg,
                          outbox: seq<OutboxEntry>, now: int)
    requires AllFrom(outbox, cfg.allowedDid)
    ensures AllFrom(Enqueued(outbox, GateMessage(cfg, botNick, nickDids, m), m, now), cfg.allowedDid)
  {
  }

  /** The bridge's state across one connection. */
  class Bridge {
    var nickDids: map<string, string>
    var outbox: seq<OutboxEntry>

    /** Every queued command came from the allowed DID. */
    ghost predicate OnlyAllowed(allowed: string)
      reads this
    {
      AllFrom(outbox, allowed)
    }

    constructor (outbox: seq<OutboxEntry>)
      ensures nickDids == map[] && this.outbox == outbox
    {
      nickDids := map[];
      this.outbox := outbox;
    }

    /** A raw line: an ACCOUNT notification records the nick's DID. */
    method OnRawLine(line: string)
      modifies this
      ensures nickDids == Learned(old(nickDids), ParseAccountNotify(line))
      ensures outbox == old(outbox)
    {
      nickDids := Learned(nickDids, ParseAccountNotify(line));
    }

    /** A WHOIS reply naming a DID records it for the nick. */
    method OnWhois(nick: string, info: string)
      modifies this
      ensures nickDids == Learned(old(nickDids), WhoisPair(nick, info))
      ensures outbox == old(outbox)
    {
      nickDids := Learned(nickDids, WhoisPair(nick, info));
    }

    /**
     * A channel or private message: queued commands go to the outbox with
     * the clock's `now`; the sender is told what happened.
     */
    method OnMessage(cfg: Config, botNick: string, m: Msg, now: int) returns (sends: seq<Send>)
      modifies this
      ensures nickDids == old(nickDids)
      ensures sends == Answer(GateMessage(cfg, botNick, old(nickDids), m), m)
      ensures outbox == Enqueued(old(outbox), GateMessage(cfg, botNick, old(nickDids), m), m, now)
      ensures old(OnlyAllowed(cfg.allowedDid)) ==> OnlyAllowed(cfg.allowedDid)
    {
      var g := GateMessage(cfg, botNick, nickDids, m);
      if AllFrom(outbox, cfg.allowedDid) {
        QueuedOnlyAllowed(cfg, botNick, nickDids, m, outbox, now);
      }
      outbox := Enqueued(outbox, g, m, now);
      sends := Answer(g, m);
    }
  }

  // ---------------------------------------------------------------------
  // The reply file.

  datatype ReplyEntry = ReplyEntry(target: Option<string>, text: string)

  /** The reply file at the moment it is read: absent, failing to open or read, or holding text. */
  datatype ReplyFile = Missing | Failing(error: string) | Present(text: string)

  /** A read's outcome: the entries or the error, and the new byte offset. */
  datatype ReadOutcome = ReadOutcome(result: Result<seq<ReplyEntry>, string>, offset: nat)

  const NOT_UTF8: string := "stream did not contain valid UTF-8"

  /** The entry of one line: none for a blank line or one `parse` rejects. */
  function EntryOf(line: string, parse: string -> Option<ReplyEntry>): (r: seq<ReplyEntry>)
    ensures |r| <= 1
    ensures Trim(line) == [] ==> r == []
  {
    var t := Trim(line);
    if t == [] then []
    else match parse(t)
      case None => []
      case Some(e) => [e]
  }

  /** The entries of some lines, in order: blank lines and lines `parse` rejects are skipped. */
  function Entries(lines: seq<string>, parse: string -> Option<ReplyEntry>): (r: seq<ReplyEntry>)
    ensures |r| <= |lines|
  {
    if lines == [] then [] else EntryOf(lines[0], parse) + Entries(lines[1..], parse)
  }

  /**
   * `read_reply_entries`: a missing file gives nothing and keeps the
   * offset; a file shorter than the offset is read from the start; the
   * rest of the file from the offset is split into lines; the offset then
   * becomes the file's length. Reading from inside a character fails.
   */
  function ReadReplies(file: ReplyFile, offset: nat, parse: string -> Option<ReplyEntry>): (o: ReadOutcome)
    ensures file.Missing? ==> o == ReadOutcome(Ok([]), offset)
    ensures file.Failing? ==> o == ReadOutcome(Err(file.error), offset)
    ensures file.Present? && o.result.Ok? ==> o.offset == ByteLen(file.text)
    ensures file.Present? && o.result.Err? ==> o.offset == offset
  {
    match file
    case Missing => ReadOutcome(Ok([]), offset)
    case Failing(e) => ReadOutcome(Err(e), offset)
    case Present(text) =>
      var start := if ByteLen(text) < offset then 0 else offset;
      match BoundaryIndex(text, start)
      case None => ReadOutcome(Err(NOT_UTF8), start)
      case Some(k) => ReadOutcome(Ok(Entries(TextLines(text[k..]), parse)), ByteLen(text))
  }

  /** Lines of a file read in two pieces give the entries of the pieces, in file order. */
  lemma {:induction false} EntriesAppend(a: seq<string>, b: seq<string>, parse: string -> Option<ReplyEntry>)
    ensures Entries(a + b, parse) == Entries(a, parse) + Entries(b, parse)
    decreases |a|
  {
    if a == [] {
      assert a + b == b;
    } else {
      assert (a + b)[0] == a[0] && (a + b)[1..] == a[1..] + b;
      EntriesAppend(a[1..], b, parse);
    }
  }

  /** Blank lines give no entries. */
  lemma {:induction false} BlankLinesSkipped(lines: seq<string>, parse: string -> Option<ReplyEntry>)
    requires forall i | 0 <= i < |lines| :: Trim(lines[i]) == []
    ensures Entries(lines, parse) == []
    decreases |lines|
  {
    if lines != [] {
      BlankLinesSkipped(lines[1..], parse);
    }
  }

  /** A file that shrank below the offset is read again from its start. */
  lemma ShrunkFileRereadFromStart(text: string, offset: nat, parse: string -> Option<ReplyEntry>)
    requires ByteLen(text) < offset
    ensures ReadReplies(Present(text), offset, parse) ==
      ReadOutcome(Ok(Entries(TextLines(text), parse)), ByteLen(text))
  {
    assert BoundaryIndex(text, 0) == Some(0);
    assert text[0..] == text;
  }

  /** A second read of an unchanged file gives nothing new and keeps the offset. */
  lemma RereadGivesNothing(text: string, offset: nat, parse: string -> Option<ReplyEntry>)
    requires ReadReplies(Present(text), offset, parse).result.Ok?
    ensures ReadReplies(Present(text), ReadReplies(Present(text), offset, parse).offset, parse) ==
      ReadOutcome(Ok([]), ByteLen(text))
  {
    assert text[..|text|] == text;
    BoundaryIndexComplete(text, ByteLen(text), |text|);
    assert text[|text|..] == [];
  }

  /** Text appended after a read is exactly what the next read returns. */
  lemma AppendedTextIsRead(text: string, more: string, parse: string -> Option<ReplyEntry>)
    ensures ReadReplies(Present(text + more), ByteLen(text), parse) ==
      ReadOutcome(Ok(Entries(TextLines(more), parse)), ByteLen(text + more))
  {
    var s := text + more;
    assert s[..|text|] == text;
    ByteLenAppend(text, more);
    BoundaryIndexComplete(s, ByteLen(text), |text|);
    assert s[|text|..] == more;
  }

  /** An offset inside a character fails the read and is kept. */
  lemma MidCharacterOffsetFails(text: string, offset: nat, parse: string -> Option<ReplyEntry>)
    requires offset <= ByteLen(text) && BoundaryIndex(text, offset).None?
    ensures ReadReplies(Present(text), offset, parse) == ReadOutcome(Err(NOT_UTF8), offset)
  {
  }

  /** The reply task's cursor into the reply file. */
  class ReplyReader {
    var offset: nat

    constructor ()
      ensures offset == 0
    {
      offset := 0;
    }

    /** One read of the reply file, looping over its new lines. */
    method Read(file: ReplyFile, parse: string -> Option<ReplyEntry>) returns (r: Result<seq<ReplyEntry>, string>)
      modifies this
      ensures ReadOutcome(r, offset) == ReadReplies(file, old(offset), parse)
    {
      match file {
        case Missing =>
          return Ok([]);
        case Failing(e) =>
          return Err(e);
        case Present(text) =>
          if ByteLen(text) < offset {
            offset := 0;
          }
          var k := BoundaryIndex(text, offset);
          if k.None? {
            return Err(NOT_UTF8);
          }
          offset := ByteLen(text);
          var entries := ParseLines(TextLines(text[k.value..]), parse);
          return Ok(entries);
      }
    }
  }

  /** The loop over the new lines: trimmed, blanks skipped, each parsed, failures skipped. */
  method ParseLines(lines: seq<string>, parse: string -> Option<ReplyEntry>) returns (entries: seq<ReplyEntry>)
    ensures entries == Entries(lines, parse)
  {
    entries := [];
    for i := 0 to |lines|
      invariant entries == Entries(lines[..i], parse)
    {
      EntriesSnoc(lines, i, parse);
      var t := Trim(lines[i]);
      var one := [];
      if t != [] {
        var e := parse(t);
        if e.Some? {
          one := [e.value];
        }
      }
      assert one == EntryOf(lines[i], parse);
      entries := entries + one;
    }
    assert lines[..|lines|] == lines;
  }

  lemma EntriesSnoc(lines: seq<string>, i: nat, parse: string -> Option<ReplyEntry>)
    requires i < |lines|
    ensures Entries(lines[..i + 1], parse) == Entries(lines[..i], parse) + EntryOf(lines[i], parse)
  {
    assert lines[..i + 1] == lines[..i] + [lines[i]];
    EntriesAppend(lines[..i], [lines[i]], parse);
    assert [lines[i]][1..] == [];
  }

  /** Where a reply goes: its own target, else the control channel; with neither it is dropped. */
  function Deliveries(entries: seq<ReplyEntry>, defaultTarget: Option<string>): (r: seq<Send>)
    ensures |r| <= |entries|
    ensures defaultTarget.Some? ==> |r| == |entries|
    ensures forall i | 0 <= i < |r| :: r[i].Privmsg?
  {
    if entries == [] then []
    else
      var e := entries[0];
      var to := if e.target.Some? then e.target else defaultTarget;
      var rest := Deliveries(entries[1..], defaultTarget);
      if to.Some? then [Privmsg(to.value, e.text)] + rest else rest
  }

  /** An entry naming its target is sent there, whatever the control channel. */
  lemma TargetedReplyFirst(e: ReplyEntry, defaultTarget: Option<string>)
    requires e.target.Some?
    ensures Deliveries([e], defaultTarget) == [Privmsg(e.target.value, e.text)]
  {
    assert [e][1..] == [];
  }
}
