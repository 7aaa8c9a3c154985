// The chat-room bots: cleaning a model's reply before it is sent, the
// shared chat log that keeps the 60 most recent lines, the events that go
// into it, and the prompt built from it. Timing, randomness, the model
// call and the IRC connection are not modelled.

module ChatRoom {
  import opened Common
  import opened BotsOutput

  const LOG_LIMIT: nat := 60
  const REPLY_LIMIT: nat := 400
  const QUIET_PROMPT: string := "The channel has been quiet. Say something to get things going."
  const YOU_TAG: string := "  [you]"
  const ACTION_PREFIX: string := "/me "
  const PROMPT_HEAD: string := "Recent chat:\n"
  const PROMPT_ASK: string := "\n\nWrite your next message as "

  // ---------------------------------------------------------------------
  // `clean_response`.

  /** The ways a model may wrongly start its reply with its own name, in the order they are removed. */
  function SelfPrefixes(nick: string): seq<string>
  {
    ["<" + nick + "> ", nick + ": ", "[" + nick + "] "]
  }

  /** `strip_prefix`, keeping the text when it does not start with `p`. */
  function StripPrefix(s: string, p: string): (r: string)
    ensures StartsWith(s, p) ==> p + r == s
    ensures !StartsWith(s, p) ==> r == s
  {
    if StartsWith(s, p) then s[|p|..] else s
  }

  /** Each prefix in turn removed at most once. */
  function StripEach(s: string, ps: seq<string>): (r: string)
    ensures |r| <= |s| && r == s[|s| - |r|..]
  {
    if ps == [] then s else StripEach(StripPrefix(s, ps[0]), ps[1..])
  }

  predicate Quoted(s: string)
  {
    |s| >= 2 && ((s[0] == '"' && s[|s| - 1] == '"') || (s[0] == '\'' && s[|s| - 1] == '\''))
  }

  /** One pair of matching surrounding quotes removed, when the text is longer than 2 bytes. */
  function Unquote(s: string): (r: string)
    ensures ByteLen(s) > 2 && Quoted(s) ==> r == s[1..|s| - 1]
    ensures !(ByteLen(s) > 2 && Quoted(s)) ==> r == s
  {
    if ByteLen(s) > 2 && Quoted(s) then s[1..|s| - 1] else s
  }

  /**
   * A reply over 400 bytes cut to at most 400 bytes, ending on a
   * character boundary, and then back to its last space.
   */
  function CapReply(s: string): (r: string)
    ensures ByteLen(r) <= REPLY_LIMIT
    ensures r <= s
    ensures ByteLen(s) <= REPLY_LIMIT ==> r == s
  {
    if ByteLen(s) <= REPLY_LIMIT then s
    else
      var cut := s[..FloorBoundary(s, REPLY_LIMIT)];
      match RFindChar(cut, ' ')
      case None => cut
      case Some(i) =>
        assert cut == cut[..i] + cut[i..];
        Utf8Append(cut[..i], cut[i..]);
        cut[..i]
  }

  /** The reply as `clean_response` leaves it. */
  function Cleaned(raw: string, nick: string): string
  {
    CapReply(Unquote(StripEach(Trim(raw), SelfPrefixes(nick))))
  }

  /** `clean_response`: the trimmed reply, stripped of self-prefixes one after the other, unquoted and capped. */
  method CleanResponse(raw: string, nick: string) returns (msg: string)
    ensures msg == Cleaned(raw, nick)
    ensures ByteLen(msg) <= REPLY_LIMIT
  {
    msg := Trim(raw);
    var prefixes := SelfPrefixes(nick);
    for i := 0 to |prefixes|
      invariant StripEach(msg, prefixes[i..]) == StripEach(Trim(raw), prefixes)
    {
      assert prefixes[i..][1..] == prefixes[i + 1..];
      msg := StripPrefix(msg, prefixes[i]);
    }
    assert prefixes[|prefixes|..] == [];
    msg := Unquote(msg);
    msg := CapReply(msg);
  }

  /** A text that starts with none of the prefixes is left as it is. */
  lemma {:induction false} StripEachNone(s: string, ps: seq<string>)
    requires forall i | 0 <= i < |ps| :: !StartsWith(s, ps[i])
    ensures StripEach(s, ps) == s
    decreases |ps|
  {
    if ps != [] {
      StripEachNone(s, ps[1..]);
    }
  }

  /** A prefix is removed once only: a doubled prefix leaves one copy. */
  lemma StripOnce(p: string, body: string)
    ensures StripEach(p + p + body, [p]) == p + body
  {
    assert StartsWith(p + p + body, p) by {
      assert (p + p + body)[..|p|] == p;
    }
    assert (p + p + body)[|p|..] == p + body;
  }

  /** A reply starting "<nick> " loses that prefix and keeps the rest, when the rest starts with no other self-prefix. */
  lemma AnglePrefixStripped(nick: string, body: string)
    requires !StartsWith(body, nick + ": ") && !StartsWith(body, "[" + nick + "] ")
    ensures StripEach("<" + nick + "> " + body, SelfPrefixes(nick)) == body
  {
    var p := "<" + nick + "> ";
    var ps := SelfPrefixes(nick);
    assert (p + body)[..|p|] == p && (p + body)[|p|..] == body;
    assert StripPrefix(p + body, ps[0]) == body;
    assert StripEach(p + body, ps) == StripEach(body, ps[1..]);
    StripEachNone(body, ps[1..]);
  }

  /** A quoted reply longer than its quotes loses exactly one pair of them. */
  lemma UnquoteOnePair(q: char, m: string)
    requires q == '"' || q == '\''
    requires m != []
    ensures Unquote([q] + m + [q]) == m
  {
    var s := [q] + m + [q];
    assert s[1..|s| - 1] == m;
    Utf8Append([q] + m, [q]);
    Utf8Append([q], m);
    assert |Utf8(m)| >= 1;
  }

  /** Two quotes alone are kept: the text is not longer than 2 bytes. */
  lemma EmptyQuotesKept()
    ensures Unquote("\"\"") == "\"\""
  {
    assert Utf8("\"\"") == Utf8Char('"') + Utf8("\"");
  }

  /** A long reply is cut back to a space: what is kept is followed by a space in the reply. */
  lemma CapReplyAtSpace(s: string)
    requires ByteLen(s) > REPLY_LIMIT
    requires ' ' in s[..FloorBoundary(s, REPLY_LIMIT)]
    ensures |CapReply(s)| < |s| && s[|CapReply(s)|] == ' '
  {
  }

  /** A trimmed, unprefixed, unquoted reply within 400 bytes is sent as it is. */
  lemma PlainReplyKept(raw: string, nick: string)
    requires raw == [] || (!IsWhitespace(raw[0]) && !IsWhitespace(raw[|raw| - 1]))
    requires forall i | 0 <= i < 3 :: !StartsWith(raw, SelfPrefixes(nick)[i])
    requires !Quoted(raw) && ByteLen(raw) <= REPLY_LIMIT
    ensures Cleaned(raw, nick) == raw
  {
    TrimOfTrimmed(raw);
    NoSelfPrefix(raw, nick);
    assert Unquote(raw) == raw;
  }

  lemma NoSelfPrefix(s: string, nick: string)
    requires forall i | 0 <= i < 3 :: !StartsWith(s, SelfPrefixes(nick)[i])
    ensures StripEach(s, SelfPrefixes(nick)) == s
  {
    StripEachNone(s, SelfPrefixes(nick));
  }

  lemma TrimOfTrimmed(s: string)
    requires s == [] || (!IsWhitespace(s[0]) && !IsWhitespace(s[|s| - 1]))
    ensures Trim(s) == s
  {
    assert TrimStart(s) == s;
    assert TrimEnd(s) == s;
  }

  // ---------------------------------------------------------------------
  // The cap as written.

  /**
   * `msg.truncate(400)` as written: it panics (None) when byte 400 falls
   * inside a character; otherwise the kept 400 bytes are cut back to
   * their last space.
   */
  function CapReplyAsWritten(s: string): (r: Option<string>)
    ensures ByteLen(s) <= REPLY_LIMIT ==> r == Some(s)
    ensures ByteLen(s) > REPLY_LIMIT && BoundaryIndex(s, REPLY_LIMIT).None? ==> r.None?
  {
    if ByteLen(s) <= REPLY_LIMIT then Some(s)
    else
      match BoundaryIndex(s, REPLY_LIMIT)
      case None => None
      case Some(k) =>
        var cut := s[..k];
        match RFindChar(cut, ' ')
        case None => Some(cut)
        case Some(i) => Some(cut[..i])
  }

  function CleanedAsWritten(raw: string, nick: string): Option<string>
  {
    CapReplyAsWritten(Unquote(StripEach(Trim(raw), SelfPrefixes(nick))))
  }

  /** Where byte 400 is a character boundary the corrected cap does what the code as written does. */
  lemma CapReplyAgrees(s: string, k: nat)
    requires k <= |s| && ByteLen(s[..k]) == REPLY_LIMIT
    ensures CapReplyAsWritten(s) == Some(CapReply(s))
  {
    if ByteLen(s) > REPLY_LIMIT {
      BoundaryIndexComplete(s, REPLY_LIMIT, k);
      FloorBoundaryAt(s, REPLY_LIMIT, k);
    } else {
      assert s == s[..k] + s[k..];
      Utf8Append(s[..k], s[k..]);
    }
  }

  /**
   * A reply of "a" and 200 or more 'é' (at least 401 bytes, one 'é'
   * straddling byte 400) makes the bot panic; the corrected cap keeps
   * "a" and 199 'é'.
   */
  lemma CleanResponsePanics(n: nat, nick: string)
    requires n >= 200
    ensures CleanedAsWritten("a" + EAcute(n), nick) == None
    ensures Cleaned("a" + EAcute(n), nick) == "a" + EAcute(199)
  {
    PanicReplyPasses(n, nick);
    NoBoundaryAt400(n);
    CapPanicExample(n);
  }

  lemma CapPanicExample(n: nat)
    requires n >= 200
    ensures CapReply("a" + EAcute(n)) == "a" + EAcute(199)
  {
    var s := "a" + EAcute(n);
    var cut := "a" + EAcute(199);
    NoBoundaryAt400(n);
    FloorAt400(n);
    PrefixOfExample(n, 199);
    NoSpaceInExample(199);
  }

  lemma PrefixOfExample(n: nat, m: nat)
    requires m <= n
    ensures ("a" + EAcute(n))[..m + 1] == "a" + EAcute(m)
  {
    var s := "a" + EAcute(n);
    var t := "a" + EAcute(m);
    assert forall j | 0 <= j < m + 1 :: s[j] == t[j];
  }

  lemma NoSpaceInExample(m: nat)
    ensures ' ' !in "a" + EAcute(m)
  {
    var t := "a" + EAcute(m);
    assert forall j | 0 <= j < |t| :: t[j] != ' ';
  }

  lemma PanicReplyPasses(n: nat, nick: string)
    requires n >= 1
    ensures Unquote(StripEach(Trim("a" + EAcute(n)), SelfPrefixes(nick))) == "a" + EAcute(n)
  {
    var s := "a" + EAcute(n);
    ExampleTrimmed(n);
    ExampleHasNoSelfPrefix(n, nick);
    NoSelfPrefix(s, nick);
    assert !Quoted(s);
  }

  lemma ExampleTrimmed(n: nat)
    requires n >= 1
    ensures Trim("a" + EAcute(n)) == "a" + EAcute(n)
  {
    var s := "a" + EAcute(n);
    assert s[0] == 'a' && s[|s| - 1] == 'é';
    TrimOfTrimmed(s);
  }

  lemma ExampleHasNoSelfPrefix(n: nat, nick: string)
    ensures forall i | 0 <= i < 3 :: !StartsWith("a" + EAcute(n), SelfPrefixes(nick)[i])
  {
    var s := "a" + EAcute(n);
    assert forall i | 1 <= i < |s| :: s[i] == 'é';
    var ps := SelfPrefixes(nick);
    assert !StartsWith(s, ps[0]) by { assert ps[0][0] == '<'; }
    assert !StartsWith(s, ps[2]) by { assert ps[2][0] == '['; }
    assert !StartsWith(s, ps[1]) by {
      assert ps[1][|nick|] == ':';
      if |nick| < |s| {
        assert s[|nick|] != ':';
      }
    }
  }

  lemma NoBoundaryAt400(n: nat)
    requires n >= 200
    ensures ByteLen("a" + EAcute(n)) > REPLY_LIMIT && BoundaryIndex("a" + EAcute(n), REPLY_LIMIT) == None
  {
    var s := "a" + EAcute(n);
    assert s[0] == 'a' && s[1..] == EAcute(n);
    EAcuteUtf8Length(n);
    EAcuteNoOddBoundary(n, 399);
  }

  lemma FloorAt400(n: nat)
    requires n >= 200
    ensures FloorBoundary("a" + EAcute(n), REPLY_LIMIT) == 200
  {
    var s := "a" + EAcute(n);
    var t := "a" + EAcute(199);
    var u := "a" + EAcute(200);
    assert s[..200] == t;
    assert s[..201] == u;
    assert t[0] == 'a' && t[1..] == EAcute(199);
    assert u[0] == 'a' && u[1..] == EAcute(200);
    EAcuteUtf8Length(199);
    EAcuteUtf8Length(200);
    FloorBoundaryAtLeast(s, REPLY_LIMIT, 200);
    FloorBoundaryBelow(s, REPLY_LIMIT, 201);
  }

  // ---------------------------------------------------------------------
  // The shared chat log.

  datatype LogEntry = LogEntry(nick: string, text: string)

  /** An event reaching a bot; only messages matter here. */
  datatype Event = Message(from: string, target: string, text: string) | OtherEvent

  /** `push_back`, then `pop_front` once the log holds more than 60 lines. */
  function Appended(log: seq<LogEntry>, e: LogEntry): seq<LogEntry>
  {
    var l := log + [e];
    if |l| > LOG_LIMIT then l[1..] else l
  }

  /** The log stays within 60 lines, ends with the new line, and loses at most its oldest line. */
  lemma AppendedBounded(log: seq<LogEntry>, e: LogEntry)
    requires |log| <= LOG_LIMIT
    ensures var r := Appended(log, e);
      |r| <= LOG_LIMIT && r[|r| - 1] == e &&
      (|log| < LOG_LIMIT ==> r == log + [e]) &&
      (|log| == LOG_LIMIT ==> r == log[1..] + [e])
  {
  }

  /** The lines a bot logs from others: channel messages not sent by itself. */
  predicate Logged(ev: Event, me: string)
  {
    ev.Message? && ev.from != me && StartsWith(ev.target, "#")
  }

  /** The log after taking in `events` in order. */
  function Drained(log: seq<LogEntry>, events: seq<Event>, me: string): seq<LogEntry>
    decreases |events|
  {
    if events == [] then log
    else
      var ev := events[0];
      var next := if Logged(ev, me) then Appended(log, LogEntry(ev.from, ev.text)) else log;
      Drained(next, events[1..], me)
  }

  /** Draining keeps the log within 60 lines. */
  lemma {:induction false} DrainedBounded(log: seq<LogEntry>, events: seq<Event>, me: string)
    requires |log| <= LOG_LIMIT
    ensures |Drained(log, events, me)| <= LOG_LIMIT
    decreases |events|
  {
    if events != [] {
      var ev := events[0];
      var next := if Logged(ev, me) then Appended(log, LogEntry(ev.from, ev.text)) else log;
      DrainedBounded(next, events[1..], me);
    }
  }

  /** Draining adds no line of the bot's own: every line was already there or comes from another nick. */
  lemma {:induction false} DrainedAddsOnlyOthers(log: seq<LogEntry>, events: seq<Event>, me: string)
    ensures forall i | 0 <= i < |Drained(log, events, me)| ::
      Drained(log, events, me)[i] in log || Drained(log, events, me)[i].nick != me
    decreases |events|
  {
    if events != [] {
      var ev := events[0];
      var next := if Logged(ev, me) then Appended(log, LogEntry(ev.from, ev.text)) else log;
      DrainedAddsOnlyOthers(next, events[1..], me);
      forall e | e in next ensures e in log || e.nick != me {
      }
    }
  }

  /** Events that are not channel messages from others leave the log as it is. */
  lemma {:induction false} DrainedIgnoresOwn(log: seq<LogEntry>, events: seq<Event>, me: string)
    requires forall i | 0 <= i < |events| :: !Logged(events[i], me)
    ensures Drained(log, events, me) == log
    decreases |events|
  {
    if events != [] {
      DrainedIgnoresOwn(log, events[1..], me);
    }
  }

  /** How a bot's own message is logged: an action as "* nick action", anything else as it is. */
  function Display(nick: string, msg: string): string
  {
    if StartsWith(msg, ACTION_PREFIX) then "* " + nick + " " + msg[|ACTION_PREFIX|..] else msg
  }

  /** What is sent to the channel: an action as a CTCP ACTION, anything else as it is. */
  function Outgoing(msg: string): string
  {
    if StartsWith(msg, ACTION_PREFIX) then "\U{1}ACTION " + msg[|ACTION_PREFIX|..] + "\U{1}" else msg
  }

  /** A "/me" message goes out as a CTCP ACTION carrying the action and is logged as "* nick action". */
  lemma ActionForms(nick: string, action: string)
    ensures Outgoing(ACTION_PREFIX + action) == "\U{1}ACTION " + action + "\U{1}"
    ensures Display(nick, ACTION_PREFIX + action) == "* " + nick + " " + action
  {
    assert (ACTION_PREFIX + action)[..|ACTION_PREFIX|] == ACTION_PREFIX;
    assert (ACTION_PREFIX + action)[|ACTION_PREFIX|..] == action;
  }

  /** Any other message is sent and logged exactly as it is. */
  lemma PlainForms(nick: string, msg: string)
    requires !StartsWith(msg, ACTION_PREFIX)
    ensures Outgoing(msg) == msg && Display(nick, msg) == msg
  {
  }

  /** The chat log the bots share. */
  class ChatLog {
    var entries: seq<LogEntry>

    ghost predicate Valid()
      reads this
    {
      |entries| <= LOG_LIMIT
    }

    constructor ()
      ensures Valid() && entries == []
    {
      entries := [];
    }

    /** Records one line, dropping the oldest when the log would exceed 60. */
    method Push(e: LogEntry)
      requires Valid()
      modifies this
      ensures Valid()
      ensures entries == Appended(old(entries), e)
    {
      entries := entries + [e];
      if |entries| > LOG_LIMIT {
        entries := entries[1..];
      }
    }

    /** `drain_events`: the pending events in order, logging channel messages from others. */
    method Drain(events: seq<Event>, me: string)
      requires Valid()
      modifies this
      ensures Valid()
      ensures entries == Drained(old(entries), events, me)
    {
      for i := 0 to |events|
        invariant Valid()
        invariant Drained(entries, events[i..], me) == Drained(old(entries), events, me)
      {
        assert events[i..][1..] == events[i + 1..];
        var ev := events[i];
        if Logged(ev, me) {
          Push(LogEntry(ev.from, ev.text));
        }
      }
      assert events[|events|..] == [];
    }

    /**
     * One turn of a bot: a model reply is cleaned and, when something is
     * left, sent and logged under the bot's nick. A failed call sends
     * nothing.
     */
    method Speak(nick: string, reply: Result<string, string>) returns (sent: Option<string>)
      requires Valid()
      modifies this
      ensures Valid()
      ensures reply.Err? ==> sent.None? && entries == old(entries)
      ensures reply.Ok? && Cleaned(reply.value, nick) == [] ==> sent.None? && entries == old(entries)
      ensures reply.Ok? && Cleaned(reply.value, nick) != [] ==>
        sent == Some(Outgoing(Cleaned(reply.value, nick))) &&
        entries == Appended(old(entries), LogEntry(nick, Display(nick, Cleaned(reply.value, nick))))
    {
      sent := None;
      if reply.Ok? {
        var msg := CleanResponse(reply.value, nick);
        if msg != [] {
          sent := Some(Outgoing(msg));
          Push(LogEntry(nick, Display(nick, msg)));
        }
      }
    }
  }

  // ---------------------------------------------------------------------
  // `build_prompt`.

  /** A log line in the prompt; the bot's own lines are tagged "[you]". */
  function PromptLine(e: LogEntry, me: string): (r: string)
    ensures StartsWith(r, "<" + e.nick + "> " + e.text)
    ensures e.nick == me <==> r == "<" + e.nick + "> " + e.text + YOU_TAG
  {
    var line := "<" + e.nick + "> " + e.text;
    assert (line + YOU_TAG)[..|line|] == line;
    if e.nick == me then line + YOU_TAG else line
  }

  function PromptLines(log: seq<LogEntry>, me: string): (r: seq<string>)
    ensures |r| == |log| && forall i | 0 <= i < |r| :: r[i] == PromptLine(log[i], me)
  {
    if log == [] then [] else [PromptLine(log[0], me)] + PromptLines(log[1..], me)
  }

  /** The closing request naming the bot. */
  function Ask(me: string): string
  {
    PROMPT_ASK + me + ":"
  }

  function BuildPrompt(log: seq<LogEntry>, me: string): string
  {
    if log == [] then QUIET_PROMPT
    else PROMPT_HEAD + Join(PromptLines(log, me), "\n") + Ask(me)
  }

  /** An empty log asks the bot to start the conversation. */
  lemma QuietPrompt(me: string)
    ensures BuildPrompt([], me) == QUIET_PROMPT
  {
  }

  /** Every line of the log appears in the prompt, tagged when it is the bot's own. */
  lemma PromptShowsLog(log: seq<LogEntry>, me: string, i: nat)
    requires i < |log|
    ensures Contains(BuildPrompt(log, me), PromptLine(log[i], me))
  {
    var lines := PromptLines(log, me);
    JoinContains(lines, "\n", i);
    ContainsWithin(PROMPT_HEAD, Join(lines, "\n"), Ask(me), lines[i]);
  }

  /** A prompt over a non-empty log opens with its heading and ends by asking for the bot's next message. */
  lemma PromptFrame(log: seq<LogEntry>, me: string)
    requires log != []
    ensures StartsWith(BuildPrompt(log, me), PROMPT_HEAD)
    ensures EndsWith(BuildPrompt(log, me), Ask(me))
  {
    var body := Join(PromptLines(log, me), "\n");
    var tail := Ask(me);
    var p := PROMPT_HEAD + body + tail;
    assert p[..|PROMPT_HEAD|] == PROMPT_HEAD;
    assert p[|p| - |tail|..] == tail;
  }

  lemma {:induction false} JoinContains(parts: seq<string>, sep: string, i: nat)
    requires i < |parts|
    ensures Contains(Join(parts, sep), parts[i])
    decreases |parts|
  {
    if |parts| == 1 {
      ContainsSelf(parts[0]);
    } else if i == 0 {
      ContainsSelf(parts[0]);
      ContainsWithin([], parts[0], sep + Join(parts[1..], sep), parts[0]);
      assert [] + parts[0] + (sep + Join(parts[1..], sep)) == Join(parts, sep);
    } else {
      JoinContains(parts[1..], sep, i - 1);
      ContainsWithin(parts[0] + sep, Join(parts[1..], sep), [], parts[i]);
      assert parts[0] + sep + Join(parts[1..], sep) + [] == Join(parts, sep);
    }
  }
}
