// The spec-to-prototype bot: the project name cleaned from the model's
// answer, the deploy URL read off `miren deploy`'s output, the shortening of
// what is posted to the channel, and the build loop that talks to the model
// and runs its tool calls for at most 20 rounds. The model's replies and the
// tools' outcomes are parameters.

module Prototype {
  import opened Common
  import opened BotsLlm
  import opened BotsOutput
  import BotsTools

  const MAX_ITERATIONS: nat := 20
  const NAME_LIMIT: nat := 20
  const COMMENTARY_LIMIT: nat := 300
  const COMMENTARY_KEEP: nat := 297
  const COMMAND_LIMIT: nat := 80
  const COMMAND_KEEP: nat := 77
  const HTTPS: string := "https://"
  const BUILDER: string := "builder"
  const DEPLOYER: string := "deploy"
  const MAX_ITERATIONS_NOTE: string := "Max iterations reached, stopping"

  // ---------------------------------------------------------------------
  // `generate_project_name`.

  /** An upper-case letter below U+0100: ASCII, or a Latin-1 capital. */
  predicate IsUpper(c: char)
  {
    ('A' <= c <= 'Z') || (0xC0 <= c as int <= 0xDE && c as int != 0xD7)
  }

  /** Rust's `to_lowercase` on one character below U+0100; other characters are kept. */
  function LowerChar(c: char): (r: char)
    ensures !IsUpper(r)
    ensures !IsUpper(c) ==> r == c
    ensures BotsTools.SafeChar(c) ==> BotsTools.SafeChar(r)
  {
    if IsUpper(c) then (c as int + 32) as char else c
  }

  function LowerAll(s: string): (r: string)
    ensures |r| == |s| && forall i | 0 <= i < |s| :: r[i] == LowerChar(s[i])
  {
    if s == [] then [] else [LowerChar(s[0])] + LowerAll(s[1..])
  }

  /** The characters that are alphanumeric or '-', in order. */
  function KeepSafe(s: string): (r: string)
    ensures |r| <= |s|
    ensures forall i | 0 <= i < |r| :: r[i] in s && BotsTools.SafeChar(r[i])
    ensures r == [] <==> forall i | 0 <= i < |s| :: !BotsTools.SafeChar(s[i])
  {
    if s == [] then []
    else
      var rest := KeepSafe(s[1..]);
      assert forall i | 1 <= i < |s| :: s[i] == s[1..][i - 1];
      if BotsTools.SafeChar(s[0]) then [s[0]] + rest else rest
  }

  /** The model's answer trimmed, lower-cased and reduced to alphanumerics and '-'. */
  function CleanName(answer: string): (r: string)
    ensures forall i | 0 <= i < |r| :: BotsTools.SafeChar(r[i]) && !IsUpper(r[i])
  {
    var lowered := LowerAll(Trim(answer));
    var r := KeepSafe(lowered);
    assert forall i | 0 <= i < |r| :: r[i] in lowered;
    r
  }

  /** Rust's `%` on `i64`: the remainder takes the dividend's sign. */
  function RemTrunc(a: int, m: nat): (r: int)
    requires m > 0
    ensures -(m as int) < r < m
    ensures a >= 0 ==> r == a % m
    ensures a < 0 ==> r == -((-a) % m)
  {
    if a >= 0 then a % m else -((-a) % m)
  }

  function FallbackName(timestamp: int): string
  {
    "proto-" + BotsTools.IntString(RemTrunc(timestamp, 10000))
  }

  /**
   * The name chosen from a cleaned answer: a fallback from the clock when
   * nothing is left, and otherwise at most 20 bytes of it, cut back to a
   * character boundary.
   */
  function ChooseName(clean: string, timestamp: int): (r: string)
    ensures clean == [] ==> r == FallbackName(timestamp)
    ensures clean != [] ==> r != [] && r <= clean && ByteLen(r) <= NAME_LIMIT
    ensures clean != [] && ByteLen(clean) <= NAME_LIMIT ==> r == clean
  {
    if clean == [] then FallbackName(timestamp)
    else if ByteLen(clean) > NAME_LIMIT then
      Utf8PrefixStep(clean, 1);
      FloorBoundaryAtLeast(clean, NAME_LIMIT, 1);
      clean[..FloorBoundary(clean, NAME_LIMIT)]
    else clean
  }

  /** `generate_project_name`, given the model's answer and the clock. */
  function ProjectName(answer: Result<string, string>, timestamp: int): (r: Result<string, string>)
    ensures answer.Err? ==> r == Err(answer.error)
    ensures answer.Ok? ==> r == Ok(ChooseName(CleanName(answer.value), timestamp))
  {
    match answer
    case Err(e) => Err(e)
    case Ok(a) => Ok(ChooseName(CleanName(a), timestamp))
  }

  /** A name made from a usable answer is non-empty, lower-case, alphanumerics and '-' only, and at most 20 bytes. */
  lemma ProjectNameShape(answer: string, timestamp: int)
    requires CleanName(answer) != []
    ensures var n := ChooseName(CleanName(answer), timestamp);
      n != [] && ByteLen(n) <= NAME_LIMIT &&
      forall i | 0 <= i < |n| :: BotsTools.SafeChar(n[i]) && !IsUpper(n[i])
  {
    var clean := CleanName(answer);
    var n := ChooseName(clean, timestamp);
    assert forall i | 0 <= i < |n| :: n[i] == clean[i];
  }

  /** An answer with nothing usable in it falls back to "proto-" and the clock's last four digits. */
  lemma BlankAnswerFallsBack(answer: string, timestamp: int)
    requires forall i | 0 <= i < |answer| :: !BotsTools.SafeChar(LowerChar(answer[i]))
    ensures ChooseName(CleanName(answer), timestamp) == FallbackName(timestamp)
  {
    var t := Trim(answer);
    TrimIsTrimmed(answer);
    var k :| TrimmedAt(answer, t, k);
    var lowered := LowerAll(t);
    forall i | 0 <= i < |lowered| ensures !BotsTools.SafeChar(lowered[i]) {
      assert t[i] == answer[k + i];
    }
  }

  lemma LowerAllIdentity(s: string)
    requires forall i | 0 <= i < |s| :: !IsUpper(s[i])
    ensures LowerAll(s) == s
  {
  }

  lemma {:induction false} KeepSafeIdentity(s: string)
    requires forall i | 0 <= i < |s| :: BotsTools.SafeChar(s[i])
    ensures KeepSafe(s) == s
  {
    if s != [] {
      KeepSafeIdentity(s[1..]);
    }
  }

  /** An answer that is already a clean name is kept as it is. */
  lemma CleanNameOfClean(answer: string)
    requires answer != [] && !IsWhitespace(answer[0]) && !IsWhitespace(answer[|answer| - 1])
    requires forall i | 0 <= i < |answer| :: BotsTools.SafeChar(answer[i]) && !IsUpper(answer[i])
    ensures CleanName(answer) == answer
  {
    assert TrimStart(answer) == answer;
    assert TrimEnd(answer) == answer;
    LowerAllIdentity(answer);
    KeepSafeIdentity(answer);
  }

  // ---------------------------------------------------------------------
  // The name's byte slice as written.

  /**
   * `clean[..20]` as written: a slice of the first 20 BYTES, which panics
   * (None) when byte 20 falls inside a multi-byte character.
   */
  function ChooseNameAsWritten(clean: string, timestamp: int): (r: Option<string>)
    ensures ByteLen(clean) <= NAME_LIMIT ==> r == Some(ChooseName(clean, timestamp))
    ensures r.Some? && ByteLen(clean) > NAME_LIMIT ==> r.value <= clean && ByteLen(r.value) == NAME_LIMIT
  {
    if clean == [] then Some(FallbackName(timestamp))
    else if ByteLen(clean) > NAME_LIMIT then
      match BoundaryIndex(clean, NAME_LIMIT)
      case None => None
      case Some(k) => Some(clean[..k])
    else Some(clean)
  }

  /**
   * An answer "a" followed by ten or more 'é' (all alphanumeric and
   * lower-case, at least 21 bytes) makes the bot panic: byte 20 falls
   * inside an 'é'. The corrected choice keeps "a" and nine 'é'.
   */
  lemma ChooseNamePanics(n: nat, timestamp: int)
    requires n >= 10
    ensures CleanName("a" + EAcute(n)) == "a" + EAcute(n)
    ensures ChooseNameAsWritten("a" + EAcute(n), timestamp) == None
    ensures ChooseName("a" + EAcute(n), timestamp) == "a" + EAcute(9)
  {
    CleanExample(n);
    NoBoundaryAtTwenty(n);
    FloorAtTwenty(n);
  }

  lemma CleanExample(n: nat)
    requires n >= 1
    ensures CleanName("a" + EAcute(n)) == "a" + EAcute(n)
  {
    var s := "a" + EAcute(n);
    assert s[0] == 'a' && s[|s| - 1] == 'é';
    assert forall i | 1 <= i < |s| :: s[i] == 'é';
    CleanNameOfClean(s);
  }

  lemma NoBoundaryAtTwenty(n: nat)
    requires n >= 10
    ensures ByteLen("a" + EAcute(n)) > NAME_LIMIT && BoundaryIndex("a" + EAcute(n), NAME_LIMIT) == None
  {
    var s := "a" + EAcute(n);
    assert s[0] == 'a' && s[1..] == EAcute(n);
    EAcuteUtf8Length(n);
    EAcuteNoOddBoundary(n, 19);
  }

  lemma FloorAtTwenty(n: nat)
    requires n >= 10
    ensures FloorBoundary("a" + EAcute(n), NAME_LIMIT) == 10
    ensures ("a" + EAcute(n))[..10] == "a" + EAcute(9)
  {
    var s := "a" + EAcute(n);
    var t := "a" + EAcute(9);
    var u := "a" + EAcute(10);
    assert s[..10] == t;
    assert s[..11] == u;
    assert t[0] == 'a' && t[1..] == EAcute(9);
    assert u[0] == 'a' && u[1..] == EAcute(10);
    EAcuteUtf8Length(9);
    EAcuteUtf8Length(10);
    FloorBoundaryAtLeast(s, NAME_LIMIT, 10);
    FloorBoundaryBelow(s, NAME_LIMIT, 11);
  }

  // ---------------------------------------------------------------------
  // `extract_deploy_url`.

  /** Each line trimmed. */
  function TrimAll(lines: seq<string>): (r: seq<string>)
    ensures |r| == |lines| && forall i | 0 <= i < |r| :: r[i] == Trim(lines[i])
  {
    seq(|lines|, i requires 0 <= i < |lines| => Trim(lines[i]))
  }

  /** The index of the first trimmed line at or after `k` that starts with "https://". */
  function FirstUrlLine(trimmed: seq<string>, k: nat): (r: Option<nat>)
    requires k <= |trimmed|
    ensures r.None? <==> forall i | k <= i < |trimmed| :: !StartsWith(trimmed[i], HTTPS)
    ensures r.Some? ==> k <= r.value < |trimmed| && StartsWith(trimmed[r.value], HTTPS)
    ensures r.Some? ==> forall j | k <= j < r.value :: !StartsWith(trimmed[j], HTTPS)
    decreases |trimmed| - k
  {
    if k == |trimmed| then None
    else if StartsWith(trimmed[k], HTTPS) then Some(k)
    else FirstUrlLine(trimmed, k + 1)
  }

  /** The first trimmed line that starts with "https://". */
  function FirstUrl(ts: seq<string>): (r: Option<string>)
    ensures r.None? <==> forall i | 0 <= i < |ts| :: !StartsWith(ts[i], HTTPS)
    ensures r.Some? ==> exists i | 0 <= i < |ts| :: r.value == ts[i] && forall j | 0 <= j < i :: !StartsWith(ts[j], HTTPS)
  {
    match FirstUrlLine(ts, 0)
    case None => None
    case Some(i) => Some(ts[i])
  }

  /** `extract_deploy_url`: the first line of output that, trimmed, starts with "https://", trimmed. */
  function ExtractDeployUrl(output: string): (r: Option<string>)
    ensures r.Some? ==> StartsWith(r.value, HTTPS)
  {
    FirstUrl(TrimAll(TextLines(output)))
  }

  /** A URL found in the output has no surrounding whitespace. */
  lemma DeployUrlTrimmed(output: string)
    ensures var r := ExtractDeployUrl(output);
      r.Some? ==> !IsWhitespace(r.value[0]) && !IsWhitespace(r.value[|r.value| - 1])
  {
    var ls := TextLines(output);
    var ts := TrimAll(ls);
    match FirstUrlLine(ts, 0) {
      case None =>
      case Some(i) =>
        assert ts[i] == Trim(ls[i]);
    }
  }

  /** A URL alone on the first line of output is found as it is. */
  lemma UrlOnFirstLine(url: string, rest: string)
    requires StartsWith(url, HTTPS) && '\n' !in url
    requires !IsWhitespace(url[|url| - 1]) && url[|url| - 1] != '\r'
    ensures ExtractDeployUrl(url + "\n" + rest) == Some(url)
  {
    var s := url + "\n" + rest;
    FirstTextLine(url, rest);
    assert url[0] == 'h';
    TrimUnchanged(url);
    var ts := TrimAll(TextLines(s));
    assert ts[0] == url;
    assert FirstUrlLine(ts, 0) == Some(0);
  }

  // ---------------------------------------------------------------------
  // Shortening what is posted.

  /** Text over `limit` bytes cut to the longest prefix of at most `keep` bytes, then "...". */
  function ByteCut(s: string, limit: nat, keep: nat): (r: string)
    ensures ByteLen(s) <= limit ==> r == s
    ensures ByteLen(s) > limit ==>
      (var k := FloorBoundary(s, keep); r == s[..k] + "..." && ByteLen(s[..k]) <= keep)
  {
    if ByteLen(s) > limit then s[..FloorBoundary(s, keep)] + "..." else s
  }

  /** With room for the dots, the cut text fits in `limit` bytes. */
  lemma ByteCutFits(s: string, limit: nat, keep: nat)
    requires keep + 3 <= limit
    ensures ByteLen(ByteCut(s, limit, keep)) <= limit
  {
    if ByteLen(s) > limit {
      var k := FloorBoundary(s, keep);
      ByteLenAppend(s[..k], "...");
      assert "..."[1..][1..][1..] == [];
    }
  }

  /** `&s[..keep]` as written: None where byte `keep` falls inside a character. */
  function ByteCutAsWritten(s: string, limit: nat, keep: nat): (r: Option<string>)
    ensures ByteLen(s) <= limit ==> r == Some(s)
    ensures r.Some? && ByteLen(s) > limit ==>
      exists k | 0 <= k <= |s| :: r.value == s[..k] + "..." && ByteLen(s[..k]) == keep
  {
    if ByteLen(s) > limit then
      match BoundaryIndex(s, keep)
      case None => None
      case Some(k) => Some(s[..k] + "...")
    else Some(s)
  }

  /** Commentary posted to the channel: at most 300 bytes, cut to 297 and "...". */
  function ShortCommentary(commentary: string): (r: string)
    ensures ByteLen(r) <= COMMENTARY_LIMIT
    ensures ByteLen(commentary) <= COMMENTARY_LIMIT ==> r == commentary
  {
    ByteCutFits(commentary, COMMENTARY_LIMIT, COMMENTARY_KEEP);
    ByteCut(commentary, COMMENTARY_LIMIT, COMMENTARY_KEEP)
  }

  /** A shell command as announced: at most 80 bytes, cut to 77 and "...". */
  function ShortCommand(cmd: string): (r: string)
    ensures ByteLen(r) <= COMMAND_LIMIT
    ensures ByteLen(cmd) <= COMMAND_LIMIT ==> r == cmd
  {
    ByteCutFits(cmd, COMMAND_LIMIT, COMMAND_KEEP);
    ByteCut(cmd, COMMAND_LIMIT, COMMAND_KEEP)
  }

  /**
   * Commentary of two ASCII characters and 150 'é' (302 bytes) makes the
   * bot panic: byte 297 is the second byte of the 148th 'é'.
   */
  lemma CommentaryPanics()
    ensures var s := "ab" + EAcute(150);
      ByteLen(s) == 302 && ByteCutAsWritten(s, COMMENTARY_LIMIT, COMMENTARY_KEEP) == None &&
      ByteLen(ShortCommentary(s)) <= COMMENTARY_LIMIT
  {
    var s := "ab" + EAcute(150);
    var t := "b" + EAcute(150);
    EAcuteUtf8Length(150);
    assert t[0] == 'b' && t[1..] == EAcute(150);
    assert s[0] == 'a' && s[1..] == t;
    assert |Utf8(t)| == 301;
    assert ByteLen(s) == 302;
    EAcuteNoOddBoundary(150, 295);
    assert BoundaryIndex(t, 296) == None;
    assert BoundaryIndex(s, 297) == None;
  }

  // ---------------------------------------------------------------------
  // One round's tool calls.

  /** The status line announcing a tool call, if the tool is one that is announced. */
  function ToolStatus(u: ToolUse): (r: Option<string>)
    ensures r.Some? <==> u.name in {"write_file", "shell", "deploy", "list_files"}
    ensures u.name == "shell" ==>
      r == Some(StatusMessage(BUILDER, "⚙️", "Running: " + ShortCommand(InputStr(u.input, "command").UnwrapOr("?"))))
    ensures u.name == "write_file" ==>
      r == Some(StatusMessage(BUILDER, "✏️", "Writing " + InputStr(u.input, "path").UnwrapOr("?")))
  {
    if u.name == "write_file" then
      Some(StatusMessage(BUILDER, "✏️", "Writing " + InputStr(u.input, "path").UnwrapOr("?")))
    else if u.name == "shell" then
      Some(StatusMessage(BUILDER, "⚙️", "Running: " + ShortCommand(InputStr(u.input, "command").UnwrapOr("?"))))
    else if u.name == "deploy" then Some(StatusMessage(DEPLOYER, "🚀", "Deploying to miren..."))
    else if u.name == "list_files" then Some(StatusMessage(BUILDER, "📁", "Listing files"))
    else None
  }

  /** What the model is told a tool returned: its output, or the error after "Error: ". */
  function ResultText(outcome: Result<string, string>): (r: string)
    ensures outcome.Ok? ==> r == outcome.value
    ensures outcome.Err? ==> StartsWith(r, "Error: ") && r[7..] == outcome.error
  {
    match outcome
    case Ok(o) => o
    case Err(e) => "Error: " + e
  }

  predicate HttpsOrNone(url: Option<string>)
  {
    url.None? || StartsWith(url.value, HTTPS)
  }

  /** One tool call: announced, run, its result collected; a deploy that names a URL records it. */
  method RunTool(u: ToolUse, outcome: Result<string, string>, deployed: Option<string>)
    returns (block: ContentBlock, after: Option<string>, posts: seq<string>)
    ensures block == ToolResultBlock(ToolResult(u.id, ResultText(outcome), None))
    ensures HttpsOrNone(deployed) ==> HttpsOrNone(after)
    ensures u.name != "deploy" ==> after == deployed
  {
    after := deployed;
    posts := [];
    var status := ToolStatus(u);
    if status.Some? {
      posts := posts + [status.value];
    }
    match outcome {
      case Ok(output) =>
        var url := ExtractDeployUrl(output);
        if u.name == "deploy" && url.Some? {
          after := url;
          posts := posts + [DeployMessage(DEPLOYER, url.value)];
        }
      case Err(e) =>
        posts := posts + [ErrorMessage(BUILDER, "Tool " + u.name + " failed: " + e)];
    }
    block := ToolResultBlock(ToolResult(u.id, ResultText(outcome), None));
  }

  /**
   * The inner loop of a round over its tool calls, in order.
   * `exec(round, i, u)` is the outcome of the round's i-th call.
   */
  method RunTools(round: nat, uses: seq<ToolUse>, exec: (nat, nat, ToolUse) -> Result<string, string>,
                  deployed: Option<string>) returns (results: seq<ContentBlock>, after: Option<string>, posts: seq<string>)
    ensures |results| == |uses|
    ensures forall i | 0 <= i < |uses| ::
      results[i] == ToolResultBlock(ToolResult(uses[i].id, ResultText(exec(round, i, uses[i])), None))
    ensures HttpsOrNone(deployed) ==> HttpsOrNone(after)
    ensures (forall i | 0 <= i < |uses| :: uses[i].name != "deploy") ==> after == deployed
  {
    results := [];
    after := deployed;
    posts := [];
    for i := 0 to |uses|
      invariant |results| == i
      invariant forall j | 0 <= j < i ::
        results[j] == ToolResultBlock(ToolResult(uses[j].id, ResultText(exec(round, j, uses[j])), None))
      invariant HttpsOrNone(deployed) ==> HttpsOrNone(after)
      invariant (forall j | 0 <= j < i :: uses[j].name != "deploy") ==> after == deployed
    {
      var block, next, toolPosts := RunTool(uses[i], exec(round, i, uses[i]), after);
      results := results + [block];
      after := next;
      posts := posts + toolPosts;
    }
  }

  // ---------------------------------------------------------------------
  // The build loop.

  function FirstMessage(spec: string): Message
  {
    Message("user", Text("Build a working prototype for this spec and deploy it:\n\n" + spec))
  }

  /** The texts that are not blank. */
  function NonBlank(texts: seq<string>): (r: seq<string>)
    ensures forall i | 0 <= i < |r| :: r[i] in texts && Trim(r[i]) != []
  {
    if texts == [] then []
    else
      var rest := NonBlank(texts[1..]);
      assert forall i | 1 <= i < |texts| :: texts[i] == texts[1..][i - 1];
      if Trim(texts[0]) != [] then [texts[0]] + rest else rest
  }

  function TextBlocks(texts: seq<string>): (r: seq<ContentBlock>)
    ensures |r| == |texts| && forall i | 0 <= i < |r| :: r[i] == TextBlock(texts[i])
  {
    if texts == [] then [] else [TextBlock(texts[0])] + TextBlocks(texts[1..])
  }

  function UseBlocks(uses: seq<ToolUse>): (r: seq<ContentBlock>)
    ensures |r| == |uses| && forall i | 0 <= i < |r| :: r[i] == ToolUseBlock(uses[i])
  {
    if uses == [] then [] else [ToolUseBlock(uses[0])] + UseBlocks(uses[1..])
  }

  /** The reply as it is kept in the conversation: its non-blank texts first, then its tool uses. */
  function AssistantBlocks(reply: seq<ContentBlock>): seq<ContentBlock>
  {
    TextBlocks(NonBlank(TextParts(reply))) + UseBlocks(ToolUsesOf(reply))
  }

  /** Keeping a reply in the conversation keeps its tool uses, in order... */
  lemma AssistantKeepsToolUses(reply: seq<ContentBlock>)
    ensures ToolUsesOf(AssistantBlocks(reply)) == ToolUsesOf(reply)
  {
    var texts := NonBlank(TextParts(reply));
    var uses := ToolUsesOf(reply);
    ToolUsesAppend(TextBlocks(texts), UseBlocks(uses));
    NoUsesInTextBlocks(texts);
    UsesOfUseBlocks(uses);
  }

  /** ... and its texts, less the blank ones. */
  lemma AssistantKeepsText(reply: seq<ContentBlock>)
    ensures TextParts(AssistantBlocks(reply)) == NonBlank(TextParts(reply))
  {
    var texts := NonBlank(TextParts(reply));
    var uses := ToolUsesOf(reply);
    TextPartsAppend(TextBlocks(texts), UseBlocks(uses));
    TextsOfTextBlocks(texts);
    NoTextsInUseBlocks(uses);
  }

  lemma {:induction false} TextsOfTextBlocks(ts: seq<string>)
    ensures TextParts(TextBlocks(ts)) == ts
  {
    if ts != [] {
      assert TextBlocks(ts)[1..] == TextBlocks(ts[1..]);
      TextsOfTextBlocks(ts[1..]);
    }
  }

  lemma {:induction false} NoUsesInTextBlocks(ts: seq<string>)
    ensures ToolUsesOf(TextBlocks(ts)) == []
  {
    if ts != [] {
      assert TextBlocks(ts)[1..] == TextBlocks(ts[1..]);
      NoUsesInTextBlocks(ts[1..]);
    }
  }

  lemma {:induction false} UsesOfUseBlocks(us: seq<ToolUse>)
    ensures ToolUsesOf(UseBlocks(us)) == us
  {
    if us != [] {
      assert UseBlocks(us)[1..] == UseBlocks(us[1..]);
      UsesOfUseBlocks(us[1..]);
    }
  }

  lemma {:induction false} NoTextsInUseBlocks(us: seq<ToolUse>)
    ensures TextParts(UseBlocks(us)) == []
  {
    if us != [] {
      assert UseBlocks(us)[1..] == UseBlocks(us[1..]);
      NoTextsInUseBlocks(us[1..]);
    }
  }

  /** The last status of a build: the URL when one was found, a warning otherwise. */
  function FinalStatus(deployed: Option<string>): string
  {
    match deployed
    case Some(url) => StatusMessage(DEPLOYER, "✅", "Prototype ready: " + url)
    case None => StatusMessage(BUILDER, "⚠️", "Build complete but no deploy URL found")
  }

  /** The lines said for a reply's commentary: its texts joined and trimmed, shortened, and nothing when blank. */
  function CommentaryLines(content: seq<ContentBlock>): seq<string>
  {
    var commentary := Trim(Join(TextParts(content), ""));
    if commentary == [] then [] else SayMessages(BUILDER, ShortCommentary(commentary))
  }

  /** How a round of the loop ended. */
  datatype RoundEnd = ChatFailed(error: string) | Answered | CalledTools

  /**
   * One round of `build`'s loop: the conversation goes to the model; its
   * commentary is said; a reply without tool calls ends the build, and
   * otherwise the reply and the calls' results join the conversation.
   */
  method Round(round: nat, chat: seq<Message> -> Result<ApiResponse, string>,
               exec: (nat, nat, ToolUse) -> Result<string, string>,
               deployed: Option<string>, messages: seq<Message>)
    returns (end: RoundEnd, reply: seq<ContentBlock>, after: Option<string>, messages': seq<Message>, posts: seq<string>)
    ensures end.ChatFailed? <==> chat(messages).Err?
    ensures end.ChatFailed? ==> end.error == chat(messages).error
    ensures !end.ChatFailed? ==> reply == chat(messages).value.content
    ensures end.Answered? <==> !end.ChatFailed? && ToolUsesOf(reply) == []
    ensures end.CalledTools? ==>
      |messages'| == |messages| + 2 && messages'[..|messages|] == messages &&
      messages'[|messages|] == Message("assistant", Blocks(AssistantBlocks(reply))) &&
      messages'[|messages| + 1].role == "user"
    ensures HttpsOrNone(deployed) ==> HttpsOrNone(after)
  {
    after := deployed;
    messages' := messages;
    posts := [];
    reply := [];
    var resp := chat(messages);
    if resp.Err? {
      end := ChatFailed(resp.error);
      return;
    }
    reply := resp.value.content;
    posts := CommentaryLines(reply);
    if ToolUsesOf(reply) == [] {
      end := Answered;
      return;
    }
    var results, toolPosts;
    results, after, toolPosts := RunTools(round, ToolUsesOf(reply), exec, deployed);
    messages' := messages + [Message("assistant", Blocks(AssistantBlocks(reply))), Message("user", Blocks(results))];
    posts := posts + toolPosts;
    end := CalledTools;
  }

  /**
   * The conversation after its opening message: each reply that called
   * tools, as kept, followed by a user message with the calls' results.
   */
  ghost predicate Transcript(messages: seq<Message>, replies: seq<seq<ContentBlock>>)
  {
    |messages| == 1 + 2 * |replies| &&
    forall i | 0 <= i < |replies| ::
      (ToolUsesOf(replies[i]) != [] &&
       messages[2 * i + 1] == Message("assistant", Blocks(AssistantBlocks(replies[i]))) &&
       messages[2 * i + 2].role == "user")
  }

  lemma TranscriptExtend(before: seq<Message>, earlier: seq<seq<ContentBlock>>, reply: seq<ContentBlock>, after: seq<Message>)
    requires Transcript(before, earlier) && ToolUsesOf(reply) != []
    requires |after| == |before| + 2 && after[..|before|] == before
    requires after[|before|] == Message("assistant", Blocks(AssistantBlocks(reply))) && after[|before| + 1].role == "user"
    ensures Transcript(after, earlier + [reply]) && after[0] == before[0]
  {
    var replies := earlier + [reply];
    forall i | 0 <= i < |replies|
      ensures ToolUsesOf(replies[i]) != []
      ensures after[2 * i + 1] == Message("assistant", Blocks(AssistantBlocks(replies[i])))
      ensures after[2 * i + 2].role == "user"
    {
      if i < |earlier| {
        assert replies[i] == earlier[i];
        assert after[2 * i + 1] == before[2 * i + 1] && after[2 * i + 2] == before[2 * i + 2];
      } else {
        assert i == |earlier| && replies[i] == reply && 2 * i + 1 == |before|;
      }
    }
  }

  /**
   * `build`'s agentic loop. `chat` answers a conversation, `exec` runs a
   * tool call. Returns the deployed URL (or the failed call's error), the
   * replies received, the conversation and the lines posted.
   */
  method Build(spec: string, chat: seq<Message> -> Result<ApiResponse, string>,
               exec: (nat, nat, ToolUse) -> Result<string, string>)
    returns (r: Result<Option<string>, string>, replies: seq<seq<ContentBlock>>, messages: seq<Message>, posts: seq<string>)
    ensures |replies| <= MAX_ITERATIONS
    ensures |messages| >= 1 && messages[0] == FirstMessage(spec)
    ensures r.Err? ==> chat(messages).Err? && r.error == chat(messages).error && Transcript(messages, replies)
    ensures r.Ok? ==> |replies| > 0
    ensures r.Ok? && ToolUsesOf(replies[|replies| - 1]) == [] ==> Transcript(messages, replies[..|replies| - 1])
    ensures r.Ok? && |replies| < MAX_ITERATIONS ==> ToolUsesOf(replies[|replies| - 1]) == []
    ensures r.Ok? && ToolUsesOf(replies[|replies| - 1]) != [] ==>
      |replies| == MAX_ITERATIONS && Transcript(messages, replies) &&
      |posts| >= 2 && posts[|posts| - 2] == ErrorMessage(BUILDER, MAX_ITERATIONS_NOTE)
    ensures r.Ok? ==> HttpsOrNone(r.value) && |posts| > 0 && posts[|posts| - 1] == FinalStatus(r.value)
  {
    var failed, hitMax, deployed;
    failed, hitMax, replies, messages, posts, deployed := Rounds(spec, chat, exec);
    if failed.Some? {
      r := Err(failed.value);
      return;
    }
    r := Ok(deployed);
    if hitMax {
      assert ToolUsesOf(replies[|replies| - 1]) != [];
      posts := posts + [ErrorMessage(BUILDER, MAX_ITERATIONS_NOTE), FinalStatus(deployed)];
    } else {
      posts := posts + [FinalStatus(deployed)];
    }
  }

  /**
   * The rounds of `build`: they stop when a chat call fails (`failed`), when
   * a reply calls no tool, or after the last allowed round (`hitMax`).
   */
  method Rounds(spec: string, chat: seq<Message> -> Result<ApiResponse, string>,
                exec: (nat, nat, ToolUse) -> Result<string, string>)
    returns (failed: Option<string>, hitMax: bool, replies: seq<seq<ContentBlock>>, messages: seq<Message>,
             posts: seq<string>, deployed: Option<string>)
    ensures |replies| <= MAX_ITERATIONS && |messages| >= 1 && messages[0] == FirstMessage(spec)
    ensures HttpsOrNone(deployed)
    ensures failed.Some? ==> chat(messages).Err? && failed.value == chat(messages).error && Transcript(messages, replies)
    ensures failed.None? && hitMax ==> |replies| == MAX_ITERATIONS && Transcript(messages, replies)
    ensures failed.None? && !hitMax ==>
      |replies| > 0 && ToolUsesOf(replies[|replies| - 1]) == [] && Transcript(messages, replies[..|replies| - 1])
  {
    messages := [FirstMessage(spec)];
    replies := [];
    posts := [];
    deployed := None;
    failed := None;
    var iteration := 0;
    hitMax := false;
    while true
      invariant iteration == |replies| <= MAX_ITERATIONS
      invariant Transcript(messages, replies) && messages[0] == FirstMessage(spec)
      invariant HttpsOrNone(deployed)
      decreases MAX_ITERATIONS - iteration
    {
      iteration := iteration + 1;
      if iteration > MAX_ITERATIONS {
        hitMax := true;
        return;
      }
      var end, reply, after, messages', said := Round(iteration, chat, exec, deployed, messages);
      if end.ChatFailed? {
        failed := Some(end.error);
        return;
      }
      posts := posts + said;
      if end.Answered? {
        assert (replies + [reply])[..|replies|] == replies;
        replies := replies + [reply];
        return;
      }
      TranscriptExtend(messages, replies, reply, messages');
      replies := replies + [reply];
      messages, deployed := messages', after;
    }
  }
}
