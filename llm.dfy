// The bots' Claude client: conversation messages made of content blocks,
// the plain-text and tool-use views read off a message, and the request
// a chat call sends. The HTTP exchange itself is not modelled.

module BotsLlm {
  import opened Common

  const DEFAULT_MODEL: string := "claude-sonnet-4-20250514"
  const COMPLETE_MAX_TOKENS: nat := 4096

  /** A JSON value as far as the bots read one: a string, an unsigned integer, or anything else. */
  datatype Json = JString(s: string) | JUint(n: nat) | JOther

  /** `ToolUseBlock`; `input` holds the fields of the JSON object the model sent. */
  datatype ToolUse = ToolUse(id: string, name: string, input: map<string, Json>)

  datatype ToolResult = ToolResult(toolUseId: string, content: string, isError: Option<bool>)

  datatype ContentBlock =
    | TextBlock(text: string)
    | ToolUseBlock(use: ToolUse)
    | ToolResultBlock(result: ToolResult)

  datatype MessageContent = Text(s: string) | Blocks(blocks: seq<ContentBlock>)

  datatype Message = Message(role: string, content: MessageContent)

  /** A tool offered to the model; its description and input schema are prompt text and are not modelled. */
  datatype ToolDef = ToolDef(name: string)

  datatype ApiResponse = ApiResponse(content: seq<ContentBlock>, stopReason: Option<string>)

  /** The JSON body of a chat request; `tools` is absent when no tool is offered. */
  datatype Request = Request(model: string, maxTokens: nat, system: string, messages: seq<Message>,
                             tools: Option<seq<ToolDef>>)

  datatype Client = Client(apiKey: string, model: string)

  /** `input["key"].as_str()`. */
  function InputStr(input: map<string, Json>, key: string): (r: Option<string>)
    ensures r.Some? <==> key in input && input[key].JString?
    ensures r.Some? ==> input[key] == JString(r.value)
  {
    if key in input && input[key].JString? then Some(input[key].s) else None
  }

  /** `input["key"].as_u64()`. */
  function InputUint(input: map<string, Json>, key: string): (r: Option<nat>)
    ensures r.Some? <==> key in input && input[key].JUint?
    ensures r.Some? ==> input[key] == JUint(r.value)
  {
    if key in input && input[key].JUint? then Some(input[key].n) else None
  }

  // ---------------------------------------------------------------------
  // Views of a message.

  /** The texts of the Text blocks, in block order. */
  function TextParts(bs: seq<ContentBlock>): (r: seq<string>)
    ensures |r| <= |bs|
    ensures forall i | 0 <= i < |r| :: TextBlock(r[i]) in bs
    ensures r == [] <==> forall i | 0 <= i < |bs| :: !bs[i].TextBlock?
  {
    if bs == [] then []
    else
      var rest := TextParts(bs[1..]);
      assert forall i | 1 <= i < |bs| :: bs[i] == bs[1..][i - 1];
      if bs[0].TextBlock? then [bs[0].text] + rest else rest
  }

  /** The ToolUse blocks, in block order. */
  function ToolUsesOf(bs: seq<ContentBlock>): (r: seq<ToolUse>)
    ensures |r| <= |bs|
    ensures forall i | 0 <= i < |r| :: ToolUseBlock(r[i]) in bs
    ensures r == [] <==> forall i | 0 <= i < |bs| :: !bs[i].ToolUseBlock?
  {
    if bs == [] then []
    else
      var rest := ToolUsesOf(bs[1..]);
      assert forall i | 1 <= i < |bs| :: bs[i] == bs[1..][i - 1];
      if bs[0].ToolUseBlock? then [bs[0].use] + rest else rest
  }

  /** `MessageContent::text`: the string itself, or the Text blocks joined with nothing between. */
  function TextOf(c: MessageContent): string
  {
    match c
    case Text(s) => s
    case Blocks(bs) => Join(TextParts(bs), "")
  }

  /** `MessageContent::tool_uses`. */
  function ToolUses(c: MessageContent): (r: seq<ToolUse>)
    ensures c.Text? ==> r == []
    ensures c.Blocks? ==> (r == [] <==> forall i | 0 <= i < |c.blocks| :: !c.blocks[i].ToolUseBlock?)
  {
    match c
    case Text(_) => []
    case Blocks(bs) => ToolUsesOf(bs)
  }

  lemma {:induction false} JoinNothingAppend(a: seq<string>, b: seq<string>)
    ensures Join(a + b, "") == Join(a, "") + Join(b, "")
    decreases |a|
  {
    if a == [] {
      assert a + b == b;
    } else if |a| == 1 {
      if b != [] {
        assert (a + b)[1..] == b;
      }
    } else {
      assert (a + b)[1..] == a[1..] + b;
      JoinNothingAppend(a[1..], b);
    }
  }

  lemma {:induction false} TextPartsAppend(a: seq<ContentBlock>, b: seq<ContentBlock>)
    ensures TextParts(a + b) == TextParts(a) + TextParts(b)
    decreases |a|
  {
    if a == [] {
      assert a + b == b;
    } else {
      assert (a + b)[1..] == a[1..] + b;
      TextPartsAppend(a[1..], b);
    }
  }

  lemma {:induction false} ToolUsesAppend(a: seq<ContentBlock>, b: seq<ContentBlock>)
    ensures ToolUsesOf(a + b) == ToolUsesOf(a) + ToolUsesOf(b)
    decreases |a|
  {
    if a == [] {
      assert a + b == b;
    } else {
      assert (a + b)[1..] == a[1..] + b;
      ToolUsesAppend(a[1..], b);
    }
  }

  /** The text of block sequences concatenates: splitting a message never changes its text. */
  lemma TextOfAppend(a: seq<ContentBlock>, b: seq<ContentBlock>)
    ensures TextOf(Blocks(a + b)) == TextOf(Blocks(a)) + TextOf(Blocks(b))
  {
    TextPartsAppend(a, b);
    JoinNothingAppend(TextParts(a), TextParts(b));
  }

  /** One block contributes its text if it is a Text block and nothing otherwise. */
  lemma TextOfSingle(b: ContentBlock)
    ensures TextOf(Blocks([b])) == if b.TextBlock? then b.text else ""
  {
    assert [b][1..] == [];
  }

  /** Adding a non-text block anywhere leaves the text unchanged. */
  lemma TextIgnoresOtherBlocks(a: seq<ContentBlock>, b: ContentBlock, c: seq<ContentBlock>)
    requires !b.TextBlock?
    ensures TextOf(Blocks(a + [b] + c)) == TextOf(Blocks(a + c))
  {
    TextOfAppend(a + [b], c);
    TextOfAppend(a, [b]);
    TextOfSingle(b);
    TextOfAppend(a, c);
  }

  /** Tool uses of a message in order: those of its first blocks come first. */
  lemma ToolUsesOfAppend(a: seq<ContentBlock>, b: seq<ContentBlock>)
    ensures ToolUses(Blocks(a + b)) == ToolUses(Blocks(a)) + ToolUses(Blocks(b))
  {
    ToolUsesAppend(a, b);
  }

  /** A message with a single tool-use block has exactly that tool use. */
  lemma ToolUsesSingle(u: ToolUse)
    ensures ToolUses(Blocks([ToolUseBlock(u)])) == [u]
  {
    assert [ToolUseBlock(u)][1..] == [];
  }

  // ---------------------------------------------------------------------
  // The client.

  /** `LlmClient::new`. */
  function NewClient(apiKey: string): (r: Client)
    ensures r.apiKey == apiKey && r.model == DEFAULT_MODEL
  {
    Client(apiKey, DEFAULT_MODEL)
  }

  /** `LlmClient::with_model`. */
  function WithModel(c: Client, model: string): (r: Client)
    ensures r.apiKey == c.apiKey && r.model == model
  {
    c.(model := model)
  }

  /** The body `chat` posts: the tool list is included only when it is not empty. */
  function ChatRequest(c: Client, system: string, messages: seq<Message>, tools: seq<ToolDef>, maxTokens: nat): (r: Request)
    ensures r.tools.Some? <==> tools != []
    ensures r.tools.Some? ==> r.tools.value == tools
    ensures r.model == c.model && r.system == system && r.messages == messages && r.maxTokens == maxTokens
  {
    Request(c.model, maxTokens, system, messages, if tools == [] then None else Some(tools))
  }

  /** The request `complete` sends: the prompt as one user message, no tools, 4096 tokens. */
  function CompleteRequest(c: Client, system: string, prompt: string): (r: Request)
    ensures r.tools.None? && r.maxTokens == COMPLETE_MAX_TOKENS
    ensures r.messages == [Message("user", Text(prompt))]
  {
    ChatRequest(c, system, [Message("user", Text(prompt))], [], COMPLETE_MAX_TOKENS)
  }

  /** `complete`'s answer: the reply's Text blocks joined; a failed call is passed on. */
  function Complete(reply: Result<ApiResponse, string>): (r: Result<string, string>)
    ensures reply.Err? ==> r == Err(reply.error)
    ensures reply.Ok? ==> r == Ok(TextOf(Blocks(reply.value.content)))
  {
    match reply
    case Err(e) => Err(e)
    case Ok(resp) => Ok(Join(TextParts(resp.content), ""))
  }
}
