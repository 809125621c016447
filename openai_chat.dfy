/** The chat client demo: `simple_chat` (one request, `None` when the client raises),
    `chat_with_memory` (a streamed reply accumulated into one text and appended to the history)
    and `interactive_chat` (read a line, send the history, stop on an empty line or a falsy
    reply).

    The OpenAI client is a parameter: a function from the request it is sent to what it
    answers. A streamed answer is the chunks it delivers, each with an optional text delta, and
    whether an exception was raised after them (at once, when the request itself fails). The
    lines a user types are a sequence; `input()` past its end raises EOFError. */
module OpenAiChat {
  import opened Wrappers
  import opened PyStrings

  datatype Role = System | User | Assistant

  /** A history entry `{"role": ..., "content": ...}`. */
  datatype Message = Message(role: Role, content: string)

  /** The arguments of `client.chat.completions.create`. */
  datatype Request = Request(model: string, temperature: real, messages: seq<Message>, stream: bool)

  /** A non-streamed answer: the content of the first choice (which the API may leave `None`),
      or an exception. */
  datatype Completion = Content(content: Option<string>) | Failed(error: string)

  /** A streamed answer: the delta contents of the chunks, in order, and whether iterating
      the stream raised after them. */
  datatype Stream = Stream(deltas: seq<Option<string>>, raised: bool)

  /** The default temperature of every function of the demo. */
  const DefaultTemperature: real := 0.7

  /** The model used when neither the argument nor the environment names one. */
  const DefaultModel: string := "gpt-3.5-turbo"

  /** `model or os.getenv("OPENAI_MODEL", "gpt-3.5-turbo")`: a non-empty `model` argument wins,
      then the environment variable when it is set (even to the empty string), then the
      default. */
  function ResolveModel(model: Option<string>, envModel: Option<string>): (m: string)
    ensures model.Some? && model.value != [] ==> m == model.value
    ensures (model.None? || model.value == []) && envModel.Some? ==> m == envModel.value
    ensures (model.None? || model.value == []) && envModel.None? ==> m == DefaultModel
  {
    if model.Some? && model.value != [] then model.value
    else if envModel.Some? then envModel.value
    else DefaultModel
  }

  /** `simple_chat(client, user_message, model, temperature)`: one non-streamed request holding
      only the user's message; the answer's content, or `None` when the client raises. */
  function SimpleChat(client: Request -> Completion, userMessage: string, model: Option<string>,
                      envModel: Option<string>, temperature: real := DefaultTemperature): (r: Option<string>)
    ensures var c := client(Request(ResolveModel(model, envModel), temperature, [Message(User, userMessage)], false));
      (c.Failed? ==> r.None?) && (c.Content? ==> r == c.content)
  {
    match client(Request(ResolveModel(model, envModel), temperature, [Message(User, userMessage)], false))
    case Failed(_) => None
    case Content(content) => content
  }

  /** The text of a stream: the non-`None` deltas, concatenated in order. */
  function StreamText(deltas: seq<Option<string>>): string {
    if deltas == [] then []
    else StreamText(deltas[..|deltas| - 1]) + DeltaText(deltas[|deltas| - 1])
  }

  /** The text one delta contributes. */
  function DeltaText(delta: Option<string>): string {
    if delta.Some? then delta.value else []
  }

  /** The text of two streams one after the other is the text of the first, then of the
      second. */
  lemma {:induction false} StreamTextAppend(a: seq<Option<string>>, b: seq<Option<string>>)
    ensures StreamText(a + b) == StreamText(a) + StreamText(b)
  {
    if b == [] {
      assert a + b == a;
    } else {
      assert (a + b)[..|a + b| - 1] == a + b[..|b| - 1];
      StreamTextAppend(a, b[..|b| - 1]);
    }
  }

  /** A stream whose deltas are all `None` has no text. */
  lemma {:induction false} StreamTextOfNones(deltas: seq<Option<string>>)
    requires forall i :: 0 <= i < |deltas| ==> deltas[i].None?
    ensures StreamText(deltas) == []
  {
    if deltas != [] {
      StreamTextOfNones(deltas[..|deltas| - 1]);
    }
  }

  /** The lengths of the deltas' texts, added up. */
  function DeltaLengths(deltas: seq<Option<string>>): nat {
    if deltas == [] then 0 else |DeltaText(deltas[0])| + DeltaLengths(deltas[1..])
  }

  /** Every delta adds exactly its own text: the text's length is the sum of the deltas'
      lengths. */
  lemma {:induction false} StreamTextLength(deltas: seq<Option<string>>)
    ensures |StreamText(deltas)| == DeltaLengths(deltas)
  {
    if deltas != [] {
      StreamTextLength(deltas[1..]);
      StreamTextAppend([deltas[0]], deltas[1..]);
      assert [deltas[0]] + deltas[1..] == deltas;
      assert StreamText([deltas[0]]) == StreamText([]) + DeltaText(deltas[0]);
    }
  }

  /** The loop `for chunk in response: ... full_response += content`: the text accumulated
      (and printed as it arrives) is the stream's text. */
  method Accumulate(deltas: seq<Option<string>>) returns (fullResponse: string)
    ensures fullResponse == StreamText(deltas)
  {
    fullResponse := "";
    for i := 0 to |deltas|
      invariant fullResponse == StreamText(deltas[..i])
    {
      assert deltas[..i + 1][..i] == deltas[..i];
      if deltas[i].Some? {
        fullResponse := fullResponse + deltas[i].value;
      }
    }
    assert deltas[..|deltas|] == deltas;
  }

  /** The list `messages` the caller passes in and gets back. */
  class History {
    var messages: seq<Message>

    constructor (messages: seq<Message>)
      ensures this.messages == messages
    {
      this.messages := messages;
    }
  }

  /** `chat_with_memory(client, messages, model, temperature)`: stream an answer to the whole
      history. When the stream completes, its text is the response and is appended as one
      assistant message; when the client raises, the response is `None` and the history is as
      it was. The history list is updated in place and the same list is returned, so it is
      not returned here. `printed` is what was echoed of the stream. */
  method ChatWithMemory(client: Request -> Stream, history: History, model: Option<string>,
                        envModel: Option<string>, temperature: real := DefaultTemperature)
    returns (response: Option<string>, printed: string)
    modifies history
    ensures var s := client(Request(ResolveModel(model, envModel), temperature, old(history.messages), true));
      && printed == StreamText(s.deltas)
      && (s.raised ==> response.None? && history.messages == old(history.messages))
      && (!s.raised ==>
            response == Some(StreamText(s.deltas)) &&
            history.messages == old(history.messages) + [Message(Assistant, StreamText(s.deltas))])
  {
    var stream := client(Request(ResolveModel(model, envModel), temperature, history.messages, true));
    var fullResponse := Accumulate(stream.deltas);
    printed := fullResponse;
    if stream.raised {
      response := None;
    } else {
      history.messages := history.messages + [Message(Assistant, fullResponse)];
      response := Some(fullResponse);
    }
  }

  /** The history `interactive_chat` starts from: one system message when `system_message`
      is truthy (given and not empty), none otherwise. */
  function InitialHistory(systemMessage: Option<string>): (h: seq<Message>)
    ensures |h| <= 1
    ensures h != [] <==> systemMessage.Some? && systemMessage.value != []
    ensures h != [] ==> h[0] == Message(System, systemMessage.value)
  {
    if systemMessage.Some? && systemMessage.value != [] then [Message(System, systemMessage.value)]
    else []
  }

  /** How `interactive_chat` ends: the user entered an empty line, the reply was falsy (the
      client raised or streamed no text), or `input()` raised EOFError. */
  datatype Ending = UserEnded | ReplyFalsy | EndOfInput

  /** One pass of the loop of `interactive_chat` on the line `line`: stop on an empty line,
      otherwise append the line as a user message, stream an answer to the history, and stop
      when the answer is falsy. The history that results, and the ending when the loop stops. */
  function Turn(client: Request -> Stream, model: string, temperature: real,
                line: string, messages: seq<Message>): (t: (Option<Ending>, seq<Message>))
    ensures Strip(line) == [] <==> t == (Some(UserEnded), messages)
    ensures |messages| <= |t.1| <= |messages| + 2 && t.1[..|messages|] == messages
    ensures Strip(line) != [] ==> |t.1| > |messages| && t.1[|messages|] == Message(User, Strip(line))
    ensures t.0 != Some(EndOfInput)
    ensures t.0.None? ==>
              |t.1| == |messages| + 2 &&
              t.1[|messages| + 1].role == Assistant && t.1[|messages| + 1].content != []
  {
    var userInput := Strip(line);
    if userInput == [] then (Some(UserEnded), messages)
    else
      var asked := messages + [Message(User, userInput)];
      var s := client(Request(model, temperature, asked, true));
      if s.raised then (Some(ReplyFalsy), asked)
      else
        var answered := asked + [Message(Assistant, StreamText(s.deltas))];
        if StreamText(s.deltas) == [] then (Some(ReplyFalsy), answered)
        else (None, answered)
  }

  /** The conversation `interactive_chat` holds from `messages` on, reading the lines
      `inputs`: how it ends and the history it leaves. */
  function Converse(client: Request -> Stream, model: string, temperature: real,
                    inputs: seq<string>, messages: seq<Message>): (Ending, seq<Message>)
  {
    if inputs == [] then (EndOfInput, messages)
    else
      var t := Turn(client, model, temperature, inputs[0], messages);
      if t.0.Some? then (t.0.value, t.1)
      else Converse(client, model, temperature, inputs[1..], t.1)
  }

  /** `interactive_chat(client, system_message, model, temperature)`: the loop itself, proved
      to hold the conversation `Converse` describes. */
  method InteractiveChat(client: Request -> Stream, inputs: seq<string>, systemMessage: Option<string>,
                         model: Option<string>, envModel: Option<string>,
                         temperature: real := DefaultTemperature)
    returns (ending: Ending, messages: seq<Message>)
    ensures (ending, messages) ==
      Converse(client, ResolveModel(model, envModel), temperature, inputs, InitialHistory(systemMessage))
  {
    var history := new History(InitialHistory(systemMessage));
    ghost var m := ResolveModel(model, envModel);
    ghost var spec := Converse(client, m, temperature, inputs, InitialHistory(systemMessage));
    var i := 0;
    while true
      invariant 0 <= i <= |inputs|
      invariant Converse(client, m, temperature, inputs[i..], history.messages) == spec
      decreases |inputs| - i
    {
      if i == |inputs| {
        ending := EndOfInput;
        break;
      }
      ghost var t := Turn(client, m, temperature, inputs[i], history.messages);
      assert Converse(client, m, temperature, inputs[i..], history.messages) ==
        if t.0.Some? then (t.0.value, t.1) else Converse(client, m, temperature, inputs[i + 1..], t.1) by {
        assert inputs[i..][0] == inputs[i] && inputs[i..][1..] == inputs[i + 1..];
      }
      var userInput := Strip(inputs[i]);
      if userInput == [] {
        ending := UserEnded;
        break;
      }
      history.messages := history.messages + [Message(User, userInput)];
      var response, _ := ChatWithMemory(client, history, model, envModel, temperature);
      if response.None? || response.value == [] {
        assert t == (Some(ReplyFalsy), history.messages);
        ending := ReplyFalsy;
        break;
      }
      assert t == (None, history.messages);
      i := i + 1;
    }
    messages := history.messages;
  }

  /** An empty line (after stripping) ends the conversation and appends nothing. */
  lemma EmptyInputEnds(client: Request -> Stream, model: string, temperature: real,
                       inputs: seq<string>, messages: seq<Message>)
    requires inputs != [] && Strip(inputs[0]) == []
    ensures Converse(client, model, temperature, inputs, messages) == (UserEnded, messages)
  {
  }

  /** A non-empty line is appended as a user message before the history is sent, so the
      client sees the line as the last message; when the client raises, the conversation ends
      with that line as the last message, and otherwise the answer follows it. */
  lemma UserMessageSentLast(client: Request -> Stream, model: string, temperature: real,
                            inputs: seq<string>, messages: seq<Message>)
    requires inputs != [] && Strip(inputs[0]) != []
    ensures var sent := messages + [Message(User, Strip(inputs[0]))];
      var s := client(Request(model, temperature, sent, true));
      var r := Converse(client, model, temperature, inputs, messages);
      (s.raised ==> r == (ReplyFalsy, sent)) &&
      (!s.raised ==> |r.1| >= |sent| + 1 && r.1[..|sent| + 1] == sent + [Message(Assistant, StreamText(s.deltas))])
  {
    var sent := messages + [Message(User, Strip(inputs[0]))];
    var s := client(Request(model, temperature, sent, true));
    var t := Turn(client, model, temperature, inputs[0], messages);
    if !s.raised {
      assert t.1 == sent + [Message(Assistant, StreamText(s.deltas))];
      if t.0.None? {
        ConverseExtends(client, model, temperature, inputs[1..], t.1);
      }
    }
  }

  /** An answer that streams no text is falsy: it is appended as an empty assistant message
      and then the conversation ends. */
  lemma EmptyReplyEnds(client: Request -> Stream, model: string, temperature: real,
                       inputs: seq<string>, messages: seq<Message>)
    requires inputs != [] && Strip(inputs[0]) != []
    requires var s := client(Request(model, temperature, messages + [Message(User, Strip(inputs[0]))], true));
      !s.raised && StreamText(s.deltas) == []
    ensures Converse(client, model, temperature, inputs, messages) ==
      (ReplyFalsy, messages + [Message(User, Strip(inputs[0])), Message(Assistant, "")])
  {
    assert messages + [Message(User, Strip(inputs[0]))] + [Message(Assistant, "")] ==
      messages + [Message(User, Strip(inputs[0])), Message(Assistant, "")];
  }

  /** The history only grows: the conversation never changes or drops an earlier message. */
  lemma {:induction false} ConverseExtends(client: Request -> Stream, model: string, temperature: real,
                                           inputs: seq<string>, messages: seq<Message>)
    ensures var h := Converse(client, model, temperature, inputs, messages).1;
      |messages| <= |h| && h[..|messages|] == messages
  {
    if inputs != [] {
      var t := Turn(client, model, temperature, inputs[0], messages);
      if t.0.None? {
        var h := Converse(client, model, temperature, inputs[1..], t.1).1;
        ConverseExtends(client, model, temperature, inputs[1..], t.1);
        PrefixOfPrefix(messages, t.1, h);
      }
    }
  }

  /** A prefix of a prefix is a prefix. */
  lemma PrefixOfPrefix(a: seq<Message>, b: seq<Message>, c: seq<Message>)
    requires |a| <= |b| && b[..|a|] == a
    requires |b| <= |c| && c[..|b|] == b
    ensures c[..|a|] == a
  {
    assert c[..|a|] == c[..|b|][..|a|];
  }

  /** Each line read adds at most a user and an assistant message. */
  lemma {:induction false} ConverseGrowth(client: Request -> Stream, model: string, temperature: real,
                                          inputs: seq<string>, messages: seq<Message>)
    ensures |Converse(client, model, temperature, inputs, messages).1| <= |messages| + 2 * |inputs|
  {
    if inputs != [] {
      var t := Turn(client, model, temperature, inputs[0], messages);
      if t.0.None? {
        ConverseGrowth(client, model, temperature, inputs[1..], t.1);
      }
    }
  }

  /** A conversation that goes on to the end of the input holds, after the starting history,
      a user message and a non-empty assistant answer for every line. */
  lemma {:induction false} ConverseToEndOfInput(client: Request -> Stream, model: string, temperature: real,
                                                inputs: seq<string>, messages: seq<Message>)
    requires Converse(client, model, temperature, inputs, messages).0 == EndOfInput
    ensures |Converse(client, model, temperature, inputs, messages).1| == |messages| + 2 * |inputs|
  {
    if inputs != [] {
      var t := Turn(client, model, temperature, inputs[0], messages);
      ConverseToEndOfInput(client, model, temperature, inputs[1..], t.1);
    }
  }
}
