/** The retrieval-augmented answer of `ask_gpt`: embed the question, query
    the vector index, assemble the augmented prompt from the matches' texts
    and the question, and ask the chat model. The three remote services are
    oracles in `Services`; only the prompt assembly is computed here. */
module Prompt {
  import opened Outcomes
  import opened Text

  const ContextSeparator: string := "\n\n---\n\n"
  const QuestionDivider: string := "\n\n-----\n\n"
  const InstructionSuffix: string := "? Please provide a comprehensive answer to the question, and make sure to incorporate relevant URL links from the previous context. Do not enclose the links in parentheses. Don't share a link that is not included in the previous context. Never share links containing 'academy' in the URL. Important : format your response using markdown syntax. When writing a list, use dash instead of numbers."

  const TextKey: string := "text"
  /** Python's message for `str + None`. */
  const NoneConcatenation: string := "can only concatenate str (not \"NoneType\") to str"
  const EmbedModel: string := "text-embedding-ada-002"
  const IndexName: string := "hc"
  const TopK: nat := 5
  const ChatModel: string := "gpt-3.5-turbo"
  const Temperature: real := 0.1

  type Vector = seq<real>

  /** One entry of the index's `matches`, with its metadata map. */
  datatype Match = Match(id: string, score: real, metadata: map<string, string>)

  /** The request payloads, with the constants the bot sends. The embedding
      input is a list holding the question, which is `None` when the request
      body has no `user_input`. */
  datatype EmbeddingRequest = EmbeddingRequest(engine: string, input: seq<Option<string>>)
  datatype IndexQuery = IndexQuery(index: string, vector: Vector, topK: nat, includeMetadata: bool)
  datatype Message = Message(role: string, content: string)
  datatype ChatRequest = ChatRequest(model: string, temperature: real, messages: seq<Message>)

  /** The remote collaborators of `ask_gpt`, as functions from request to
      outcome, and the system primer loaded from the data module. */
  datatype Services = Services(
    embed: EmbeddingRequest -> Outcome<Vector>,
    query: IndexQuery -> Outcome<seq<Match>>,
    chat: ChatRequest -> Outcome<string>,
    primer: string)

  /** `[item["metadata"]["text"] for item in matches]`: one text per match, in
      match order; a match without a text raises `KeyError('text')`. */
  function Contexts(matches: seq<Match>): (r: Outcome<seq<string>>)
    ensures r.Ok? <==> forall i :: 0 <= i < |matches| ==> TextKey in matches[i].metadata
    ensures r.Ok? ==> |r.value| == |matches|
    ensures r.Ok? ==> forall i :: 0 <= i < |matches| ==> r.value[i] == matches[i].metadata[TextKey]
    ensures r.Raise? ==> r.error == KeyError(TextKey)
  {
    if matches == [] then Ok([])
    else if TextKey !in matches[0].metadata then Raise(KeyError(TextKey))
    else
      match Contexts(matches[1..])
      case Raise(e) => Raise(e)
      case Ok(rest) => Ok([matches[0].metadata[TextKey]] + rest)
  }

  /** The user message sent to the chat model. */
  function AugmentedQuery(contexts: seq<string>, question: string): string
  {
    Assemble(Join(contexts, ContextSeparator), QuestionDivider, question, InstructionSuffix)
  }

  /** The shape of the prompt, over its four pieces. */
  function Assemble(block: string, divider: string, question: string, suffix: string): string
  {
    block + (divider + question + suffix)
  }

  /** `p` is `block`, `divider`, `question` and `suffix` one after the
      other, with nothing else. */
  predicate PiecesAt(p: string, block: string, divider: string, question: string, suffix: string)
  {
    var n := |block|;
    var q := n + |divider|;
    |p| == q + |question| + |suffix| &&
    p[..n] == block &&
    p[n..q] == divider &&
    p[q..q + |question|] == question &&
    p[q + |question|..] == suffix
  }

  /** The four pieces of an assembled prompt sit one after the other. */
  lemma AssembleLayout(block: string, divider: string, question: string, suffix: string)
    ensures PiecesAt(Assemble(block, divider, question, suffix), block, divider, question, suffix)
  {
    var p := Assemble(block, divider, question, suffix);
    var n := |block|;
    var q := n + |divider|;
    assert p[..n] == block;
    assert p[n..q] == divider;
    assert p[q..q + |question|] == question;
    assert p[q + |question|..] == suffix;
  }

  /** The prompt is the joined contexts, the divider, the question verbatim
      and the instruction suffix, in that order and nothing else. */
  lemma Layout(contexts: seq<string>, question: string)
    ensures PiecesAt(AugmentedQuery(contexts, question), Join(contexts, ContextSeparator),
                     QuestionDivider, question, InstructionSuffix)
  {
    AssembleLayout(Join(contexts, ContextSeparator), QuestionDivider, question, InstructionSuffix);
  }

  /** An assembled prompt ends with its suffix and holds its question. */
  lemma AssembleEndsAndHolds(block: string, divider: string, question: string, suffix: string)
    ensures EndsWith(Assemble(block, divider, question, suffix), suffix)
    ensures Contains(Assemble(block, divider, question, suffix), question)
  {
    AssembleLayout(block, divider, question, suffix);
    assert OccursAt(Assemble(block, divider, question, suffix), question, |block| + |divider|);
  }

  /** The prompt always ends with the suffix and holds the question. */
  lemma EndsWithSuffixAndHoldsQuestion(contexts: seq<string>, question: string)
    ensures EndsWith(AugmentedQuery(contexts, question), InstructionSuffix)
    ensures Contains(AugmentedQuery(contexts, question), question)
  {
    AssembleEndsAndHolds(Join(contexts, ContextSeparator), QuestionDivider, question, InstructionSuffix);
  }

  /** Without retrieved contexts the prompt starts with the divider. */
  lemma NoContexts(question: string)
    ensures AugmentedQuery([], question) == QuestionDivider + question + InstructionSuffix
    ensures StartsWith(AugmentedQuery([], question), QuestionDivider)
  {
    Layout([], question);
  }

  /** With one context no context separator is added: the prompt is the
      context followed directly by the prompt without contexts, which
      starts with the divider. */
  lemma OneContext(context: string, question: string)
    ensures AugmentedQuery([context], question) == context + AugmentedQuery([], question)
  {
    assert Join([context], ContextSeparator) == context;
  }

  /** In `p`, part `i` of `parts` sits verbatim at its join offset and is
      followed by one `sep` if another part comes after it, and by
      `divider` if it is the last. */
  predicate PartInPlace(p: string, parts: seq<string>, sep: string, divider: string, i: nat)
    requires i < |parts|
  {
    var o := Offset(parts, sep, i);
    var e := o + |parts[i]|;
    e <= |p| && p[o..e] == parts[i] &&
    (i + 1 < |parts| ==> e + |sep| <= |p| && p[e..e + |sep|] == sep) &&
    (i + 1 == |parts| ==> e + |divider| <= |p| && p[e..e + |divider|] == divider)
  }

  /** In an assembled prompt whose block is the joined contexts, context `i`
      is in place: the separator follows every context but the last, and
      the divider follows the last. */
  lemma BlockPartAt(contexts: seq<string>, sep: string, divider: string, question: string, suffix: string, i: nat)
    requires i < |contexts|
    ensures PartInPlace(Assemble(Join(contexts, sep), divider, question, suffix), contexts, sep, divider, i)
  {
    var j := Join(contexts, sep);
    var tail := divider + question + suffix;
    var o := Offset(contexts, sep, i);
    var e := o + |contexts[i]|;
    JoinPartAt(contexts, sep, i);
    SliceLeft(j, tail, o, e);
    if i + 1 < |contexts| {
      JoinSeparatorAfter(contexts, sep, i);
      SliceLeft(j, tail, e, e + |sep|);
    } else {
      JoinLength(contexts, sep);
      SliceRight(j, tail, 0, |divider|);
      assert tail[0..|divider|] == divider;
    }
  }

  /** Context `i` appears verbatim, in match order, at its join offset;
      consecutive contexts are separated by exactly one separator, and the
      last context is followed directly by the question divider. */
  lemma ContextInOrder(contexts: seq<string>, question: string, i: nat)
    requires i < |contexts|
    ensures PartInPlace(AugmentedQuery(contexts, question), contexts, ContextSeparator, QuestionDivider, i)
  {
    BlockPartAt(contexts, ContextSeparator, QuestionDivider, question, InstructionSuffix, i);
  }

  /** For the same contexts, the prompt determines the question. */
  lemma QuestionDetermined(contexts: seq<string>, q1: string, q2: string)
    requires AugmentedQuery(contexts, q1) == AugmentedQuery(contexts, q2)
    ensures q1 == q2
  {
    Layout(contexts, q1);
    Layout(contexts, q2);
  }

  function EmbeddingCall(question: Option<string>): EmbeddingRequest
  {
    EmbeddingRequest(EmbedModel, [question])
  }

  function IndexCall(vector: Vector): IndexQuery
  {
    IndexQuery(IndexName, vector, TopK, true)
  }

  function ChatCall(primer: string, prompt: string): ChatRequest
  {
    ChatRequest(ChatModel, Temperature, [Message("system", primer), Message("user", prompt)])
  }

  /** `ask_gpt(user_input)`: each remote failure propagates as raised; a
      missing question reaches the string concatenation and raises
      `TypeError` there, after the embedding and index calls. */
  function AskGpt(question: Option<string>, s: Services): (r: Outcome<string>)
    ensures s.embed(EmbeddingCall(question)).Raise? ==> r == Raise(s.embed(EmbeddingCall(question)).error)
    ensures (s.embed(EmbeddingCall(question)).Ok? &&
             s.query(IndexCall(s.embed(EmbeddingCall(question)).value)).Raise?) ==>
      r == Raise(s.query(IndexCall(s.embed(EmbeddingCall(question)).value)).error)
    ensures (s.embed(EmbeddingCall(question)).Ok? &&
             s.query(IndexCall(s.embed(EmbeddingCall(question)).value)).Ok? &&
             Contexts(s.query(IndexCall(s.embed(EmbeddingCall(question)).value)).value).Raise?) ==>
      r == Raise(KeyError(TextKey))
    ensures r.Ok? ==> question.Some?
  {
    match s.embed(EmbeddingCall(question))
    case Raise(e) => Raise(e)
    case Ok(vector) =>
      match s.query(IndexCall(vector))
      case Raise(e) => Raise(e)
      case Ok(matches) =>
        match Contexts(matches)
        case Raise(e) => Raise(e)
        case Ok(contexts) =>
          match question
          case None => Raise(TypeError(NoneConcatenation))
          case Some(q) => s.chat(ChatCall(s.primer, AugmentedQuery(contexts, q)))
  }

  /** When embedding and retrieval succeed and every match has a text, the
      answer is the chat model's reply to the primer and the augmented prompt
      built from the match texts in order. */
  lemma AskGptSendsAugmentedPrompt(question: string, s: Services)
    requires s.embed(EmbeddingCall(Some(question))).Ok?
    requires s.query(IndexCall(s.embed(EmbeddingCall(Some(question))).value)).Ok?
    requires var ms := s.query(IndexCall(s.embed(EmbeddingCall(Some(question))).value)).value;
      forall i :: 0 <= i < |ms| ==> TextKey in ms[i].metadata
    ensures var ms := s.query(IndexCall(s.embed(EmbeddingCall(Some(question))).value)).value;
      var texts := seq(|ms|, i requires 0 <= i < |ms| => ms[i].metadata[TextKey]);
      AskGpt(Some(question), s) == s.chat(ChatCall(s.primer, AugmentedQuery(texts, question)))
  {
    var ms := s.query(IndexCall(s.embed(EmbeddingCall(Some(question))).value)).value;
    var texts := seq(|ms|, i requires 0 <= i < |ms| => ms[i].metadata[TextKey]);
    assert Contexts(ms).value == texts;
  }

  /** A request without a question never gets an answer from `ask_gpt`;
      once embedding, retrieval and the texts of the matches succeed, what
      it raises is the `TypeError` of concatenating `None` to the prompt. */
  lemma MissingQuestionRaises(s: Services)
    ensures AskGpt(None, s).Raise?
    ensures (s.embed(EmbeddingCall(None)).Ok? &&
             s.query(IndexCall(s.embed(EmbeddingCall(None)).value)).Ok? &&
             Contexts(s.query(IndexCall(s.embed(EmbeddingCall(None)).value)).value).Ok?) ==>
      AskGpt(None, s) == Raise(TypeError(NoneConcatenation))
  {
  }
}
