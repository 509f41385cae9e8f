/** The `POST /api` handler `react_description`: answer the question with
    `ask_gpt` and return `{"output": answer}`; a `ValueError` becomes a fixed
    apology, and any other exception is left to Flask (a server error).

    The link check call in the handler is commented out in the source;
    `checkLinks` says whether it runs, and `false` is the code as shipped.
    `head` is the status an HTTP HEAD request to a URL returns, which only
    the link check consults. */
module Api {
  import opened Outcomes
  import opened Prompt
  import opened LinkCheck

  const Apology: string := "Sorry, could you please repharse the question?"

  /** The handler's result: a JSON body `{"output": …}`, or an exception the
      handler does not catch. */
  datatype ApiReply = JsonOutput(output: string) | Uncaught(error: Exception)

  /** `try: … except ValueError: …` around the body of the handler. */
  function CatchValueError(r: Outcome<string>): (reply: ApiReply)
    ensures r.Ok? ==> reply == JsonOutput(r.value)
    ensures r.Raise? && r.error.ValueError? ==> reply == JsonOutput(Apology)
    ensures r.Raise? && !r.error.ValueError? ==> reply == Uncaught(r.error)
  {
    match r
    case Ok(answer) => JsonOutput(answer)
    case Raise(ValueError(_)) => JsonOutput(Apology)
    case Raise(e) => Uncaught(e)
  }

  /** The body inside the `try`: the answer, checked for links when the
      check is on. */
  function GuardedAnswer(question: Option<string>, s: Services, head: string -> Outcome<int>, checkLinks: bool): (r: Outcome<string>)
    ensures !checkLinks ==> r == AskGpt(question, s)
    ensures r.Ok? ==> AskGpt(question, s) == r
    ensures checkLinks && AskGpt(question, s).Ok? ==>
      (r.Ok? <==> CheckText(AskGpt(question, s).value, head).verdict == Passed)
    ensures checkLinks && AskGpt(question, s).Ok? && CheckText(AskGpt(question, s).value, head).verdict.Failed? ==>
      r == Raise(CheckText(AskGpt(question, s).value, head).verdict.error)
  {
    match AskGpt(question, s)
    case Raise(e) => Raise(e)
    case Ok(answer) =>
      if !checkLinks then Ok(answer)
      else
        match CheckText(answer, head).verdict
        case Passed => Ok(answer)
        case Failed(e) => Raise(e)
  }

  /** `react_description` for a request whose body has `user_input` =
      `question` (`None` when it is missing). A JSON reply carries either the
      model's answer or the apology, never an exception's text. */
  function ReactDescription(question: Option<string>, s: Services, head: string -> Outcome<int>, checkLinks: bool): (reply: ApiReply)
    ensures reply.JsonOutput? ==> reply.output == Apology || AskGpt(question, s) == Ok(reply.output)
    ensures reply.Uncaught? ==> !reply.error.ValueError?
  {
    CatchValueError(GuardedAnswer(question, s, head, checkLinks))
  }

  /** As shipped, a successful answer is returned unchanged. */
  lemma AnswerReturned(question: Option<string>, s: Services, head: string -> Outcome<int>, answer: string)
    requires AskGpt(question, s) == Ok(answer)
    ensures ReactDescription(question, s, head, false) == JsonOutput(answer)
  {
  }

  /** A `ValueError` anywhere in answering becomes the apology. */
  lemma ValueErrorBecomesApology(question: Option<string>, s: Services, head: string -> Outcome<int>, checkLinks: bool, message: string)
    requires AskGpt(question, s) == Raise(ValueError(message))
    ensures ReactDescription(question, s, head, checkLinks) == JsonOutput(Apology)
  {
  }

  /** Any other exception from answering is not caught. */
  lemma OtherErrorsUncaught(question: Option<string>, s: Services, head: string -> Outcome<int>, checkLinks: bool)
    requires AskGpt(question, s).Raise? && !AskGpt(question, s).error.ValueError?
    ensures ReactDescription(question, s, head, checkLinks) == Uncaught(AskGpt(question, s).error)
  {
  }

  /** A request without `user_input` never gets an answer: the handler
      replies with the apology or fails. */
  lemma MissingQuestionNoAnswer(s: Services, head: string -> Outcome<int>, checkLinks: bool)
    ensures var reply := ReactDescription(None, s, head, checkLinks);
      reply.Uncaught? || reply == JsonOutput(Apology)
  {
    MissingQuestionRaises(s);
  }

  /** A retrieved match without a text ends the request with the uncaught
      `KeyError('text')`, whether or not the link check is on. */
  lemma MissingTextUncaught(question: Option<string>, s: Services, head: string -> Outcome<int>, checkLinks: bool, i: nat)
    requires s.embed(EmbeddingCall(question)).Ok?
    requires s.query(IndexCall(s.embed(EmbeddingCall(question)).value)).Ok?
    requires var ms := s.query(IndexCall(s.embed(EmbeddingCall(question)).value)).value;
      i < |ms| && TextKey !in ms[i].metadata
    ensures ReactDescription(question, s, head, checkLinks) == Uncaught(KeyError(TextKey))
  {
  }

  /** With the link check on, an answer whose URLs all clear is returned. */
  lemma CheckedAnswerReturned(question: Option<string>, s: Services, head: string -> Outcome<int>, answer: string)
    requires AskGpt(question, s) == Ok(answer)
    requires forall k :: 0 <= k < |Formatted(FindUrls(answer))| ==> Clears(Formatted(FindUrls(answer))[k], head)
    ensures ReactDescription(question, s, head, true) == JsonOutput(answer)
  {
    ProbeAllClear(Formatted(FindUrls(answer)), head);
  }

  /** With the link check on, an answer whose first failing URL names the
      blocked source is replaced by the apology, whatever HEAD says about it. */
  lemma BlockedLinkBecomesApology(question: Option<string>, s: Services, head: string -> Outcome<int>, answer: string, k: nat)
    requires AskGpt(question, s) == Ok(answer)
    requires var urls := Formatted(FindUrls(answer));
      k < |urls| && Blocked(urls[k]) && forall j :: 0 <= j < k ==> Clears(urls[j], head)
    ensures ReactDescription(question, s, head, true) == JsonOutput(Apology)
  {
    ProbeFirstFailure(Formatted(FindUrls(answer)), head, k);
  }

  /** With the link check on, a URL that fails by status turns the answer
      into the apology as well. */
  lemma RejectedStatusBecomesApology(question: Option<string>, s: Services, head: string -> Outcome<int>, answer: string, k: nat)
    requires AskGpt(question, s) == Ok(answer)
    requires var urls := Formatted(FindUrls(answer));
      k < |urls| && !Blocked(urls[k]) && head(urls[k]).Ok? && RejectedStatus(head(urls[k]).value) &&
      forall j :: 0 <= j < k ==> Clears(urls[j], head)
    ensures ReactDescription(question, s, head, true) == JsonOutput(Apology)
  {
    ProbeFirstFailure(Formatted(FindUrls(answer)), head, k);
  }

  /** With the link check on, a HEAD request that raises something other
      than a `ValueError` at the first failing URL leaves the handler
      uncaught. */
  lemma ProbeHeadErrorUncaught(question: Option<string>, s: Services, head: string -> Outcome<int>, answer: string, k: nat)
    requires AskGpt(question, s) == Ok(answer)
    requires var urls := Formatted(FindUrls(answer));
      k < |urls| && !Blocked(urls[k]) && head(urls[k]).Raise? && !head(urls[k]).error.ValueError? &&
      forall j :: 0 <= j < k ==> Clears(urls[j], head)
    ensures ReactDescription(question, s, head, true) == Uncaught(head(Formatted(FindUrls(answer))[k]).error)
  {
    ProbeFirstFailure(Formatted(FindUrls(answer)), head, k);
  }

  /** With the link check on, an answer (other than the apology text itself)
      reaches the client exactly when every URL in it clears. */
  lemma CheckedAnswerIff(question: Option<string>, s: Services, head: string -> Outcome<int>, answer: string)
    requires AskGpt(question, s) == Ok(answer)
    requires answer != Apology
    ensures ReactDescription(question, s, head, true) == JsonOutput(answer) <==>
      forall k :: 0 <= k < |Formatted(FindUrls(answer))| ==> Clears(Formatted(FindUrls(answer))[k], head)
  {
    ProbePassedIff(Formatted(FindUrls(answer)), head);
  }
}
