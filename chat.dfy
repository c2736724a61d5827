/**
 * The support chatbot's route: it picks the context for the language model
 * (passages retrieved from the knowledge base, or a fixed policy text),
 * converts the chat history to the model's roles, and flags messages that
 * call for escalation.
 *
 * The knowledge-base lookup and the language model are foreign services: the
 * lookup's outcome is the input `retrieval` and the model's answer is the
 * parameter `answer`.
 */
module Chat {
  import opened Wrappers
  import opened Values
  import Text

  // ---------------------------------------------------------------------
  // Escalation
  // ---------------------------------------------------------------------

  const EscalationKeywords: seq<string> := ["fraud", "scam", "urgent", "unsatisfied"]

  /** The lower-cased message mentions one of the four words. */
  predicate ShouldEscalate(message: string) {
    var lower := Text.Lower(message);
    Text.Contains(lower, "fraud") || Text.Contains(lower, "scam") || Text.Contains(lower, "urgent")
      || Text.Contains(lower, "unsatisfied")
  }

  /** A message is escalated exactly when its lower-case form contains one of the keywords. */
  lemma EscalationByKeyword(message: string)
    ensures ShouldEscalate(message) <==>
      exists k :: 0 <= k < |EscalationKeywords| && Text.Contains(Text.Lower(message), EscalationKeywords[k])
  {
    var lower := Text.Lower(message);
    if ShouldEscalate(message) {
      if Text.Contains(lower, "fraud") {
        assert EscalationKeywords[0] == "fraud";
      } else if Text.Contains(lower, "scam") {
        assert EscalationKeywords[1] == "scam";
      } else if Text.Contains(lower, "urgent") {
        assert EscalationKeywords[2] == "urgent";
      } else {
        assert EscalationKeywords[3] == "unsatisfied";
      }
    }
  }

  /** The test ignores case: a message and its lower-case form are escalated alike. */
  lemma {:induction false} EscalationIgnoresCase(message: string)
    ensures ShouldEscalate(Text.Lower(message)) == ShouldEscalate(message)
  {
    Text.LowerIdempotent(message);
  }

  /** A message in which a keyword appears, written in any case, is escalated. */
  lemma {:induction false} KeywordEscalates(before: string, word: string, after: string, k: nat)
    requires k < |EscalationKeywords| && Text.Lower(word) == EscalationKeywords[k]
    ensures ShouldEscalate(before + word + after)
  {
    Text.LowerAppend(before + word, after);
    Text.LowerAppend(before, word);
    var l := Text.Lower(word);
    assert Text.OccursAt(l, l, 0);
    Text.ContainsExtend(Text.Lower(before), l, Text.Lower(after), l);
    EscalationByKeyword(before + word + after);
  }

  // ---------------------------------------------------------------------
  // History
  // ---------------------------------------------------------------------

  /** A message of the chat history as the browser sends it; `None` is a missing field. */
  datatype ChatMessage = ChatMessage(role: Option<Value>, content: Option<Value>)

  /** A message in the language model's history: its role and its single text part. */
  datatype ModelMessage = ModelMessage(role: string, text: Option<Value>)

  const AssistantRole := "assistant"
  const ModelRole := "model"
  const UserRole := "user"

  /** The assistant's messages become the model's; every other role, missing ones included, is the user's. */
  function MapRole(role: Option<Value>): (r: string)
    ensures r == ModelRole <==> role == Some(Str(AssistantRole))
    ensures r == ModelRole || r == UserRole
  {
    if role == Some(Str(AssistantRole)) then ModelRole else UserRole
  }

  /** One model message per history message, in order. */
  function MapHistory(h: seq<ChatMessage>): (m: seq<ModelMessage>)
    ensures |m| == |h|
    ensures forall i :: 0 <= i < |h| ==> m[i].role == MapRole(h[i].role) && m[i].text == h[i].content
  {
    if h == [] then [] else [ModelMessage(MapRole(h[0].role), h[0].content)] + MapHistory(h[1..])
  }

  /** Drop the message at position 0 when it is the model's; keep every other one. */
  function DropLeadingModel(m: seq<ModelMessage>): (r: seq<ModelMessage>)
    ensures |r| == |m| || |r| == |m| - 1
    ensures |r| == |m| - 1 <==> m != [] && m[0].role == ModelRole
    ensures r == m[|m| - |r|..]
  {
    if m != [] && m[0].role == ModelRole then m[1..] else m
  }

  /** The history handed to the language model. */
  function ModelHistory(h: seq<ChatMessage>): seq<ModelMessage> {
    DropLeadingModel(MapHistory(h))
  }

  /**
   * The model's history has the messages of the chat history in order, with
   * their roles mapped and their contents kept, less the first one exactly
   * when that one is the assistant's.
   */
  lemma ModelHistoryKeepsOrder(h: seq<ChatMessage>)
    ensures var r := ModelHistory(h);
      && (|r| == |h| - 1 <==> h != [] && h[0].role == Some(Str(AssistantRole)))
      && (|r| == |h| || |r| == |h| - 1)
      && forall i :: 0 <= i < |r| ==>
           var j := i + |h| - |r|;
           r[i] == ModelMessage(MapRole(h[j].role), h[j].content)
  {
    var m := MapHistory(h);
    var r := DropLeadingModel(m);
    forall i | 0 <= i < |r| ensures r[i] == m[i + |m| - |r|] {
    }
  }

  /**
   * Only one message is dropped, so the model's history opens with one of the
   * model's own messages exactly when the chat history opens with two of the
   * assistant's.
   */
  lemma ModelHistoryOpening(h: seq<ChatMessage>)
    ensures var r := ModelHistory(h);
      (r != [] && r[0].role == ModelRole) <==>
        (|h| >= 2 && h[0].role == Some(Str(AssistantRole)) && h[1].role == Some(Str(AssistantRole)))
  {
    var m := MapHistory(h);
    if |h| >= 2 && h[0].role == Some(Str(AssistantRole)) {
      assert ModelHistory(h)[0] == m[1];
    }
  }

  /** The `history` field: absent or falsy, a list, or some other truthy value, which has no `map`. */
  datatype HistoryField = NoHistory | Messages(messages: seq<ChatMessage>) | NotAList

  // ---------------------------------------------------------------------
  // Context
  // ---------------------------------------------------------------------

  /** The fixed policy text used when no passage is retrieved. */
  const FallbackContext := "\nYou are a Bank Dispute Resolution Assistant. Use the following policy to answer questions:\n\n"
    + "1. Turnaround Time (TAT):\n   - L0 (Critical/Fraud): 4 Hours.\n   - L1 (High Priority): 24 Hours.\n"
    + "   - L2 (Medium): 48 Hours.\n   - L3 (Low): 3-5 Working Days.\n   \n"
    + "2. Escalation Policy:\n   - If a user mentions \"fraud\", \"scam\", or \"urgent\", mark as L0.\n"
    + "   - If a user is unsatisfied, offer to lodge a formal dispute.\n   \n"
    + "3. Refund Policy:\n   - UPI failures are auto-reversed in T+1 days.\n   - Credit Card disputes take 7-14 days.\n\n"
    + "Answer the user's question based on this context. Be polite and professional.\n"

  const Indent := "                    "

  /** The text of the retrieved-context template before the passages. */
  const RetrievedHead := "\n" + Indent + "You are a Bank Dispute Resolution Assistant.\n"
    + Indent + "Use the following retrieved context to answer the user's question.\n"
    + Indent + "If the answer is not in the context, say you don't know and advise them to contact support.\n"
    + Indent + "\n" + Indent + "Retrieved Context:\n" + Indent

  /** The text of the retrieved-context template after the passages. */
  const RetrievedTail := "\n" + Indent

  /** The context built around the retrieved passages. */
  function RetrievedContext(passages: string): string {
    RetrievedHead + passages + RetrievedTail
  }

  /** Which context the route uses: the policy text, or the template around the retrieved passages. */
  datatype Context = PolicyText | RetrievedText(passages: string)

  function ContextText(c: Context): string {
    match c
    case PolicyText => FallbackContext
    case RetrievedText(passages) => RetrievedContext(passages)
  }

  /** What the knowledge-base lookup produced: the texts of the matches, or a failure. */
  datatype Retrieval = Matches(texts: seq<string>) | RetrievalFailed

  /** The three settings the route reads; `None` is an unset variable. */
  datatype ChatSettings = ChatSettings(modelKey: Option<string>, indexKey: Option<string>, indexName: Option<string>)

  predicate Set(v: Option<string>) {
    v.Some? && v.value != ""
  }

  /** The knowledge base is consulted only when both of its settings are set. */
  predicate RetrievalConfigured(settings: ChatSettings) {
    Set(settings.indexKey) && Set(settings.indexName)
  }

  /** The lookup is used when it is configured and found at least one match. */
  predicate UsesRetrieval(settings: ChatSettings, retrieval: Retrieval) {
    RetrievalConfigured(settings) && retrieval.Matches? && |retrieval.texts| > 0
  }

  /**
   * Start from the policy text and switch to the retrieved
   * passages, separated by blank lines, when the lookup is configured and
   * returns a match; a failed lookup keeps the policy text.
   */
  method SelectContext(settings: ChatSettings, retrieval: Retrieval) returns (context: Context, usedRetrieval: bool)
    ensures usedRetrieval <==> UsesRetrieval(settings, retrieval)
    ensures !usedRetrieval ==> context == PolicyText
    ensures usedRetrieval ==> context == RetrievedText(Text.Join(retrieval.texts, "\n\n"))
    ensures context == ContextFor(settings, retrieval)
  {
    context := PolicyText;
    usedRetrieval := false;
    if RetrievalConfigured(settings) {
      match retrieval
      case Matches(texts) =>
        if |texts| > 0 {
          context := RetrievedText(Text.Join(texts, "\n\n"));
          usedRetrieval := true;
        }
      case RetrievalFailed =>
    }
  }

  /** The context the route settles on. */
  function ContextFor(settings: ChatSettings, retrieval: Retrieval): Context {
    if UsesRetrieval(settings, retrieval) then RetrievedText(Text.Join(retrieval.texts, "\n\n")) else PolicyText
  }

  /** Every retrieved passage appears in the context built from a lookup that is used. */
  lemma {:induction false} RetrievedPassagesInContext(settings: ChatSettings, retrieval: Retrieval, k: nat)
    requires UsesRetrieval(settings, retrieval) && k < |retrieval.texts|
    ensures Text.Contains(ContextText(ContextFor(settings, retrieval)), retrieval.texts[k])
  {
    var passages := Text.Join(retrieval.texts, "\n\n");
    Text.JoinHasPart(retrieval.texts, "\n\n", k);
    Text.ContainsExtend(RetrievedHead, passages, RetrievedTail, retrieval.texts[k]);
  }

  // ---------------------------------------------------------------------
  // The route
  // ---------------------------------------------------------------------

  const NoModelKeyError := "Gemini API Key not configured"
  const MessageRequiredError := "Message is required"
  const InternalError := "Internal Server Error"

  datatype ChatResponse = Reply(content: string, shouldEscalate: bool, usedRetrieval: bool)
                        | ChatRejected(error: string)
                        | ChatFailed(error: string)

  /** The prompt sent with the history: the context, then the question. */
  function Prompt(context: string, message: string): string {
    "Context: " + context + "\n\nUser Question: " + message + "\n\nAnswer:"
  }

  /** `history || []`: the messages of a list, none for an absent or falsy field. */
  function HistoryMessages(history: HistoryField): seq<ChatMessage>
    requires !history.NotAList?
  {
    if history.Messages? then history.messages else []
  }

  /**
   * `POST /api/chat`: 500 without the model key, 400 without a (truthy)
   * message; a history that is not a list, a failed answer, or a message that
   * is not text (its lower-casing throws) end in a 500. Otherwise the reply
   * carries the model's answer to the prompt and history, the escalation flag
   * and whether retrieved passages were used.
   */
  method Chat(settings: ChatSettings, message: Option<Value>, history: HistoryField, retrieval: Retrieval,
              answer: (seq<ModelMessage>, string) -> Option<string>)
    returns (resp: ChatResponse)
    ensures !Set(settings.modelKey) ==> resp == ChatFailed(NoModelKeyError)
    ensures Set(settings.modelKey) && !Truthy(message) ==> resp == ChatRejected(MessageRequiredError)
    ensures resp.ChatRejected? ==> resp.error == MessageRequiredError
    ensures resp.Reply? <==>
      && Set(settings.modelKey) && Truthy(message) && !history.NotAList? && message.value.Str?
      && answer(ModelHistory(HistoryMessages(history)), Prompt(ContextText(ContextFor(settings, retrieval)), message.value.s)).Some?
    ensures resp.Reply? ==>
      && resp.usedRetrieval == UsesRetrieval(settings, retrieval)
      && resp.shouldEscalate == ShouldEscalate(message.value.s)
      && answer(ModelHistory(HistoryMessages(history)), Prompt(ContextText(ContextFor(settings, retrieval)), message.value.s))
           == Some(resp.content)
  {
    if !Set(settings.modelKey) {
      return ChatFailed(NoModelKeyError);
    }
    if !Truthy(message) {
      return ChatRejected(MessageRequiredError);
    }
    var context, usedRetrieval := SelectContext(settings, retrieval);
    if history.NotAList? {
      return ChatFailed(InternalError);
    }
    var modelHistory := ModelHistory(HistoryMessages(history));
    var reply := answer(modelHistory, Prompt(ContextText(context), ToText(message.value)));
    if reply.None? || !message.value.Str? {
      return ChatFailed(InternalError);
    }
    resp := Reply(reply.value, ShouldEscalate(message.value.s), usedRetrieval);
  }
}
