/**
 * The chat page: a message list, an input line, a loading flag and the
 * context of an uploaded document. Sending appends the user's message at
 * once and the canned reply when its 1.5 s timer fires; the reply is chosen
 * by a fixed, case-insensitive keyword dispatch. Uploading a document adds
 * an acknowledgement; the transcript renders every message on its own
 * block.
 *
 * Each reply timer is modelled as an entry of `pending` holding what the
 * timer's closure captured (the input, the document context and the topic
 * at send time); `DeliverReply` is one timer firing. A change of the
 * page's topic re-runs the welcome effect, which replaces the messages but
 * cancels no timer. All timers have the same
 * delay, so they fire oldest first. Message ids and timestamps come from
 * outside; a timestamp is the already formatted time of day.
 */
module Chat {
  import opened Wrappers
  import opened Text
  import opened FileUpload

  datatype Role = User | Assistant

  datatype Message = Message(id: string, role: Role, content: string, timestamp: string)

  const ClassicalReply: string := "Classical conditioning is a learning process discovered by Ivan Pavlov where a neutral stimulus becomes associated with a meaningful stimulus and eventually triggers a similar response. The classic example is Pavlov's dogs, who learned to salivate at the sound of a bell that had been paired with food. This type of learning is fundamental to many human behaviors and emotional responses."
  const OperantReply: string := "Operant conditioning, developed by B.F. Skinner, is a method of learning where behaviors are modified through rewards and punishments. Unlike classical conditioning, which focuses on involuntary responses, operant conditioning deals with voluntary behaviors. For example, if a student is praised for good work (positive reinforcement), they're more likely to repeat that behavior in the future."
  const DissonanceReply: string := "Cognitive dissonance is the mental discomfort that occurs when a person holds contradictory beliefs or when new information conflicts with existing beliefs. To reduce this discomfort, people often change their beliefs or rationalize their behaviors. For instance, someone who smokes despite knowing it's unhealthy might downplay the health risks or emphasize the stress-relief benefits to justify their habit."
  const MaslowReply: string := "Maslow's Hierarchy of Needs is a motivational theory proposed by Abraham Maslow. It suggests that human needs form a hierarchy, with basic physiological needs at the bottom, followed by safety, love/belonging, esteem, and self-actualization at the top. According to this theory, people are motivated to fulfill basic needs before pursuing higher-level needs. This framework helps explain why certain needs take precedence over others in different situations."
  const DefaultReply: string := "That's an interesting question! In psychology, understanding concepts requires looking at both theoretical frameworks and empirical evidence. Would you like me to explain this concept in more detail, provide some examples, or relate it to other psychological theories?"

  /** Which canned reply the assistant gives. */
  datatype ReplyKind = Classical | Operant | Dissonance | Maslow | FromDocument | Fallback

  /** The keywords in the order they are tried, and the reply each one selects. */
  const Keywords: seq<string> := ["classical conditioning", "operant conditioning", "cognitive dissonance", "maslow"]
  const KeywordReplies: seq<ReplyKind> := [Classical, Operant, Dissonance, Maslow]

  /** JavaScript truthiness of an optional string: present and non-empty. */
  predicate Truthy(s: Option<string>) {
    s.Some? && s.value != ""
  }

  /** The document-based reply, naming the page's topic or, failing that, "several key concepts". */
  function DocumentReply(topic: Option<string>): string {
    "Based on the document you uploaded, I can tell you that psychology encompasses various theoretical approaches including behaviorism, cognitive psychology, and humanistic psychology. The document specifically mentions "
    + (if Truthy(topic) then topic.value else "several key concepts")
    + " which are fundamental to understanding human behavior and mental processes."
  }

  /** The reply timer's if/else chain over the lowercased input. */
  function SelectReply(input: string, documentContext: Option<string>): ReplyKind {
    if Contains(Lower(input), "classical conditioning") then Classical
    else if Contains(Lower(input), "operant conditioning") then Operant
    else if Contains(Lower(input), "cognitive dissonance") then Dissonance
    else if Contains(Lower(input), "maslow") then Maslow
    else if Truthy(documentContext) then FromDocument
    else Fallback
  }

  /** The text of a reply; only the document-based one depends on the page's topic. */
  function ReplyText(kind: ReplyKind, topic: Option<string>): string {
    match kind
    case Classical => ClassicalReply
    case Operant => OperantReply
    case Dissonance => DissonanceReply
    case Maslow => MaslowReply
    case FromDocument => DocumentReply(topic)
    case Fallback => DefaultReply
  }

  /** The assistant's reply to a query, given the document context captured when it was sent. */
  function Reply(input: string, documentContext: Option<string>, topic: Option<string>): string {
    ReplyText(SelectReply(input, documentContext), topic)
  }

  /** The position of the first keyword at or after `from` that occurs in `query`. */
  function FirstKeyword(query: string, from: nat): (r: Option<nat>)
    requires from <= |Keywords|
    ensures r.Some? ==> from <= r.value < |Keywords| && Contains(query, Keywords[r.value])
    ensures r.Some? ==> forall k :: from <= k < r.value ==> !Contains(query, Keywords[k])
    ensures r.None? ==> forall k :: from <= k < |Keywords| ==> !Contains(query, Keywords[k])
    decreases |Keywords| - from
  {
    if from == |Keywords| then None
    else if Contains(query, Keywords[from]) then Some(from)
    else FirstKeyword(query, from + 1)
  }

  /**
   * The reply is the one belonging to the first keyword, in the fixed order,
   * that the lowercased input contains; only when there is none does an
   * uploaded document matter, and otherwise the default reply is given.
   */
  lemma ReplyIsFirstMatch(input: string, documentContext: Option<string>)
    ensures SelectReply(input, documentContext) ==
      match FirstKeyword(Lower(input), 0)
      case Some(k) => KeywordReplies[k]
      case None => if Truthy(documentContext) then FromDocument else Fallback
  {
    var q := Lower(input);
    assert Keywords[0] == "classical conditioning" && Keywords[1] == "operant conditioning";
    assert Keywords[2] == "cognitive dissonance" && Keywords[3] == "maslow";
    if !Contains(q, Keywords[0]) {
      if !Contains(q, Keywords[1]) {
        if !Contains(q, Keywords[2]) {
          assert FirstKeyword(q, 0) == FirstKeyword(q, 3);
        } else {
          assert FirstKeyword(q, 0) == FirstKeyword(q, 2);
        }
      } else {
        assert FirstKeyword(q, 0) == FirstKeyword(q, 1);
      }
    }
  }

  /** Matching ignores case: the input and its lowercased form get the same reply. */
  lemma ReplyIgnoresCase(input: string, documentContext: Option<string>)
    ensures SelectReply(Lower(input), documentContext) == SelectReply(input, documentContext)
  {
    LowerIdempotent(input);
  }

  /** A keyword that occurs makes the first match that keyword or an earlier one. */
  lemma FirstKeywordAtMost(query: string, k: nat)
    requires k < |Keywords| && Contains(query, Keywords[k])
    ensures FirstKeyword(query, 0).Some? && FirstKeyword(query, 0).value <= k
  {
    var first := FirstKeyword(query, 0);
    if first.None? {
      assert false;
    } else if first.value > k {
      assert false;
    }
  }

  /** A keyword found anywhere in the lowercased input wins over every later keyword and over the document. */
  lemma KeywordWins(input: string, documentContext: Option<string>, k: nat)
    requires k < |Keywords| && Contains(Lower(input), Keywords[k])
    ensures SelectReply(input, documentContext) in KeywordReplies[..k + 1]
  {
    var q := Lower(input);
    FirstKeywordAtMost(q, k);
    ReplyIsFirstMatch(input, documentContext);
    var j := FirstKeyword(q, 0).value;
    assert KeywordReplies[..k + 1][j] == KeywordReplies[j];
  }

  const TopicGreeting: string := "Hello! I'm your StuddyBuddy AI assistant. How can I help you understand "
  const GeneralGreeting: string := "Hello! I'm your StuddyBuddy AI assistant. Ask me anything about your studies, or upload a document to chat about its contents."

  /** The welcome message: it names the topic the page was opened with, if any. */
  function WelcomeText(topic: Option<string>): string {
    if Truthy(topic) then TopicGreeting + topic.value + "?" else GeneralGreeting
  }

  function ReceivedText(fileName: string): string {
    "I've received your document \"" + fileName + "\". I'll analyze it and use its contents to help answer your questions."
  }

  /** The transcript label of a role. */
  function RoleLabel(role: Role): string {
    if role == Assistant then "StuddyBuddy AI" else "You"
  }

  /** One transcript entry: `[time] label: content`. */
  function Entry(m: Message): string {
    "[" + m.timestamp + "] " + RoleLabel(m.role) + ": " + m.content
  }

  function Entries(messages: seq<Message>): (r: seq<string>)
    ensures |r| == |messages|
    ensures forall i :: 0 <= i < |messages| ==> r[i] == Entry(messages[i])
  {
    if messages == [] then [] else [Entry(messages[0])] + Entries(messages[1..])
  }

  /** `handleDownloadChat`: the entries joined by blank lines. */
  function Transcript(messages: seq<Message>): string {
    Join(Entries(messages), "\n\n")
  }

  /** The transcript of one message is its entry; each further message adds a blank line and its entry. */
  lemma TranscriptGrows(messages: seq<Message>, m: Message)
    ensures Transcript([m]) == Entry(m)
    ensures messages != [] ==> Transcript(messages + [m]) == Transcript(messages) + "\n\n" + Entry(m)
  {
    if messages != [] {
      assert Entries(messages + [m]) == Entries(messages) + [Entry(m)];
      JoinSnoc(Entries(messages), Entry(m), "\n\n");
    }
  }

  /** Entries are labelled by role: "StuddyBuddy AI" for the assistant, "You" for the user. */
  lemma EntryLabelled(m: Message)
    ensures m.role == Assistant <==> StartsWith(Entry(m), "[" + m.timestamp + "] StuddyBuddy AI: ")
    ensures m.role == User <==> StartsWith(Entry(m), "[" + m.timestamp + "] You: ")
  {
    var p := "[" + m.timestamp + "] ";
    assert Entry(m) == p + RoleLabel(m.role) + ": " + m.content;
    if m.role == Assistant {
      assert Entry(m)[|p|] == 'S' && (p + "You: ")[|p|] == 'Y';
    } else {
      assert Entry(m)[|p|] == 'Y' && (p + "StuddyBuddy AI: ")[|p|] == 'S';
    }
  }

  /** What a reply timer captured when it was set. */
  datatype PendingReply = PendingReply(query: string, documentContext: Option<string>, topic: Option<string>)

  /** How many messages the user sent. */
  function UserMessages(messages: seq<Message>): nat {
    if messages == [] then 0 else (if messages[0].role == User then 1 else 0) + UserMessages(messages[1..])
  }

  lemma {:induction false} UserMessagesAppend(messages: seq<Message>, m: Message)
    ensures UserMessages(messages + [m]) == UserMessages(messages) + (if m.role == User then 1 else 0)
  {
    if messages != [] {
      assert (messages + [m])[1..] == messages[1..] + [m];
      UserMessagesAppend(messages[1..], m);
    }
  }

  class ChatSession {
    var topic: Option<string>
    var messages: seq<Message>
    var input: string
    var isLoading: bool
    var documentContext: Option<string>
    var pending: seq<PendingReply>
    /** How many messages the user has sent, and how many replies have been delivered. */
    ghost var sent: nat
    ghost var replies: nat

    /**
     * Every message the user sent is answered by exactly one reply, delivered
     * or still pending; the list shows at most that many user messages (a
     * topic change clears it) and always starts with the welcome message.
     */
    ghost predicate Valid()
      reads this
    {
      && sent == replies + |pending|
      && UserMessages(messages) <= sent
      && messages != [] && messages[0].id == "welcome" && messages[0].role == Assistant
    }

    /** The page after its welcome effect: one welcome message; with a topic, the input is prefilled. */
    constructor(topic: Option<string>, now: string)
      ensures Valid() && this.topic == topic
      ensures messages == [Message("welcome", Assistant, WelcomeText(topic), now)]
      ensures input == if Truthy(topic) then "Explain " + topic.value + " in simple terms" else ""
      ensures !isLoading && documentContext == None && pending == []
    {
      this.topic := topic;
      messages := [Message("welcome", Assistant, WelcomeText(topic), now)];
      input := if Truthy(topic) then "Explain " + topic.value + " in simple terms" else "";
      isLoading := false;
      documentContext := None;
      pending := [];
      sent := 0;
      replies := 0;
    }

    /**
     * The welcome effect re-running because the topic changed: the messages
     * are replaced by one welcome message; a truthy topic prefills the
     * input, any other leaves it as it was. Pending replies still arrive.
     * The same topic again does not re-run the effect.
     */
    method TopicChanged(newTopic: Option<string>, now: string)
      requires Valid()
      modifies this
      ensures Valid()
      ensures newTopic == old(topic) ==> unchanged(this)
      ensures newTopic != old(topic) ==>
        topic == newTopic &&
        messages == [Message("welcome", Assistant, WelcomeText(newTopic), now)] &&
        input == (if Truthy(newTopic) then "Explain " + newTopic.value + " in simple terms" else old(input)) &&
        pending == old(pending) && isLoading == old(isLoading) && documentContext == old(documentContext)
    {
      if newTopic == topic {
        return;
      }
      topic := newTopic;
      messages := [Message("welcome", Assistant, WelcomeText(newTopic), now)];
      if Truthy(newTopic) {
        input := "Explain " + newTopic.value + " in simple terms";
      }
    }

    /**
     * `handleSendMessage`: blank input does nothing; otherwise the input, as
     * typed, becomes a user message, the input is cleared and a reply is
     * scheduled.
     */
    method SendMessage(newId: string, now: string)
      requires Valid()
      modifies this
      ensures Valid()
      ensures Blank(old(input)) ==> unchanged(this)
      ensures !Blank(old(input)) ==>
        messages == old(messages) + [Message(newId, User, old(input), now)] &&
        input == "" && isLoading &&
        pending == old(pending) + [PendingReply(old(input), old(documentContext), old(topic))] &&
        documentContext == old(documentContext) && topic == old(topic)
    {
      TrimEmptyIffBlank(input);
      if Trim(input) == "" {
        return;
      }
      var userMessage := Message(newId, User, input, now);
      UserMessagesAppend(messages, userMessage);
      messages := messages + [userMessage];
      pending := pending + [PendingReply(input, documentContext, topic)];
      sent := sent + 1;
      input := "";
      isLoading := true;
    }

    /** The oldest reply timer fires: its reply is appended and loading ends. */
    method DeliverReply(newId: string, now: string)
      requires Valid() && pending != []
      modifies this
      ensures Valid()
      ensures messages == old(messages) + [Message(newId, Assistant, Reply(old(pending)[0].query, old(pending)[0].documentContext, old(pending)[0].topic), now)]
      ensures pending == old(pending)[1..] && !isLoading
      ensures input == old(input) && documentContext == old(documentContext) && topic == old(topic)
    {
      var p := pending[0];
      var responseContent := Reply(p.query, p.documentContext, p.topic);
      var assistantMessage := Message(newId, Assistant, responseContent, now);
      UserMessagesAppend(messages, assistantMessage);
      messages := messages + [assistantMessage];
      pending := pending[1..];
      replies := replies + 1;
      isLoading := false;
    }

    /** `handleFileUpload`: the first file is acknowledged and becomes the document context; no files, no change. */
    method UploadFiles(files: seq<FileInfo>, newId: string, now: string)
      requires Valid()
      modifies this
      ensures Valid()
      ensures files == [] ==> unchanged(this)
      ensures files != [] ==>
        messages == old(messages) + [Message(newId, Assistant, ReceivedText(files[0].name), now)] &&
        documentContext == Some("Content from " + files[0].name) &&
        input == old(input) && pending == old(pending) && isLoading == old(isLoading) && topic == old(topic)
    {
      if |files| > 0 {
        var file := files[0];
        var systemMessage := Message(newId, Assistant, ReceivedText(file.name), now);
        UserMessagesAppend(messages, systemMessage);
        messages := messages + [systemMessage];
        documentContext := Some("Content from " + file.name);
      }
    }

    /** The text offered for download. */
    function DownloadText(): string
      reads this
    {
      Transcript(messages)
    }
  }
}
