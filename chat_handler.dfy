/**
 * The streaming session handler (`StreamlitWebSocketHandler`): it receives
 * the voice socket's callbacks one at a time and keeps an append-only chat
 * history, a connection flag and an input-language preference.
 *
 * `Step` is the specification of one callback on a plain value `Session`;
 * the class `WebSocketHandler` updates its fields in place and each of its
 * state-changing methods is proved to do what `Step` says.  The collaborators the handler
 * calls but does not own (the Unicode letter test, the translation
 * endpoint) come in as `Services`; timestamps are parameters.
 */
module ChatHandler {
  import opened Wrappers
  import opened Text
  import opened ArabicScript
  import opened TranslationClient
  import opened EmotionRanking

  /** A capture time as the caller read it from the clock. */
  type Timestamp = int

  /** The input-language preference: `'auto'`, `'en'` or `'ar'`. */
  datatype InputLanguage = Auto | En | Ar

  /** The `original_language` of a user entry: `"arabic"` or `"english"`. */
  datatype Language = Arabic | English

  /** The one translation key of a user entry and the text stored under it. */
  datatype Translation =
    | EnglishTranslation(text: string)   // "english_translation"
    | ArabicTranslation(text: string)    // "arabic_translation"

  /** One dictionary of the chat history; its constructor is the entry's `"type"`. */
  datatype Entry =
    | SystemEntry(timestamp: Timestamp, message: string)
    | UserEntry(timestamp: Timestamp, message: string, emotions: seq<EmotionScore>,
                originalLanguage: Language, translation: Translation)
    | AssistantEntry(timestamp: Timestamp, message: string, emotions: seq<EmotionScore>)
    | ErrorEntry(timestamp: Timestamp, message: string)

  /** The socket's messages, by their `type`. */
  datatype Event =
    | UserMessage(content: string, prosody: Option<seq<EmotionScore>>)        // "user_message"
    | AssistantMessage(content: string, prosody: Option<seq<EmotionScore>>)   // "assistant_message"
    | AudioOutput(data: string)                                               // "audio_output", base64 text
    | ErrorMessage(code: string, message: string)                             // "error"
    | OtherMessage(kind: string)   // any type other than the four above; `kind` is never one of their names

  /** The handler's collaborators: Python's `str.isalpha` and the translation endpoint. */
  datatype Services = Services(isAlpha: char -> bool, endpoint: (string, string) -> Reply)

  const ConnectedText: string := "Connection established. You can start speaking now."
  const ClosedText: string := "Connection closed."
  const EmotionLimit: nat := 3

  /** The emotions an entry records: the top three when prosody scores came, else none. */
  function TopEmotions(prosody: Option<seq<EmotionScore>>): (r: seq<EmotionScore>)
    ensures prosody.None? ==> r == []
    ensures prosody.Some? ==> |r| == Min(EmotionLimit, |prosody.value|)
  {
    match prosody
    case None => []
    case Some(scores) => TopN(scores, EmotionLimit)
  }

  /** The language decision: the classifier under `auto`, the preference itself otherwise. */
  predicate DetectsArabic(preference: InputLanguage, text: string, isAlpha: char -> bool) {
    if preference == Auto then IsArabic(text, isAlpha) else preference == Ar
  }

  /** The entry a `user_message` appends. */
  function UserEntryFor(preference: InputLanguage, content: string, prosody: Option<seq<EmotionScore>>,
                        at: Timestamp, services: Services): Entry
  {
    var text := Strip(content);
    var arabic := DetectsArabic(preference, text, services.isAlpha);
    UserEntry(at, text, TopEmotions(prosody),
              if arabic then Arabic else English,
              if arabic then EnglishTranslation(TranslateText(services.endpoint(text, "en")))
              else ArabicTranslation(TranslateText(services.endpoint(text, "ar"))))
  }

  function ErrorEventText(code: string, message: string): string {
    "Error (" + code + "): " + message
  }

  function FailureText(description: string): string {
    "Error: " + description
  }

  /** The entries an incoming message appends: one, or none for audio and unknown types. */
  function MessageEntries(preference: InputLanguage, event: Event, at: Timestamp, services: Services): seq<Entry>
  {
    match event
    case UserMessage(content, prosody) => [UserEntryFor(preference, content, prosody, at, services)]
    case AssistantMessage(content, prosody) => [AssistantEntry(at, content, TopEmotions(prosody))]
    case AudioOutput(_) => []
    case ErrorMessage(code, message) => [ErrorEntry(at, ErrorEventText(code, message))]
    case OtherMessage(_) => []
  }

  /** A message handler raises after an `error` message, and for no other message. */
  predicate Raises(event: Event) {
    event.ErrorMessage?
  }

  // ---- the session as a value, and one callback as a step on it

  /**
   * The handler's state.  `audio` is the sequence of audio payloads handed
   * to the playback byte stream, in order.
   */
  datatype Session = Session(history: seq<Entry>, connected: bool, inputLanguage: InputLanguage, audio: seq<string>)

  /** What can happen to a handler: its four callbacks, the language setter and "New Chat". */
  datatype Op =
    | Open(at: Timestamp)
    | Message(event: Event, at: Timestamp)
    | Close(at: Timestamp)
    | Failure(description: string, at: Timestamp)
    | ChooseLanguage(language: InputLanguage)
    | NewChat

  function Initial(language: InputLanguage): Session {
    Session([], false, language, [])
  }

  function Step(s: Session, op: Op, services: Services): Session {
    match op
    case Open(at) => s.(connected := true, history := s.history + [SystemEntry(at, ConnectedText)])
    case Message(event, at) =>
      s.(history := s.history + MessageEntries(s.inputLanguage, event, at, services),
         audio := s.audio + (if event.AudioOutput? then [event.data] else []))
    case Close(at) => s.(connected := false, history := s.history + [SystemEntry(at, ClosedText)])
    case Failure(description, at) => s.(history := s.history + [ErrorEntry(at, FailureText(description))])
    case ChooseLanguage(language) => s.(inputLanguage := language)
    case NewChat => s.(history := [])
  }

  /** The callbacks delivered one at a time, in order. */
  function Run(s: Session, ops: seq<Op>, services: Services): Session
    decreases |ops|
  {
    if ops == [] then s else Run(Step(s, ops[0], services), ops[1..], services)
  }

  // ---- the handler object

  class WebSocketHandler {
    const services: Services
    var chatHistory: seq<Entry>
    var isConnected: bool
    var inputLanguage: InputLanguage
    /** The payloads forwarded to the playback byte stream. */
    ghost var byteStream: seq<string>

    ghost function Snapshot(): Session
      reads this
    {
      Session(chatHistory, isConnected, inputLanguage, byteStream)
    }

    /** `__init__(input_language)`. */
    constructor (inputLanguage: InputLanguage, services: Services)
      ensures Snapshot() == Initial(inputLanguage) && this.services == services
    {
      this.services := services;
      chatHistory := [];
      isConnected := false;
      this.inputLanguage := inputLanguage;
      byteStream := [];
    }

    /** `set_input_language`. */
    method SetInputLanguage(language: InputLanguage)
      modifies this
      ensures Snapshot() == Step(old(Snapshot()), ChooseLanguage(language), services)
      ensures inputLanguage == language && chatHistory == old(chatHistory) && isConnected == old(isConnected)
    {
      inputLanguage := language;
    }

    /** `on_open`. */
    method OnOpen(now: Timestamp)
      modifies this
      ensures Snapshot() == Step(old(Snapshot()), Open(now), services)
      ensures isConnected && chatHistory == old(chatHistory) + [SystemEntry(now, ConnectedText)]
    {
      isConnected := true;
      chatHistory := chatHistory + [SystemEntry(now, ConnectedText)];
    }

    /** `on_message`; `raised` stands for the `RuntimeError` it raises after an error message. */
    method OnMessage(event: Event, now: Timestamp) returns (raised: bool)
      modifies this
      ensures Snapshot() == Step(old(Snapshot()), Message(event, now), services)
      ensures raised == Raises(event)
    {
      raised := false;
      match event {
        case UserMessage(content, prosody) =>
          var emotions := TopEmotions(prosody);
          var text := Strip(content);
          var detectedIsArabic: bool;
          if inputLanguage == Auto {
            detectedIsArabic := IsArabic(text, services.isAlpha);
          } else {
            detectedIsArabic := inputLanguage == Ar;
          }
          var translation: Translation;
          if detectedIsArabic {
            translation := EnglishTranslation(TranslateText(services.endpoint(text, "en")));
          } else {
            translation := ArabicTranslation(TranslateText(services.endpoint(text, "ar")));
          }
          var language := if detectedIsArabic then Arabic else English;
          chatHistory := chatHistory + [UserEntry(now, text, emotions, language, translation)];
        case AssistantMessage(content, prosody) =>
          chatHistory := chatHistory + [AssistantEntry(now, content, TopEmotions(prosody))];
        case AudioOutput(data) =>
          byteStream := byteStream + [data];
        case ErrorMessage(code, message) =>
          chatHistory := chatHistory + [ErrorEntry(now, ErrorEventText(code, message))];
          raised := true;
        case OtherMessage(_) =>
      }
    }

    /** `on_close`. */
    method OnClose(now: Timestamp)
      modifies this
      ensures Snapshot() == Step(old(Snapshot()), Close(now), services)
      ensures !isConnected && chatHistory == old(chatHistory) + [SystemEntry(now, ClosedText)]
    {
      isConnected := false;
      chatHistory := chatHistory + [SystemEntry(now, ClosedText)];
    }

    /** `on_error`, with the error already turned into its text. */
    method OnError(description: string, now: Timestamp)
      modifies this
      ensures Snapshot() == Step(old(Snapshot()), Failure(description, now), services)
      ensures isConnected == old(isConnected) && chatHistory == old(chatHistory) + [ErrorEntry(now, FailureText(description))]
    {
      chatHistory := chatHistory + [ErrorEntry(now, FailureText(description))];
    }

    /** `get_chat_history`. */
    method GetChatHistory() returns (history: seq<Entry>)
      ensures history == chatHistory
    {
      history := chatHistory;
    }

    /** The "New Chat" button: the history alone is replaced by an empty list. */
    method Reset()
      modifies this
      ensures Snapshot() == Step(old(Snapshot()), NewChat, services)
      ensures chatHistory == [] && isConnected == old(isConnected) && inputLanguage == old(inputLanguage)
    {
      chatHistory := [];
    }
  }

  // ---- what a single entry records

  /**
   * The top emotions: none without prosody; otherwise min(3, |scores|) of
   * the scores, each an input item with its own score, in descending order,
   * the earliest of tied items first, none left out scoring above one kept,
   * and no emotion name twice when the scores had none twice.
   */
  lemma TopEmotionsSpec(prosody: Option<seq<EmotionScore>>)
    ensures prosody.None? ==> TopEmotions(prosody) == []
    ensures prosody.Some? ==>
      var scores, r := prosody.value, TopEmotions(prosody);
      && |r| == Min(EmotionLimit, |scores|)
      && multiset(r) <= multiset(scores)
      && SortedDescending(r)
      && (forall v :: WithScore(r, v) <= WithScore(scores, v))
      && (forall y, z :: y in Omitted(scores, r) && z in r ==> y.score <= z.score)
      && (DistinctEmotions(scores) ==> DistinctEmotions(r))
  {
    if prosody.Some? {
      TopNSpec(prosody.value, EmotionLimit);
      if DistinctEmotions(prosody.value) {
        TopNDistinct(prosody.value, EmotionLimit);
      }
    }
  }

  /**
   * A `user_message` entry: its message is the stripped transcript; it is
   * Arabic exactly when the preference is `ar`, or `auto` and the classifier
   * says so; it carries exactly one translation key, `english_translation`
   * for Arabic and `arabic_translation` otherwise, holding the translation
   * of the stripped text into the other language (possibly the sentinel).
   */
  lemma UserEntrySpec(preference: InputLanguage, content: string, prosody: Option<seq<EmotionScore>>,
                      at: Timestamp, services: Services)
    ensures var e := UserEntryFor(preference, content, prosody, at, services);
      && e.UserEntry? && e.timestamp == at
      && e.message == Strip(content) && Trimmed(e.message)
      && (e.originalLanguage == Arabic <==>
            (preference == Auto && IsArabic(Strip(content), services.isAlpha)) || preference == Ar)
      && (e.translation.EnglishTranslation? <==> e.originalLanguage == Arabic)
      && e.translation.text == TranslateText(services.endpoint(e.message, if e.originalLanguage == Arabic then "en" else "ar"))
      && Trimmed(e.translation.text)
      && (e.translation.text == Unavailable || Usable(services.endpoint(e.message, if e.originalLanguage == Arabic then "en" else "ar")))
  {
    var text := Strip(content);
    var arabic := DetectsArabic(preference, text, services.isAlpha);
    TranslateTextTrimmed(services.endpoint(text, if arabic then "en" else "ar"));
  }

  /**
   * A user entry records `TopEmotions` of its prosody scores, hence at most
   * three; what those emotions are (the highest scores, descending, ties in
   * input order) is stated by `TopEmotionsSpec`.
   */
  lemma UserEntryEmotions(preference: InputLanguage, content: string, prosody: Option<seq<EmotionScore>>,
                          at: Timestamp, services: Services)
    ensures var e := UserEntryFor(preference, content, prosody, at, services);
      e.UserEntry? && e.emotions == TopEmotions(prosody) && |e.emotions| <= EmotionLimit
  {
  }

  /**
   * The same content is stored stripped in a user entry and as received in
   * an assistant entry: the two messages differ exactly when the content
   * has whitespace at one of its ends.
   */
  lemma UserStrippedAssistantNot(preference: InputLanguage, content: string, prosody: Option<seq<EmotionScore>>,
                                 at: Timestamp, services: Services)
    ensures var user := MessageEntries(preference, UserMessage(content, prosody), at, services);
      var assistant := MessageEntries(preference, AssistantMessage(content, prosody), at, services);
      && |user| == 1 && |assistant| == 1
      && user[0].message == Strip(content) && assistant[0].message == content
      && (user[0].message == assistant[0].message <==> Trimmed(content))
  {
    if Trimmed(content) {
      assert content[..0] == [] && content[|content|..] == [] && content[0..|content|] == content;
      StripIsTheTrimmedSlice(content, 0, |content|);
    }
  }

  // ---- the transcript over a run of callbacks

  datatype Kind = SystemKind | UserKind | AssistantKind | ErrorKind

  /** An entry's kind and time, the part of it fixed by the callback alone. */
  datatype Mark = Mark(kind: Kind, at: Timestamp)

  function MarkOf(e: Entry): Mark {
    match e
    case SystemEntry(at, _) => Mark(SystemKind, at)
    case UserEntry(at, _, _, _, _) => Mark(UserKind, at)
    case AssistantEntry(at, _, _) => Mark(AssistantKind, at)
    case ErrorEntry(at, _) => Mark(ErrorKind, at)
  }

  function Marks(h: seq<Entry>): (r: seq<Mark>)
    ensures |r| == |h|
  {
    if h == [] then [] else Marks(h[..|h| - 1]) + [MarkOf(h[|h| - 1])]
  }

  /** The marks one callback is meant to add, read off the callback itself. */
  function OpMarks(op: Op): seq<Mark> {
    match op
    case Open(at) => [Mark(SystemKind, at)]
    case Close(at) => [Mark(SystemKind, at)]
    case Failure(_, at) => [Mark(ErrorKind, at)]
    case Message(event, at) =>
      (match event
       case UserMessage(_, _) => [Mark(UserKind, at)]
       case AssistantMessage(_, _) => [Mark(AssistantKind, at)]
       case ErrorMessage(_, _) => [Mark(ErrorKind, at)]
       case AudioOutput(_) => []
       case OtherMessage(_) => [])
    case ChooseLanguage(_) => []
    case NewChat => []
  }

  function ExpectedMarks(ops: seq<Op>): seq<Mark> {
    if ops == [] then [] else OpMarks(ops[0]) + ExpectedMarks(ops[1..])
  }

  /** The audio payloads a run of callbacks forwards. */
  function AudioOf(ops: seq<Op>): seq<string> {
    if ops == [] then []
    else (if ops[0].Message? && ops[0].event.AudioOutput? then [ops[0].event.data] else []) + AudioOf(ops[1..])
  }

  predicate NoReset(ops: seq<Op>) {
    forall i :: 0 <= i < |ops| ==> !ops[i].NewChat?
  }

  lemma {:induction false} MarksAppend(a: seq<Entry>, b: seq<Entry>)
    ensures Marks(a + b) == Marks(a) + Marks(b)
  {
    if b != [] {
      assert (a + b)[..|a + b| - 1] == a + b[..|b| - 1];
      MarksAppend(a, b[..|b| - 1]);
    } else {
      assert a + b == a;
    }
  }

  /**
   * One callback other than "New Chat" keeps every earlier entry as it was
   * and appends exactly the entries its kind calls for, stamped with its time;
   * only the open and close callbacks move the connection flag; only the
   * setter changes the preference; only audio reaches the byte stream.
   */
  lemma StepSpec(s: Session, op: Op, services: Services)
    ensures var t := Step(s, op, services);
      && (!op.NewChat? ==> s.history <= t.history && Marks(t.history) == Marks(s.history) + OpMarks(op))
      && (op.NewChat? ==> t.history == [])
      && t.connected == (if op.Open? then true else if op.Close? then false else s.connected)
      && t.inputLanguage == (if op.ChooseLanguage? then op.language else s.inputLanguage)
      && t.audio == s.audio + AudioOf([op])
  {
    assert AudioOf([op]) == (if op.Message? && op.event.AudioOutput? then [op.event.data] else []) by {
      assert [op][1..] == [];
    }
    if !op.NewChat? {
      StepHistory(s, op, services);
    }
  }

  lemma StepHistory(s: Session, op: Op, services: Services)
    requires !op.NewChat?
    ensures s.history <= Step(s, op, services).history
    ensures Marks(Step(s, op, services).history) == Marks(s.history) + OpMarks(op)
  {
    match op {
      case Message(event, at) =>
        MessageMarks(s.inputLanguage, event, at, services);
        MarksAppend(s.history, MessageEntries(s.inputLanguage, event, at, services));
      case Open(at) => AppendOneMark(s.history, SystemEntry(at, ConnectedText));
      case Close(at) => AppendOneMark(s.history, SystemEntry(at, ClosedText));
      case Failure(d, at) => AppendOneMark(s.history, ErrorEntry(at, FailureText(d)));
      case ChooseLanguage(_) =>
    }
  }

  lemma AppendOneMark(h: seq<Entry>, e: Entry)
    ensures h <= h + [e] && Marks(h + [e]) == Marks(h) + [MarkOf(e)]
  {
    assert (h + [e])[..|h|] == h;
  }

  lemma MessageMarks(preference: InputLanguage, event: Event, at: Timestamp, services: Services)
    ensures Marks(MessageEntries(preference, event, at, services)) == OpMarks(Message(event, at))
  {
    var es := MessageEntries(preference, event, at, services);
    if es != [] {
      assert es[..0] == [];
    }
  }

  /**
   * Callbacks delivered in order without a "New Chat": the history that was
   * there stays a prefix, and the entries added are, in order, one per
   * callback that records one, with that callback's kind and time.
   */
  lemma RunAppends(s: Session, ops: seq<Op>, services: Services)
    requires NoReset(ops)
    ensures var t := Run(s, ops, services);
      && s.history <= t.history
      && Marks(t.history) == Marks(s.history) + ExpectedMarks(ops)
      && |t.history| == |s.history| + |ExpectedMarks(ops)|
  {
    RunKeepsHistory(s, ops, services);
    RunMarks(s, ops, services);
  }

  lemma NoResetTail(ops: seq<Op>)
    requires NoReset(ops) && ops != []
    ensures NoReset(ops[1..]) && !ops[0].NewChat?
  {
    forall i | 0 <= i < |ops[1..]| ensures !ops[1..][i].NewChat? {
      assert ops[1..][i] == ops[i + 1];
    }
  }

  lemma {:induction false} RunKeepsHistory(s: Session, ops: seq<Op>, services: Services)
    requires NoReset(ops)
    decreases |ops|
    ensures s.history <= Run(s, ops, services).history
  {
    if ops != [] {
      NoResetTail(ops);
      StepSpec(s, ops[0], services);
      RunKeepsHistory(Step(s, ops[0], services), ops[1..], services);
    }
  }

  lemma {:induction false} RunMarks(s: Session, ops: seq<Op>, services: Services)
    requires NoReset(ops)
    decreases |ops|
    ensures Marks(Run(s, ops, services).history) == Marks(s.history) + ExpectedMarks(ops)
  {
    if ops != [] {
      NoResetTail(ops);
      var s' := Step(s, ops[0], services);
      StepHistory(s, ops[0], services);
      RunMarks(s', ops[1..], services);
      MarksChain(s.history, s'.history, Run(s', ops[1..], services).history, OpMarks(ops[0]), ExpectedMarks(ops[1..]));
    }
  }

  /** Marks added by two consecutive stretches of callbacks add up. */
  lemma MarksChain(h0: seq<Entry>, h1: seq<Entry>, h2: seq<Entry>, added1: seq<Mark>, added2: seq<Mark>)
    requires Marks(h1) == Marks(h0) + added1 && Marks(h2) == Marks(h1) + added2
    ensures Marks(h2) == Marks(h0) + (added1 + added2)
  {
    assert (Marks(h0) + added1) + added2 == Marks(h0) + (added1 + added2);
  }

  /** The byte stream receives the audio payloads in arrival order, resets or not. */
  lemma {:induction false} RunForwardsAudio(s: Session, ops: seq<Op>, services: Services)
    decreases |ops|
    ensures Run(s, ops, services).audio == s.audio + AudioOf(ops)
  {
    if ops != [] {
      StepSpec(s, ops[0], services);
      RunForwardsAudio(Step(s, ops[0], services), ops[1..], services);
      assert AudioOf(ops) == AudioOf([ops[0]]) + AudioOf(ops[1..]);
    }
  }

  lemma {:induction false} RunConcat(s: Session, a: seq<Op>, b: seq<Op>, services: Services)
    decreases |a|
    ensures Run(s, a + b, services) == Run(Run(s, a, services), b, services)
  {
    if a == [] {
      assert a + b == b;
    } else {
      assert (a + b)[1..] == a[1..] + b;
      RunConcat(Step(s, a[0], services), a[1..], b, services);
    }
  }

  /**
   * "New Chat" empties the history whatever came before and leaves the
   * connection flag and the preference alone; what comes after it is
   * recorded from an empty history.
   */
  lemma NewChatStartsOver(s: Session, before: seq<Op>, after: seq<Op>, services: Services)
    requires NoReset(after)
    ensures var mid := Run(s, before + [NewChat], services);
      && mid.history == []
      && mid.connected == Run(s, before, services).connected
      && mid.inputLanguage == Run(s, before, services).inputLanguage
      && Marks(Run(s, before + [NewChat] + after, services).history) == ExpectedMarks(after)
  {
    RunConcat(s, before, [NewChat], services);
    RunConcat(s, before + [NewChat], after, services);
    RunAppends(Run(s, before + [NewChat], services), after, services);
  }

  /** The flag after a run: set by the last open or close, else as it was. */
  function ConnectedAfter(connected: bool, ops: seq<Op>): bool
    decreases |ops|
  {
    if ops == [] then connected
    else ConnectedAfter(if ops[0].Open? then true else if ops[0].Close? then false else connected, ops[1..])
  }

  lemma {:induction false} RunConnected(s: Session, ops: seq<Op>, services: Services)
    decreases |ops|
    ensures Run(s, ops, services).connected == ConnectedAfter(s.connected, ops)
  {
    if ops != [] {
      StepSpec(s, ops[0], services);
      RunConnected(Step(s, ops[0], services), ops[1..], services);
    }
  }
}
