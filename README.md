# Voice-chat session handler, modelled in Dafny

This project models the core of a browser voice-chat client for an empathic
voice API (`app.py`): the session handler that turns the voice socket's
callbacks into an append-only chat history, and the three pure helpers it
calls:

- **`is_arabic`** (module `ArabicScript`): counts the characters of the three
  Arabic Unicode blocks (U+0600–U+06FF, U+0750–U+077F, U+08A0–U+08FF) and the
  alphabetic characters, and says "Arabic" when there is at least one
  alphabetic character and the Arabic count is more than 0.3 of the
  alphabetic count. Python's `str.isalpha` is a parameter `isAlpha`.
  Arabic-block characters count whether or not they are alphabetic, so the
  ratio can exceed 1 (`ArabicDigitsCount`).
- **`_extract_top_n_emotions`** (module `EmotionRanking`): a stable
  descending sort of (emotion, score) pairs followed by the first `n`. The
  sort is an insertion sort that puts each item after every item scoring at
  least as much. "Stable" is stated as: for every score, the items with that
  score come out in input order (`WithScore`). `StableDescendingSort` also
  proves that this is the only descending arrangement that keeps ties in
  order, which is what Python's `sorted(..., reverse=True)` returns.
- **`translate_text`** (module `TranslationClient`): given the already-parsed
  reply of its HTTP request, it keeps the first component of every non-empty
  item, joins them and strips the result. Any failure gives the sentinel
  `"Translation unavailable"`: no reply, a status other than 200, an empty
  or unparsable body, or a component the join cannot take.
- **`StreamlitWebSocketHandler`** (module `ChatHandler`): `Step` specifies
  one callback on a plain `Session` value (history, connection flag,
  input-language preference, forwarded audio). The class `WebSocketHandler`
  has the source's fields and updates them in place. Each of its
  state-changing methods ensures `Snapshot() == Step(old(Snapshot()), op, services)`. The lemmas
  about `Step` and `Run` (callbacks applied in order) state what the
  transcript records.
- **Python `str.strip()`** (module `Text`): strips the whitespace characters
  of `str.isspace` from both ends. It is used on user transcripts and on
  translations.

History entries are a datatype with one constructor per `"type"` (`system`,
`user`, `assistant`, `error`). A user entry therefore always has exactly one
translation field, and an assistant entry has no language or translation
field. The handler's collaborators are the `Services` value. It holds the
letter test and the translation endpoint, a function from (text, target code)
to a reply. In the source these are module-level globals; here the
constructor receives them. Timestamps are parameters of the callbacks.

Behaviour kept as the code has it:
- A failed translation is stored as the sentinel text under the single
  translation key (app.py:39, app.py:88-92). The key is never omitted.
- The "New Chat" reset is an assignment done by the UI (app.py:403). It is
  modelled as the method `Reset`.
- Timestamps are wall-clock reads, and nothing in the code makes them
  non-decreasing. `RunAppends` shows only that each entry carries the time
  passed to its callback, in callback order.
- `on_error` records `"Error: " + str(error)` (app.py:128).
- The user text is stripped (app.py:71); the assistant text is not (app.py:101).

## Model

| member | source | states |
|---|---|---|
| `Text.IsSpace` | app.py:71 | the characters `str.isspace` accepts, which `strip()` removes: tab to carriage return, U+001C-U+0020, U+0085, U+00A0, U+1680, U+2000-U+200A, U+2028, U+2029, U+202F, U+205F, U+3000 |
| `Text.StripStart` | app.py:71 | `lstrip()`: drops leading whitespace one character at a time (characterised by `StripStartSpec`) |
| `Text.StripEnd` | app.py:71 | `rstrip()`: drops trailing whitespace one character at a time (characterised by `StripEndSpec`) |
| `Text.StripStartSpec` | app.py:71 | `lstrip` keeps a suffix of the input, everything it removes is whitespace, and the result does not start with whitespace |
| `Text.StripEndSpec` | app.py:71 | `rstrip` keeps a prefix of the input, everything it removes is whitespace, and the result does not end with whitespace |
| `Text.Strip` | app.py:71 | the result has no whitespace at either end and is no longer than the input |
| `Text.StripKeepsSlice` | app.py:71 | `strip` keeps a contiguous slice of the input and removes only whitespace on either side of it |
| `Text.StripIsTheTrimmedSlice` | app.py:71 | any slice with whitespace on both sides and none at its own ends is exactly what `strip` returns |
| `Text.StripIdempotent` | app.py:71 | stripping twice gives the same as stripping once |
| `ArabicScript.InArabicBlock` | app.py:43 | the regex character class: code points U+0600-U+06FF, U+0750-U+077F and U+08A0-U+08FF |
| `ArabicScript.IsArabic` | app.py:41-46 | `is_arabic`: at least one alphabetic character and 10 times the Arabic-block count above 3 times the alphabetic count (characterised by `IsArabicMeaning`) |
| `ArabicScript.Count` | app.py:44-45 | a character count never exceeds the length of the text |
| `ArabicScript.CountIsPositions` | app.py:44-45 | the count equals the number of positions whose character satisfies the predicate |
| `ArabicScript.CountAppend` | app.py:44-45 | the count of a concatenation is the sum of the counts |
| `ArabicScript.CountPositive` | app.py:45-46 | the count is positive exactly when some character satisfies the predicate |
| `ArabicScript.CountMonotone` | app.py:44-45 | a predicate implied by another counts at least as many characters |
| `ArabicScript.IsArabicMeaning` | app.py:41-46 | Arabic iff some alphabetic character exists and 10 times the Arabic-block positions exceed 3 times the alphabetic positions |
| `ArabicScript.NoLettersIsNotArabic` | app.py:46 | a text without alphabetic characters, the empty text among them, is not Arabic |
| `ArabicScript.NoArabicBlockIsNotArabic` | app.py:43-46 | a text without Arabic-block characters is not Arabic |
| `ArabicScript.ArabicLettersAreArabic` | app.py:43-46 | a text with letters, all of them in the Arabic blocks, is Arabic |
| `ArabicScript.AppendArabicKeepsArabic` | app.py:43-46 | appending an Arabic-block character keeps an Arabic text Arabic |
| `ArabicScript.AppendNeutralKeepsClass` | app.py:43-46 | appending a character that is neither Arabic-block nor alphabetic leaves the classification unchanged |
| `ArabicScript.ArabicDigitsCount` | app.py:43-46 | non-alphabetic Arabic-block characters are counted: one Latin letter and two Arabic-Indic zeros give Arabic count 2, letter count 1, and Arabic |
| `ArabicScript.EnglishGreeting` | app.py:41-46 | "Hello how are you" is not Arabic |
| `ArabicScript.ArabicGreeting` | app.py:41-46 | "مرحبا كيف حالك" is Arabic when its letters are alphabetic and the space is not |
| `TranslationClient.Join` | app.py:36 | concatenates, in order, the string first components of the items; dropped items add nothing |
| `TranslationClient.Usable` | app.py:33-36 | status 200, a non-empty list whose first element is a non-empty list, and no kept component that is not a string (which would make `join` raise) |
| `TranslationClient.TranslateText` | app.py:19-39 | `translate_text` given its reply: the stripped join for a usable reply, the sentinel "Translation unavailable" otherwise |
| `TranslationClient.JoinAppend` | app.py:36 | the join of two runs of fragments is the concatenation of their joins |
| `TranslationClient.JoinOne` | app.py:36 | one string fragment contributes its text when it is present and non-empty, and nothing otherwise |
| `TranslationClient.JoinNothingKept` | app.py:36 | fragments that are all empty or missing join to the empty string |
| `TranslationClient.TranslateTextTrimmed` | app.py:36-39 | the result never has whitespace at either end, sentinel or not |
| `TranslationClient.TranslateTextSpec` | app.py:19-39 | a usable reply translates to a slice of the joined fragments with only whitespace outside it; every other reply (no reply, a status other than 200, an empty or unparsable body, a non-string component) translates to the sentinel |
| `TranslationClient.SentinelIsAmbiguous` | app.py:35-39 | a status-200 reply whose one fragment is "Translation unavailable" is usable and gives the same text as a failed request, so the sentinel does not mark a failure |
| `TranslationClient.EmptyJoinIsNotSentinel` | app.py:35-36 | a usable reply whose fragments are all empty or missing gives the empty string, not the sentinel |
| `EmotionRanking.Insert` | app.py:132 | puts an item into a descending sequence after every item scoring at least as much; the result is one longer |
| `EmotionRanking.SortDescending` | app.py:132 | `sorted(items, key=score, reverse=True)`, built by inserting the items in input order; the result has the input's length |
| `EmotionRanking.InsertPermutes` | app.py:132 | insertion adds exactly the one item to the multiset of items |
| `EmotionRanking.SortPermutes` | app.py:132 | the sort is a permutation of its input |
| `EmotionRanking.TopN` | app.py:133 | the result has min(n, number of items) entries |
| `EmotionRanking.InsertSorted` | app.py:132 | inserting into a descending sequence keeps it descending |
| `EmotionRanking.InsertKeepsTies` | app.py:132 | inserting places the new item after every item of equal score |
| `EmotionRanking.SortIsSorted` | app.py:132 | the sort's result is in descending score order |
| `EmotionRanking.SortKeepsTies` | app.py:132 | for every score, the items with that score keep their input order |
| `EmotionRanking.SameTiesSameOrder` | app.py:132 | two descending sequences with the same items of every score, in the same order, are equal |
| `EmotionRanking.StableDescendingSort` | app.py:132 | the sort is descending, keeps ties in input order and permutes its input, and any descending tie-keeping arrangement equals it |
| `EmotionRanking.TopNSpec` | app.py:131-133 | the top n has min(n, number of items) entries, each an input item with its score, in descending order, with the earliest tied items first; no omitted item scores above a kept one |
| `EmotionRanking.TopNDistinct` | app.py:133 | distinct emotion names stay distinct, so the output dictionary keeps every selected item |
| `ChatHandler.DetectsArabic` | app.py:74-77 | under `auto` the classifier decides; otherwise the text is Arabic exactly when the preference is `ar` |
| `ChatHandler.UserEntryFor` | app.py:69-94 | the entry a `user_message` appends: stripped text, top emotions, language, and one translation key chosen by the language |
| `ChatHandler.MessageEntries` | app.py:66-114 | the entries an incoming message appends: one for user, assistant and error messages, none for audio and other types |
| `ChatHandler.Step` | app.py:55-129 | one callback, the language setter or the reset (app.py:403) as a transition of the session value |
| `ChatHandler.Run` | app.py:58-129 | callbacks applied one at a time in arrival order |
| `ChatHandler.TopEmotions` | app.py:70 | no prosody gives no emotions; otherwise min(3, number of scores) of them |
| `ChatHandler.TopEmotionsSpec` | app.py:70 | no prosody gives no emotions; otherwise the top three with all the ranking properties above |
| `ChatHandler.UserEntrySpec` | app.py:69-94 | a user entry holds the stripped text. It is Arabic iff the preference is `ar`, or `auto` and `is_arabic` holds. It has exactly one translation key: English for Arabic text, Arabic otherwise. The translation is of the stripped text into the other language, never has whitespace at its ends, and may be the sentinel |
| `ChatHandler.UserEntryEmotions` | app.py:70 | a user entry's emotions are the top three of its prosody scores, none without prosody, so at most three |
| `ChatHandler.UserStrippedAssistantNot` | app.py:71-101 | a user message and an assistant message each append one entry; the user entry holds the stripped content and the assistant entry the content as received, and the two differ exactly when the content has whitespace at an end |
| `ChatHandler.StepSpec` | app.py:55-129 | Every callback except "New Chat" keeps all earlier entries and appends exactly the entries of its kind, with its time. Only open and close move the connection flag. Only the setter changes the preference. Only audio reaches the byte stream |
| `ChatHandler.RunAppends` | app.py:58-129 | Callbacks applied in order without a reset keep the earlier history as a prefix. They add one entry per recording callback, in callback order, with that callback's kind and time |
| `ChatHandler.RunForwardsAudio` | app.py:105-106 | the byte stream receives the audio payloads in arrival order |
| `ChatHandler.RunConnected` | app.py:58-122 | the connection flag after a run is set by the last open or close, and is otherwise unchanged |
| `ChatHandler.NewChatStartsOver` | app.py:403 | the reset empties the history, leaves the flag and the preference alone, and later callbacks record from an empty history |
| `ChatHandler.WebSocketHandler.constructor` | app.py:49-53 | a new handler has an empty history, is not connected and has the given preference |
| `ChatHandler.WebSocketHandler.SetInputLanguage` | app.py:55-56 | only the preference changes |
| `ChatHandler.WebSocketHandler.OnOpen` | app.py:58-64 | sets the flag and appends one system entry "Connection established. You can start speaking now." |
| `ChatHandler.WebSocketHandler.OnMessage` | app.py:66-114 | the new state is `Step` of the message, and the method signals a raise exactly for an error message |
| `ChatHandler.WebSocketHandler.OnClose` | app.py:116-122 | clears the flag and appends one system entry "Connection closed." |
| `ChatHandler.WebSocketHandler.OnError` | app.py:124-129 | appends one error entry "Error: ..." and leaves the flag alone |
| `ChatHandler.WebSocketHandler.GetChatHistory` | app.py:135-136 | returns the current history |
| `ChatHandler.WebSocketHandler.Reset` | app.py:403 | empties the history and changes nothing else |
| `Scenarios.TiedExample` | app.py:131-133 | joy 9, anger 1, sadness 5, calm 5 ranks joy, sadness, calm |
| `Scenarios.WordIsEnglish` | app.py:71-75 | a trimmed word without Arabic-block characters strips to itself and is not Arabic |
| `Scenarios.Conversation` | app.py:58-122 | Open, a user word under `auto`, an assistant answer, then close. The result is four entries: system, an English user entry with an Arabic translation, the assistant entry, and "Connection closed." The handler ends disconnected |
| `Scenarios.ErrorThenClose` | app.py:105-122 | An audio chunk records nothing. The error message records "Error (400): bad request" and raises. The close that follows appends the closing entry |

## Left out

- `run_voice_chat` and `run_async_chat` (app.py:138-189) are left out. They are the asyncio event loop, the worker thread, the HTTP client, the socket connection and the microphone. This includes the error entries they append directly when the audio device or the connection fails.
- The translation HTTP request (app.py:21-32) is not modelled. The model takes the reply as a value: no reply, or a status and an optional parsed body.
- The parsed reply is a list of items, each seen through its first component: missing or falsy, a string, or some other truthy value (which makes the join raise and gives the sentinel). A body that is a JSON string, and a first element that is not a list, such as a string or a number, are not modelled; Python iterates a string character by character and can return a translation from it.
- `base64.b64decode` and `Stream.put` (app.py:106) are library calls. The byte stream is a ghost sequence of the payload strings as received. Decoding is not modelled, and neither is the error it raises on bad base64.
- `datetime.now` is a wall-clock read, so timestamps are parameters. No ordering of them is claimed.
- `str.isalpha` depends on the Unicode database, so it is the parameter `isAlpha`.
- Emotion scores are floats in the source and integers here. NaN and float comparison are not modelled.
- `ArabicScript.IsArabic` reads the float test `arabic / total > 0.3` exactly, as `10 * arabic > 3 * total`. Floating-point rounding of the quotient is not modelled.
- `ChatHandler.WebSocketHandler.SetInputLanguage` takes one of three values. Python accepts any string, and any string other than `'auto'` and `'ar'` behaves like `'en'`.
- `ChatHandler.WebSocketHandler.constructor` takes a required preference of one of three values. Python's `__init__` (app.py:49) defaults it to `'auto'` and accepts any string.
- `ChatHandler.WebSocketHandler.GetChatHistory` returns the history as a value. Python returns the live list (app.py:136), which later appends extend; that aliasing is not modelled.
- `ChatHandler.WebSocketHandler.OnError` takes the error's text, because Python's `str(error)` conversion is not modelled.
- The prosody scores object becomes its dictionary (app.py:70, 97) as a sequence of (emotion, score) items in insertion order.
- The `async` callbacks are modelled as ordinary methods called one at a time.
- `ChatHandler.WebSocketHandler.SetInputLanguage` and `ChatHandler.WebSocketHandler.Reset` run on the page's script thread (app.py:381-403), while the callbacks run on the chat worker thread (app.py:183-187). Each operation is modelled as atomic, so `ChatHandler.Run` covers only serialised executions. An interleaving is not modelled: a `user_message` reads the preference (app.py:74), blocks in the translation request (app.py:31), and appends to whatever list the history names by then (app.py:94). If the setter and the reset run inside that window, the entry lands in the new, empty history, classified under the old preference.
- `main()` (app.py:191-472) is left out: the page, the credentials, the audio-device probe and the rendering. The only part kept is the reset at app.py:403.
- The SSL environment settings (app.py:16-17) are left out.
