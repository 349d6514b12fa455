/**
 * Worked examples: a tied emotion ranking and two short sessions driven
 * through the handler object's methods, whose outcomes follow from the
 * methods' contracts alone.
 */
module Scenarios {
  import opened Wrappers
  import opened Text
  import opened ArabicScript
  import opened EmotionRanking
  import opened ChatHandler

  /**
   * A four-emotion mapping with a tie: joy 0.9, anger 0.1, sadness 0.5,
   * calm 0.5 (scores scaled to 9, 1, 5, 5) gives joy, sadness, calm.
   */
  lemma {:induction false} TiedExample(j: EmotionScore, a: EmotionScore, s: EmotionScore, c: EmotionScore)
    requires j.score == 9 && a.score == 1 && s.score == 5 && c.score == 5
    ensures TopN([j, a, s, c], 3) == [j, s, c]
  {
    SortFour(j, a, s, c);
    assert [j, s, c, a][..3] == [j, s, c];
  }

  lemma {:induction false} SortFour(j: EmotionScore, a: EmotionScore, s: EmotionScore, c: EmotionScore)
    requires j.score == 9 && a.score == 1 && s.score == 5 && c.score == 5
    ensures SortDescending([j, a, s, c]) == [j, s, c, a]
  {
    var input := [j, a, s, c];
    var first := SortDescending(input[..3]);
    assert first == [j, s, a] by {
      assert input[..3] == [j, a, s];
      SortFirstThree(j, a, s);
    }
    assert SortDescending(input) == Insert(c, first);
    InsertCalm(j, a, s, c);
  }

  lemma {:induction false} InsertCalm(j: EmotionScore, a: EmotionScore, s: EmotionScore, c: EmotionScore)
    requires j.score == 9 && a.score == 1 && s.score == 5 && c.score == 5
    ensures Insert(c, [j, s, a]) == [j, s, c, a]
  {
    assert Insert(c, [a]) == [c, a];
    assert [s, a][1..] == [a];
    assert Insert(c, [s, a]) == [s] + Insert(c, [a]);
    assert [j, s, a][1..] == [s, a];
    assert Insert(c, [j, s, a]) == [j] + Insert(c, [s, a]);
  }

  lemma {:induction false} SortFirstThree(j: EmotionScore, a: EmotionScore, s: EmotionScore)
    requires j.score == 9 && a.score == 1 && s.score == 5
    ensures SortDescending([j, a, s]) == [j, s, a]
  {
    assert [j, a, s][..2] == [j, a];
    assert [j, a][..1] == [j];
    assert [j][..0] == [];
    assert SortDescending([j]) == Insert(j, []) == [j];
    assert Insert(a, [j]) == [j] + Insert(a, []);
    assert SortDescending([j, a]) == Insert(a, [j]) == [j, a];
    assert Insert(s, [a]) == [s, a];
    assert [j, a][1..] == [a];
    assert Insert(s, [j, a]) == [j] + Insert(s, [a]);
    assert SortDescending([j, a, s]) == Insert(s, [j, a]);
  }

  /**
   * Open, the user says a word such as "Hello" (no surrounding whitespace,
   * no Arabic-block character) under `auto`, the assistant answers, close:
   * four entries, the user one English with an Arabic translation, and the
   * connection flag down at the end.
   */
  method Conversation(services: Services, word: string, answer: string,
                      t0: Timestamp, t1: Timestamp, t2: Timestamp, t3: Timestamp)
    returns (history: seq<Entry>, connected: bool)
    requires Trimmed(word) && forall i :: 0 <= i < |word| ==> !InArabicBlock(word[i])
    ensures |history| == 4
    ensures history[0] == SystemEntry(t0, ConnectedText)
    ensures history[1].UserEntry? && history[1].message == word && history[1].originalLanguage == English
    ensures history[1].translation.ArabicTranslation? && history[1].emotions == []
    ensures history[2] == AssistantEntry(t2, answer, [])
    ensures history[3] == SystemEntry(t3, ClosedText)
    ensures !connected
  {
    var handler := new WebSocketHandler(Auto, services);
    handler.OnOpen(t0);
    WordIsEnglish(word, services.isAlpha);
    var raised := handler.OnMessage(UserMessage(word, None), t1);
    raised := handler.OnMessage(AssistantMessage(answer, None), t2);
    handler.OnClose(t3);
    history := handler.GetChatHistory();
    connected := handler.isConnected;
  }

  lemma WordIsEnglish(word: string, isAlpha: char -> bool)
    requires Trimmed(word) && forall i :: 0 <= i < |word| ==> !InArabicBlock(word[i])
    ensures Strip(word) == word && !IsArabic(word, isAlpha)
  {
    assert word[..0] == [] && word[|word|..] == [] && word[0..|word|] == word;
    StripIsTheTrimmedSlice(word, 0, |word|);
    NoArabicBlockIsNotArabic(word, isAlpha);
  }

  /**
   * An error message with code 400 and text "bad request" records one
   * error entry and raises; the close that the session's teardown then
   * calls records the closing entry; an audio chunk before it records nothing.
   */
  method ErrorThenClose(services: Services, t0: Timestamp, t1: Timestamp, t2: Timestamp)
    returns (history: seq<Entry>, raised: bool, connected: bool)
    ensures raised
    ensures history == [ErrorEntry(t1, "Error (400): bad request"), SystemEntry(t2, ClosedText)]
    ensures !connected
  {
    var handler := new WebSocketHandler(Auto, services);
    var audio := handler.OnMessage(AudioOutput("AAAA"), t0);
    raised := handler.OnMessage(ErrorMessage("400", "bad request"), t1);
    handler.OnClose(t2);
    history := handler.GetChatHistory();
    connected := handler.isConnected;
    assert ErrorEventText("400", "bad request") == "Error (400): bad request";
  }
}
