/** Concrete runs of the model: what a caller can conclude from the contracts
    alone, for a few presses of the translate button. */
module Scenarios {
  import opened Options
  import opened TextNormalizer
  import opened CostEstimator
  import opened Session

  lemma WordsExampleTail()
    ensures Words("\n\tc \r\n") == ["c"]
  {
    var t := "\n\tc \r\n";
    assert TrimLeft(t) == "c \r\n";
    assert TakeWord("c \r\n") == "c";
    assert "c \r\n"[1..] == " \r\n";
    assert TrimLeft(" \r\n") == "";
  }

  lemma WordsExampleMiddle()
    ensures Words("   b\n\tc \r\n") == ["b", "c"]
  {
    assert TrimLeft("   b\n\tc \r\n") == "b\n\tc \r\n";
    assert TakeWord("b\n\tc \r\n") == "b";
    assert "b\n\tc \r\n"[1..] == "\n\tc \r\n";
    WordsExampleTail();
  }

  lemma WordsExample()
    ensures Words("  a   b\n\tc \r\n") == ["a", "b", "c"]
  {
    assert TrimLeft("  a   b\n\tc \r\n") == "a   b\n\tc \r\n";
    assert TakeWord("a   b\n\tc \r\n") == "a";
    assert "a   b\n\tc \r\n"[1..] == "   b\n\tc \r\n";
    WordsExampleMiddle();
  }

  lemma JoinExample()
    ensures Join(["a", "b", "c"]) == "a b c"
  {
    assert ["a", "b", "c"][1..] == ["b", "c"] && ["b", "c"][1..] == ["c"];
    assert Join(["b", "c"]) == "b c";
  }

  /** Runs of whitespace inside and around the text become single spaces. */
  lemma CleanOutputExample()
    ensures CleanOutput("  a   b\n\tc \r\n") == "a b c"
  {
    CleanOutputIsJoinWords("  a   b\n\tc \r\n");
    WordsExample();
    JoinExample();
  }

  /** Without a key, or with blank input, nothing is recorded. */
  method RejectionRun() {
    var session := new SessionState();
    var o := session.Submit("", "hello", "French", Some("English"),
                            Some(Reply("Bonjour", None)), "t0");
    assert o == Rejected(MissingApiKey);
    assert session.translations == [] && session.totalCost == 0.0;

    assert AllSpace("   ");
    o := session.Submit("sk-x", "   ", "French", Some("English"),
                        Some(Reply("Bonjour", None)), "t1");
    assert o == Rejected(BlankInput);
    assert session.translations == [] && session.translationCount == 0;
  }

  /** A translation, a failed translation, and a translation whose language
      detection failed; then the history view. */
  method RecordRun() {
    var session := new SessionState();
    var reply := Reply("Bonjour  le\nmonde", Some(Usage(5, 4)));
    assert !AllSpace("Hello world") by { assert !IsSpace("Hello world"[0]); }

    var o := session.Submit("sk-x", "Hello world", "French", Some("English"), Some(reply), "t2");
    assert o.Recorded? && o.record.targetLanguage == "French";
    assert o.record.cost == 5.0 / 1000.0 * 0.00015 + 4.0 / 1000.0 * 0.0006;
    assert session.translations == [o.record] && session.translationCount == 1;
    var first := o.record;

    o := session.Submit("sk-x", "Hello world", "French", Some("English"), None, "t3");
    assert o == Rejected(TranslationFailed);
    assert session.translations == [first];

    o := session.Submit("sk-x", "Hello world", "French", None, Some(reply), "t4");
    assert o.Recorded? && o.record.sourceLanguage == UnknownLanguage;
    assert session.translations == [first, o.record];
    assert session.translationCount == 2 == session.totalTranslations;

    var view := RecentView(session.translations);
    assert |view| == 2 && view[0] == HistoryItem(2, o.record) && view[1] == HistoryItem(1, first);
  }

  /** Deleting by position in range removes that entry; past the end, nothing. */
  method VocabularyRun(r1: TranslationRecord, r2: TranslationRecord) {
    var session := new SessionState();
    session.AddToVocabulary(r1, "t5");
    session.AddToVocabulary(r2, "t6");
    var ok := session.DeleteVocabularyAt(0);
    assert ok && session.vocabulary == [VocabularyFrom(r2, "t6")];
    ok := session.DeleteVocabularyAt(1);
    assert !ok && |session.vocabulary| == 1;
  }
}
