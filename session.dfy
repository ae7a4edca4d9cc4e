/** The session store and the handling of the translate button in
    v1/app_v1.py: the translation history, the vocabulary, the running cost
    and the two translation counters, together with the decision the submit
    handler makes from the inputs and the results of the two remote calls.

    The remote calls are not made here. Their results are inputs: the
    detection reply is `Some(content)` or `None` (any exception), the
    translation reply is `Some(Reply(...))` or `None`. The clock is an input
    too: timestamps are opaque strings. */
module Session {
  import opened Options
  import opened TextNormalizer
  import opened CostEstimator

  /** The part of a translation response the handler reads: the message
      content and, when the service reports it, the token usage. */
  datatype Reply = Reply(content: string, usage: Option<Usage>)

  /** One entry of `st.session_state.translations`. */
  datatype TranslationRecord = TranslationRecord(
    timestamp: string,
    sourceText: string,
    targetText: string,
    sourceLanguage: string,
    targetLanguage: string,
    cost: real,
    inputTokens: nat,
    outputTokens: nat)

  /** One entry of `st.session_state.vocabulary`. */
  datatype VocabularyEntry = VocabularyEntry(
    source: string,
    translation: string,
    sourceLang: string,
    targetLang: string,
    addedDate: string)

  /** Why a press of the translate button recorded nothing. */
  datatype Rejection = MissingApiKey | BlankInput | TranslationFailed

  datatype Outcome = Rejected(reason: Rejection) | Recorded(record: TranslationRecord)

  /** What `detect_language` returns when the remote call fails. */
  const UnknownLanguage: string := "Unknown"

  /** How many of the latest translations the history view shows. */
  const RecentLimit: nat := 5

  /** `detect_language`: the stripped reply, or "Unknown" on any failure. */
  function DetectLanguage(reply: Option<string>): (lang: string)
    ensures reply.None? ==> lang == UnknownLanguage
    ensures reply.Some? ==> lang == Strip(reply.value)
    ensures reply.Some? ==> lang == [] || (!IsSpace(lang[0]) && !IsSpace(lang[|lang| - 1]))
  {
    match reply
    case None => UnknownLanguage
    case Some(content) => StripSpec(content); Strip(content)
  }

  /** The decision of the translate-button handler: reject without a key or
      with blank input, give up when translation fails, and otherwise build
      the record to append. Detection is consulted only for the record's
      source language. */
  function HandleSubmit(apiKey: string, inputText: string, targetLang: string,
                        detectReply: Option<string>, translateReply: Option<Reply>,
                        timestamp: string): (o: Outcome)
    ensures o == Rejected(MissingApiKey) <==> apiKey == []
    ensures o == Rejected(BlankInput) <==> apiKey != [] && AllSpace(inputText)
    ensures o == Rejected(TranslationFailed) <==>
              apiKey != [] && !AllSpace(inputText) && translateReply.None?
    ensures o.Recorded? <==> apiKey != [] && !AllSpace(inputText) && translateReply.Some?
    ensures o.Recorded? ==>
              var usage := CalculateUsageCost(translateReply.value.usage);
              && o.record.timestamp == timestamp
              && o.record.sourceText == inputText
              && o.record.targetText == CleanOutput(translateReply.value.content)
              && o.record.sourceLanguage == DetectLanguage(detectReply)
              && o.record.targetLanguage == targetLang
              && o.record.cost == usage.cost
              && o.record.inputTokens == usage.inputTokens
              && o.record.outputTokens == usage.outputTokens
    ensures o.Recorded? ==> Normalized(o.record.targetText) && o.record.cost >= 0.0
  {
    StripSpec(inputText);
    if apiKey == [] then
      Rejected(MissingApiKey)
    else if Strip(inputText) == [] then
      Rejected(BlankInput)
    else
      var detected := DetectLanguage(detectReply);
      match translateReply
      case None => Rejected(TranslationFailed)
      case Some(reply) =>
        var translation := CleanOutput(reply.content);
        CleanOutputShape(reply.content);
        var usage := CalculateUsageCost(reply.usage);
        Recorded(TranslationRecord(timestamp, inputText, translation, detected, targetLang,
                                   usage.cost, usage.inputTokens, usage.outputTokens))
  }

  /** A failed detection never blocks a translation: whatever detection
      returned, the handler reaches the same verdict and records the same
      entry, save for its source language. */
  lemma DetectionNeverBlocks(apiKey: string, inputText: string, targetLang: string,
                             d1: Option<string>, d2: Option<string>,
                             translateReply: Option<Reply>, timestamp: string)
    ensures HandleSubmit(apiKey, inputText, targetLang, d1, translateReply, timestamp).Recorded?
        <==> HandleSubmit(apiKey, inputText, targetLang, d2, translateReply, timestamp).Recorded?
    ensures HandleSubmit(apiKey, inputText, targetLang, d1, translateReply, timestamp).Recorded? ==>
              HandleSubmit(apiKey, inputText, targetLang, d2, translateReply, timestamp).record
              == HandleSubmit(apiKey, inputText, targetLang, d1, translateReply, timestamp).record
                   .(sourceLanguage := DetectLanguage(d2))
  {
  }

  /** The running total of the costs of `ts`. */
  function SumCosts(ts: seq<TranslationRecord>): real {
    if ts == [] then 0.0 else SumCosts(ts[..|ts| - 1]) + ts[|ts| - 1].cost
  }

  predicate CostsNonNegative(ts: seq<TranslationRecord>) {
    forall i :: 0 <= i < |ts| ==> ts[i].cost >= 0.0
  }

  /** A history of non-negative costs has a non-negative total. */
  lemma {:induction false} SumCostsNonNegative(ts: seq<TranslationRecord>)
    requires CostsNonNegative(ts)
    ensures SumCosts(ts) >= 0.0
    decreases |ts|
  {
    if ts != [] {
      var init := ts[..|ts| - 1];
      assert CostsNonNegative(init) by {
        forall i | 0 <= i < |init| ensures init[i].cost >= 0.0 {
          assert init[i] == ts[i];
        }
      }
      SumCostsNonNegative(init);
      assert ts[|ts| - 1].cost >= 0.0;
    }
  }

  /** `list.pop(i)` for an index in range: the entry at `i` is gone and the
      others keep their order; putting it back restores the list. */
  function RemoveAt<T>(s: seq<T>, i: nat): (r: seq<T>)
    requires i < |s|
    ensures |r| == |s| - 1
    ensures forall j :: 0 <= j < i ==> r[j] == s[j]
    ensures forall j :: i <= j < |r| ==> r[j] == s[j + 1]
    ensures r[..i] + [s[i]] + r[i..] == s
    ensures multiset(r) + multiset{s[i]} == multiset(s)
  {
    var r := s[..i] + s[i + 1..];
    assert r[..i] == s[..i] && r[i..] == s[i + 1..];
    assert s == s[..i] + [s[i]] + s[i + 1..];
    r
  }

  /** The sequence read back to front. */
  function Reverse<T>(s: seq<T>): (r: seq<T>)
    ensures |r| == |s|
    ensures forall i :: 0 <= i < |s| ==> r[i] == s[|s| - 1 - i]
  {
    if s == [] then [] else [s[|s| - 1]] + Reverse(s[..|s| - 1])
  }

  /** One expander of the recent-translations view: its number and its record. */
  datatype HistoryItem = HistoryItem(number: nat, record: TranslationRecord)

  /** The recent-translations view: `translations[-5:]`, newest first, the
      `i`-th shown labelled `len(translations) - i`. */
  function RecentView(ts: seq<TranslationRecord>): (view: seq<HistoryItem>)
    ensures |view| == if |ts| < RecentLimit then |ts| else RecentLimit
    ensures forall i :: 0 <= i < |view| ==>
              view[i].number == |ts| - i && view[i].record == ts[|ts| - 1 - i]
  {
    var shown := if |ts| < RecentLimit then |ts| else RecentLimit;
    var recent := ts[|ts| - shown..];
    var newestFirst := Reverse(recent);
    seq(|newestFirst|, i requires 0 <= i < |newestFirst| => HistoryItem(|ts| - i, newestFirst[i]))
  }

  /** The vocabulary entry the "add to vocabulary" button builds from the
      translation just shown. */
  function VocabularyFrom(record: TranslationRecord, addedDate: string): VocabularyEntry {
    VocabularyEntry(record.sourceText, record.targetText, record.sourceLanguage,
                    record.targetLanguage, addedDate)
  }

  /** `st.session_state`: the history, the vocabulary, the running cost and
      the two counters the source keeps side by side. */
  class SessionState {
    var translations: seq<TranslationRecord>
    var vocabulary: seq<VocabularyEntry>
    var totalCost: real
    var totalTranslations: int
    var translationCount: int

    /** Both counters equal the length of the history, the total is the sum
        of the recorded costs, and no recorded cost is negative. */
    ghost predicate Valid()
      reads this
    {
      && totalTranslations == |translations|
      && translationCount == |translations|
      && totalCost == SumCosts(translations)
      && CostsNonNegative(translations)
    }

    /** The state at the start of a session (v1/app_v1.py:9-10, 59-67). */
    constructor ()
      ensures Valid()
      ensures translations == [] && vocabulary == []
      ensures totalCost == 0.0 && totalTranslations == 0 && translationCount == 0
    {
      translations := [];
      vocabulary := [];
      totalCost := 0.0;
      totalTranslations := 0;
      translationCount := 0;
    }

    /** A press of the translate button. A rejection changes nothing; a
        recorded translation is appended and the totals follow it. The
        vocabulary is never touched. */
    method Submit(apiKey: string, inputText: string, targetLang: string,
                  detectReply: Option<string>, translateReply: Option<Reply>,
                  timestamp: string) returns (o: Outcome)
      requires Valid()
      modifies this
      ensures Valid()
      ensures o == HandleSubmit(apiKey, inputText, targetLang, detectReply, translateReply, timestamp)
      ensures vocabulary == old(vocabulary)
      ensures o.Rejected? ==>
                && translations == old(translations)
                && totalCost == old(totalCost)
                && totalTranslations == old(totalTranslations)
                && translationCount == old(translationCount)
      ensures o.Recorded? ==>
                && translations == old(translations) + [o.record]
                && totalCost == old(totalCost) + o.record.cost
                && totalTranslations == old(totalTranslations) + 1
                && translationCount == old(translationCount) + 1
    {
      o := HandleSubmit(apiKey, inputText, targetLang, detectReply, translateReply, timestamp);
      if o.Recorded? {
        var record := o.record;
        translations := translations + [record];
        assert translations[..|translations| - 1] == old(translations);
        totalCost := totalCost + record.cost;
        totalTranslations := totalTranslations + 1;
        translationCount := translationCount + 1;
      }
    }

    /** The "add to vocabulary" button: one entry appended at the end. */
    method AddToVocabulary(record: TranslationRecord, addedDate: string)
      requires Valid()
      modifies this
      ensures Valid()
      ensures vocabulary == old(vocabulary) + [VocabularyFrom(record, addedDate)]
      ensures translations == old(translations) && totalCost == old(totalCost)
      ensures totalTranslations == old(totalTranslations) && translationCount == old(translationCount)
    {
      vocabulary := vocabulary + [VocabularyFrom(record, addedDate)];
    }

    /** A delete button of the vocabulary list: `vocabulary.pop(i)`. An index
        past the end raises IndexError in the source; here it leaves the
        vocabulary as it was and reports failure. */
    method DeleteVocabularyAt(i: nat) returns (ok: bool)
      requires Valid()
      modifies this
      ensures Valid()
      ensures ok <==> i < |old(vocabulary)|
      ensures ok ==> vocabulary == RemoveAt(old(vocabulary), i)
      ensures !ok ==> vocabulary == old(vocabulary)
      ensures translations == old(translations) && totalCost == old(totalCost)
      ensures totalTranslations == old(totalTranslations) && translationCount == old(translationCount)
    {
      ok := i < |vocabulary|;
      if ok {
        vocabulary := RemoveAt(vocabulary, i);
      }
    }

    /** The running total is never negative. */
    lemma TotalCostNonNegative()
      requires Valid()
      ensures totalCost >= 0.0
    {
      SumCostsNonNegative(translations);
    }
  }
}
