# AI translator session core, in Dafny

A model of the logical core of a single-page translator (v1/app_v1.py). The
page takes an API key, a target language and a text. The translate button
asks a language model to detect the text's language and to translate it. It
normalises the reply's whitespace, prices the call from its token usage and
keeps a per-session history of translations and a user-curated vocabulary.

The model has five modules:

- `Options` (options.dfy): the `Option` type used for the results of remote calls.
- `TextNormalizer` (text.dfy): `clean_output`, i.e. `re.sub(r'\s+', ' ', text.strip())`.
  It is built from `TrimLeft`/`TrimRight`/`Strip` (Python's `str.strip()`) and
  `Collapse` (the regular-expression substitution). It is proved equal to the
  reference definition `' '.join(text.split())` (`Join`, `Words`). The
  whitespace set `IsSpace` is Python's: `str.isspace()` and `\s` on `str` agree.
- `CostEstimator` (cost.dfy): `calculate_usage_cost`, with the gpt-4o-mini
  rates of the source and the zero fallback when usage is missing.
- `Session` (session.dfy): the records. `DetectLanguage` is the fallback of
  `detect_language`. `HandleSubmit` is the translate button's decision as a pure
  function of the inputs and of the two remote results. `SessionState` is a
  class whose fields are the session-state entries (`translations`,
  `vocabulary`, `total_cost`, `total_translations`, `translation_count`). Its
  methods submit, add to the vocabulary and delete by position (`pop(i)`).
  `RecentView` is the last-five history view.
- `Scenarios` (scenarios.dfy): worked examples that use only the contracts:
  one whitespace example, and sessions that reject, record, fail, and fall
  back to "Unknown".

The remote calls are not modelled as calls. The detection reply is an input
`Option<string>`: `None` stands for any exception. The translation reply is an
input `Option<Reply>`, where `Reply` holds the message content and an optional
usage report. Timestamps (`datetime.now()`) are input strings.

## Model

| member | source | states |
|---|---|---|
| TextNormalizer.TrimLeftSpec | v1/app_v1.py:122 | the left half of `strip()` yields the suffix left after a prefix made only of whitespace, and that suffix does not start with whitespace |
| TextNormalizer.TrimRightSpec | v1/app_v1.py:122 | the right half of `strip()` yields the prefix before a suffix made only of whitespace, and that prefix does not end with whitespace |
| TextNormalizer.StripSpec | v1/app_v1.py:184 | `strip()` leaves no whitespace at either end, and its result is empty exactly when the input is all whitespace (the `not input_text.strip()` test) |
| TextNormalizer.CleanOutputIsJoinWords | v1/app_v1.py:119-123 | `clean_output(s)` equals `' '.join(s.split())` for every `s` |
| TextNormalizer.CleanOutputShape | v1/app_v1.py:119-123 | the result has no leading or trailing whitespace, all its whitespace characters are plain spaces, and no two of them are adjacent |
| TextNormalizer.CleanOutputPreservesWords | v1/app_v1.py:122 | the whitespace-separated words of the result are those of the input, in the same order |
| TextNormalizer.CleanOutputFixedPoints | v1/app_v1.py:119-123 | `clean_output(r) == r` holds exactly for the texts of that normalised shape (both directions) |
| TextNormalizer.CleanOutputIdempotent | v1/app_v1.py:119-123 | applying `clean_output` twice gives the same as applying it once |
| TextNormalizer.WordsOfJoin | v1/app_v1.py:122 | splitting a space-joined list of words gives back that list (the round trip behind word preservation) |
| Scenarios.CleanOutputExample | v1/app_v1.py:122 | `"  a   b\n\tc \r\n"` is cleaned to `"a b c"` |
| CostEstimator.CalculateUsageCost | v1/app_v1.py:69-83 | without usage the result is `(0.0, 0, 0)`; with usage the token counts are passed through unchanged and the cost is the rate formula of line 80 at 0.00015 and 0.0006 per 1000 tokens; the cost is never negative |
| CostEstimator.TokenCostMonotone | v1/app_v1.py:76-80 | more input or output tokens never cost less |
| Session.DetectLanguage | v1/app_v1.py:85-100 | a failed detection yields "Unknown"; a reply yields its stripped content, which has no whitespace at either end |
| Session.HandleSubmit | v1/app_v1.py:181-209 | an empty key rejects (and only then); else blank input rejects (and only then); else a failed translation rejects (and only then). Otherwise it records one entry: the timestamp, the unstripped input, `clean_output` of the content, the detection result, the target language, and the cost and tokens of `calculate_usage_cost`. The recorded text is normalised and the cost is non-negative |
| Session.DetectionNeverBlocks | v1/app_v1.py:189-204 | whatever detection returned, the handler records or rejects alike, and the records differ only in their source language |
| Session.RemoveAt | v1/app_v1.py:251 | `pop(i)` in range: the length drops by one, entries before `i` stay put, entries after `i` shift down by one, reinserting the removed entry at `i` restores the list, and the multiset loses exactly that entry |
| Session.Reverse | v1/app_v1.py:264 | `reversed`: same length, the `i`-th element is the `i`-th from the end |
| Session.RecentView | v1/app_v1.py:260-265 | the view lists `min(5, n)` records; the `i`-th shown is `translations[n-1-i]` and is numbered `n - i` |
| Session.SumCostsNonNegative | v1/app_v1.py:212 | a history of non-negative costs has a non-negative running total |
| Session.SessionState.TotalCostNonNegative | v1/app_v1.py:64-65 | in every valid session state the running total cost is at least zero |
| Session.SessionState.constructor | v1/app_v1.py:59-67 | a session starts with empty translations and vocabulary, a total cost of 0 and both counters at 0 (`translation_count` is set up at lines 9-10), which satisfies the invariant |
| Session.SessionState.Submit | v1/app_v1.py:181-219 | keeps the invariant that both counters equal the history length and that the total is the sum of the recorded costs; returns `HandleSubmit`'s verdict. A rejection leaves the history, the total and both counters unchanged. A recorded translation appends exactly that record at the end, keeps the earlier ones, adds its cost to the total and adds 1 to each counter. The vocabulary is never changed |
| Session.SessionState.AddToVocabulary | v1/app_v1.py:225-234 | appends one entry built from the translation just shown (source, translation, source and target language, date) and changes nothing else |
| Session.SessionState.DeleteVocabularyAt | v1/app_v1.py:250-251 | an index in range removes exactly that entry (as `RemoveAt`); an index past the end, where `pop` raises IndexError, changes nothing and reports failure; the history and totals are untouched |

## Left out

- The page itself: page configuration, CSS, sidebar metrics, the spending progress bar `min(total_cost / 1.0, 1.0)`, `:.4f` formatting, spinners, messages and expanders (v1/app_v1.py:12-57, 125-178, 237-277). These are presentation only.
- The OpenAI client calls in `detect_language` and `translate_text` (v1/app_v1.py:85-117): the model name, prompts and token budgets are not modelled. Only the results are, as inputs. `Reply` holds the first choice's content as a string. A reply whose content is missing would raise an uncaught error in `clean_output`; that case is not modelled.
- CostEstimator.CalculateUsageCost: computes in exact reals, not in IEEE doubles, so rounding of the rate formula (v1/app_v1.py:80) is not modelled.
- Session.SessionState.Submit: the running total `total_cost += cost` (v1/app_v1.py:212) is also a sum of exact reals (`totalCost == SumCosts(translations)`). The rounding of an accumulated float total is not modelled.
- Vocabulary export (v1/app_v1.py:160-168): pandas CSV serialisation and the download button are library code.
- `datetime.now()` timestamps are opaque input strings.
- Streamlit's re-run semantics: the add-to-vocabulary button nested inside the translate button (v1/app_v1.py:225-234) and `st.rerun()` (v1/app_v1.py:252) are framework control flow. `AddToVocabulary` is a standalone operation taking the record just shown. It models the evident intent. As the script is written, pressing the nested button starts a re-run in which the outer translate button (v1/app_v1.py:181) reads as not pressed, so line 233 is not reached.
- Session.SessionState.DeleteVocabularyAt: takes a non-negative index, because the source only passes indexes from `enumerate`. Python's negative `pop` indexes are not modelled.
- Vocabulary entries use the code's keys `source`, `translation`, `source_lang`, `target_lang` and `added_date` (v1/app_v1.py:226-232). `VocabularyEntry` has one field for each. The two counters `total_translations` and `translation_count` are each incremented on their own (v1/app_v1.py:213, 219). Nothing recomputes either from the history length.
