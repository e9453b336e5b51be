# News article summariser: the "Generate Summary" handler

This project models the button handler of a Streamlit news summariser
(`app.py`). One press of "Generate Summary" works like this:

1. It checks that a URL was typed.
2. It fetches and parses the article with newspaper3k.
3. It rejects an article whose extracted text is empty.
4. It passes the first 1024 characters of the text to a BART summarisation
   pipeline (`max_length=130`, `min_length=30`, `do_sample=False`).
5. It takes the first record's `summary_text`.
6. It counts words with Python's `len(s.split())` in the full article text
   and in the summary.
7. It reports the reduction `(1 - summ_len / orig_len) * 100`.

Any exception is caught and shown as a "System Error" that carries the
exception's text.

The project has four modules:

- `Words` (`words.dfy`) defines which characters `str.split()` treats as
  whitespace. It models `str.split()` as `Split` and `len(s.split())` as
  `WordCount`. It proves that the count is the number of maximal
  non-whitespace runs, and that splitting keeps exactly the non-whitespace
  characters.
- `Truncation` (`truncation.dfy`) models the `text[:1024]` slice.
- `Metrics` (`metrics.dfy`) computes the reduction exactly, over the
  rationals (Dafny's `real`). A zero original count gives `None`, which
  stands for Python's division by zero.
- `Handler` (`handler.dfy`) models the handler as a function `Handle`. The
  fetcher and the summariser are function-typed parameters. `Handle` returns:
  - the outcome: URL missing, extraction failed, system error, or success
    with title, summary and metrics;
  - the calls made to the fetcher and the summariser, in order;
  - the panels the page shows, in order.

## Behaviour of the handler worth knowing

- The truncation bound counts characters, not model tokens. The comment at
  app.py:51 says "tokens", but the slice at app.py:52 counts characters.
- There is no separate fetch-error or zero-count category. A fetch failure
  and a zero original word count both end in the catch-all "System Error"
  (app.py:76-77).
- The title and the summary are rendered (app.py:58-63) before the word
  counts are computed (app.py:67-69). So text that is present but holds only
  whitespace shows the title and the summary first, and then the
  division-by-zero system error: the page can show a partial result.
  `Handler.BlankTextNeverSucceeds` and `Handler.PartialScreenOnlyForBlankText`
  state this behaviour.
- The summariser's output is not required to be non-empty. An empty summary
  counts as zero words.

## Model

| member | source | states |
|---|---|---|
| Words.Split | app.py:67-68 | every word `str.split()` returns is non-empty and free of whitespace |
| Words.WordCountIsWordStarts | app.py:67-68 | `len(s.split())` equals the number of indices where a maximal non-whitespace run begins |
| Words.WordCountZeroIffAllSpace | app.py:67-68 | the count is 0 exactly when the string is empty or all whitespace |
| Words.WordCountOfWord | app.py:67-68 | one non-empty run of non-whitespace characters counts as one word |
| Words.WordCountIgnoresOuterSpace | app.py:67-68 | leading and trailing whitespace do not change the count |
| Words.WordCountJoin | app.py:67-68 | two strings joined by whitespace have the sum of their counts |
| Words.WordCountPrefix | app.py:67-68 | a prefix never has more words than the whole string |
| Words.SplitKeepsNonSpace | app.py:67-68 | the words, concatenated, are exactly the input's non-whitespace characters in order |
| Truncation.Truncate | app.py:52 | the model input is a prefix of the text, at most 1024 characters, all of the text when it has at most 1024 characters, and exactly 1024 characters otherwise |
| Truncation.TruncatedWordsAtMost | app.py:52-67 | the truncated input never holds more words than the full text that `orig_len` counts |
| Truncation.OriginalCountCanExceedInput | app.py:52-67 | some text has more words than its truncation, so `orig_len` can exceed the words summarised |
| Truncation.TruncatePreservesEmptiness | app.py:47-52 | the truncated input is empty exactly when the text is, and whitespace-only text stays whitespace-only |
| Metrics.Reduction | app.py:69 | the division fails exactly when `orig_len` is 0; otherwise the result r satisfies r * orig = 100 * (orig - summ) |
| Metrics.ReductionWithinPercent | app.py:69 | when 0 < orig and summ ≤ orig, the reduction lies between 0 and 100 |
| Metrics.ReductionNegativeIff | app.py:69 | with orig > 0, the reduction is negative exactly when summ > orig |
| Metrics.ReductionExtremes | app.py:69 | the reduction is 100 exactly when the summary has no word, and 0 exactly when both counts are equal |
| Metrics.ReductionAntitone | app.py:69 | a longer summary never reports a larger reduction |
| Metrics.ReductionExample | app.py:69 | 200 original words and 20 summary words give exactly 90 |
| Handler.RequestFor | app.py:52 | the summariser gets exactly `Truncate(text)`, the text cut to its first 1024 characters, `max_length` 130, `min_length` 30 and no sampling |
| Handler.Handle | app.py:36-79 | the URL-missing outcome happens exactly for an empty URL, and then nothing is called; otherwise the fetch comes first, and the second and last possible call is the summariser with `RequestFor` of the fetched text |
| Handler.EmptyUrlOnlyWarns | app.py:37-79 | an empty URL gives only the warning, with no call and no metrics, whatever the collaborators would return |
| Handler.ExtractionFailedIff | app.py:47-48 | the extraction error happens exactly when the fetch gave empty text; the summariser is then never called and cannot affect the press |
| Handler.FetchFailureIsSystemError | app.py:76-77 | an exception from fetching or parsing becomes a system error with its text, after the fetch alone |
| Handler.SummariserFailureIsSystemError | app.py:52-53 | a raising summariser, an empty result list, or a first record without `summary_text` each end in a system error with the matching exception text |
| Handler.BlankTextNeverSucceeds | app.py:67-77 | non-empty whitespace-only text never succeeds; if the summariser answered, the press ends in "division by zero" after the title and summary were shown |
| Handler.SucceedsIff | app.py:47-74 | success happens exactly when the URL is non-empty, the text holds a word, and the summariser returned a first record with `summary_text` |
| Handler.SuccessContents | app.py:52-63 | a success carries the fetched title and the first `summary_text` returned for the truncated text, after exactly the fetch and that summariser call, and shows the title, the summary and the metrics in that order |
| Handler.SuccessMetrics | app.py:67-69 | on success, `orig_len` is the word count of the FULL text, is positive and is at least the count of the summariser input; `summ_len` is the summary's count; the reduction is their exact reduction, between 0 and 100 when the summary is no longer, and negative exactly when it is longer |
| Handler.ScreenMatchesOutcome | app.py:58-79 | every press ends with exactly one terminal panel, the one for its outcome; anything before it is the title followed by the summary |
| Handler.PartialScreenOnlyForBlankText | app.py:58-77 | a system error shown after the title and the summary happens only for non-empty, whitespace-only article text |

## Left out

- Page layout and decoration: `st.set_page_config`, the title, the markdown
  rules, columns, spinner and sidebar (app.py:28-34, 60-66, 82-85).
  Rendering is kept only as the ordered list of panels that carry content.
- newspaper3k's `Article`, `download()` and `parse()` (app.py:43-45). They
  are network I/O plus HTML extraction in a library this model does not
  contain, so their joint result is the `fetch` parameter.
- The transformers pipeline and loading BART (app.py:20-25). They are a
  foreign model call, so the summariser is the `summarize` parameter. Because
  it is a function, identical requests give identical answers.
- NLTK data download and `st.cache_resource` caching (app.py:7-16, 20). These
  are process-wide setup with no effect on one press.
- The processing time (app.py:40, 55). It reads the wall clock, so it is not
  part of `ResultMetrics`.
- Metrics.Reduction: `round(..., 1)` on the reduction (app.py:69) is not
  modelled. The reduction is exact, because binary floating-point rounding
  is outside the model.
- Exceptions raised by Streamlit's own rendering calls are not modelled.
- Python strings may hold lone surrogates, but Dafny characters are Unicode
  scalar values, so such strings are not modelled.
