/** One press of the "Generate Summary" button: fetch and extract the article
    at the URL, summarise its first 1024 characters, count words and compute
    the reduction, and report exactly one outcome. The article fetcher
    (newspaper3k's download and parse) and the BART summarisation pipeline
    are parameters: what they return for a given input is all the handler
    sees of them. */
module Handler {
  import opened Words
  import opened Truncation
  import opened Metrics

  /** What `Article(url)`, `download()` and `parse()` yield together: the
      extracted title and body text, or the text of the exception raised. */
  datatype FetchResult = Extracted(title: string, text: string) | FetchRaised(message: string)

  /** The arguments of one summariser call. */
  datatype SummaryRequest = SummaryRequest(text: string, maxLength: nat, minLength: nat, doSample: bool)

  /** What the summariser call yields: its list of result records, or the
      text of the exception raised. */
  datatype SummaryResult = Returned(outputs: seq<map<string, string>>) | SummaryRaised(message: string)

  /** A call into a collaborator, in the order the handler makes them. */
  datatype Call = Fetch(url: string) | Summarize(request: SummaryRequest)

  /** The figures shown in the Performance column (processing time aside). */
  datatype ResultMetrics = ResultMetrics(reduction: real, originalWords: nat, summaryWords: nat)

  /** How a press of the button ends. */
  datatype Outcome =
    | UrlMissing
    | ExtractionFailed
    | SystemError(message: string)
    | Summarised(title: string, summary: string, metrics: ResultMetrics)

  /** What the page shows, in order. Each panel holds the text as rendered,
      decoration included: the boxes their full messages, the heading
      `TitlePrefix` followed by the title. */
  datatype Panel =
    | WarningBox(message: string)
    | ErrorBox(message: string)
    | TitleHeading(title: string)
    | SummaryBox(summary: string)
    | MetricsBox(metrics: ResultMetrics)

  datatype Press = Press(outcome: Outcome, calls: seq<Call>, shown: seq<Panel>)

  const SummaryMaxLength: nat := 130
  const SummaryMinLength: nat := 30
  const SummaryTextKey := "summary_text"

  const UrlWarning := "\U{26A0}\U{FE0F} Please provide a URL first."
  const ExtractionMessage := "\U{274C} Could not extract text. The website may be blocking automated access."
  const SystemErrorPrefix := "\U{26A0}\U{FE0F} System Error: "
  const TitlePrefix := "\U{1F4C4} Title: "

  /** `str(e)` for the exceptions the handler itself can raise. */
  const IndexErrorText := "list index out of range"
  const KeyErrorText := "'summary_text'"
  const ZeroDivisionText := "division by zero"

  /** The only call the handler makes to the summariser, for article text
      `text`. */
  function RequestFor(text: string): (req: SummaryRequest)
    ensures req.text == Truncate(text)
    ensures req.text <= text && |req.text| <= MaxInputChars
    ensures |text| <= MaxInputChars ==> req.text == text
    ensures |text| > MaxInputChars ==> |req.text| == MaxInputChars
    ensures req.maxLength == 130 && req.minLength == 30 && !req.doSample
  {
    SummaryRequest(Truncate(text), SummaryMaxLength, SummaryMinLength, false)
  }

  /** The catch-all `except Exception as e`: whatever was shown before the
      exception stays, and the error box follows it. */
  function Raised(calls: seq<Call>, before: seq<Panel>, e: string): Press {
    Press(SystemError(e), calls, before + [ErrorBox(SystemErrorPrefix + e)])
  }

  /** The button handler. */
  function Handle(url: string, fetch: string -> FetchResult, summarize: SummaryRequest -> SummaryResult): (p: Press)
    ensures p.outcome.UrlMissing? <==> url == []
    ensures url == [] ==> p.calls == []
    ensures url != [] ==> p.calls != [] && p.calls[0] == Fetch(url)
    ensures |p.calls| <= 2
    ensures |p.calls| == 2 ==> fetch(url).Extracted? && p.calls[1] == Summarize(RequestFor(fetch(url).text))
  {
    if url == [] then
      Press(UrlMissing, [], [WarningBox(UrlWarning)])
    else
      match fetch(url)
      case FetchRaised(e) => Raised([Fetch(url)], [], e)
      case Extracted(title, text) =>
        if text == [] then
          Press(ExtractionFailed, [Fetch(url)], [ErrorBox(ExtractionMessage)])
        else
          var req := RequestFor(text);
          var calls := [Fetch(url), Summarize(req)];
          match summarize(req)
          case SummaryRaised(e) => Raised(calls, [], e)
          case Returned(outputs) =>
            if outputs == [] then Raised(calls, [], IndexErrorText)
            else if SummaryTextKey !in outputs[0] then Raised(calls, [], KeyErrorText)
            else
              var summary := outputs[0][SummaryTextKey];
              var before := [TitleHeading(TitlePrefix + title), SummaryBox(summary)];
              var originalWords := WordCount(text);
              var summaryWords := WordCount(summary);
              match Reduction(originalWords, summaryWords)
              case None => Raised(calls, before, ZeroDivisionText)
              case Some(r) =>
                var m := ResultMetrics(r, originalWords, summaryWords);
                Press(Summarised(title, summary, m), calls, before + [MetricsBox(m)])
  }

  /** The panel that closes the page for each outcome. */
  function FinalPanel(o: Outcome): Panel {
    match o
    case UrlMissing => WarningBox(UrlWarning)
    case ExtractionFailed => ErrorBox(ExtractionMessage)
    case SystemError(e) => ErrorBox(SystemErrorPrefix + e)
    case Summarised(_, _, m) => MetricsBox(m)
  }

  // -----------------------------------------------------------------------
  // Properties of one press.

  /** An empty URL only raises the warning: nothing is fetched, summarised or
      measured, whatever the collaborators would have done. */
  lemma EmptyUrlOnlyWarns(url: string, fetch: string -> FetchResult, summarize: SummaryRequest -> SummaryResult,
                          fetch': string -> FetchResult, summarize': SummaryRequest -> SummaryResult)
    requires url == []
    ensures Handle(url, fetch, summarize) == Press(UrlMissing, [], [WarningBox(UrlWarning)])
    ensures Handle(url, fetch, summarize) == Handle(url, fetch', summarize')
  {
  }

  /** The extraction error is reported exactly when the page was fetched and
      parsed but gave empty text; then the summariser is never called, and
      nothing it could return changes the press. */
  lemma ExtractionFailedIff(url: string, fetch: string -> FetchResult, summarize: SummaryRequest -> SummaryResult,
                            summarize': SummaryRequest -> SummaryResult)
    ensures Handle(url, fetch, summarize).outcome == ExtractionFailed
        <==> url != [] && fetch(url).Extracted? && fetch(url).text == []
    ensures Handle(url, fetch, summarize).outcome == ExtractionFailed ==>
              && Handle(url, fetch, summarize).calls == [Fetch(url)]
              && Handle(url, fetch, summarize).shown == [ErrorBox(ExtractionMessage)]
              && Handle(url, fetch, summarize) == Handle(url, fetch, summarize')
  {
  }

  /** An exception out of fetching or parsing is reported as a system error
      carrying its text, and the summariser is never called. */
  lemma FetchFailureIsSystemError(url: string, fetch: string -> FetchResult, summarize: SummaryRequest -> SummaryResult)
    requires url != [] && fetch(url).FetchRaised?
    ensures Handle(url, fetch, summarize) ==
              Press(SystemError(fetch(url).message), [Fetch(url)], [ErrorBox(SystemErrorPrefix + fetch(url).message)])
  {
  }

  /** Once there is text, every way the summariser call can fail (it raises,
      it returns no record, its first record has no "summary_text") ends in a
      system error with nothing shown before it. */
  lemma SummariserFailureIsSystemError(url: string, fetch: string -> FetchResult, summarize: SummaryRequest -> SummaryResult)
    requires url != [] && fetch(url).Extracted? && fetch(url).text != []
    ensures var res := summarize(RequestFor(fetch(url).text));
      var calls := [Fetch(url), Summarize(RequestFor(fetch(url).text))];
      && (res.SummaryRaised? ==> Handle(url, fetch, summarize) == Raised(calls, [], res.message))
      && (res.Returned? && res.outputs == [] ==> Handle(url, fetch, summarize) == Raised(calls, [], IndexErrorText))
      && (res.Returned? && res.outputs != [] && SummaryTextKey !in res.outputs[0] ==>
            Handle(url, fetch, summarize) == Raised(calls, [], KeyErrorText))
  {
  }

  /** Text that is present but holds no word (only whitespace) reaches the
      division with a zero original count, so it never succeeds: it ends in a
      system error, and when the summariser answered, in the division-by-zero
      error shown after the title and the summary. */
  lemma BlankTextNeverSucceeds(url: string, fetch: string -> FetchResult, summarize: SummaryRequest -> SummaryResult)
    requires url != [] && fetch(url).Extracted? && fetch(url).text != [] && AllSpace(fetch(url).text)
    ensures Handle(url, fetch, summarize).outcome.SystemError?
    ensures var res := summarize(RequestFor(fetch(url).text));
      res.Returned? && res.outputs != [] && SummaryTextKey in res.outputs[0] ==>
        var summary := res.outputs[0][SummaryTextKey];
        Handle(url, fetch, summarize).outcome == SystemError(ZeroDivisionText) &&
        Handle(url, fetch, summarize).shown ==
          [TitleHeading(TitlePrefix + fetch(url).title), SummaryBox(summary), ErrorBox(SystemErrorPrefix + ZeroDivisionText)]
  {
  }

  /** The press succeeds exactly when there is a URL, the article text holds
      at least one word, and the summariser returned a first record with a
      "summary_text". */
  lemma SucceedsIff(url: string, fetch: string -> FetchResult, summarize: SummaryRequest -> SummaryResult)
    ensures Handle(url, fetch, summarize).outcome.Summarised? <==>
      && url != []
      && fetch(url).Extracted?
      && !AllSpace(fetch(url).text)
      && summarize(RequestFor(fetch(url).text)).Returned?
      && summarize(RequestFor(fetch(url).text)).outputs != []
      && SummaryTextKey in summarize(RequestFor(fetch(url).text)).outputs[0]
  {
  }

  /** A success reports the extracted title and the first "summary_text"
      the summariser returned for the truncated text, after exactly the fetch
      and that one summariser call; the page shows the title, the summary and
      the metrics, in that order. */
  lemma SuccessContents(url: string, fetch: string -> FetchResult, summarize: SummaryRequest -> SummaryResult)
    requires Handle(url, fetch, summarize).outcome.Summarised?
    ensures var p := Handle(url, fetch, summarize);
      var req := RequestFor(fetch(url).text);
      && fetch(url) == Extracted(p.outcome.title, fetch(url).text)
      && p.calls == [Fetch(url), Summarize(req)]
      && p.outcome.summary == summarize(req).outputs[0][SummaryTextKey]
      && p.shown == [TitleHeading(TitlePrefix + p.outcome.title), SummaryBox(p.outcome.summary), MetricsBox(p.outcome.metrics)]
  {
  }

  /** The metrics of a success: the word count of the FULL article text
      (positive, and never fewer words than the summariser was given), the
      word count of the summary, and their reduction, which lies between 0
      and 100 when the summary is no longer and is negative exactly when it
      is longer. */
  lemma SuccessMetrics(url: string, fetch: string -> FetchResult, summarize: SummaryRequest -> SummaryResult)
    requires Handle(url, fetch, summarize).outcome.Summarised?
    ensures var o := Handle(url, fetch, summarize).outcome;
      var m := o.metrics;
      && m.originalWords == WordCount(fetch(url).text) > 0
      && m.originalWords >= WordCount(RequestFor(fetch(url).text).text)
      && m.summaryWords == WordCount(o.summary)
      && Reduction(m.originalWords, m.summaryWords) == Some(m.reduction)
      && (m.summaryWords <= m.originalWords ==> 0.0 <= m.reduction <= 100.0)
      && (m.reduction < 0.0 <==> m.summaryWords > m.originalWords)
  {
    var m := Handle(url, fetch, summarize).outcome.metrics;
    assert m.originalWords == WordCount(fetch(url).text) > 0;
    assert Reduction(m.originalWords, m.summaryWords) == Some(m.reduction);
    TruncatedWordsAtMost(fetch(url).text);
    if m.summaryWords <= m.originalWords {
      ReductionWithinPercent(m.originalWords, m.summaryWords);
    }
    ReductionNegativeIff(m.originalWords, m.summaryWords);
  }

  /** Every press ends with exactly one terminal panel, the one for its
      outcome; anything shown before it is the title and the summary. */
  lemma ScreenMatchesOutcome(url: string, fetch: string -> FetchResult, summarize: SummaryRequest -> SummaryResult)
    ensures var p := Handle(url, fetch, summarize);
      && p.shown != []
      && p.shown[|p.shown| - 1] == FinalPanel(p.outcome)
      && (|p.shown| == 1 || (|p.shown| == 3 && p.shown[0].TitleHeading? && p.shown[1].SummaryBox?))
  {
  }

  /** The title and the summary are shown ahead of an error only when the
      article text was present but whitespace-only. */
  lemma PartialScreenOnlyForBlankText(url: string, fetch: string -> FetchResult, summarize: SummaryRequest -> SummaryResult)
    requires Handle(url, fetch, summarize).outcome.SystemError?
    requires |Handle(url, fetch, summarize).shown| > 1
    ensures url != [] && fetch(url).Extracted? && fetch(url).text != [] && AllSpace(fetch(url).text)
  {
  }
}
