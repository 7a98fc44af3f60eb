/**
 * `executar_pesquisa`: the three research steps in order, the quote lookup
 * gated on a ticker, and the report saved only on a confirming answer.
 * Console output is left out; the services' answers, the typed answer, the
 * clock and the outcome of the file write are inputs.
 */
module Pipeline {
  import opened Wrappers
  import opened Text
  import opened Json
  import opened Generation
  import opened News
  import opened Quotes
  import opened Report

  /** The outside calls the pipeline makes, in the order it makes them. */
  datatype Request =
    | SummaryPrompt(company: string)
    | NewsSearch(company: string)
    | TickerPrompt(company: string)
    | QuoteLookup(ticker: string)

  /** What the outside services answer: the summary chain, the parsed news
      feed (None when the request or the parse failed), the ticker chain,
      and the market-data reply for a symbol (None when the request failed). */
  datatype Services = Services(
    summary: ChainOutcome,
    feed: Option<seq<ItemNode>>,
    tickerAnswer: ChainOutcome,
    market: string -> Option<Json>)

  /** What happened to the report: not asked for, written to `path`, or
      the write failed, where `text` is the content that was (or would have
      been) written; or the run ended with an uncaught exception before the
      question was asked. */
  datatype Saving = NotSaved | Saved(path: string, text: string) | SaveFailed(text: string) | Aborted

  /** The locals of `executar_pesquisa` at its end, with the calls made. */
  datatype Run = Run(
    summary: SummaryResult,
    news: seq<NewsItem>,
    ticker: string,
    quote: Option<Quote>,
    requests: seq<Request>,
    saving: Saving)

  /** The answers that confirm saving, once stripped and lower-cased. */
  const AcceptedAnswers: seq<string> := ["s", "sim", "y", "yes"]

  /** The confirmation test: `answer.strip().lower()` is one of the
      accepted answers. */
  predicate Confirms(answer: string) {
    Lower(Strip(answer)) in AcceptedAnswers
  }

  /** The outside calls of a run that resolved `ticker`: the three prompts,
      then the market lookup when there is a ticker. */
  function Calls(company: string, ticker: string): seq<Request> {
    [SummaryPrompt(company), NewsSearch(company), TickerPrompt(company)]
    + (if ticker != [] then [QuoteLookup(ticker)] else [])
  }

  /** The outcome of the saving step for a report with content `text`. */
  function SavingOf(company: string, answer: string, text: string, writeSucceeds: bool): Saving {
    if !Confirms(answer) then NotSaved
    else if writeSucceeds then Saved(ReportPath(company), text)
    else SaveFailed(text)
  }

  /** The price test of section C, `cotacao["preco"] > 0` as written,
      raises: there is a ticker and its quote's price is not a number. */
  predicate PriceCrashes(ticker: string, quote: Option<Quote>) {
    ticker != [] && quote.Some? && PriceAboveZeroAsWritten(quote.value.price).None?
  }

  /** What a research run as written produces, stage by stage: when the
      price test raises, the run ends there and the question about saving
      is never asked. */
  function Research(company: string, svc: Services, answer: string, timestamp: string,
                    fmt: Formatter, writeSucceeds: bool): Run
  {
    var summary := Summarize(company, svc.summary);
    var news := NewsOf(svc.feed);
    var ticker := NormaliseTicker(svc.tickerAnswer);
    var quote := if ticker != [] then Some(ExtractQuote(ticker, svc.market(ticker))) else None;
    var requests := Calls(company, ticker);
    var text := ReportText(company, summary, news, ticker, quote, timestamp, fmt);
    var saving := if PriceCrashes(ticker, quote) then Aborted else SavingOf(company, answer, text, writeSucceeds);
    Run(summary, news, ticker, quote, requests, saving)
  }

  /** The run as intended: the price test treats a value it cannot compare
      as no price (`PriceAvailable`), so the run always reaches the
      question about saving. */
  function ResearchCorrected(company: string, svc: Services, answer: string, timestamp: string,
                             fmt: Formatter, writeSucceeds: bool): Run
  {
    var summary := Summarize(company, svc.summary);
    var news := NewsOf(svc.feed);
    var ticker := NormaliseTicker(svc.tickerAnswer);
    var quote := if ticker != [] then Some(ExtractQuote(ticker, svc.market(ticker))) else None;
    var text := ReportText(company, summary, news, ticker, quote, timestamp, fmt);
    Run(summary, news, ticker, quote, Calls(company, ticker), SavingOf(company, answer, text, writeSucceeds))
  }

  /** `executar_pesquisa`, updating its locals step by step; a price test
      that raises ends it early. */
  method RunResearch(company: string, svc: Services, answer: string, timestamp: string,
                     fmt: Formatter, writeSucceeds: bool) returns (run: Run)
    ensures run == Research(company, svc, answer, timestamp, fmt, writeSucceeds)
  {
    var requests: seq<Request> := [SummaryPrompt(company)];
    var resumo := Summarize(company, svc.summary);

    requests := requests + [NewsSearch(company)];
    var noticias := FetchNews(svc.feed);

    requests := requests + [TickerPrompt(company)];
    var ticker := NormaliseTicker(svc.tickerAnswer);
    var cotacao: Option<Quote> := None;
    assert requests == [SummaryPrompt(company), NewsSearch(company), TickerPrompt(company)];
    if ticker != [] {
      requests := requests + [QuoteLookup(ticker)];
      cotacao := Some(ExtractQuote(ticker, svc.market(ticker)));
      if PriceAboveZeroAsWritten(cotacao.value.price).None? {
        run := Run(resumo, noticias, ticker, cotacao, requests, Aborted);
        return;
      }
    }
    assert requests == Calls(company, ticker);

    var saving := SaveIfConfirmed(company, resumo, noticias, ticker, cotacao, answer, timestamp, fmt, writeSucceeds);
    run := Run(resumo, noticias, ticker, cotacao, requests, saving);
  }

  /** The last block of `executar_pesquisa`: the answer is stripped and
      lower-cased, and only an accepted answer leads to `salvar_relatorio`. */
  method SaveIfConfirmed(company: string, resumo: SummaryResult, noticias: seq<NewsItem>, ticker: string,
                         cotacao: Option<Quote>, answer: string, timestamp: string, fmt: Formatter,
                         writeSucceeds: bool) returns (saving: Saving)
    ensures saving == SavingOf(company, answer, ReportText(company, resumo, noticias, ticker, cotacao, timestamp, fmt),
                               writeSucceeds)
  {
    var resposta := Lower(Strip(answer));
    saving := NotSaved;
    if resposta in AcceptedAnswers {
      var caminho, written := SaveReport(company, resumo, noticias, ticker, cotacao, timestamp, fmt, writeSucceeds);
      if caminho.Some? {
        saving := Saved(caminho.value, written);
      } else {
        saving := SaveFailed(written);
      }
    }
  }

  /** The three prompts always come first and in order; the market service
      is called once, with the ticker, exactly when the ticker is not
      empty, and a quote exists exactly then. With no ticker, section C of
      the report is the not-found line. */
  lemma QuoteOnlyWithTicker(company: string, svc: Services, answer: string, timestamp: string,
                            fmt: Formatter, writeSucceeds: bool)
    ensures var run := Research(company, svc, answer, timestamp, fmt, writeSucceeds);
      && run.requests[..3] == [SummaryPrompt(company), NewsSearch(company), TickerPrompt(company)]
      && |run.requests| == (if run.ticker != [] then 4 else 3)
      && (forall t :: QuoteLookup(t) in run.requests <==> run.ticker != [] && t == run.ticker)
      && (run.quote.Some? <==> run.ticker != [])
      && (run.ticker == [] ==> QuoteSection(run.ticker, run.quote, fmt) == NoTickerText)
  {
    CallsShape(company, NormaliseTicker(svc.tickerAnswer));
  }

  lemma CallsShape(company: string, ticker: string)
    ensures var calls := Calls(company, ticker);
      && calls[..3] == [SummaryPrompt(company), NewsSearch(company), TickerPrompt(company)]
      && |calls| == (if ticker != [] then 4 else 3)
      && (forall t :: QuoteLookup(t) in calls <==> ticker != [] && t == ticker)
  {
    var calls := Calls(company, ticker);
    var prompts := [SummaryPrompt(company), NewsSearch(company), TickerPrompt(company)];
    assert calls[..3] == prompts;
    forall t ensures QuoteLookup(t) in calls <==> ticker != [] && t == ticker {
      if QuoteLookup(t) in calls {
        assert forall j :: 0 <= j < 3 ==> calls[j] == prompts[j];
        var i :| 0 <= i < |calls| && calls[i] == QuoteLookup(t);
        assert calls[3] == QuoteLookup(ticker);
      }
      if ticker != [] && t == ticker {
        assert calls[3] == QuoteLookup(t);
      }
    }
  }

  /** The run aborts exactly when the price test raises. Otherwise the
      report is written only after a confirming answer; it is reported
      saved, at the sanitised path, exactly when the answer confirms and
      the write succeeds, and the text written is the rendering of the
      run's own summary, headlines, ticker and quote. */
  lemma SavedOnlyWhenConfirmed(company: string, svc: Services, answer: string, timestamp: string,
                               fmt: Formatter, writeSucceeds: bool)
    ensures var run := Research(company, svc, answer, timestamp, fmt, writeSucceeds);
      var crash := PriceCrashes(run.ticker, run.quote);
      && (run.saving.Aborted? <==> crash)
      && (run.saving.NotSaved? <==> !crash && !Confirms(answer))
      && (run.saving.Saved? <==> !crash && Confirms(answer) && writeSucceeds)
      && (run.saving.Saved? ==> run.saving.path == ReportPath(company))
      && (run.saving.Saved? || run.saving.SaveFailed? ==>
            run.saving.text == ReportText(company, run.summary, run.news, run.ticker, run.quote, timestamp, fmt))
  {
  }

  /** The corrected run never aborts, and where the run as written does not
      abort the two are the same run, down to the saving outcome; there the
      report's price test agrees with the comparison as written. Where the
      run as written aborts, it gathered what the corrected run gathered. */
  lemma CorrectedRunAgrees(company: string, svc: Services, answer: string, timestamp: string,
                           fmt: Formatter, writeSucceeds: bool)
    ensures var w := Research(company, svc, answer, timestamp, fmt, writeSucceeds);
      var c := ResearchCorrected(company, svc, answer, timestamp, fmt, writeSucceeds);
      && !c.saving.Aborted?
      && (c.saving.NotSaved? <==> !Confirms(answer))
      && (!w.saving.Aborted? ==> w == c)
      && w.(saving := NotSaved) == c.(saving := NotSaved)
      && (w.ticker != [] && !w.saving.Aborted? ==>
            PriceAvailable(w.quote.value.price) == PriceAboveZeroAsWritten(w.quote.value.price).value)
  {
  }

  /** A market reply whose `regularMarketPrice` is null aborts the run as
      written, whatever the answer would have been, while the corrected run
      goes on to the question and reports no price. */
  lemma NullPriceRunAborts(company: string, svc: Services, answer: string, timestamp: string,
                           fmt: Formatter, writeSucceeds: bool)
    requires NormaliseTicker(svc.tickerAnswer) != []
    requires svc.market(NormaliseTicker(svc.tickerAnswer)) == Some(JObj(map["chart" := JObj(map["result" :=
               JArr([JObj(map["meta" := JObj(map["regularMarketPrice" := JNull])])])])]))
    ensures Research(company, svc, answer, timestamp, fmt, writeSucceeds).saving == Aborted
    ensures var c := ResearchCorrected(company, svc, answer, timestamp, fmt, writeSucceeds);
      && c.quote.Some? && !PriceAvailable(c.quote.value.price)
      && (c.saving.NotSaved? <==> !Confirms(answer))
  {
    NullPriceRaises(NormaliseTicker(svc.tickerAnswer));
  }

  /** The answer cannot change what was gathered: two runs that differ only
      in the answer and the write outcome found the same summary, headlines,
      ticker and quote and made the same calls. */
  lemma AnswerOnlyGatesSaving(company: string, svc: Services, a1: string, a2: string, timestamp: string,
                              fmt: Formatter, w1: bool, w2: bool)
    ensures var r1 := Research(company, svc, a1, timestamp, fmt, w1);
      var r2 := Research(company, svc, a2, timestamp, fmt, w2);
      r1.(saving := NotSaved) == r2.(saving := NotSaved)
  {
  }

  /** A string spells `w` up to the case of its ASCII letters. */
  predicate CaseVariant(x: string, w: string) {
    |x| == |w| && forall i :: 0 <= i < |x| ==> x[i] == w[i] || x[i] == UpperChar(w[i])
  }

  predicate LowerAscii(w: string) {
    forall i :: 0 <= i < |w| ==> 'a' <= w[i] <= 'z'
  }

  /** The characters that lower-case to an ASCII lower-case letter are the
      letter itself and its capital. */
  lemma LowerCharOf(c: char, l: char)
    requires 'a' <= l <= 'z'
    ensures LowerChar(c) == l <==> c == l || c == UpperChar(l)
  {
  }

  /** Lower-casing gives a word of ASCII lower-case letters exactly for the
      case variants of that word. */
  lemma LowerIsCaseVariant(x: string, w: string)
    requires LowerAscii(w)
    ensures Lower(x) == w <==> CaseVariant(x, w)
  {
    if |x| == |w| {
      forall i | 0 <= i < |x| ensures LowerChar(x[i]) == w[i] <==> x[i] == w[i] || x[i] == UpperChar(w[i]) {
        LowerCharOf(x[i], w[i]);
      }
      if CaseVariant(x, w) {
        assert forall i :: 0 <= i < |x| ==> Lower(x)[i] == w[i];
      }
    }
  }

  /** The answers that confirm are exactly those that, once stripped, spell
      `s`, `sim`, `y` or `yes` in any mix of upper and lower case. */
  lemma ConfirmationSpellings(answer: string)
    ensures Confirms(answer) <==> exists k :: 0 <= k < |AcceptedAnswers| && CaseVariant(Strip(answer), AcceptedAnswers[k])
  {
    var x := Strip(answer);
    forall k | 0 <= k < |AcceptedAnswers| ensures Lower(x) == AcceptedAnswers[k] <==> CaseVariant(x, AcceptedAnswers[k]) {
      LowerIsCaseVariant(x, AcceptedAnswers[k]);
    }
  }

  /** A capitalised answer surrounded by whitespace confirms, such as
      `" YES\n"` typed with a trailing newline. */
  lemma PaddedCapitalsConfirm(pre: string, post: string)
    requires AllSpace(pre) && AllSpace(post)
    ensures Confirms(pre + "YES" + post)
  {
    StripPadding(pre, "YES", post);
    LowerIsCaseVariant("YES", "yes");
    assert "yes" == AcceptedAnswers[3];
  }

  /** With the generation backend down, the run does not notice: the
      summary reports success with the error text as its analysis, the
      ticker is the word "Erro", and the market service is asked for it. */
  lemma BackendDownRun(company: string, svc: Services, m1: string, m2: string, answer: string,
                       timestamp: string, fmt: Formatter, writeSucceeds: bool)
    requires svc.summary == ThroughGemini(BackendError(m1))
    requires svc.tickerAnswer == ThroughGemini(BackendError(m2))
    ensures var run := Research(company, svc, answer, timestamp, fmt, writeSucceeds);
      && run.summary.success
      && "Erro na geração:" <= run.summary.analysis
      && run.ticker == "Erro"
      && run.requests[3] == QuoteLookup("Erro")
      && run.quote == Some(ExtractQuote("Erro", svc.market("Erro")))
  {
    SummaryOfBackendFailure(company, m1);
    TickerOfBackendFailure(m2);
  }
}

/**
 * `main`: where the company name comes from. Reading the arguments and the
 * keyboard is outside the model; both are inputs.
 */
module Entry {
  import opened Wrappers
  import opened Text

  /** `sep.join(parts)`. */
  function Join(parts: seq<string>, sep: string): (r: string)
    ensures parts == [] ==> r == []
    ensures |parts| == 1 ==> r == parts[0]
  {
    if parts == [] then []
    else if |parts| == 1 then parts[0]
    else parts[0] + sep + Join(parts[1..], sep)
  }

  /** Joining one more part puts the separator and the part at the end:
      with the single-part case, this pins `Join` down for every list. */
  lemma {:induction false} JoinSnoc(parts: seq<string>, x: string, sep: string)
    requires parts != []
    ensures Join(parts + [x], sep) == Join(parts, sep) + sep + x
    decreases |parts|
  {
    var whole := parts + [x];
    if |parts| == 1 {
      assert whole[1..] == [x];
    } else {
      var tail := parts[1..];
      assert whole[0] == parts[0] && whole[1..] == tail + [x];
      JoinSnoc(tail, x, sep);
      Assoc5(parts[0], sep, Join(tail, sep), sep, x);
    }
  }

  /** The name `main` researches: the arguments joined by spaces when there
      are any, otherwise the typed line stripped; None where `main` exits
      because the typed name is empty. */
  function CompanyName(args: seq<string>, typed: string): (name: Option<string>)
    ensures args != [] ==> name.Some?
    ensures args == [] ==> (name.None? <==> AllSpace(typed))
    ensures args == [] && name.Some? ==> name.value == Strip(typed) && IsStripped(name.value)
  {
    if args != [] then Some(Join(args, " "))
    else
      var n := Strip(typed);
      StripEmpty(typed);
      if n == [] then None else Some(n)
  }

  /** Only the interactive path rejects an empty name: an empty or blank
      argument is researched as it is. */
  lemma ArgumentNotChecked(blank: string, typed: string)
    requires AllSpace(blank)
    ensures CompanyName([blank], typed) == Some(blank)
  {
  }

  /** Several arguments form one name, separated by single spaces. */
  lemma ArgumentsJoined(first: string, second: string, typed: string)
    ensures CompanyName([first, second], typed) == Some(first + " " + second)
  {
    assert [first, second][1..] == [second];
  }
}
