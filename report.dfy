/**
 * `salvar_relatorio`: the report file's path and its text. Creating the
 * directory and writing the file are outside the model; whether the write
 * succeeded is an input.
 */
module Report {
  import opened Wrappers
  import opened Text
  import opened Json
  import opened Generation
  import opened News
  import opened Quotes

  /** A line of 80 `=` characters, the separator between sections. */
  const Rule := "================================================================================"

  const ReportDir := "relatorios/"
  const ReportExt := ".txt"

  /** `nome_empresa.replace(" ", "_").replace("/", "-")`. */
  function FileStem(company: string): (stem: string)
    ensures |stem| == |company|
    ensures ' ' !in stem && '/' !in stem
    ensures forall i :: 0 <= i < |company| ==>
      stem[i] == (if company[i] == ' ' then '_' else if company[i] == '/' then '-' else company[i])
  {
    var stem := Replace(Replace(company, ' ', '_'), '/', '-');
    assert forall i :: 0 <= i < |stem| ==> stem[i] != ' ' && stem[i] != '/';
    stem
  }

  /** The path the report is written to: `relatorios/<stem>.txt`. */
  function ReportPath(company: string): (path: string)
    ensures |path| == |ReportDir| + |company| + |ReportExt|
    ensures ReportDir <= path && path[|path| - |ReportExt|..] == ReportExt
    ensures path[|ReportDir|..|path| - |ReportExt|] == FileStem(company)
  {
    var stem := FileStem(company);
    var path := ReportDir + stem + ReportExt;
    assert path[|ReportDir|..|path| - |ReportExt|] == stem;
    path
  }

  /** The report path always names a file directly inside `relatorios`: its
      only `/` is the one after the directory name, and it holds no space. */
  lemma ReportPathSafe(company: string)
    ensures forall i :: 0 <= i < |ReportPath(company)| && ReportPath(company)[i] == '/' ==> i == |ReportDir| - 1
    ensures ' ' !in ReportPath(company)
  {
    var path, stem := ReportPath(company), FileStem(company);
    var d, m := |ReportDir|, |ReportDir| + |stem|;
    FixedPartsSafe();
    assert forall i :: 0 <= i < d ==> path[i] == ReportDir[i];
    assert forall i :: d <= i < m ==> path[i] == stem[i - d] by {
      forall i | d <= i < m ensures path[i] == stem[i - d] {
        assert path[d..m][i - d] == path[i];
      }
    }
    assert forall i :: m <= i < |path| ==> path[i] == ReportExt[i - m] by {
      forall i | m <= i < |path| ensures path[i] == ReportExt[i - m] {
        assert path[m..][i - m] == path[i];
      }
    }
  }

  /** The directory and the extension hold no space, and the directory's
      only `/` is its last character. */
  lemma FixedPartsSafe()
    ensures forall i :: 0 <= i < |ReportDir| && ReportDir[i] == '/' ==> i == |ReportDir| - 1
    ensures ' ' !in ReportDir && '/' !in ReportExt && ' ' !in ReportExt
  {
  }

  /** A name part that sanitising leaves alone. */
  predicate Plain(a: string) {
    ' ' !in a && '/' !in a
  }

  /** The shape of `Acme Corp`: a space between plain parts becomes `_`. */
  lemma SpacedNamePath(a: string, b: string)
    requires Plain(a) && Plain(b)
    ensures ReportPath(a + " " + b) == ReportDir + (a + "_" + b) + ReportExt
  {
    StemOfPlain(a);
    StemOfPlain(b);
    StemOfParts(a, ' ', b);
    PathOfStem(a + " " + b, a + "_" + b);
  }

  /** The shape of `A/B Co`: a slash becomes `-` and a space `_`. */
  lemma SlashedNamePath(a: string, b: string, c: string)
    requires Plain(a) && Plain(b) && Plain(c)
    ensures ReportPath(a + "/" + (b + " " + c)) == ReportDir + (a + "-" + (b + "_" + c)) + ReportExt
  {
    var rest := b + " " + c;
    assert FileStem(rest) == b + "_" + c by {
      StemOfPlain(b);
      StemOfPlain(c);
      StemOfParts(b, ' ', c);
    }
    assert FileStem(a + "/" + rest) == a + "-" + (b + "_" + c) by {
      StemOfPlain(a);
      StemOfParts(a, '/', rest);
    }
    PathOfStem(a + "/" + rest, a + "-" + (b + "_" + c));
  }

  lemma PathOfStem(company: string, stem: string)
    requires FileStem(company) == stem
    ensures ReportPath(company) == ReportDir + stem + ReportExt
  {
  }

  /** A plain name is its own stem. */
  lemma StemOfPlain(a: string)
    requires Plain(a)
    ensures FileStem(a) == a
  {
    assert forall i :: 0 <= i < |a| ==> FileStem(a)[i] == a[i];
  }

  /** Sanitising works character by character: a name cut at one character
      is sanitised piece by piece. */
  lemma StemOfParts(a: string, c: char, b: string)
    ensures FileStem(a + [c] + b) == FileStem(a) + FileStem([c]) + FileStem(b)
  {
    var x := a + [c] + b;
    var y := FileStem(a) + FileStem([c]) + FileStem(b);
    assert forall i :: 0 <= i < |x| ==> FileStem(x)[i] == y[i];
  }

  /** Sanitising is not injective: names that differ only in a space
      versus an underscore share a file, so one report overwrites the
      other. */
  lemma SharedReportFile(a: string, b: string)
    ensures ReportPath(a + " " + b) == ReportPath(a + "_" + b)
  {
    StemOfParts(a, ' ', b);
    StemOfParts(a, '_', b);
    PathOfStem(a + " " + b, FileStem(a + "_" + b));
  }

  /** The two outside formatters the text relies on: `format(x, ".2f")`
      for a price and `str(x)` for a JSON value that is not a string. */
  datatype Formatter = Formatter(fixed2: real -> string, show: Json -> string)

  /** How an f-string shows a JSON value. */
  function Display(j: Json, fmt: Formatter): string {
    if j.JStr? then j.s else fmt.show(j)
  }

  /** The report up to the timestamp. */
  function HeaderBefore(company: string): string {
    Rule + "\nRELATÓRIO DE PESQUISA AUTOMATIZADA: " + Upper(company) + "\n"
    + Rule + "\n\nData/Hora: "
  }

  /** From the timestamp's end to the heading of section B included:
      section A holds the summary's analysis. */
  function HeaderAfter(summary: SummaryResult): string {
    "\nSistema: LangChain + Google Gemini 2.5 Flash\n\n"
    + Rule + "\nA. RESUMO/DESCRIÇÃO DA EMPRESA\n" + Rule + "\n\n"
    + summary.analysis + "\n\n"
    + Rule + "\nB. ÚLTIMAS NOTÍCIAS RELEVANTES\n" + Rule + "\n\n"
  }

  function Opening(company: string, timestamp: string, summary: SummaryResult): string {
    HeaderBefore(company) + timestamp + HeaderAfter(summary)
  }

  const NoNewsText := "Nenhuma notícia disponível.\n\n"

  /** The numbered title line of headline `i`. */
  function TitleLine(i: nat, n: NewsItem): string {
    "[" + NatToString(i) + "] " + n.title + "\n"
  }

  /** The date line, present only when the date is not empty. */
  function DateLine(n: NewsItem): string {
    if n.date != [] then "    Data: " + n.date + "\n" else ""
  }

  /** The link line, present only when the link is not empty. */
  function LinkLine(n: NewsItem): string {
    if n.link != [] then "    Link: " + n.link + "\n" else ""
  }

  /** The lines for headline number `i`: the numbered title, then the date
      and link lines when those are not empty, then a blank line. */
  function NewsEntry(i: nat, n: NewsItem): string {
    TitleLine(i, n) + DateLine(n) + LinkLine(n) + "\n"
  }

  /** The entries for `news`, numbered consecutively from `first`. */
  function NewsEntries(news: seq<NewsItem>, first: nat): string {
    if news == [] then "" else NewsEntry(first, news[0]) + NewsEntries(news[1..], first + 1)
  }

  /** Section B's body. */
  function NewsSection(news: seq<NewsItem>): string {
    if news == [] then NoNewsText else NewsEntries(news, 1)
  }

  const QuoteHeading := Rule + "\nC. VALOR DA AÇÃO (COTAÇÃO ATUAL)\n" + Rule + "\n\n"
  const NoTickerText := "Ticker não encontrado.\n"
  const NoQuoteText := "Cotação não disponível.\n"

  /** `cotacao.get("preco", 0)`: the quote is absent (an empty dictionary)
      when no ticker was found. */
  function PriceOf(quote: Option<Quote>): Json {
    if quote.Some? then quote.value.price else JNum(0.0)
  }

  function PriceLine(quote: Quote, fmt: Formatter): string
    requires PriceAvailable(quote.price)
  {
    "Preço Atual: " + Display(quote.currency, fmt) + " " + fmt.fixed2(NumericValue(quote.price).value) + "\n"
  }

  /** Section C's body: the ticker line and the price or its placeholder,
      or the not-found line. */
  function QuoteSection(ticker: string, quote: Option<Quote>, fmt: Formatter): string {
    if ticker != [] then
      "Ticker: " + ticker + "\n"
      + (if PriceAvailable(PriceOf(quote)) then PriceLine(quote.value, fmt) else NoQuoteText)
    else NoTickerText
  }

  const Footer := "\n" + Rule + "\nRelatório gerado automaticamente via LangChain + Google Gemini\n" + Rule + "\n"

  /** Everything after section A: sections B and C and the footer. */
  function Body(news: seq<NewsItem>, ticker: string, quote: Option<Quote>, fmt: Formatter): string {
    NewsSection(news) + QuoteHeading + QuoteSection(ticker, quote, fmt) + Footer
  }

  /** The whole text of the report. */
  function ReportText(company: string, summary: SummaryResult, news: seq<NewsItem>, ticker: string,
                      quote: Option<Quote>, timestamp: string, fmt: Formatter): string
  {
    Opening(company, timestamp, summary) + Body(news, ticker, quote, fmt)
  }

  /** The text `salvar_relatorio` builds, statement by statement: the
      opening, then section B, section C and the footer appended with `+=`. */
  method RenderReport(company: string, summary: SummaryResult, news: seq<NewsItem>, ticker: string,
                      quote: Option<Quote>, timestamp: string, fmt: Formatter) returns (conteudo: string)
    ensures conteudo == ReportText(company, summary, news, ticker, quote, timestamp, fmt)
  {
    var opening := Opening(company, timestamp, summary);
    conteudo := AppendNews(opening, news);
    conteudo := conteudo + QuoteHeading;
    conteudo := AppendQuote(conteudo, ticker, quote, fmt);
    conteudo := conteudo + Footer;
    Assoc5(opening, NewsSection(news), QuoteHeading, QuoteSection(ticker, quote, fmt), Footer);
  }

  /** Section B appended to `conteudo`: one entry per headline, numbered
      from 1, or the placeholder. */
  method AppendNews(start: string, news: seq<NewsItem>) returns (conteudo: string)
    ensures conteudo == start + NewsSection(news)
  {
    conteudo := start;
    if news != [] {
      for i := 0 to |news|
        invariant conteudo == start + NewsEntries(news[..i], 1)
      {
        conteudo := AppendEntry(conteudo, i + 1, news[i]);
        EntriesStep(start, news, i);
      }
      assert news[..|news|] == news;
    } else {
      conteudo := conteudo + NoNewsText;
    }
  }

  /** The loop body of section B: the lines of headline `i` appended to
      `conteudo`, the date and link lines only when not empty. */
  method AppendEntry(start: string, i: nat, noticia: NewsItem) returns (conteudo: string)
    ensures conteudo == start + NewsEntry(i, noticia)
  {
    conteudo := start + ("[" + NatToString(i) + "] " + noticia.title + "\n");
    ghost var titled := conteudo;
    if noticia.date != [] {
      conteudo := conteudo + ("    Data: " + noticia.date + "\n");
    } else {
      assert conteudo == titled + DateLine(noticia);
    }
    ghost var dated := conteudo;
    if noticia.link != [] {
      conteudo := conteudo + ("    Link: " + noticia.link + "\n");
    } else {
      assert conteudo == dated + LinkLine(noticia);
    }
    conteudo := conteudo + "\n";
    Assoc5(start, TitleLine(i, noticia), DateLine(noticia), LinkLine(noticia), "\n");
  }

  lemma EntriesStep(start: string, news: seq<NewsItem>, i: nat)
    requires i < |news|
    ensures start + NewsEntries(news[..i], 1) + NewsEntry(i + 1, news[i]) == start + NewsEntries(news[..i + 1], 1)
  {
    var pre := news[..i];
    assert news[..i + 1] == pre + [news[i]];
    NewsEntriesSnoc(pre, news[i], 1);
    Assoc3(start, NewsEntries(pre, 1), NewsEntry(i + 1, news[i]));
  }

  /** Section C appended to `conteudo`. */
  method AppendQuote(start: string, ticker: string, quote: Option<Quote>, fmt: Formatter) returns (conteudo: string)
    ensures conteudo == start + QuoteSection(ticker, quote, fmt)
  {
    conteudo := start;
    if ticker != [] {
      conteudo := conteudo + ("Ticker: " + ticker + "\n");
      var line;
      if PriceAvailable(PriceOf(quote)) {
        line := PriceLine(quote.value, fmt);
      } else {
        line := NoQuoteText;
      }
      conteudo := conteudo + line;
      Assoc3(start, "Ticker: " + ticker + "\n", line);
    } else {
      conteudo := conteudo + NoTickerText;
    }
  }

  /** `salvar_relatorio`: the text it writes, and the path it returns when
      the write succeeds (None otherwise). */
  method SaveReport(company: string, summary: SummaryResult, news: seq<NewsItem>, ticker: string,
                    quote: Option<Quote>, timestamp: string, fmt: Formatter, writeSucceeds: bool)
    returns (saved: Option<string>, written: string)
    ensures written == ReportText(company, summary, news, ticker, quote, timestamp, fmt)
    ensures saved == (if writeSucceeds then Some(ReportPath(company)) else None)
  {
    var caminho := ReportPath(company);
    written := RenderReport(company, summary, news, ticker, quote, timestamp, fmt);
    if writeSucceeds {
      saved := Some(caminho);
    } else {
      saved := None;
    }
  }

  /** One more headline adds its entry, numbered after the others. */
  lemma NewsEntriesSnoc(news: seq<NewsItem>, n: NewsItem, first: nat)
    ensures NewsEntries(news + [n], first) == NewsEntries(news, first) + NewsEntry(first + |news|, n)
  {
    NewsEntriesAppend(news, [n], first);
    assert NewsEntries([n], first + |news|) == NewsEntry(first + |news|, n) + "";
  }

  /** Numbering runs on across a split of the list: the second part's
      entries start where the first part's stop. */
  lemma {:induction false} NewsEntriesAppend(a: seq<NewsItem>, b: seq<NewsItem>, first: nat)
    ensures NewsEntries(a + b, first) == NewsEntries(a, first) + NewsEntries(b, first + |a|)
    decreases |a|
  {
    if a == [] {
      assert a + b == b;
    } else {
      var tail := a[1..];
      assert (a + b)[0] == a[0] && (a + b)[1..] == tail + b;
      assert first + 1 + |tail| == first + |a|;
      NewsEntriesAppend(tail, b, first + 1);
      JoinStep(NewsEntries(a + b, first), NewsEntry(first, a[0]), NewsEntries(tail + b, first + 1),
               NewsEntries(tail, first + 1), NewsEntries(b, first + |a|), NewsEntries(a, first));
    }
  }

  /** One step of the induction above, on plain strings: `whole` is `e`
      before `merged`, `merged` splits as `rest` then `later`, and `part` is
      `e` before `rest`. */
  lemma JoinStep(whole: string, e: string, merged: string, rest: string, later: string, part: string)
    requires whole == e + merged && merged == rest + later && part == e + rest
    ensures whole == part + later
  {
    Assoc3(e, rest, later);
  }

  /** Headline k (counting from 0) is printed as entry number k + 1, after
      the entries of the headlines before it and before those after it. */
  lemma NewsNumbering(news: seq<NewsItem>, k: nat)
    requires k < |news|
    ensures NewsSection(news)
      == NewsEntries(news[..k], 1) + NewsEntry(k + 1, news[k]) + NewsEntries(news[k + 1..], k + 2)
  {
    assert news == news[..k] + ([news[k]] + news[k + 1..]);
    NewsEntriesAppend(news[..k], [news[k]] + news[k + 1..], 1);
    assert ([news[k]] + news[k + 1..])[1..] == news[k + 1..];
  }

  /** Section B is the placeholder exactly when there is no headline: any
      headline's entry starts with `[`. */
  lemma NoNewsPlaceholder(news: seq<NewsItem>)
    ensures NewsSection(news) == NoNewsText <==> news == []
  {
    if news != [] {
      assert NewsSection(news)[0] == '[';
      assert NoNewsText[0] == 'N';
    }
  }

  /** Section C is the not-found line exactly when the ticker is empty;
      otherwise it starts with the ticker line and shows a price exactly
      when the quote has a price above zero. */
  lemma QuoteSectionCases(ticker: string, quote: Option<Quote>, fmt: Formatter)
    ensures var c := QuoteSection(ticker, quote, fmt);
      && (ticker == [] <==> c == NoTickerText)
      && (ticker != [] ==> "Ticker: " + ticker + "\n" <= c)
      && (ticker != [] && !PriceAvailable(PriceOf(quote)) ==> c == "Ticker: " + ticker + "\n" + NoQuoteText)
      && (ticker != [] && PriceAvailable(PriceOf(quote)) ==>
            c == "Ticker: " + ticker + "\n" + PriceLine(quote.value, fmt))
  {
    var c := QuoteSection(ticker, quote, fmt);
    if ticker != [] {
      var head := "Ticker: " + ticker + "\n";
      assert c[..|head|] == head;
      assert c[0] == 'T' && c[1] == 'i' && c[6] == ':';
      assert NoTickerText[6] == ' ';
    }
  }

  /** The timestamp is the only part of the text that depends on it: two
      renderings of the same data with different timestamps share the text
      before the timestamp and the text after it, and are identical when
      the timestamps are. */
  lemma TimestampOnlyInHeader(company: string, summary: SummaryResult, news: seq<NewsItem>, ticker: string,
                              quote: Option<Quote>, fmt: Formatter, t1: string, t2: string)
    ensures var before := HeaderBefore(company);
      var after := HeaderAfter(summary) + Body(news, ticker, quote, fmt);
      && ReportText(company, summary, news, ticker, quote, t1, fmt) == before + t1 + after
      && ReportText(company, summary, news, ticker, quote, t2, fmt) == before + t2 + after
  {
    Assoc3(HeaderBefore(company) + t1, HeaderAfter(summary), Body(news, ticker, quote, fmt));
    Assoc3(HeaderBefore(company) + t2, HeaderAfter(summary), Body(news, ticker, quote, fmt));
  }
}
