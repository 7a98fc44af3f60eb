# Automated company research — a verified model

`main.py` is a command-line research assistant. Given a company name it:

- asks Google Gemini, through a LangChain chain, for an executive summary;
- reads up to five headlines from the Google News RSS feed;
- asks Gemini for the company's stock ticker and, when one comes back, reads the current quote from Yahoo Finance;
- asks whether to save the report, and if the answer is yes, writes a three-section text report to `relatorios/<name>.txt`.

This project models the deterministic core of that program in Dafny. Every external service becomes an input value:

- the Gemini reply or error;
- the parsed RSS items, or their absence;
- the parsed Yahoo JSON per ticker;
- the typed answer;
- the clock reading;
- whether the file write succeeded.

The modules follow the program's stages:

- `Text` (`text.dfy`): Python's `str.strip`, `str.split`, `replace`, `lower` and `upper` on code points, plus decimal numbering.
- `Generation` (`generation.dfy`): `GeminiLLM._call`, the summary dictionary of `pesquisar_empresa_completa` and the ticker clean-up of `buscar_ticker`.
- `News` (`news.dfy`): the item loop of `buscar_noticias`, as a method with a loop, specified by a selection function.
- `Json` and `Quotes` (`quotes.dfy`): the parsed JSON value and the meta extraction of `obter_cotacao`.
- `Report` (`report.dfy`):
  - the file path and the report text of `salvar_relatorio`;
  - the text is built by methods that append piece by piece, as the source does with `conteudo +=`, each proved equal to a specification function.
- `Pipeline` and `Entry` (`pipeline.dfy`):
  - the step-by-step workflow of `executar_pesquisa`, including the calls it makes to the outside;
  - how `main` obtains the company name.

Three behaviours of the code worth noting:

- **Gemini failure.** A failed Gemini request does not make the summary fail. `_call` catches the error and returns the text `Erro na geração: …` (main.py:69). The summary is therefore marked successful, and the ticker step turns that text into the ticker `Erro`, which is then looked up (`Pipeline.BackendDownRun`).
- **Missing title text.** An item whose title element has no text gets the title `Sem título` (main.py:156).
- **Non-numeric price.** The price test of section C (main.py:350) compares whatever Yahoo returned with 0. A null price raises an uncaught `TypeError` and the run ends before the save question. The model gives that run the outcome `Aborted` (`Pipeline.Research`) and also defines the run as intended (`Pipeline.ResearchCorrected`); see "## Findings".

## Model

| member | source | states |
|---|---|---|
| Text.Strip | main.py:67 | the result has no leading or trailing whitespace; it is the slice of the input after its leading whitespace, and only whitespace lies outside it |
| Text.StripIdempotent | main.py:121 | stripping twice is the same as stripping once (the summary text is stripped by `_call` and again by the caller) |
| Text.StripKeepsPrefix | main.py:121 | a non-empty stripped prefix survives stripping of the whole text |
| Text.StripPadding | main.py:360 | surrounding whitespace of any kind is removed and a stripped word is returned unchanged |
| Text.StripEmpty | main.py:125 | the stripped text is empty exactly when the input is all whitespace |
| Text.Words | main.py:197 | `split()` yields only non-empty words without whitespace |
| Text.WordsFromBlank | main.py:197 | from any position, no further word is found exactly when only whitespace remains |
| Text.WordsFromRun | main.py:197 | from any position, the next word is the maximal whitespace-free run after the skipped whitespace, followed by the words after it; with `WordsFromBlank` the words are the maximal runs in order |
| Text.FirstWord | main.py:197 | the first word is empty exactly for blank input, and holds no whitespace |
| Text.FirstWordPlace | main.py:197 | the first word is the maximal whitespace-free run right after the leading whitespace |
| Text.FirstWordChars | main.py:197 | every character of the first word occurs in the input |
| Text.DeleteMembers | main.py:197 | `replace(c, "")` keeps exactly the characters other than `c` |
| Text.Replace | main.py:234 | `replace(a, b)` on single characters changes every `a` to `b` and nothing else, keeping the length |
| Text.Lower | main.py:360 | lower-casing maps each character and keeps the length |
| Text.Upper | main.py:238 | upper-casing maps each character and keeps the length |
| Text.NatToStringRoundTrip | main.py:257-258 | the decimal rendering of an entry number reads back as that number |
| Generation.CallGemini | main.py:55-69 | a completion is returned as its text stripped, no longer than that text; a backend error becomes `Erro na geração: ` plus the first 200 characters of the message, all of it if shorter |
| Generation.Summarize | main.py:119-133 | `empresa` echoes the input; `sucesso` holds exactly when the chain returned; a successful `analise` is non-empty and stripped, with the placeholder for blank text; a raised chain gives `Erro ao processar: ` plus the message |
| Generation.SummaryOfBackendFailure | main.py:69 | a failed Gemini call still yields a successful summary whose text starts with `Erro na geração:` and is at most 217 characters |
| Generation.NormaliseTicker | main.py:194-201 | the ticker is empty or one whitespace-free token without `*` or backquote; a raised chain gives the empty ticker |
| Generation.TickerIsFirstWord | main.py:196-197 | the ticker is empty exactly when the undecorated answer is blank; otherwise it is the maximal token after the leading whitespace |
| Generation.DecoratedTicker | main.py:196-197 | a symbol wrapped in any `*`/backquote decoration and followed by whitespace and anything else normalises to the bare symbol |
| Generation.TickerOfDecoratedAnswer | main.py:196-197 | `**AAPL** (Apple Inc.)` normalises to `AAPL` |
| Generation.TickerOfDecorationOnly | main.py:197-201 | an answer of only decoration and whitespace gives the empty ticker and no error escapes |
| Generation.TickerOfBackendFailure | main.py:69 | when Gemini fails, the ticker becomes `Erro` |
| News.ToNews | main.py:155-159 | title, link and date are the stripped text when present, otherwise `Sem título`, the empty link and `Data não disponível` |
| News.BlankFields | main.py:156-158 | a field is empty exactly when its element holds whitespace-only text (and, for the link, also when it has no text) |
| News.NewsOf | main.py:139-166 | at most five headlines; a failed fetch or parse gives none |
| News.FetchNews | main.py:147-162 | the loop's list equals the selection of listed items among the first five |
| News.SelectSnoc | main.py:154-160 | each item visited adds its headline at the end exactly when it has title and link elements |
| News.ListedFromOrdered | main.py:149-154 | the positions of listed items are increasing, in range, listed, and include every listed item |
| News.SelectAtListed | main.py:149-160 | the k-th headline is built from the k-th listed item |
| News.NewsFollowsDocument | main.py:149-160 | headlines keep document order, come from the first five items only, and every listed one of those appears |
| News.OnlyFirstFive | main.py:149 | items after the fifth never affect the result |
| News.SkippedItemNotReplaced | main.py:149-154 | an item skipped for lacking a link is not replaced by the sixth item: four headlines result |
| Json.First | main.py:214 | `[0]` yields the first element of a non-empty list or the first character of a non-empty string, and fails on an empty list or string and on anything that is not a list or string |
| Quotes.ExtractQuote | main.py:207-224 | the ticker field is always the input; meta fields default to 0, `USD` and the ticker; any structural failure gives `{ticker, 0, N/A, ticker}` |
| Quotes.MetaShape | main.py:214-215 | the meta map is reachable exactly when every step of the `get` chain meets an object and `result` is a non-empty list of objects |
| Quotes.UnknownSymbolIsUnavailable | main.py:214-224 | a null or empty `result` gives the fallback record |
| Quotes.MissingChartTakesDefaults | main.py:214-221 | a reply without `chart` gives price 0, currency `USD` and name = ticker |
| Quotes.WellFormedReply | main.py:217-222 | a well-formed reply passes price, currency and symbol through |
| Quotes.PriceAboveZeroAsWritten | main.py:350 | `preco > 0` is defined only for a number or a boolean, where it is the number's comparison with 0 or the boolean itself; any other value raises |
| Quotes.NullPriceRaises | main.py:348-350 | a reply whose `regularMarketPrice` is null makes `preco > 0` raise |
| Quotes.PriceAvailable | main.py:273-278 | a price counts only when it is numeric and above zero, agrees with the comparison wherever that is defined, and is false for null, strings, lists and objects; it holds exactly for a number above zero or `True` |
| Quotes.UnavailableHasNoPrice | main.py:224 | the fallback record never shows a price |
| Report.FileStem | main.py:234 | spaces become `_`, `/` becomes `-`, every other character and the length are kept, and no space or `/` remains |
| Report.ReportPath | main.py:235 | the path is `relatorios/` + sanitised name + `.txt` |
| Report.ReportPathSafe | main.py:234-235 | the path's only `/` is the one after `relatorios`, and it holds no space |
| Report.SpacedNamePath | main.py:234-235 | a name shaped like `Acme Corp` gives `relatorios/Acme_Corp.txt` |
| Report.SlashedNamePath | main.py:234-235 | a name shaped like `A/B Co` gives `relatorios/A-B_Co.txt` |
| Report.SharedReportFile | main.py:234-235 | `A B` and `A_B` are saved to the same file |
| Report.RenderReport | main.py:237-286 | the accumulated report text equals header, sections A–C and footer |
| Report.AppendNews | main.py:256-265 | the news loop appends exactly section B: numbered entries, or the placeholder |
| Report.AppendEntry | main.py:258-263 | one entry is the numbered title, a date line and a link line only when non-empty, and a blank line |
| Report.AppendQuote | main.py:273-280 | the branches append exactly section C |
| Report.SaveReport | main.py:229-294 | the written text is the rendered report; the returned path is present exactly when the write succeeds |
| Report.NewsEntriesAppend | main.py:257 | numbering continues across a split of the headline list |
| Report.NewsNumbering | main.py:257-263 | headline k is printed as entry `[k+1]`, between the entries before and after it |
| Report.NoNewsPlaceholder | main.py:256-265 | section B is `Nenhuma notícia disponível.` exactly when there are no headlines |
| Report.QuoteSectionCases | main.py:273-280 | section C is `Ticker não encontrado.` exactly for an empty ticker; otherwise the ticker line, then a price line exactly when the price is above zero, else `Cotação não disponível.` |
| Report.TimestampOnlyInHeader | main.py:237-286 | two renderings differ only in the timestamp inserted in the header; with equal timestamps the texts are identical |
| Pipeline.RunResearch | main.py:297-371 | the workflow's calls, summary, headlines, ticker, quote and saving outcome equal the research run as written, including its abort when the price test raises |
| Pipeline.SaveIfConfirmed | main.py:360-369 | the report is written only for an accepted answer, and the outcome records the path or the failure |
| Pipeline.QuoteOnlyWithTicker | main.py:343-356 | the three prompts come first; the quote is requested exactly once, for the ticker, exactly when the ticker is non-empty; with no ticker section C is the not-found line |
| Pipeline.SavedOnlyWhenConfirmed | main.py:348-369 | the run aborts exactly when the price test raises; otherwise nothing is saved unless the answer is accepted, and it is saved exactly when accepted and the write succeeds, at the report path, with the rendered text |
| Pipeline.CorrectedRunAgrees | main.py:348-369 | the corrected run never aborts; where the run as written does not abort the two runs are equal, and the report's price test agrees with the comparison as written; where it aborts, both gathered the same |
| Pipeline.NullPriceRunAborts | main.py:348-350 | a market reply with a null `regularMarketPrice` aborts the run as written whatever the answer; the corrected run reports no price and reaches the save question |
| Pipeline.AnswerOnlyGatesSaving | main.py:360-369 | the answer and the write outcome change nothing but the saving outcome |
| Pipeline.ConfirmationSpellings | main.py:360-362 | an answer confirms exactly when, once stripped, it spells `s`, `sim`, `y` or `yes` in any letter case |
| Pipeline.PaddedCapitalsConfirm | main.py:360-362 | `YES` with any surrounding whitespace confirms |
| Pipeline.BackendDownRun | main.py:313-348 | with Gemini failing, the summary still succeeds with error text, the ticker is `Erro`, and `Erro` is looked up |
| Entry.Join | main.py:380 | joining no parts gives the empty name, one part gives that part |
| Entry.JoinSnoc | main.py:380 | joining one more part appends the separator and that part, so with `Join` the joined text is the parts separated by `sep` |
| Entry.CompanyName | main.py:379-391 | with arguments a name is always produced; typed input is stripped and refused exactly when blank |
| Entry.ArgumentNotChecked | main.py:379-380 | a whitespace-only argument is taken as the company name unchecked |
| Entry.ArgumentsJoined | main.py:380 | two arguments are joined with one space |

## Left out

- Network calls to Gemini, Google News and Yahoo Finance, and the prompt templates: their results are inputs (`BackendReply`, `ChainOutcome`, an optional list of parsed items, a JSON value per ticker).
- XML and JSON parsing: parsed trees are the datatypes `ItemNode` and `Json`. A failed fetch, HTTP status or parse is the `None` feed. For the quote, a request that raises or a body that is not JSON is the `None` reply; the HTTP status is not checked (main.py:211-212), so an error page with a JSON body is extracted like any other reply.
- LangChain internals: a chain either returns the text or raises with a message. A non-string chain result (`str(resultado)`) is not distinguished from a string.
- Directory creation, the file write, the clock and all console output (`print_header`, `print_section`, colours, the progress messages in `executar_pesquisa`): the timestamp and the write outcome are parameters, and printing is not modelled.
- `sys.exit` on an empty typed name is modelled as `None` from `Entry.CompanyName`.
- Float formatting (`:.2f`) and `str()` of JSON values: a `Formatter` parameter.
- Report.PriceLine: the formatting of the price is abstract.
- Text.Lower: lower-cases ASCII letters only, because the accepted answers are ASCII and Python's full Unicode case mapping is not modelled.
- Text.Upper: upper-cases a–z and à–þ except ÷ only, for the same reason; ß, µ and ÿ are left unchanged, where Python gives `SS`, `Μ` and `Ÿ` (so ß also changes the length). This affects only the company name in the report header.
- Text.Words: its own contract states only the shape of the words; that they are the input's maximal whitespace-free runs, in order, is stated by `Text.WordsFromBlank` and `Text.WordsFromRun`.
- Entry.Join: its own contract states the cases of no part and of one part; the general case is `Entry.JoinSnoc`.
- Text.Strip: whitespace is the code points Python's `str.isspace` accepts. The Unicode database behind it is written out as fixed ranges.
- Report.RenderReport: the `resumo.get('analise', 'Não disponível')` and `Notícia {i}` defaults are unreachable, because the summary and every headline always carry those keys, so they are not modelled.
- Generation.NormaliseTicker: the ticker is not validated against any exchange, as in the source.
- Generation.NormaliseTicker: `get_llm()` runs before the `try` (main.py:172); with `GOOGLE_API_KEY` unset, pydantic rejects the missing key and the exception ends the program. The model always returns a ticker, as if the key were set.
- Generation.Summarize: `get_llm()` runs before the `try` (main.py:101), with the same uncaught failure when the key is unset. The model always returns a summary.
- Report.SaveReport: `os.makedirs` runs before the `try` (main.py:232); when `relatorios` exists as a plain file it raises `FileExistsError`, which ends the program. The model folds every failure to save into the `None` path (`SaveFailed` in the pipeline).
- Report.SpacedNamePath: the example `Acme Corp` is stated for any two plain name parts joined by a space, not for the literal name.
- Report.SlashedNamePath: the example `A/B Co` is stated for any three plain parts in that shape, not for the literal name.
- Quotes.ExtractQuote: a Python `requests` exception and a reply that is not JSON are both the `None` reply.
- Before the quote step runs, `executar_pesquisa` holds `cotacao = {}`. The model uses `None` for that state, and its section C output is the same.

## Findings

| source | as written | input that shows it | evidently intended | confidence | as-written member | corrected member |
|---|---|---|---|---|---|---|
| main.py:350 | `cotacao["preco"] > 0` compares whatever Yahoo returned for `regularMarketPrice` with 0, so a null, string or list price raises `TypeError`, which nothing catches, ending the run before the save prompt | a Yahoo reply whose `meta` has `"regularMarketPrice": null` | treat a non-numeric price as "quote unavailable", as the 0 default does | not executed | Pipeline.NullPriceRunAborts | Pipeline.CorrectedRunAgrees |
