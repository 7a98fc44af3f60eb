/**
 * The two uses of the text-generation backend: the company summary
 * (`pesquisar_empresa_completa`) and the ticker lookup (`buscar_ticker`),
 * both going through `GeminiLLM._call`.
 *
 * The backend and the LangChain chain are outside the model: what they
 * return is an input value.
 */
module Generation {
  import opened Text

  /** What one `generate_content` call gave back: the completion text, or
      the message of the exception it (or reading `response.text`) raised. */
  datatype BackendReply = Completion(text: string) | BackendError(message: string)

  /** What `chain.invoke` did: returned the LLM's string, or raised an
      exception with the given message. */
  datatype ChainOutcome = Returned(text: string) | Raised(message: string)

  const GenerationErrorPrefix := "Erro na geração: "
  const MaxErrorDetail := 200

  /** `GeminiLLM._call`: the stripped completion, or a bounded error text;
      it never raises. */
  function CallGemini(reply: BackendReply): (r: string)
    ensures reply.Completion? ==> r == Strip(reply.text) && IsStripped(r) && |r| <= |reply.text|
    ensures reply.BackendError? ==>
      && GenerationErrorPrefix <= r
      && |r| <= |GenerationErrorPrefix| + MaxErrorDetail
      && r[|GenerationErrorPrefix|..] <= reply.message
      && (|reply.message| >= MaxErrorDetail ==> |r| == |GenerationErrorPrefix| + MaxErrorDetail)
      && (|reply.message| < MaxErrorDetail ==> r[|GenerationErrorPrefix|..] == reply.message)
  {
    match reply
    case Completion(text) => Strip(text)
    case BackendError(message) =>
      var cut := if |message| < MaxErrorDetail then |message| else MaxErrorDetail;
      GenerationErrorPrefix + message[..cut]
  }

  /** A chain `prompt | llm` built on `GeminiLLM` hands back what `_call`
      returned. */
  function ThroughGemini(reply: BackendReply): ChainOutcome {
    Returned(CallGemini(reply))
  }

  /** The dictionary `pesquisar_empresa_completa` returns. */
  datatype SummaryResult = SummaryResult(success: bool, analysis: string, company: string)

  const SummaryPlaceholder := "Análise gerada com sucesso."
  const SummaryErrorPrefix := "Erro ao processar: "

  /** `pesquisar_empresa_completa`: the company is echoed; the call
      succeeds exactly when the chain returned, and then the analysis is the
      stripped text, or a fixed placeholder when that text is empty. */
  function Summarize(company: string, outcome: ChainOutcome): (s: SummaryResult)
    ensures s.company == company
    ensures s.success <==> outcome.Returned?
    ensures s.success ==> s.analysis != [] && IsStripped(s.analysis)
    ensures s.success ==> (s.analysis == SummaryPlaceholder <== AllSpace(outcome.text))
    ensures s.success && !AllSpace(outcome.text) ==> s.analysis == Strip(outcome.text)
    ensures !s.success ==> s.analysis == SummaryErrorPrefix + outcome.message
  {
    match outcome
    case Returned(text) =>
      var texto := Strip(text);
      StripEmpty(text);
      SummaryResult(true, if texto != [] then texto else SummaryPlaceholder, company)
    case Raised(message) =>
      SummaryResult(false, SummaryErrorPrefix + message, company)
  }

  /** A backend failure does not make the summary fail: `_call` turns it
      into text, so the result reports success and its analysis is the
      bounded error text. */
  lemma SummaryOfBackendFailure(company: string, message: string)
    ensures var s := Summarize(company, ThroughGemini(BackendError(message)));
      s.success && s.company == company
      && "Erro na geração:" <= s.analysis
      && |s.analysis| <= |GenerationErrorPrefix| + MaxErrorDetail
  {
    var text := CallGemini(BackendError(message));
    var p := "Erro na geração:";
    assert text == p + text[|p|..];
    StripKeepsPrefix(p, text[|p|..]);
  }

  /** The two `replace` calls of `buscar_ticker`: every `*` and backquote
      removed. */
  function Undecorate(s: string): (r: string)
    ensures '*' !in r && '`' !in r
  {
    DeleteMembers(Delete(s, '*'), '`');
    Delete(Delete(s, '*'), '`')
  }

  predicate IsDecoration(c: char) {
    c == '*' || c == '`'
  }

  /** `buscar_ticker`: strip the answer, delete every `*` and backquote, keep
      the first whitespace-separated word; an exception, including indexing
      the empty `split()` of a decoration-only answer, gives "". */
  function NormaliseTicker(outcome: ChainOutcome): (t: string)
    ensures NoSpace(t)
    ensures '*' !in t && '`' !in t
    ensures outcome.Raised? ==> t == []
  {
    match outcome
    case Raised(_) => []
    case Returned(text) =>
      var stripped := Strip(text);
      if stripped == [] then []
      else
        var u := Undecorate(stripped);
        FirstWordChars(u);
        FirstWord(u)
  }

  /** The ticker is the first word of the stripped, undecorated answer. */
  lemma TickerOfAnswer(text: string)
    ensures NormaliseTicker(Returned(text)) == FirstWord(Undecorate(Strip(text)))
  {
    if Strip(text) == [] {
      assert Undecorate(Strip(text)) == [];
    }
  }

  /** The ticker is empty exactly when the answer holds nothing but
      whitespace, `*` and backquotes; otherwise it is the first maximal
      whitespace-free run of the undecorated answer, after its leading
      whitespace. */
  lemma TickerIsFirstWord(text: string)
    ensures var t := NormaliseTicker(Returned(text));
      var u := Undecorate(Strip(text));
      var k := LeadingBlanks(u);
      (t == [] <==> AllSpace(u))
      && (t != [] ==>
           k + |t| <= |u| && u[k..k + |t|] == t
           && (k + |t| == |u| || IsSpace(u[k + |t|])))
  {
    TickerOfAnswer(text);
    FirstWordPlace(Undecorate(Strip(text)));
  }

  /** Whatever decoration surrounds a symbol, and whatever follows it after
      whitespace, the ticker is the bare symbol. */
  lemma DecoratedTicker(before: string, symbol: string, after: string, rest: string)
    requires forall i :: 0 <= i < |before| ==> IsDecoration(before[i])
    requires forall i :: 0 <= i < |after| ==> IsDecoration(after[i])
    requires symbol != [] && NoSpace(symbol) && '*' !in symbol && '`' !in symbol
    requires rest == [] || IsSpace(rest[0])
    ensures NormaliseTicker(Returned(before + symbol + after + rest)) == symbol
  {
    var p := before + symbol + after;
    var text := p + rest;
    DecoratedIsStripped(before, symbol, after);
    StripBeforeBlank(p, rest);
    var stripped := Strip(text);
    var tail := stripped[|p|..];
    assert stripped == p + tail;
    UndecorateConcat(p, tail);
    UndecorateSurrounded(before, symbol, after);
    UndecorateBlankStart(tail);
    var u := Undecorate(tail);
    if u == [] {
      assert symbol + u == symbol;
      FirstWordOfWord(symbol);
    } else {
      FirstWordOfPrefix(symbol, u);
    }
    TickerOfAnswer(text);
  }

  lemma DecoratedIsStripped(before: string, symbol: string, after: string)
    requires forall i :: 0 <= i < |before| ==> IsDecoration(before[i])
    requires forall i :: 0 <= i < |after| ==> IsDecoration(after[i])
    requires symbol != [] && NoSpace(symbol)
    ensures IsStripped(before + symbol + after)
  {
    var p := before + symbol + after;
    if before != [] { assert p[0] == before[0]; } else { assert p[0] == symbol[0]; }
    if after != [] { assert p[|p| - 1] == after[|after| - 1]; }
    else { assert p[|p| - 1] == symbol[|symbol| - 1]; }
  }

  /** Stripping text that starts with a stripped word followed by whitespace
      keeps the word and leaves whitespace, if anything, right after it. */
  lemma StripBeforeBlank(p: string, rest: string)
    requires p != [] && IsStripped(p)
    requires rest == [] || IsSpace(rest[0])
    ensures var r := Strip(p + rest); p <= r && (|r| == |p| || IsSpace(r[|p|]))
  {
    StripKeepsPrefix(p, rest);
    var text := p + rest;
    assert LeadingBlanks(text) == 0 by { assert text[0] == p[0]; }
    var r := Strip(text);
    if |r| > |p| {
      assert r[|p|] == text[|p|] == rest[0];
    }
  }

  lemma UndecorateSurrounded(before: string, symbol: string, after: string)
    requires forall i :: 0 <= i < |before| ==> IsDecoration(before[i])
    requires forall i :: 0 <= i < |after| ==> IsDecoration(after[i])
    requires '*' !in symbol && '`' !in symbol
    ensures Undecorate(before + symbol + after) == symbol
  {
    UndecorateConcat(before + symbol, after);
    UndecorateConcat(before, symbol);
    UndecorateOnlyDecoration(before);
    UndecorateOnlyDecoration(after);
    UndecorateKeeps(symbol);
    assert [] + symbol + [] == symbol;
  }

  lemma UndecorateBlankStart(t: string)
    requires t == [] || IsSpace(t[0])
    ensures var u := Undecorate(t); u == [] || IsSpace(u[0])
  {
    if t != [] {
      assert t == [t[0]] + t[1..];
      UndecorateConcat([t[0]], t[1..]);
      UndecorateKeeps([t[0]]);
    }
  }

  lemma {:induction false} DeleteConcat(a: string, b: string, c: char)
    ensures Delete(a + b, c) == Delete(a, c) + Delete(b, c)
    decreases |a|
  {
    if a == [] {
      assert a + b == b;
    } else {
      assert (a + b)[0] == a[0];
      assert (a + b)[1..] == a[1..] + b;
      DeleteConcat(a[1..], b, c);
    }
  }

  lemma UndecorateConcat(a: string, b: string)
    ensures Undecorate(a + b) == Undecorate(a) + Undecorate(b)
  {
    DeleteConcat(a, b, '*');
    DeleteConcat(Delete(a, '*'), Delete(b, '*'), '`');
  }

  lemma {:induction false} UndecorateOnlyDecoration(s: string)
    requires forall i :: 0 <= i < |s| ==> IsDecoration(s[i])
    ensures Undecorate(s) == []
    decreases |s|
  {
    if s != [] {
      assert s == [s[0]] + s[1..];
      UndecorateConcat([s[0]], s[1..]);
      UndecorateOnlyDecoration(s[1..]);
    }
  }

  lemma {:induction false} DeleteAbsent(s: string, c: char)
    requires c !in s
    ensures Delete(s, c) == s
  {
    if s != [] {
      DeleteAbsent(s[1..], c);
      assert s == [s[0]] + s[1..];
    }
  }

  lemma UndecorateKeeps(s: string)
    requires '*' !in s && '`' !in s
    ensures Undecorate(s) == s
  {
    DeleteAbsent(s, '*');
    DeleteAbsent(s, '`');
  }

  /** A whitespace-free, non-empty word is its own first word. */
  lemma FirstWordOfWord(w: string)
    requires w != [] && NoSpace(w)
    ensures FirstWord(w) == w
  {
    assert LeadingBlanks(w) == 0;
    assert w[0..] == w;
    FirstWordPlace(w);
  }

  /** A whitespace-free, non-empty start followed by whitespace is the first
      word. */
  lemma FirstWordOfPrefix(w: string, rest: string)
    requires w != [] && NoSpace(w)
    requires rest != [] && IsSpace(rest[0])
    ensures FirstWord(w + rest) == w
  {
    var s := w + rest;
    assert s[0] == w[0];
    assert LeadingBlanks(s) == 0;
    FirstWordPlace(s);
    var f := FirstWord(s);
    assert forall i :: 0 <= i < |w| ==> s[i] == w[i];
    assert s[|w|] == rest[0];
    assert forall i :: 0 <= i < |f| ==> f[i] == s[i];
    assert |f| == |w|;
    assert s[..|w|] == w;
  }

  /** When the backend fails, `_call` answers "Erro na geração: ...", so the
      resolved ticker is the word "Erro" rather than the empty string. */
  lemma TickerOfBackendFailure(message: string)
    ensures NormaliseTicker(ThroughGemini(BackendError(message))) == "Erro"
  {
    var text := CallGemini(BackendError(message));
    assert text == [] + "Erro" + [] + text[4..];
    DecoratedTicker([], "Erro", [], text[4..]);
  }

  /** A markdown-decorated, verbose answer is reduced to the bare symbol. */
  lemma TickerOfDecoratedAnswer()
    ensures NormaliseTicker(Returned("**AAPL** (Apple Inc.)")) == "AAPL"
  {
    var stars, symbol, rest := "**", "AAPL", " (Apple Inc.)";
    assert IsDecoration(stars[0]) && IsDecoration(stars[1]);
    assert NoSpace(symbol);
    assert IsSpace(rest[0]);
    assert "**AAPL** (Apple Inc.)" == stars + symbol + stars + rest;
    DecoratedTicker(stars, symbol, stars, rest);
  }

  /** An answer made only of decoration and whitespace gives no ticker. */
  lemma TickerOfDecorationOnly(text: string)
    requires forall i :: 0 <= i < |text| ==> IsDecoration(text[i]) || IsSpace(text[i])
    ensures NormaliseTicker(Returned(text)) == ""
  {
    TickerOfAnswer(text);
    var st := Strip(text);
    var k := LeadingBlanks(text);
    assert forall j :: 0 <= j < |st| ==> st[j] == text[k + j];
    var u := Undecorate(st);
    DeleteMembers(st, '*');
    DeleteMembers(Delete(st, '*'), '`');
    forall i | 0 <= i < |u| ensures IsSpace(u[i]) {
      assert u[i] in u;
      var j :| 0 <= j < |st| && st[j] == u[i];
    }
  }
}
