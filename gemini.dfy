/** The module-level pipeline of `WebScrap-GeminiAI.py`: the same stages as the
    class, with the instructions fixed, and `main` logging an error (instead of
    warning) when a stage raises. */
module WebScrapGemini {
  import opened Wrappers
  import opened JsonValue
  import opened Prompt
  import opened FencedJson
  import opened Retry
  import opened LLMWebScraper

  /** The prompt `extract_blog_data(html_content)` sends. */
  function BlogPrompt(html: string): string {
    Render(html, BlogInstructions)
  }

  /** The prompt depends on the page alone, and distinct pages give distinct
      prompts. */
  lemma BlogPromptInjective(h1: string, h2: string)
    ensures BlogPrompt(h1) == BlogPrompt(h2) <==> h1 == h2
  {
    if BlogPrompt(h1) == BlogPrompt(h2) {
      RenderLayout(h1, BlogInstructions);
      RenderLayout(h2, BlogInstructions);
      assert |h1| == |h2|;
      RenderInjective(h1, BlogInstructions, h2, BlogInstructions);
    }
  }

  /** How `main` ends: the data saved, the "no data" warning, or the logged
      error of the stage that raised. */
  datatype MainOutcome = Saved(path: string, data: Json) | NoData | Failed(cause: string)

  /** What `main` does when fetching the page gave `page`. */
  function MainResult(page: Outcome, model: Model, parse: Parser): MainOutcome {
    match page
    case Raised(cause) => Failed(cause)
    case Ok(html) =>
      match Retried(model, BlogPrompt(html)).result
      case Raised(cause) => Failed(cause)
      case Ok(reply) =>
        match ExtractJson(reply, parse)
        case Err(cause) => Failed(cause)
        case Ok(data) =>
          if data.Some? && Truthy(data.value) then Saved(OutputPath, data.value) else NoData
  }

  /** When all three model calls raise, `main` logs the third call's error. */
  lemma MainAllRaised(html: string, model: Model, parse: Parser)
    requires forall u :: 0 <= u < MaxAttempts ==> model(BlogPrompt(html), u).Raised?
    ensures MainResult(Outcome.Ok(html), model, parse) == Failed(model(BlogPrompt(html), MaxAttempts - 1).cause)
  {
    AllRaised(model, BlogPrompt(html));
  }

  /** When the model call with index u is the first that succeeds, `main` saves
      the extracted value to the output file exactly when it is truthy; it logs
      an error exactly when the decoder raised something other than a decode
      error; otherwise it reports that there is no data. */
  lemma MainFirstSuccess(html: string, model: Model, parse: Parser, u: nat)
    requires u < MaxAttempts && model(BlogPrompt(html), u).Ok?
    requires forall v :: 0 <= v < u ==> model(BlogPrompt(html), v).Raised?
    ensures var x, r := ExtractJson(model(BlogPrompt(html), u).text, parse), MainResult(Outcome.Ok(html), model, parse);
      && (r.Saved? <==> x.Ok? && x.value.Some? && Truthy(x.value.value))
      && (r.Saved? ==> r == Saved(OutputPath, x.value.value))
      && (r.Failed? <==> x.Err?)
      && (r.Failed? ==> r.cause == x.error)
      && (r.NoData? <==> x.Ok? && !(x.value.Some? && Truthy(x.value.value)))
  {
    FirstSuccess(model, BlogPrompt(html), u);
  }

  /** `main`: fetch, `extract_blog_data` (render and generate with retry),
      `extract_json`, then `save_to_file` only for a truthy value. */
  method RunMain(fetch: Fetcher, model: Model, delay: nat -> nat, parse: Parser)
    returns (outcome: MainOutcome, calls: nat, waits: seq<nat>)
    ensures outcome == MainResult(fetch(BlogUrl), model, parse)
    ensures fetch(BlogUrl).Raised? ==> outcome == Failed(fetch(BlogUrl).cause) && calls == 0 && waits == []
    ensures fetch(BlogUrl).Ok? ==> calls == Retried(model, BlogPrompt(fetch(BlogUrl).text)).calls
    ensures fetch(BlogUrl).Ok? ==> 1 <= calls && waits == Waits(delay, calls - 1)
  {
    var page := fetch(BlogUrl);
    match page
    case Raised(cause) =>
      outcome, calls, waits := Failed(cause), 0, [];
    case Ok(html) =>
      var reply;
      reply, calls, waits := GenerateOutput(model, BlogPrompt(html), delay);
      match reply
      case Raised(cause) =>
        outcome := Failed(cause);
      case Ok(text) =>
        match ExtractJson(text, parse)
        case Err(cause) =>
          outcome := Failed(cause);
        case Ok(data) =>
          if data.Some? && Truthy(data.value) {
            outcome := Saved(OutputPath, data.value);
          } else {
            outcome := NoData;
          }
  }
}
