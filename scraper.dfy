/** The class `LLMWebScraper`: fetch, render, generate with retry, extract;
    `toJSON` turns every exception into `None`, and the example driver writes
    the result only when it is truthy. */
module LLMWebScraper {
  import opened Wrappers
  import opened JsonValue
  import opened Prompt
  import opened FencedJson
  import opened Retry

  /** The page fetch (`requests.get(url, timeout=10)` and `raise_for_status()`):
      the page text, or the exception it raised. */
  type Fetcher = string -> Outcome

  /** The URL the example drivers scrape. */
  const BlogUrl: string := "https://chirpy.cotes.page/"

  /** Where the example drivers write the data. */
  const OutputPath: string := "output/data.json"

  /** The warning logged when there is nothing to write. */
  const NoDataWarning: string := "No blog data to save."

  /** `toJSON`'s `except Exception`: whatever the extractor raises becomes None
      as well. */
  function OrNone(r: Result<Option<Json>, string>): Option<Json> {
    match r
    case Ok(data) => data
    case Err(_) => None
  }

  /** What `toJSON` returns when fetching the page gave `page`. */
  function ToJsonResult(page: Outcome, instructions: string, model: Model, parse: Parser): Option<Json> {
    match page
    case Raised(_) => None
    case Ok(html) =>
      match Retried(model, Render(html, instructions)).result
      case Raised(_) => None
      case Ok(reply) => OrNone(ExtractJson(reply, parse))
  }

  /** `toJSON` returns None when all three model calls raised. */
  lemma ToJsonAllRaised(html: string, instructions: string, model: Model, parse: Parser)
    requires forall u :: 0 <= u < MaxAttempts ==> model(Render(html, instructions), u).Raised?
    ensures ToJsonResult(Outcome.Ok(html), instructions, model, parse) == None
  {
    AllRaised(model, Render(html, instructions));
  }

  /** When the model call with index u is the first that succeeds, `toJSON`
      returns the extractor's verdict on that call's reply: the decoded value,
      or None when no block matches, the body does not decode, or the decoder
      raises anything else. */
  lemma ToJsonFirstSuccess(html: string, instructions: string, model: Model, parse: Parser, u: nat)
    requires u < MaxAttempts && model(Render(html, instructions), u).Ok?
    requires forall v :: 0 <= v < u ==> model(Render(html, instructions), v).Raised?
    ensures ToJsonResult(Outcome.Ok(html), instructions, model, parse) == OrNone(ExtractJson(model(Render(html, instructions), u).text, parse))
  {
    FirstSuccess(model, Render(html, instructions), u);
  }

  /** `toJSON(url, instructions)`: the fetch, then at most three model calls,
      none when the fetch raised. */
  method ToJson(url: string, instructions: string, fetch: Fetcher, model: Model, delay: nat -> nat, parse: Parser)
    returns (data: Option<Json>, calls: nat, waits: seq<nat>)
    ensures data == ToJsonResult(fetch(url), instructions, model, parse)
    ensures fetch(url).Raised? ==> data == None && calls == 0 && waits == []
    ensures fetch(url).Ok? ==> calls == Retried(model, Render(fetch(url).text, instructions)).calls
    ensures fetch(url).Ok? ==> 1 <= calls && waits == Waits(delay, calls - 1)
  {
    var page := fetch(url);
    match page
    case Raised(_) =>
      data, calls, waits := None, 0, [];
    case Ok(html) =>
      var prompt := Render(html, instructions);
      var reply;
      reply, calls, waits := GenerateOutput(model, prompt, delay);
      match reply
      case Raised(_) => data := None;
      case Ok(text) => data := OrNone(ExtractJson(text, parse));
  }

  /** What the example driver does with the result: write it, or warn. */
  datatype Decision = Write(path: string, data: Json) | Warn(message: string)

  /** The `__main__` driver: `toJSON` on the blog URL with the blog
      instructions, then `toFile` only if the result is truthy. */
  method RunExample(fetch: Fetcher, model: Model, delay: nat -> nat, parse: Parser) returns (d: Decision)
    ensures var r := ToJsonResult(fetch(BlogUrl), BlogInstructions, model, parse);
      d.Write? <==> r.Some? && Truthy(r.value)
    ensures d.Write? ==> d.path == OutputPath && ToJsonResult(fetch(BlogUrl), BlogInstructions, model, parse) == Some(d.data)
    ensures d.Warn? ==> d.message == NoDataWarning
    ensures fetch(BlogUrl).Raised? ==> d == Warn(NoDataWarning)
  {
    var data, _, _ := ToJson(BlogUrl, BlogInstructions, fetch, model, delay, parse);
    if data.Some? && Truthy(data.value) {
      d := Write(OutputPath, data.value);
    } else {
      d := Warn(NoDataWarning);
    }
  }
}
