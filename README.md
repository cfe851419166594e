# WebScrap-with-LLMs: the extraction pipeline, modelled in Dafny

WebScrap-with-LLMs scrapes a web page by handing its raw HTML to a generative
language model. The model is asked for the wanted data as JSON. The pipeline
has five stages:

1. fetch the page;
2. render a prompt from a fixed template, the HTML and the extraction
   instructions;
3. call the model at most three times, stopping at the first reply;
4. recover the JSON payload from the model's markdown reply with the pattern
  ```` ```json\s*({[\s\S]*?})\s*``` ````, then decode it;
5. write the data to `output/data.json` only when the decoded value is truthy.

The pipeline exists twice. `Library/LLMWebScraper.py` has it as the class
`LLMWebScraper` with an example driver. `WebScrap-GeminiAI.py` has it as
module-level functions and `main`. The two copies share the template, the
pattern, the retry decorator and the instructions text. Each shared piece is
modelled once:

| shared piece | `Library/LLMWebScraper.py` | `WebScrap-GeminiAI.py` |
|---|---|---|
| template | 28-42 | 34-50 |
| retry decorator | 55-62 | 88-95 |
| JSON extractor | 69-79 | 102-112 |
| instructions | 104-127 | 52-75 |

The table below cites the library's lines for these members. `DataFrame.py`
contributes a separate, model-free scan. It finds `Key: Value` pairs with
`re.findall` and strips each half (lines 21-25).

Modules:

- `Wrappers`: `Option` and `Result`.
- `Text`:
  - whitespace as Python's `str.isspace` defines it: `\t`–`\r`, U+001C–U+001F,
    space, U+0085, U+00A0, U+1680, U+2000–U+200A, U+2028, U+2029, U+202F,
    U+205F, U+3000. These are also the characters `\s` matches in a `str`
    pattern;
  - maximal runs of a character class;
  - `str.strip()`.
- `JsonValue`:
  - the JSON value type;
  - Python truthiness of a decoded value;
  - `json.loads` as an abstract parser with three outcomes: a value,
    `JSONDecodeError`, or some other exception.
- `Prompt`:
  - the template text and the instructions text, both verbatim;
  - `Render`, the filled-in template;
  - `Format`, a reference model of `str.format` (literal text, `{{`, `}}`,
    `{name}`, and its three errors);
  - a proof that formatting the template with the two variables gives
    `Render`.
- `FencedJson`: the `re.search` pattern, modelled twice:
  - as the engine runs it: try each start position; after "```json" the
    greedy `\s*` and then `{`; then the lazy body up to the first `}` that
    whitespace and "```" follow;
  - as a declarative definition: leftmost start, smallest closer.

  It also holds the proof that the two agree and the extractor built on them.
- `Retry`: the `retrying` decorator, as a specification function and as the
  attempt loop that meets it.
- `LLMWebScraper`: `toJSON` and the example driver.
- `WebScrapGemini`: `extract_blog_data` and `main`.
- `KeyValueScan`: the `findall` scan and the stripped records of
  `DataFrame.py`.

External services become parameters:

- the HTTP fetch is a `Fetcher`, one text or one exception per URL;
- the model is a `Model`, its outcome for a prompt on a given attempt;
- the decorator's sleep schedule is `delay`. Every wait is recorded, so the
  number and order of waits are exact;
- `json.loads` is a `Parser`.

## Model

| member | source | states |
|---|---|---|
| Text.IsWs | Library/LLMWebScraper.py:71 | the characters `\s` matches in a `str` pattern, which are those `str.isspace` accepts (the list above); the contracts of `SkipWhile`, `Strip` and the fenced-block search are stated over it |
| Text.SkipWhile | Library/LLMWebScraper.py:71 | a greedy run of a character class ends at the first character outside the class, or at the end of the text |
| Text.SkipWhileUnique | Library/LLMWebScraper.py:71 | a run that is all in the class and stops at a character outside it is the greedy run: a greedy quantifier has one possible end |
| Text.TrailingWsStart | DataFrame.py:25 | the start of the trailing whitespace of a slice: all whitespace after it, and no whitespace just before it |
| Text.Strip | DataFrame.py:25 | `str.strip()`: no longer than the input; no whitespace at either end; empty exactly when the input is all whitespace |
| Text.StripIsInfix | DataFrame.py:25 | `str.strip()` removes whitespace only from the two ends: the result is a contiguous piece of the input with whitespace alone before and after it |
| Text.StripKeepsClass | DataFrame.py:25 | stripping a text whose characters all lie in a class gives a text that lies in the class as well |
| Prompt.Render | Library/LLMWebScraper.py:66 | the prompt both copies send (`WebScrap-GeminiAI.py` line 99 as well); its contract is carried by `RenderLayout`, `RenderInjective` and `TemplateFormatIsRender`: the template verbatim with the two values in their slots, and what `str.format` gives |
| Prompt.RenderLayout | Library/LLMWebScraper.py:28-42 | the rendered prompt is the template text verbatim, with the HTML and the instructions, untruncated, in their two slots at fixed offsets |
| Prompt.RenderInjective | Library/LLMWebScraper.py:64-67 | two prompts for equally long pages are equal only when pages and instructions are equal: rendering loses nothing |
| Prompt.Format | Library/LLMWebScraper.py:66 | a reference model of `str.format`, needed here for `{html}` and `{instructions}` fields and brace-free text; its contract is carried by `FormatLiteral`, `FormatField`, `FormatTwoSlots` and `TemplateFormatIsRender` |
| Prompt.FindClose | Library/LLMWebScraper.py:66 | the position of the first `}` at or after a point, or None when there is none |
| Prompt.FormatLiteral | Library/LLMWebScraper.py:66 | `str.format` copies brace-free text unchanged and goes on with the rest |
| Prompt.FormatField | Library/LLMWebScraper.py:66 | `str.format` replaces a `{name}` field by the variable's value |
| Prompt.LiteralsBraceFree | Library/LLMWebScraper.py:30-41 | apart from `{html}` and `{instructions}`, the template text holds no brace |
| Prompt.FormatTwoSlots | Library/LLMWebScraper.py:66 | formatting a text with brace-free parts around `{html}` and `{instructions}` succeeds and puts the two values in their slots |
| Prompt.TemplateFormatIsRender | Library/LLMWebScraper.py:66 | `PromptTemplate.format(html=…, instructions=…)` on the template never fails and equals `Render` |
| FencedJson.OpeningIsGreedy | Library/LLMWebScraper.py:71 | the `\s*` after "```json" takes the whole whitespace run, so an opening has a single possible `{` |
| FencedJson.FenceIsGreedy | Library/LLMWebScraper.py:71 | the `\s*` before the closing "```" takes the whole whitespace run |
| FencedJson.FenceNoSelfOverlap | Library/LLMWebScraper.py:71 | two occurrences of "```json" never overlap |
| FencedJson.OpeningsDoNotOverlap | Library/LLMWebScraper.py:71 | a later opening starts after the `{` of an earlier one |
| FencedJson.LeftmostOpeningDecides | Library/LLMWebScraper.py:71 | if the leftmost opening finds no closer, no later opening finds one, and the pattern does not match at all |
| FencedJson.OpeningAt | Library/LLMWebScraper.py:71 | the opening of the pattern at a position, exactly when there is one |
| FencedJson.FenceAfter | Library/LLMWebScraper.py:71 | whitespace and then "```" follow a position, exactly when that holds |
| FencedJson.CloserFrom | Library/LLMWebScraper.py:71 | the lazy `[\s\S]*?}` stops at the first `}` where the rest of the pattern succeeds, and there is no earlier one |
| FencedJson.MatchAt | Library/LLMWebScraper.py:71 | one attempt at a start position finds a match with the smallest closer, or there is no match at that start |
| FencedJson.SearchFrom | Library/LLMWebScraper.py:71 | trying start positions from left to right finds the leftmost match, or proves there is none from that point |
| FencedJson.Search | Library/LLMWebScraper.py:71 | `re.search` returns the match with the leftmost start and, at that start, the smallest closer; None exactly when nothing matches |
| FencedJson.SearchMatchUnique | Library/LLMWebScraper.py:71 | the reported match is determined by the text |
| FencedJson.FencedBody | Library/LLMWebScraper.py:71-72 | `match.group(1)`: None exactly when nothing matches; otherwise the body of the reported match, which starts with `{` and ends with `}` |
| FencedJson.ExtractJson | Library/LLMWebScraper.py:69-79 | the extractor: no value when no block matches; otherwise the decoder's verdict on the body of the reported match: its value, no value on `JSONDecodeError`, and any other exception passed on with its cause |
| FencedJson.CatchDecodeError | Library/LLMWebScraper.py:73-77 | the `try`/`except json.JSONDecodeError` around `json.loads` (also `WebScrap-GeminiAI.py` lines 106-110): a value is returned, a decode error gives `None`, any other exception escapes with its cause; carried by the contract of `ExtractJson` |
| FencedJson.ExtractedIsObject | Library/LLMWebScraper.py:74 | with a decoder that turns text starting with `{` into objects only, every value the extractor returns is an object |
| FencedJson.CloserInsideBody | Library/LLMWebScraper.py:71 | a closer inside a fenced block's body is a closer of that body alone |
| FencedJson.NoMatchInPrefix | Library/LLMWebScraper.py:71 | when "```json" follows a prefix in which no opening of the pattern lies, no opening starts anywhere inside that prefix |
| FencedJson.OpeningInPrefix | Library/LLMWebScraper.py:71 | an opening whose "```json" lies in such a prefix lies wholly in it, since the following "```json" stops the whitespace run |
| FencedJson.LayoutSearch | Library/LLMWebScraper.py:71 | a reply laid out as a prefix in which no opening of the pattern lies, then "```json\n", a well-formed body, "\n```" and anything else: the search reports exactly that block |
| FencedJson.WrappedExtract | Library/LLMWebScraper.py:69-79 | on such a reply, the extractor hands exactly the wrapped body to the decoder |
| FencedJson.FirstBlockWins | WebScrap-GeminiAI.py:102-112 | the first fenced block wins: whatever follows it, including other fenced blocks, its body is the one decoded |
| FencedJson.RoundTrip | WebScrap-GeminiAI.py:102-112 | round trip: a well-formed body wrapped as "```json\n" + body + "\n```" comes back unchanged and is decoded as is |
| FencedJson.FirstOfTwoBlocks | WebScrap-GeminiAI.py:104 | of two well-formed fenced blocks, the first is decoded |
| Retry.Waits | Library/LLMWebScraper.py:55 | built one wait per raised call that is not the last; the closed form: n waits, the wait after call a being `delay(a)` |
| Retry.RunFrom | Library/LLMWebScraper.py:55-62 | the decorator from a given attempt on; its contract is carried by `RunFromFacts` |
| Retry.Retried | Library/LLMWebScraper.py:55-62 | the decorated call; its contract is carried by `RetriedFacts`, `FirstSuccess` and `AllRaised` |
| Retry.RunFromFacts | Library/LLMWebScraper.py:55-62 | from a given attempt on, the decorator makes at most the remaining calls, stops at the first success, re-raises after the last allowed call, and every call before the last raised |
| Retry.RetriedFacts | Library/LLMWebScraper.py:55-62 | the decorator makes 1 to 3 calls and surfaces the last call's outcome; every earlier call raised; it stops early only on a success; it raises exactly when all three calls raise |
| Retry.FirstSuccess | Library/LLMWebScraper.py:55-62 | when the call with index u is the first that succeeds, the decorator returns that reply after u + 1 calls |
| Retry.AllRaised | Library/LLMWebScraper.py:55-62 | when all calls raise, the decorator makes three calls and re-raises the third call's exception |
| Retry.GenerateOutput | Library/LLMWebScraper.py:55-62 | the attempt loop ends with the outcome and call count of the decorator's specification, having waited once after every call but the last |
| LLMWebScraper.OrNone | Library/LLMWebScraper.py:87-89 | `toJSON`'s `except Exception: return None` applied to an exception escaping the extractor; carried by `ToJsonFirstSuccess` and `ToJson` |
| LLMWebScraper.ToJsonResult | Library/LLMWebScraper.py:81-89 | `toJSON` once the page is fetched or not; its contract is carried by `ToJsonAllRaised`, `ToJsonFirstSuccess` and `ToJson` |
| LLMWebScraper.ToJsonAllRaised | Library/LLMWebScraper.py:81-89 | `toJSON` returns None when all three model calls raise |
| LLMWebScraper.ToJsonFirstSuccess | Library/LLMWebScraper.py:81-89 | when the call with index u is the first that succeeds, `toJSON` returns the extractor's verdict on that call's reply, and None when the extractor raises |
| LLMWebScraper.ToJson | Library/LLMWebScraper.py:81-89 | `toJSON` computes its specification; a failed fetch gives None with no model call; otherwise it makes the decorator's calls and waits |
| JsonValue.Truthy | Library/LLMWebScraper.py:137 | Python's `bool` of the decoded value, the gate before writing (also `WebScrap-GeminiAI.py` line 136): `None`, `False`, zero, `""`, `[]` and `{}` are false; carried by `RunExample` and `MainFirstSuccess` |
| LLMWebScraper.RunExample | Library/LLMWebScraper.py:132-140 | the example driver writes to `output/data.json` exactly when `toJSON` gives a truthy value, and writes that value; otherwise it warns "No blog data to save.", as it does whenever the fetch fails |
| WebScrapGemini.BlogPrompt | WebScrap-GeminiAI.py:97-100 | the prompt `extract_blog_data` sends; its contract is carried by `BlogPromptInjective` and, through `Render`, by `RenderLayout` |
| WebScrapGemini.BlogPromptInjective | WebScrap-GeminiAI.py:97-100 | `extract_blog_data` sends a prompt that depends on the page alone, and equal prompts mean equal pages |
| WebScrapGemini.MainResult | WebScrap-GeminiAI.py:121-141 | how `main` ends once the page is fetched or not; its contract is carried by `MainAllRaised`, `MainFirstSuccess` and `RunMain` |
| WebScrapGemini.MainAllRaised | WebScrap-GeminiAI.py:121-141 | after a successful fetch, when all three model calls raise, `main` logs the third call's error |
| WebScrapGemini.MainFirstSuccess | WebScrap-GeminiAI.py:121-141 | when the call with index u is the first that succeeds: `main` saves the extracted value to `output/data.json` exactly when it is truthy; it logs an error exactly when the decoder raised something other than `JSONDecodeError`, with that cause; otherwise it reports no data |
| WebScrapGemini.RunMain | WebScrap-GeminiAI.py:121-141 | `main` computes its specification; a failed fetch is logged with its own cause and no model call; otherwise it makes the decorator's calls and waits |
| KeyValueScan.IsKeyChar | DataFrame.py:21 | the key class `[A-Za-z ]`; carried by `MatchAt`, `RawMatchIsGreedy` and `Record` |
| KeyValueScan.IsValueChar | DataFrame.py:21 | the value class `[A-Za-z0-9 ,.-]`; carried by `MatchAt`, `RawMatchIsGreedy` and `Record` |
| KeyValueScan.RawMatchIsGreedy | DataFrame.py:21 | both `+` runs of the pattern are the maximal ones: it cannot backtrack to a shorter key or stop a value early |
| KeyValueScan.MatchAt | DataFrame.py:21 | the match of the pattern at a position, exactly when there is one |
| KeyValueScan.FindAllFrom | DataFrame.py:22 | `re.findall`: every reported match is a match of the pattern, in text order, and no two overlap |
| KeyValueScan.FindAll | DataFrame.py:22 | `re.findall` over the whole text: every reported match is a match of the pattern, in text order, and no two overlap |
| KeyValueScan.FindAllFromComplete | DataFrame.py:22 | `re.findall` misses nothing: the pattern does not match at any position that no reported match covers |
| KeyValueScan.FindAllComplete | DataFrame.py:22 | the same, over the whole text |
| KeyValueScan.Record | DataFrame.py:25 | a record is the stripped key and value of one match; the key holds key characters only and the value value characters only, with no space at either end |
| KeyValueScan.Records | DataFrame.py:25 | `data_list`: one record per match, in order, none dropped, all of them clean |
| KeyValueScan.GreedyExampleScan | DataFrame.py:21-22 | on "a: b c: d" the scan reports a single match, whose value runs up to the second colon |
| KeyValueScan.GreedyValueExample | DataFrame.py:21-25 | on "a: b c: d" `data_list` is the single record ("a", "b c") |
| KeyValueScan.BlankKeyExample | DataFrame.py:21-25 | a key of spaces alone is matched and stripped to "": " : x" gives the record ("", "x") |

## Left out

- The HTTP request (`requests.get` with a 10-second timeout and `raise_for_status`) is the parameter `Fetcher`. Only its text or its exception matters to the pipeline.
- The model client (`genai.configure`, `GenerativeModel`, `generate_content(...).text`) is the parameter `Model`. A model may answer each attempt differently.
- Retry.GenerateOutput: the sleep after attempt a is `delay(a)` for an abstract `delay`. The schedule that `wait_exponential_multiplier=1000` selects belongs to the `retrying` package, which is not part of this model. No time passes in the model.
- `json.loads` is the abstract `Parser`. For each text it returns a value, raises `JSONDecodeError`, or raises some other exception (such as the `ValueError` for an integer literal over Python's digit limit, or a `RecursionError` for deep nesting). Which texts do which, that is, JSON decoding itself, is not modelled. JSON numbers are `real`: NaN, infinities and integer/float distinctions are not modelled.
- `toFile` and `save_to_file` appear only as the decision to write a value to `output/data.json`: `makedirs`, `open`, `json.dump(indent=4)`, and any `IOError` from them are not modelled.
- The library driver's outer `try`/`except` (lines 132 and 141-142) guards only `toFile`, since `toJSON` never raises. With the file write left out, the model has nothing for it to catch.
- The API-key checks are not modelled: `os.getenv` and the `ValueError` in `LLMWebScraper.__init__` (lines 19-26), and lines 25-31 of `WebScrap-GeminiAI.py`. `load_dotenv` is not modelled either.
- Logging: every `logging.*` call is left out. Where a driver's only visible effect is a log line, the model returns the outcome instead: the warning `Warn`, the no-data warning `NoData` and the error `Failed(cause)`.
- Prompt.Format models the part of `str.format` the template uses: literal text, `{{`, `}}`, `{name}`, and its three errors. Format specifications, conversions, positional fields and attribute or index access are not modelled.
- `DataFrame.py` outside lines 21-25 is not part of this model: the `requests` call, BeautifulSoup's `get_text`, the pandas `DataFrame` and `to_json`. The scan takes the page text as a string.
- Both drivers catch any exception. An exception from the fetch and one from the model are not distinguished apart from their cause.

Three facts about the code shape the outcomes:

- The decorator re-raises the last call's own exception. There is no separate error for an exhausted retry budget, so `Failed` carries the third call's cause.
- The sleep lengths belong to the `retrying` package. The model fixes only how many waits happen (two, when all three calls fail) and in what order.
- The library's example driver never fails on a stage error. `toJSON` turns every exception into `None`, so the driver warns that there is no data. Only `main` in `WebScrap-GeminiAI.py` reports a failure: from the fetch, from the third model call, or from the decoder when it raises anything but `JSONDecodeError`.
