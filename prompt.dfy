/** The prompt sent to the model: a fixed template with the two slots `{html}`
    and `{instructions}`, rendered the way `PromptTemplate.format` renders it
    (Python `str.format` on the template text). */
module Prompt {
  import opened Wrappers

  // The literal text of the template, one source line per row (long lines
  // are cut into pieces at word boundaries only to keep the proofs small).

  /** The template text before `{html}`, including its leading newline and the
      space that ends its first line. */
  const Preamble: string :=
    "\n"
    + "You are a data extraction expert. " + "I will provide you with raw HTML " + "content of a webpage, \n"
    + "and you need to extract specific " + "information based on my instructions.\n"
    + "\n"
    + "HTML Content:\n"

  /** The template text between `{html}` and `{instructions}`. */
  const Middle: string :=
    "\n"
    + "\n"
    + "Extraction Instructions:\n"

  /** The template text after `{instructions}`. */
  const Closing: string :=
    "\n"
    + "\n"
    + "Please extract the information " + "in a structured JSON format.\n"

  /** The template as written in the source, slots included. */
  const TemplateText: string := Preamble + "{html}" + Middle + "{instructions}" + Closing

  /** The fixed extraction instructions of both drivers (the blog-post request
      with its JSON example). Its braces are data, not slots. */
  const BlogInstructions: string :=
    "\n"
    + "Extract the following information:\n"
    + "1. Titles of all blog posts on the page.\n"
    + "2. Author names for each blog post.\n"
    + "3. Publication dates of each blog post.\n"
    + "\n"
    + "Please provide the extracted information in a structured JSON format.\n"
    + "Expecting property name enclosed in double quotes and values in string format.\n"
    + "Example:\n"
    + "{\n"
    + "  \"blog_posts\": [\n"
    + "        {\n"
    + "            \"title\": \"Blog Post 1\",\n"
    + "            \"author\": \"Author 1\",\n"
    + "            \"publication_date\": \"2022-01-01\"\n"
    + "        },\n"
    + "        {\n"
    + "            \"title\": \"Blog Post 2\",\n"
    + "            \"author\": \"Author 2\",\n"
    + "            \"publication_date\": \"2022-01-02\"\n"
    + "        }\n"
    + "    ]\n"
    + "}\n"

  predicate BraceFree(s: string) {
    forall i :: 0 <= i < |s| ==> s[i] != '{' && s[i] != '}'
  }

  /** The rendered prompt: the template with `html` and `instructions` put in
      their slots. */
  function Render(html: string, instructions: string): string {
    Preamble + html + Middle + instructions + Closing
  }

  /** Both inputs appear in the prompt verbatim and untruncated, each at a
      fixed offset between the fixed pieces of the template. */
  lemma RenderLayout(html: string, instructions: string)
    ensures var r := Render(html, instructions);
      && |r| == |Preamble| + |html| + |Middle| + |instructions| + |Closing|
      && r[..|Preamble|] == Preamble
      && r[|Preamble|..|Preamble| + |html|] == html
      && r[|Preamble| + |html|..|Preamble| + |html| + |Middle|] == Middle
      && r[|Preamble| + |html| + |Middle|..|r| - |Closing|] == instructions
      && r[|r| - |Closing|..] == Closing
  {
    SlotsAt(Preamble, html, Middle, instructions, Closing);
  }

  lemma SlotsAt(a: string, h: string, b: string, i: string, c: string)
    ensures var r := a + h + b + i + c;
      && |r| == |a| + |h| + |b| + |i| + |c|
      && r[..|a|] == a
      && r[|a|..|a| + |h|] == h
      && r[|a| + |h|..|a| + |h| + |b|] == b
      && r[|a| + |h| + |b|..|r| - |c|] == i
      && r[|r| - |c|..] == c
  {
  }

  /** Two renderings with equally long pages are equal only for equal inputs:
      nothing of either input is lost. */
  lemma RenderInjective(h1: string, i1: string, h2: string, i2: string)
    requires |h1| == |h2|
    requires Render(h1, i1) == Render(h2, i2)
    ensures h1 == h2 && i1 == i2
  {
    RenderLayout(h1, i1);
    RenderLayout(h2, i2);
  }

  // ---------------------------------------------------------------------------
  // Reference: Python's str.format on plain `{name}` fields.

  datatype FormatError =
    | UnmatchedOpen                 // "Single '{' encountered" / "expected '}'"
    | UnmatchedClose                // "Single '}' encountered"
    | MissingKey(name: string)      // KeyError

  function Prepend(p: string, r: Result<string, FormatError>): Result<string, FormatError> {
    match r
    case Ok(v) => Ok(p + v)
    case Err(e) => Err(e)
  }

  /** The first `}` in t at or after p. */
  function FindClose(t: string, p: nat): (r: Option<nat>)
    requires p <= |t|
    decreases |t| - p
    ensures r.Some? ==> p <= r.value < |t| && t[r.value] == '}'
    ensures r.Some? ==> forall i :: p <= i < r.value ==> t[i] != '}'
    ensures r.None? ==> forall i :: p <= i < |t| ==> t[i] != '}'
  {
    if p == |t| then None else if t[p] == '}' then Some(p) else FindClose(t, p + 1)
  }

  /** `t.format(**vars)` for a template whose fields are plain names: `{{` and
      `}}` stand for one brace, `{name}` for `vars[name]`, and the substituted
      text is not scanned again. */
  function Format(t: string, vars: map<string, string>): Result<string, FormatError>
    decreases |t|
  {
    if t == "" then Ok("")
    else if t[0] == '{' && |t| > 1 && t[1] == '{' then Prepend("{", Format(t[2..], vars))
    else if t[0] == '{' then
      match FindClose(t, 1)
      case None => Err(UnmatchedOpen)
      case Some(c) =>
        var name := t[1..c];
        if '{' in name then Err(UnmatchedOpen)
        else if name !in vars then Err(MissingKey(name))
        else Prepend(vars[name], Format(t[c + 1..], vars))
    else if t[0] == '}' && |t| > 1 && t[1] == '}' then Prepend("}", Format(t[2..], vars))
    else if t[0] == '}' then Err(UnmatchedClose)
    else Prepend([t[0]], Format(t[1..], vars))
  }

  lemma BraceFreeConcat(a: string, b: string)
    requires BraceFree(a) && BraceFree(b)
    ensures BraceFree(a + b)
  {
    forall i | 0 <= i < |a + b| ensures (a + b)[i] != '{' && (a + b)[i] != '}' {
      if i < |a| { assert (a + b)[i] == a[i]; } else { assert (a + b)[i] == b[i - |a|]; }
    }
  }

  /** The literal parts of the template hold no brace. */
  lemma LiteralsBraceFree()
    ensures BraceFree(Preamble) && BraceFree(Middle) && BraceFree(Closing)
  {
    PreambleBraceFree();
    var nl, m1 := "\n", "Extraction Instructions:\n";
    assert BraceFree(nl) && BraceFree(m1);
    BraceFreeConcat(nl, nl);
    BraceFreeConcat(nl + nl, m1);
    var c1, c2 := "Please extract the information ", "in a structured JSON format.\n";
    assert BraceFree(c1) && BraceFree(c2);
    BraceFreeConcat(nl + nl, c1);
    BraceFreeConcat(nl + nl + c1, c2);
  }

  lemma PreambleBraceFree()
    ensures BraceFree(Preamble)
  {
    var nl, p1, p2, p3 := "\n", "You are a data extraction expert. ", "I will provide you with raw HTML ", "content of a webpage, \n";
    var p4, p5, p6 := "and you need to extract specific ", "information based on my instructions.\n", "HTML Content:\n";
    HeadBraceFree();
    TailBraceFree();
    BraceFreeConcat(nl + p1 + p2, p3 + p4 + p5);
    BraceFreeConcat(nl + p1 + p2 + (p3 + p4 + p5), nl + p6);
    Regroup3(nl, p1, p2, p3, p4, p5, nl, p6);
  }

  lemma HeadBraceFree()
    ensures BraceFree("\n" + "You are a data extraction expert. " + "I will provide you with raw HTML ")
  {
    var nl, p1, p2 := "\n", "You are a data extraction expert. ", "I will provide you with raw HTML ";
    assert BraceFree(nl) && BraceFree(p1) && BraceFree(p2);
    BraceFreeConcat(nl, p1);
    BraceFreeConcat(nl + p1, p2);
  }

  lemma TailBraceFree()
    ensures BraceFree("content of a webpage, \n" + "and you need to extract specific " + "information based on my instructions.\n")
    ensures BraceFree("\n" + "HTML Content:\n")
  {
    var nl, p3, p4, p5, p6 := "\n", "content of a webpage, \n", "and you need to extract specific ", "information based on my instructions.\n", "HTML Content:\n";
    assert BraceFree(p3) && BraceFree(p4);
    assert BraceFree(p5) && BraceFree(nl) && BraceFree(p6);
    BraceFreeConcat(p3, p4);
    BraceFreeConcat(p3 + p4, p5);
    BraceFreeConcat(nl, p6);
  }

  lemma Regroup3(x1: string, x2: string, x3: string, x4: string, x5: string, x6: string, x7: string, x8: string)
    ensures x1 + x2 + x3 + x4 + x5 + x6 + x7 + x8 == (x1 + x2 + x3) + (x4 + x5 + x6) + (x7 + x8)
  {
  }

  lemma {:induction false} FormatLiteral(lit: string, rest: string, vars: map<string, string>)
    requires BraceFree(lit)
    ensures Format(lit + rest, vars) == Prepend(lit, Format(rest, vars))
  {
    if lit == [] {
      assert lit + rest == rest;
      match Format(rest, vars)
      case Ok(v) => assert lit + v == v;
      case Err(_) =>
    } else {
      var t := lit + rest;
      assert t[0] == lit[0] && t[1..] == lit[1..] + rest;
      FormatLiteral(lit[1..], rest, vars);
      match Format(rest, vars)
      case Ok(v) => assert [lit[0]] + (lit[1..] + v) == lit + v;
      case Err(_) =>
    }
  }

  lemma FormatField(name: string, rest: string, vars: map<string, string>)
    requires name != "" && BraceFree(name) && name in vars
    ensures Format("{" + name + "}" + rest, vars) == Prepend(vars[name], Format(rest, vars))
  {
    var t := "{" + name + "}" + rest;
    var c := |name| + 1;
    assert t[0] == '{' && t[1] == name[0] && t[c] == '}';
    assert forall i :: 1 <= i < c ==> t[i] == name[i - 1];
    assert FindClose(t, 1) == Some(c);
    assert t[1..c] == name;
    assert t[c + 1..] == rest;
  }

  /** The template has exactly the two slots and no other braces, so
      `PromptTemplate.format(html=..., instructions=...)` is Render. */
  lemma TemplateFormatIsRender(html: string, instructions: string)
    ensures Format(TemplateText, map["html" := html, "instructions" := instructions]) == Ok(Render(html, instructions))
  {
    LiteralsBraceFree();
    FormatTwoSlots(Preamble, Middle, Closing, html, instructions);
  }

  /** Formatting a text with brace-free literal parts around `{html}` and
      `{instructions}` puts the two values in their slots. */
  lemma FormatTwoSlots(a: string, b: string, c: string, html: string, instructions: string)
    requires BraceFree(a) && BraceFree(b) && BraceFree(c)
    ensures Format(a + "{html}" + b + "{instructions}" + c, map["html" := html, "instructions" := instructions])
         == Ok(a + html + b + instructions + c)
  {
    var vars := map["html" := html, "instructions" := instructions];
    assert BraceFree("html") && BraceFree("instructions");
    var tail := "{" + "instructions" + "}" + c;
    var body := "{" + "html" + "}" + (b + tail);
    assert a + "{html}" + b + "{instructions}" + c == a + body;
    FormatLiteral(c, "", vars);
    assert c + "" == c;
    FormatField("instructions", c, vars);
    FormatLiteral(b, tail, vars);
    FormatField("html", b + tail, vars);
    FormatLiteral(a, body, vars);
    ConcatAssoc(a, html, b, instructions, c);
  }

  lemma ConcatAssoc(a: string, b: string, c: string, d: string, e: string)
    ensures a + b + c + d + e == a + (b + (c + (d + e)))
  {
  }
}
