/** The deterministic half of the content generator: `str.format(topic=…)`
    on a template prompt, the prompt `_build_prompt` assembles from an order,
    the preview prompt, and the token budget. */
module Prompt {
  import opened Common
  import opened Json
  import opened Models

  // ---------------------------------------------------------------------
  // template_prompt.format(topic=title)

  function Prepend(p: string, r: Option<string>): Option<string> {
    match r
    case Some(s) => Some(p + s)
    case None => None
  }

  /** `t.format(topic=topic)`: `{{` and `}}` stand for single braces,
      `{topic}` for the topic; any other use of a brace raises. */
  function FormatTopic(t: string, topic: string): Option<string>
    decreases |t|
  {
    if |t| == 0 then Some("")
    else if t[0] == '{' then
      if |t| >= 2 && t[1] == '{' then Prepend("{", FormatTopic(t[2..], topic))
      else if |t| >= 7 && t[..7] == "{topic}" then Prepend(topic, FormatTopic(t[7..], topic))
      else None
    else if t[0] == '}' then
      if |t| >= 2 && t[1] == '}' then Prepend("}", FormatTopic(t[2..], topic)) else None
    else Prepend([t[0]], FormatTopic(t[1..], topic))
  }

  predicate BraceFree(s: string) {
    forall i :: 0 <= i < |s| ==> s[i] != '{' && s[i] != '}'
  }

  /** Text without braces passes through formatting unchanged, in front of
      whatever the rest formats to. */
  lemma {:induction false} FormatBraceFreePrefix(a: string, rest: string, topic: string)
    requires BraceFree(a)
    ensures FormatTopic(a + rest, topic) == Prepend(a, FormatTopic(rest, topic))
    decreases |a|
  {
    if |a| > 0 {
      assert (a + rest)[1..] == a[1..] + rest;
      FormatBraceFreePrefix(a[1..], rest, topic);
      assert [a[0]] + a[1..] == a;
      match FormatTopic(rest, topic) {
        case None =>
        case Some(s) => assert [a[0]] + (a[1..] + s) == a + s;
      }
    } else {
      assert a + rest == rest;
      match FormatTopic(rest, topic) {
        case None =>
        case Some(s) => assert a + s == s;
      }
    }
  }

  /** A template with one `{topic}` field and no other braces formats to
      the text around the field with the topic in its place. */
  lemma FormatOneField(a: string, b: string, topic: string)
    requires BraceFree(a) && BraceFree(b)
    ensures FormatTopic(a + "{topic}" + b, topic) == Some(a + topic + b)
  {
    var t := "{topic}" + b;
    assert a + "{topic}" + b == a + t;
    FormatBraceFreePrefix(a, t, topic);
    FormatBraceFreePrefix(b, "", topic);
    assert b + "" == b;
    assert t[0] == '{' && t[1] == 't' && t[..7] == "{topic}" && t[7..] == b;
    assert FormatTopic(t, topic) == Prepend(topic, FormatTopic(b, topic));
    assert a + (topic + b) == a + topic + b;
  }

  /** Doubled braces are literal: `{{a}}` formats to `{a}` for brace-free
      `a`, so `{{topic}}` is not a field. */
  lemma FormatDoubledBraces(a: string, topic: string)
    requires BraceFree(a)
    ensures FormatTopic("{{" + a + "}}", topic) == Some("{" + a + "}")
  {
    var u := "}}";
    assert u[0] == '}' && u[1] == '}' && u[2..] == "";
    assert FormatTopic(u, topic) == Prepend("}", FormatTopic("", topic));
    FormatBraceFreePrefix(a, u, topic);
    var t := "{{" + a + "}}";
    assert t[0] == '{' && t[1] == '{' && t[2..] == a + u;
    assert FormatTopic(t, topic) == Prepend("{", FormatTopic(a + u, topic));
    assert "{" + (a + ("}" + "")) == "{" + a + "}";
  }

  lemma FormatEscapedField(topic: string)
    ensures FormatTopic("{{topic}}", topic) == Some("{topic}")
  {
    FormatDoubledBraces("topic", topic);
    assert "{{" + "topic" + "}}" == "{{topic}}";
    assert "{" + "topic" + "}" == "{topic}";
  }

  /** A stray closing brace raises, whatever the topic. */
  lemma FormatStrayBrace(a: string, topic: string)
    requires BraceFree(a)
    ensures FormatTopic(a + "}", topic) == None
  {
    FormatBraceFreePrefix(a, "}", topic);
  }

  // ---------------------------------------------------------------------
  // _build_prompt

  /** The per-type structural instruction table. */
  const ContentInstructions: map<string, string> := map[
    "blog_post" := "Structure the content with a compelling headline, introduction, main body with subheadings, and conclusion.",
    "article" := "Write in a professional, informative style with proper citations and references where appropriate.",
    "social_media" := "Keep it engaging, shareable, and include relevant hashtags. Make it platform-appropriate.",
    "marketing_copy" := "Focus on benefits, create urgency, and include a strong call-to-action.",
    "video_script" := "Include scene descriptions, dialogue, and timing notes. Make it engaging for video format."
  ]

  const RequirementsHeader := "\nSpecific requirements:"

  /** `if requirements.get(k):` — present and a non-empty string. */
  predicate Truthy(m: Dict, k: string) {
    Get(m, k).Some? && Get(m, k).value != ""
  }

  function Bullet(m: Dict, k: string, caption: string): (r: seq<string>)
    ensures |r| <= 1
    ensures r != [] <==> Truthy(m, k)
  {
    if Truthy(m, k) then [caption + Get(m, k).value] else []
  }

  /** The header and the bullets for the four recognised keys, in their
      fixed order. */
  function RequirementParts(m: Dict): (r: seq<string>)
    ensures r != [] <==> |m| > 0
    ensures r != [] ==> r[0] == RequirementsHeader
  {
    if |m| == 0 then []
    else [RequirementsHeader]
         + Bullet(m, "tone", "- Tone: ")
         + Bullet(m, "target_audience", "- Target audience: ")
         + Bullet(m, "keywords", "- Include these keywords: ")
         + Bullet(m, "additional_notes", "- Additional notes: ")
  }

  function WordCountLine(wordCount: int): string {
    "\nTarget word count: approximately " + IntToString(wordCount) + " words"
  }

  function DescriptionParts(description: string): seq<string> {
    if description != "" then ["\nAdditional context: " + description] else []
  }

  function FormatParts(contentType: string): seq<string> {
    if contentType in ContentInstructions then ["\nContent format: " + ContentInstructions[contentType]] else []
  }

  /** The list `_build_prompt` fills, given the formatted template prompt. */
  function PromptParts(base: string, o: Order): seq<string> {
    [base] + DescriptionParts(o.description) + RequirementParts(GetRequirements(o))
      + [WordCountLine(o.wordCount)] + FormatParts(o.contentType)
  }

  /** What `_build_prompt(order, template)` returns: the parts joined with
      "\n", or None where formatting the template prompt raises. */
  function PromptFor(o: Order, t: ContentTemplate): Option<string> {
    match FormatTopic(t.templatePrompt, o.title)
    case None => None
    case Some(base) => Some(Join(PromptParts(base, o), "\n"))
  }

  /** `_build_prompt(order, template)`, appending to the part list step by step. */
  method BuildPrompt(o: Order, t: ContentTemplate) returns (prompt: Option<string>)
    ensures prompt == PromptFor(o, t)
  {
    var base := FormatTopic(t.templatePrompt, o.title);
    if base.None? {
      return None;
    }
    var parts := [base.value];
    if o.description != "" {
      parts := parts + ["\nAdditional context: " + o.description];
    }
    assert parts == [base.value] + DescriptionParts(o.description);
    var requirements := GetRequirements(o);
    var lines := RequirementLines(requirements);
    parts := parts + lines;
    parts := parts + [WordCountLine(o.wordCount)];
    if o.contentType in ContentInstructions {
      parts := parts + ["\nContent format: " + ContentInstructions[o.contentType]];
    }
    assert parts == PromptParts(base.value, o);
    return Some(Join(parts, "\n"));
  }

  /** The `if requirements:` block of `_build_prompt`. */
  method RequirementLines(requirements: Dict) returns (lines: seq<string>)
    ensures lines == RequirementParts(requirements)
  {
    lines := [];
    if |requirements| > 0 {
      lines := [RequirementsHeader];
      lines := AddBullet(lines, requirements, "tone", "- Tone: ");
      lines := AddBullet(lines, requirements, "target_audience", "- Target audience: ");
      lines := AddBullet(lines, requirements, "keywords", "- Include these keywords: ");
      lines := AddBullet(lines, requirements, "additional_notes", "- Additional notes: ");
    }
  }

  /** `if requirements.get(k): prompt_parts.append(caption + requirements[k])` */
  method AddBullet(lines: seq<string>, requirements: Dict, k: string, caption: string)
    returns (lines': seq<string>)
    ensures lines' == lines + Bullet(requirements, k, caption)
  {
    lines' := lines;
    if Truthy(requirements, k) {
      lines' := lines' + [caption + Get(requirements, k).value];
    }
  }

  /** The prompt opens with the formatted template, then "\n". */
  lemma PromptStartsWithTemplate(base: string, o: Order)
    ensures |PromptParts(base, o)| >= 2
    ensures PromptParts(base, o)[0] == base
    ensures Join(PromptParts(base, o), "\n") == base + "\n" + Join(PromptParts(base, o)[1..], "\n")
  {
  }

  /** The additional-context part follows the template exactly when the
      description is non-empty. */
  lemma DescriptionPartIff(base: string, o: Order)
    ensures PromptParts(base, o)[1] == "\nAdditional context: " + o.description <==> o.description != ""
  {
    SecondPart(base, o);
    ContextLineDiffers(o.description, o.wordCount);
  }

  /** What follows the formatted template: the context part, else the
      header, else the word-count line. */
  lemma SecondPart(base: string, o: Order)
    ensures PromptParts(base, o)[1] ==
      if o.description != "" then "\nAdditional context: " + o.description
      else if |GetRequirements(o)| > 0 then RequirementsHeader
      else WordCountLine(o.wordCount)
  {
    SecondOf(base, DescriptionParts(o.description), RequirementParts(GetRequirements(o)),
             WordCountLine(o.wordCount), FormatParts(o.contentType));
  }

  lemma SecondOf(base: string, d: seq<string>, r: seq<string>, w: string, f: seq<string>)
    ensures ([base] + d + r + [w] + f)[1] == if d != [] then d[0] else if r != [] then r[0] else w
  {
    var rest := d + r + [w] + f;
    assert [base] + d + r + [w] + f == [base] + rest;
    if d == [] {
      assert rest == r + ([w] + f);
    }
  }

  lemma ContextLineDiffers(description: string, wordCount: int)
    ensures "\nAdditional context: " + description != RequirementsHeader
    ensures "\nAdditional context: " + description != WordCountLine(wordCount)
  {
    assert ("\nAdditional context: " + description)[1] == 'A';
    assert RequirementsHeader[1] == 'S';
    assert WordCountLine(wordCount)[1] == 'T';
  }

  /** The header appears, right after the template and context parts,
      exactly when the requirements are non-empty, bullets or not. */
  lemma HeaderIff(base: string, o: Order)
    ensures var h := 1 + |DescriptionParts(o.description)|;
            h < |PromptParts(base, o)| &&
            (PromptParts(base, o)[h] == RequirementsHeader <==> |GetRequirements(o)| > 0)
  {
    var h := 1 + |DescriptionParts(o.description)|;
    var p := PromptParts(base, o);
    if |GetRequirements(o)| == 0 {
      assert p[h] == WordCountLine(o.wordCount);
      assert p[h][1] == 'T' && RequirementsHeader[1] == 'S';
    }
  }

  /** The word-count line is always there, and last unless the content type
      has a structural instruction, which then comes last. */
  lemma PromptEnding(base: string, o: Order)
    ensures var p := PromptParts(base, o);
            if o.contentType in ContentInstructions then
              p[|p| - 2] == WordCountLine(o.wordCount) &&
              p[|p| - 1] == "\nContent format: " + ContentInstructions[o.contentType]
            else p[|p| - 1] == WordCountLine(o.wordCount)
  {
  }

  /** The two maps agree on the four keys `_build_prompt` reads. */
  predicate SameRecognisedKeys(m1: Dict, m2: Dict) {
    && Get(m1, "tone") == Get(m2, "tone")
    && Get(m1, "target_audience") == Get(m2, "target_audience")
    && Get(m1, "keywords") == Get(m2, "keywords")
    && Get(m1, "additional_notes") == Get(m2, "additional_notes")
  }

  /** Only the four recognised keys, and whether the map is empty at all,
      reach the prompt: any other key (revision_notes among them) is
      ignored. */
  lemma OnlyRecognisedKeysMatter(m1: Dict, m2: Dict)
    requires |m1| > 0 <==> |m2| > 0
    requires SameRecognisedKeys(m1, m2)
    ensures RequirementParts(m1) == RequirementParts(m2)
  {
    assert Bullet(m1, "tone", "- Tone: ") == Bullet(m2, "tone", "- Tone: ");
    assert Bullet(m1, "target_audience", "- Target audience: ") == Bullet(m2, "target_audience", "- Target audience: ");
    assert Bullet(m1, "keywords", "- Include these keywords: ") == Bullet(m2, "keywords", "- Include these keywords: ");
    assert Bullet(m1, "additional_notes", "- Additional notes: ") == Bullet(m2, "additional_notes", "- Additional notes: ");
  }

  /** The prompt reads the order's title, description, word count, type
      and the requirement lines, nothing else. */
  lemma PromptReadsOnly(o1: Order, o2: Order, t: ContentTemplate)
    requires o1.title == o2.title && o1.description == o2.description
    requires o1.wordCount == o2.wordCount && o1.contentType == o2.contentType
    requires RequirementParts(GetRequirements(o1)) == RequirementParts(GetRequirements(o2))
    ensures PromptFor(o1, t) == PromptFor(o2, t)
  {
  }

  /** `{"revision_notes": …}` alone yields the header with no bullet under it. */
  lemma HeaderWithoutBullets(notes: string)
    ensures RequirementParts([("revision_notes", notes)]) == [RequirementsHeader]
  {
    var m: Dict := [("revision_notes", notes)];
    assert !HasKey(m, "tone") && !HasKey(m, "target_audience");
    assert !HasKey(m, "keywords") && !HasKey(m, "additional_notes");
  }

  // ---------------------------------------------------------------------
  // The request sent to the language model

  /** `min(order.word_count * 2, 4000)` */
  function MaxTokens(wordCount: int): (n: int)
    ensures n <= 4000
    ensures n == 4000 || n == wordCount * 2
    ensures wordCount <= 2000 ==> n == wordCount * 2
  {
    if wordCount * 2 < 4000 then wordCount * 2 else 4000
  }

  const GenerationModel := "gpt-4"
  const GenerationSystem := "You are a professional content writer. Create high-quality, engaging content based on the user's requirements."
  const PreviewModel := "gpt-3.5-turbo"
  const PreviewSystem := "You are a professional content writer. Create a brief preview of content based on the user's requirements."
  const PreviewTokens := 200
  const Temperature := 0.7

  const PreviewRequest := "Generate a brief preview (100-150 words) of what the full content would look like."

  /** The preview prompt for a formatted template: "\n" after it, an optional
      context line, then the fixed request. */
  function PreviewPrompt(base: string, description: string): (p: string)
    ensures description == "" ==> p == base + "\n" + PreviewRequest
    ensures description != "" ==> p == base + "\n" + "Context: " + description + "\n" + PreviewRequest
  {
    base + "\n" + (if description != "" then "Context: " + description + "\n" else "") + PreviewRequest
  }

  /** The prompt `preview_content` sends, or None where formatting the
      template prompt raises. */
  function PreviewPromptFor(t: ContentTemplate, title: string, description: string): Option<string> {
    match FormatTopic(t.templatePrompt, title)
    case None => None
    case Some(base) => Some(PreviewPrompt(base, description))
  }

  /** The preview prompt, built with `+=` as `preview_content` does. */
  method BuildPreviewPrompt(t: ContentTemplate, title: string, description: string)
    returns (prompt: Option<string>)
    ensures prompt == PreviewPromptFor(t, title, description)
  {
    var base := FormatTopic(t.templatePrompt, title);
    if base.None? {
      return None;
    }
    var p := base.value + "\n";
    if description != "" {
      p := p + "Context: " + description + "\n";
    }
    p := p + PreviewRequest;
    return Some(p);
  }
}
