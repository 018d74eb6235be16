/** `claude_classify` of app/services/claude.py: fill the prompt template
    with the post, ask the model, cut the fenced JSON block out of the reply
    and parse it. Every failure becomes an error verdict; nothing is raised
    to the caller. The service call is a parameter: `ask(prompt)` is the
    text of the reply's first content block, or the error the client
    raised. */
module Classifier {
  import opened Outcomes
  import opened Text
  import opened Envelope

  /** The placeholder the post is substituted for. */
  const Marker: string := "{{POST}}"

  /** The prompt template of claude.py, character for character: the
      text before the placeholder, the placeholder, and the text after it. */
  const TemplateHead: string :=
      "\n"
    + "    Does this post discuss selling initial access to a company (e.g., RDP, VPN, admin access), selling unrelated items (e.g., accounts, tools), or warnings/complaints? Classify it as:\n"
    + "- Positive: Selling initial access.\n"
    + "- Neutral: Selling unrelated items.\n"
    + "- Negative: Warnings, general posts or complaints.\n"
    + "\n"
    + "The content must be specifically about selling access to a company or business whose name is mentioned in the post. \n"
    + "\n"
    + "Return **only** a JSON object with:\n"
    + "- `classification`: \"Positive\", \"Neutral\", or \"Negative\".\n"
    + "- `scores`: Probabilities for `positive`, `neutral`, `negative` (summing to 1).\n"
    + "\n"
    + "Wrap the JSON in ```json\n"
    + "{\n"
    + "  ...\n"
    + "}\n"
    + "``` to ensure proper formatting. Do not include any reasoning or extra text.\n"
    + "\n"
    + "Post:\n"
    + "```markdown\n"

  const TemplateTail: string :=
      "\n"
    + "``` \n"
    + "\n"
    + "Do not include any other text or explanations.\n"
    + "Make sure to return the JSON object in the specified format.\n"

  const Template: string := TemplateHead + Marker + TemplateTail

  const OpenFence: string := "```json\n"
  const CloseFence: string := "\n```"

  /** The message of the ValueError `str.index` raises. */
  const SubstringNotFound: string := "substring not found"

  /** `prompt_template.replace("{{POST}}", post_content)` */
  function Prompt(content: string): string {
    Replace(Template, Marker, content)
  }

  /** Replacing in the template substitutes the post for the first
      placeholder, and the rest of the template is processed in the same way. */
  lemma PromptFirstMarker(content: string)
    ensures var i := IndexFrom(Template, Marker, 0);
      && i.Some?
      && Prompt(content) ==
           Template[..i.value] + content + Replace(Template[i.value + |Marker|..], Marker, content)
  {
    var at := |TemplateHead|;
    assert Template[at..at + |Marker|] == Marker;
    assert OccursAt(Template, Marker, at);
    var i := IndexFrom(Template, Marker, 0).value;
    var rest := Split(Template[i + |Marker|..], Marker);
    assert Split(Template, Marker) == [Template[..i]] + rest;
    assert ([Template[..i]] + rest)[1..] == rest;
  }

  /** Every marker in the template is replaced by the post: the template
      is its marker-free pieces joined by the marker, and the prompt is the
      same pieces joined by the post. Markers inside the post itself are
      not replaced again. */
  lemma PromptSpec(content: string)
    ensures var pieces := Split(Template, Marker);
      && Join(pieces, Marker) == Template
      && (forall k, j: nat :: 0 <= k < |pieces| ==> !OccursAt(pieces[k], Marker, j))
      && Prompt(content) == Join(pieces, content)
  {
    SplitJoin(Template, Marker);
    SplitPiecesFree(Template, Marker);
  }

  /** `content[content.index("```json\n") + 7 : content.index("\n```", start)]`:
      the slice from the newline of the first opening fence up to the first
      closing fence after it, or the error `index` raises. */
  function ExtractFenced(text: string): (r: Result<string>)
    ensures r.Err? ==> r.error == SubstringNotFound
    ensures !Contains(text, OpenFence) ==> r.Err?
    ensures r.Ok? <==>
      (IndexFrom(text, OpenFence, 0).Some? &&
       IndexFrom(text, CloseFence, IndexFrom(text, OpenFence, 0).value + 7).Some?)
  {
    match IndexFrom(text, OpenFence, 0)
    case None => Err(SubstringNotFound)
    case Some(open) =>
      var start := open + 7;
      match IndexFrom(text, CloseFence, start)
      case None => Err(SubstringNotFound)
      case Some(end) => Ok(text[start..end])
  }

  /** The extracted block lies between the first opening fence and the
      first closing fence that starts at or after that fence's newline; it
      starts with the newline and never contains a closing fence. */
  lemma ExtractFencedSpec(text: string)
    ensures var r := ExtractFenced(text);
      && (r.Ok? ==> exists open: nat ::
            && OccursAt(text, OpenFence, open)
            && (forall i: nat :: i < open ==> !OccursAt(text, OpenFence, i))
            && OccursAt(text, CloseFence, open + 7 + |r.value|)
            && (forall i: nat :: open + 7 <= i < open + 7 + |r.value| ==> !OccursAt(text, CloseFence, i))
            && r.value == text[open + 7..open + 7 + |r.value|])
      && (r.Ok? ==> forall j: nat :: j + |CloseFence| <= |r.value| ==> !OccursAt(r.value, CloseFence, j))
      && (r.Ok? && r.value != [] ==> r.value[0] == '\n')
  {
    if ExtractFenced(text).Ok? {
      var open := IndexFrom(text, OpenFence, 0).value;
      var start := open + 7;
      var end := IndexFrom(text, CloseFence, start).value;
      var slice := text[start..end];
      assert ExtractFenced(text) == Ok(slice);
      assert slice != [] ==> slice[0] == text[open..open + |OpenFence|][7];
      forall j: nat | j + |CloseFence| <= |slice| ensures !OccursAt(slice, CloseFence, j) {
        if OccursAt(slice, CloseFence, j) {
          SliceOccurs(text, CloseFence, start, end, j);
        }
      }
      assert OccursAt(text, OpenFence, open) && OccursAt(text, CloseFence, open + 7 + |slice|);
    }
  }

  /** A reply that wraps `body` in one fence, with no backquote before the
      fence or inside the body, yields the body after the fence's newline. */
  lemma ExtractFencedRoundTrip(pre: string, body: string, post: string)
    requires '`' !in pre && '`' !in body
    ensures ExtractFenced(pre + OpenFence + body + CloseFence + post) == Ok("\n" + body)
  {
    var text := pre + OpenFence + body + CloseFence + post;
    OpenFenceFound(pre, body, post);
    CloseFenceFound(pre, body, post);
    ExtractFencedAt(text, |pre|, |pre| + 8 + |body|);
    FencedSlice(pre, body, post);
  }

  /** Where the two fences are found decides the slice. */
  lemma ExtractFencedAt(text: string, open: nat, end: nat)
    requires IndexFrom(text, OpenFence, 0) == Some(open)
    requires IndexFrom(text, CloseFence, open + 7) == Some(end)
    ensures open + 7 <= end <= |text| && ExtractFenced(text) == Ok(text[open + 7..end])
  {
  }

  /** The text between the fences, from the opening fence's newline on. */
  lemma FencedSlice(pre: string, body: string, post: string)
    ensures (pre + OpenFence + body + CloseFence + post)[|pre| + 7..|pre| + 8 + |body|] == "\n" + body
  {
    var text := pre + OpenFence + body + CloseFence + post;
    var start := |pre| + 7;
    var slice := text[start..start + 1 + |body|];
    forall k | 0 <= k < |slice| ensures slice[k] == ("\n" + body)[k] {
      if k == 0 {
        assert slice[0] == OpenFence[7];
      } else {
        assert slice[k] == body[k - 1];
      }
    }
  }

  /** The opening fence is first found right after `pre`. */
  lemma OpenFenceFound(pre: string, body: string, post: string)
    requires '`' !in pre
    ensures IndexFrom(pre + OpenFence + body + CloseFence + post, OpenFence, 0) == Some(|pre|)
  {
    var text := pre + OpenFence + body + CloseFence + post;
    var open := |pre|;
    assert text[open..open + |OpenFence|] == OpenFence;
    forall k | 0 <= k < open ensures text[k] != OpenFence[0] {
      assert text[k] == pre[k];
    }
    NoOccurrenceIn(text, OpenFence, 0, open, 0);
    IndexFromIs(text, OpenFence, 0, open);
  }

  /** After the opening fence, the closing fence is first found right
      after `body`. */
  lemma CloseFenceFound(pre: string, body: string, post: string)
    requires '`' !in body
    ensures IndexFrom(pre + OpenFence + body + CloseFence + post, CloseFence, |pre| + 7) ==
      Some(|pre| + 8 + |body|)
  {
    var text := pre + OpenFence + body + CloseFence + post;
    var start, end := |pre| + 7, |pre| + 8 + |body|;
    assert text[end..end + |CloseFence|] == CloseFence;
    forall k | start + 1 <= k < end + 1 && k < |text| ensures text[k] != CloseFence[1] {
      if k < end {
        assert text[k] == body[k - start - 1];
      }
    }
    NoOccurrenceIn(text, CloseFence, start, end, 1);
    IndexFromIs(text, CloseFence, start, end);
  }

  /** The dictionary returned when classification fails. */
  function ErrorVerdict(message: string): (v: Json)
    ensures v.JObj? && v.fields.Keys == {"error", "classification", "scores"}
    ensures v.fields["classification"] == JNull && v.fields["scores"] == JNull
  {
    JObj(map["error" := JStr("Failed to classify post: " + message),
             "classification" := JNull, "scores" := JNull])
  }

  /** The `try` block after the model call: cut the fenced block out of
      the reply and parse it, or the error verdict for the exception raised
      on the way (the client's, `str.index`'s or `json.loads`'). */
  function ClassifyReply(c: Codecs, reply: Result<string>): (v: Json)
    ensures reply.Err? ==> v == ErrorVerdict(reply.error)
    ensures reply.Ok? && ExtractFenced(reply.value).Err? ==> v == ErrorVerdict(SubstringNotFound)
    ensures reply.Ok? && ExtractFenced(reply.value).Ok? ==>
      v == (match c.loads(ExtractFenced(reply.value).value)
            case Ok(parsed) => parsed
            case Err(e) => ErrorVerdict(e))
  {
    match reply
    case Err(e) => ErrorVerdict(e)
    case Ok(text) =>
      match ExtractFenced(text)
      case Err(e) => ErrorVerdict(e)
      case Ok(slice) =>
        match c.loads(slice)
        case Err(e) => ErrorVerdict(e)
        case Ok(result) => result
  }

  /** `claude_classify(api_key, model_name, post_content)`: the model is
      asked with the filled template, and its reply is classified. The
      result is the error verdict of a failed call or of a reply without
      the fences, and otherwise the parsed fenced block unchanged, or the
      error verdict of the parse error. */
  function ClaudeClassify(c: Codecs, ask: string -> Result<string>, content: string): (v: Json)
    ensures ask(Prompt(content)).Err? ==> v == ErrorVerdict(ask(Prompt(content)).error)
    ensures ask(Prompt(content)).Ok? && ExtractFenced(ask(Prompt(content)).value).Err? ==>
      v == ErrorVerdict(SubstringNotFound)
    ensures ask(Prompt(content)).Ok? && ExtractFenced(ask(Prompt(content)).value).Ok? ==>
      v == (match c.loads(ExtractFenced(ask(Prompt(content)).value).value)
            case Ok(parsed) => parsed
            case Err(e) => ErrorVerdict(e))
  {
    ClassifyReply(c, ask(Prompt(content)))
  }

  /** A service error, a reply without an opening fence, or one without a
      closing fence after its opening fence, gives the error verdict. */
  lemma ClassifyFailures(c: Codecs, reply: Result<string>)
    ensures reply.Err? ==> ClassifyReply(c, reply) == ErrorVerdict(reply.error)
    ensures reply.Ok? && !Contains(reply.value, OpenFence) ==>
      ClassifyReply(c, reply) == ErrorVerdict(SubstringNotFound)
    ensures (reply.Ok? && Contains(reply.value, OpenFence) &&
             IndexFrom(reply.value, CloseFence, IndexFrom(reply.value, OpenFence, 0).value + 7).None?) ==>
      ClassifyReply(c, reply) == ErrorVerdict(SubstringNotFound)
  {
  }

  /** A well-fenced reply yields exactly the object its block parses to; a
      block that does not parse yields the error verdict. */
  lemma ClassifyFencedReply(c: Codecs, pre: string, body: string, post: string)
    requires '`' !in pre && '`' !in body
    ensures var reply := Ok(pre + OpenFence + body + CloseFence + post);
      && (c.loads("\n" + body).Ok? ==> ClassifyReply(c, reply) == c.loads("\n" + body).value)
      && (c.loads("\n" + body).Err? ==> ClassifyReply(c, reply) == ErrorVerdict(c.loads("\n" + body).error))
  {
    ExtractFencedRoundTrip(pre, body, post);
  }
}
