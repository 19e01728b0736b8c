/**
 * The LLM layer (src/llm.py): the context a slide is generated from, the
 * provider interface the handlers call, the fence-stripping of raw model
 * replies, the next-title rule, the navigation controls of a references
 * slide, and the deterministic mock provider's slide, outline-extension,
 * references and regeneration answers.
 */
module Llm {
  import opened Wrappers
  import opened PyStr
  import opened Slides

  datatype SlideGenerationContext = SlideGenerationContext(
    topic: string,
    slideTitle: string,
    slideIndex: int,
    totalSlides: int,
    outline: seq<string>,
    isFirst: bool,
    isLast: bool)

  /** A slide with generated content and contextual controls. */
  datatype GeneratedSlide = GeneratedSlide(content: SlideContent, controls: seq<InteractiveControl>)

  /**
   * The provider the handlers call. Each call returns a value or raises; a
   * real provider asks a remote model, so each field is an arbitrary function.
   * `generateReferences` also receives the attempt number, because the
   * references loop asks the same question up to three times and a model may
   * answer differently each time.
   */
  datatype Provider = Provider(
    generateLectureOutline: string -> Result<seq<string>>,
    extendLectureOutline: (string, seq<string>) -> Result<seq<string>>,
    generateSlide: SlideGenerationContext -> Result<GeneratedSlide>,
    clarifySlide: (SlideContent, SlideGenerationContext) -> Result<GeneratedSlide>,
    handleDeepDive: (string, string, SlideGenerationContext) -> Result<GeneratedSlide>,
    generateExample: (SlideContent, SlideGenerationContext, Value) -> Result<GeneratedSlide>,
    generateQuiz: (SlideContent, SlideGenerationContext) -> Result<GeneratedSlide>,
    generateReferences: (string, seq<string>, int, nat) -> Result<GeneratedSlide>,
    generateConceptMap: (string, seq<string>, int) -> Result<GeneratedSlide>)

  const IndexError: string := "list index out of range"

  // ---------------------------------------------------------------------------
  // clean_json_response

  /**
   * `clean_json_response`: strip the reply; if it opens a code fence, drop
   * the fence's first line and a closing "```", and strip again.
   */
  function CleanJsonResponse(responseText: string): (r: string)
    ensures IsStripped(r)
    ensures !StartsWith(Strip(responseText), "```") ==> r == Strip(responseText)
  {
    var text := Strip(responseText);
    if !StartsWith(text, "```") then
      StripStripped(text);
      Strip(text)
    else
      Strip(DropClosingFence(DropFirstLine(text)))
  }

  /** What follows the first newline, or all of `text` when it has none. */
  function DropFirstLine(text: string): string {
    match IndexOf(text, '\n')
    case Some(i) => text[i + 1..]
    case None => text
  }

  /** `text` without a final "```". */
  function DropClosingFence(text: string): string {
    if EndsWith(text, "```") then text[..|text| - 3] else text
  }

  /** `clean_json_response` as the source runs it, reassigning `text` step by step. */
  method CleanJson(responseText: string) returns (text: string)
    ensures text == CleanJsonResponse(responseText)
    ensures IsStripped(text)
  {
    text := Strip(responseText);
    ghost var stripped := text;
    if StartsWith(text, "```") {
      var firstNewline := IndexOf(text, '\n');
      if firstNewline.Some? {
        text := text[firstNewline.value + 1..];
      }
      assert text == DropFirstLine(stripped);
      if EndsWith(text, "```") {
        text := text[..|text| - 3];
      }
      assert text == DropClosingFence(DropFirstLine(stripped));
    } else {
      StripStripped(text);
    }
    text := Strip(text);
  }

  /** A reply fenced as "```tag", newline, body, "```" comes back as the stripped body. */
  lemma CleanFenced(tag: string, body: string)
    requires '\n' !in tag
    ensures CleanJsonResponse("```" + tag + "\n" + body + "```") == Strip(body)
  {
    var s := "```" + tag + "\n" + body + "```";
    var k := 3 + |tag|;
    FenceParts(tag, body);
    IndexOfIs(s, '\n', k);
    CleanFencedText(s, k);
  }

  /** The positions of the parts of "```tag", newline, body, "```". */
  lemma FenceParts(tag: string, body: string)
    requires '\n' !in tag
    ensures var s := "```" + tag + "\n" + body + "```"; var k := 3 + |tag|;
      |s| == k + 4 + |body| && s[0] == '`' && s[|s| - 1] == '`' && s[..3] == "```" &&
      s[k] == '\n' && '\n' !in s[..k] && s[k + 1..|s| - 3] == body && s[|s| - 3..] == "```"
  {
    var s := "```" + tag + "\n" + body + "```";
    var k := 3 + |tag|;
    assert s[..k] == "```" + tag;
    assert '\n' !in "```";
  }

  /** A stripped reply opening a fence, whose first newline is at `k` and which ends in "```", is cut to what lies between. */
  lemma CleanFencedText(s: string, k: nat)
    requires 3 <= |s| && s[0] == '`' && s[|s| - 1] == '`' && s[..3] == "```"
    requires IndexOf(s, '\n') == Some(k) && k + 4 <= |s| && s[|s| - 3..] == "```"
    ensures CleanJsonResponse(s) == Strip(s[k + 1..|s| - 3])
  {
    assert IsStripped(s);
    CleanOpenedFence(s);
    FirstLineDropped(s, k);
    FenceBody(s, k);
  }

  /** Dropping what precedes position `k + 1` and the closing "```" leaves what lies between. */
  lemma FenceBody(s: string, k: nat)
    requires k + 4 <= |s| && s[|s| - 3..] == "```"
    ensures DropClosingFence(s[k + 1..]) == s[k + 1..|s| - 3]
  {
    SliceEnds(s, k + 1, 3);
    ClosingFenceDropped(s[k + 1..]);
  }

  lemma FirstLineDropped(s: string, k: nat)
    requires IndexOf(s, '\n') == Some(k)
    ensures DropFirstLine(s) == s[k + 1..]
  {
  }

  lemma ClosingFenceDropped(t: string)
    requires 3 <= |t| && t[|t| - 3..] == "```"
    ensures DropClosingFence(t) == t[..|t| - 3]
  {
    assert EndsWith(t, "```");
  }

  /** A stripped reply that opens a fence loses its first line and a closing "```", and is stripped again. */
  lemma CleanOpenedFence(s: string)
    requires IsStripped(s) && StartsWith(s, "```")
    ensures CleanJsonResponse(s) == Strip(DropClosingFence(DropFirstLine(s)))
  {
    StripStripped(s);
  }

  /** The usual "```json\nBODY\n```" reply comes back as strip(BODY). */
  lemma CleanJsonFence(body: string)
    ensures CleanJsonResponse("```json\n" + body + "\n```") == Strip(body)
  {
    assert "```json\n" + body + "\n```" == "```" + "json" + "\n" + (body + "\n") + "```";
    CleanFenced("json", body + "\n");
    StripTrailingSpace(body, '\n');
  }

  // ---------------------------------------------------------------------------
  // The next-title rule

  /**
   * `outline[slide_index + 1] if slide_index < len(outline) - 1 else None`;
   * the lookup follows Python's negative indexing and raises below it.
   */
  function NextTitle(outline: seq<string>, slideIndex: int): (r: Result<Option<string>>)
    ensures r == Ok(None) <==> slideIndex >= |outline| - 1
    ensures r.Raise? <==> slideIndex + 1 < -|outline|
    ensures 0 <= slideIndex < |outline| - 1 ==> r == Ok(Some(outline[slideIndex + 1]))
  {
    if slideIndex < |outline| - 1 then
      match PyIndex(|outline|, slideIndex + 1)
      case Some(k) => Ok(Some(outline[k]))
      case None => Raise(IndexError)
    else Ok(None)
  }

  // ---------------------------------------------------------------------------
  // Controls of references slides

  /** The "Return to Lecture" control, which carries the slide to return to. */
  function ReturnControl(currentIndex: int): InteractiveControl {
    InteractiveControl("Return to Lecture", "return_to_main", Some(map["slide_index" := Int(currentIndex)]))
  }

  /**
   * The two navigation controls of a references slide, as `get_references_prompt`
   * asks for them and `MockLLMProvider.generate_references` builds them: back
   * to the lecture, then forward to the next title or, on the last slide, an
   * extension of the lecture. `fallback` is the title used when there is no
   * next entry ("next topic" in the prompt, "Next" in the mock).
   */
  function ReferenceControls(outline: seq<string>, currentIndex: int, fallback: string): (r: Result<seq<InteractiveControl>>)
    ensures r.Raise? <==> currentIndex + 1 < -|outline|
    ensures r.Ok? ==> |r.value| == 2 && r.value[0] == ReturnControl(currentIndex)
    ensures r.Ok? ==> (r.value[1].action == "advance_main_thread" <==> currentIndex < |outline| - 1)
    ensures currentIndex >= |outline| - 1 ==> r == Ok([ReturnControl(currentIndex), Control("Extend Lecture", "extend_lecture")])
    ensures 0 <= currentIndex < |outline| - 1 ==>
      r == Ok([ReturnControl(currentIndex), Control("Next: " + outline[currentIndex + 1], "advance_main_thread")])
  {
    var isLastSlide := currentIndex >= |outline| - 1;
    if !isLastSlide then
      var nextTitle :=
        if currentIndex + 1 < |outline| then
          match PyIndex(|outline|, currentIndex + 1)
          case Some(k) => Ok(outline[k])
          case None => Raise(IndexError)
        else Ok(fallback);
      match nextTitle
      case Ok(title) => Ok([ReturnControl(currentIndex), Control("Next: " + title, "advance_main_thread")])
      case Raise(e) => Raise(e)
    else Ok([ReturnControl(currentIndex), Control("Extend Lecture", "extend_lecture")])
  }

  /** The fallback title is never used: a slide that is not the last always has a next entry. */
  lemma ReferenceFallbackUnused(outline: seq<string>, currentIndex: int, fallback: string, other: string)
    ensures ReferenceControls(outline, currentIndex, fallback) == ReferenceControls(outline, currentIndex, other)
  {
  }

  // ---------------------------------------------------------------------------
  // MockLLMProvider

  /** The actions of a list of controls, in order. */
  function Actions(controls: seq<InteractiveControl>): (r: seq<string>)
    ensures |r| == |controls|
    ensures forall i :: 0 <= i < |controls| ==> r[i] == controls[i].action
  {
    if controls == [] then [] else [controls[0].action] + Actions(controls[1..])
  }

  lemma {:induction false} ActionsAppend(a: seq<InteractiveControl>, b: seq<InteractiveControl>)
    ensures Actions(a + b) == Actions(a) + Actions(b)
  {
    var r := Actions(a + b);
    assert |r| == |Actions(a) + Actions(b)|;
    forall i | 0 <= i < |r| ensures r[i] == (Actions(a) + Actions(b))[i] {
      if i < |a| {
        assert (a + b)[i] == a[i];
      } else {
        assert (a + b)[i] == b[i - |a|];
      }
    }
  }

  lemma ActionsAppend3(a: seq<InteractiveControl>, b: seq<InteractiveControl>, c: seq<InteractiveControl>)
    ensures Actions(a + b + c) == Actions(a) + Actions(b) + Actions(c)
  {
    ActionsAppend(a + b, c);
    ActionsAppend(a, b);
  }

  /** The actions of a control that is present only when `b` holds. */
  lemma ActionsOptional(b: bool, c: InteractiveControl)
    ensures Actions(if b then [c] else []) == if b then [c.action] else []
  {
  }

  /** Whether some control in `controls` triggers `action`. */
  predicate HasAction(controls: seq<InteractiveControl>, action: string) {
    action in Actions(controls)
  }

  /** The mock's deep-dive concept: the last word of the title, or "concept" for a title without words. */
  function MockConcept(title: string): string {
    var words := Words(title);
    if words == [] then "concept" else words[|words| - 1]
  }

  /** The mock's concept is the last word of a title: the word after the last whitespace. */
  lemma MockConceptLastWord(p: string, c: char, w: string)
    requires IsSpace(c) && IsWord(w)
    ensures MockConcept(p + [c] + w) == w
  {
    ConcatAssoc(p, [c], w);
    WordsSnoc(p, c, w);
  }

  /** A one-word title is its own concept. */
  lemma MockConceptOneWord(w: string)
    requires IsWord(w)
    ensures MockConcept(w) == w
  {
    WordsOfWord(w);
  }

  /** A title without words, empty or all whitespace, has the concept "concept". */
  lemma MockConceptBlank(title: string)
    requires forall i :: 0 <= i < |title| ==> IsSpace(title[i])
    ensures MockConcept(title) == "concept"
  {
    WordsOfBlank(title);
  }

  /** The first control of a mock slide: to the next title, or "Continue Learning" on the last slide. */
  function MockLeadControl(context: SlideGenerationContext): (r: Result<InteractiveControl>)
    ensures r.Raise? <==> !context.isLast && PyIndex(|context.outline|, context.slideIndex + 1).None?
    ensures context.isLast ==> r == Ok(Control("Continue Learning", "extend_lecture"))
    ensures !context.isLast && r.Ok? ==> r.value.action == "advance_main_thread"
    ensures !context.isLast && 0 <= context.slideIndex + 1 < |context.outline| ==>
      r == Ok(Control("Next: " + context.outline[context.slideIndex + 1], "advance_main_thread"))
  {
    if !context.isLast then
      match PyIndex(|context.outline|, context.slideIndex + 1)
      case Some(k) => Ok(Control("Next: " + context.outline[k], "advance_main_thread"))
      case None => Raise(IndexError)
    else Ok(Control("Continue Learning", "extend_lecture"))
  }

  /** Whether the mock offers a quiz: not on the first nor on the last slide. */
  predicate MockOffersQuiz(context: SlideGenerationContext) {
    context.slideIndex != 0 && context.slideIndex != context.totalSlides - 1
  }

  /** The deep-dive control of a mock slide: the concept in the label, in lower case as the parameter. */
  function MockDeepDiveControl(title: string): InteractiveControl {
    var concept := MockConcept(title);
    InteractiveControl("Deep Dive: " + concept, "deep_dive", Some(map["concept" := Str(Lower(concept))]))
  }

  /** The controls of a mock slide after its lead control. */
  function MockTailControls(context: SlideGenerationContext): seq<InteractiveControl> {
    TailAround(context, MockDeepDiveControl(context.slideTitle))
  }

  /** The tail of a mock slide's controls around a given deep-dive control. */
  function TailAround(context: SlideGenerationContext, dive: InteractiveControl): seq<InteractiveControl> {
    (if !context.isFirst then [Control("Previous", "go_previous")] else []) +
    [dive,
     Control("Clarify This", "clarify_slide"),
     Control("Regenerate", "regenerate_slide")] +
    (if MockOffersQuiz(context) then [Control("Quiz Me", "quiz_me")] else []) +
    [Control("View References", "show_references"),
     Control("Concept Map", "show_concept_map")]
  }

  /** The body text of a mock slide. */
  function MockSlideText(context: SlideGenerationContext): string {
    "This is the content for slide " + IntToString(context.slideIndex + 1) + " about " + context.topic + ". " +
    "Here we explore " + Lower(context.slideTitle) + " in detail, covering key aspects of " +
    MockConcept(context.slideTitle) + "."
  }

  /** `MockLLMProvider.generate_slide` */
  function MockGenerateSlide(context: SlideGenerationContext): (r: Result<GeneratedSlide>)
    ensures r.Raise? <==> MockLeadControl(context).Raise?
    ensures r.Ok? ==> r.value.content.title == context.slideTitle
    ensures r.Ok? ==> r.value.controls == [MockLeadControl(context).value] + MockTailControls(context)
  {
    match MockLeadControl(context)
    case Raise(e) => Raise(e)
    case Ok(lead) => Ok(GeneratedSlide(Content(context.slideTitle, MockSlideText(context)), [lead] + MockTailControls(context)))
  }

  /** The actions a mock slide offers after its lead control, in order. */
  function MockTailActions(context: SlideGenerationContext): seq<string> {
    (if !context.isFirst then ["go_previous"] else []) +
    ["deep_dive", "clarify_slide", "regenerate_slide"] +
    (if MockOffersQuiz(context) then ["quiz_me"] else []) +
    ["show_references", "show_concept_map"]
  }

  /**
   * After the lead control, a mock slide offers "Previous" iff it is not the
   * first, then deep dive, clarify and regenerate, then "Quiz Me" iff it is
   * neither first nor last by index, then references and the concept map.
   */
  lemma MockTailActionsOf(context: SlideGenerationContext)
    ensures Actions(MockTailControls(context)) == MockTailActions(context)
  {
    TailAroundActions(context, MockDeepDiveControl(context.slideTitle));
  }

  lemma TailAroundActions(context: SlideGenerationContext, dive: InteractiveControl)
    requires dive.action == "deep_dive"
    ensures Actions(TailAround(context, dive)) == MockTailActions(context)
  {
    var prev: seq<InteractiveControl> := if !context.isFirst then [Control("Previous", "go_previous")] else [];
    var middle := [dive, Control("Clarify This", "clarify_slide"), Control("Regenerate", "regenerate_slide")];
    var quiz: seq<InteractiveControl> := if MockOffersQuiz(context) then [Control("Quiz Me", "quiz_me")] else [];
    var last := [Control("View References", "show_references"), Control("Concept Map", "show_concept_map")];
    ActionsAppend(prev + middle + quiz, last);
    ActionsAppend3(prev, middle, quiz);
    ActionsOptional(!context.isFirst, Control("Previous", "go_previous"));
    ActionsOptional(MockOffersQuiz(context), Control("Quiz Me", "quiz_me"));
    assert Actions(middle) == ["deep_dive", "clarify_slide", "regenerate_slide"];
    assert Actions(last) == ["show_references", "show_concept_map"];
  }

  /** The actions of a mock slide: its lead control's, then the tail's. */
  lemma MockSlideActions(context: SlideGenerationContext)
    requires MockGenerateSlide(context).Ok?
    ensures var lead := MockLeadControl(context).value;
      Actions(MockGenerateSlide(context).value.controls) == [lead.action] + MockTailActions(context) &&
      (lead.action == "extend_lecture" <==> context.isLast) &&
      (lead.action == "advance_main_thread" <==> !context.isLast)
  {
    MockTailActionsOf(context);
    ActionsAppend([MockLeadControl(context).value], MockTailControls(context));
  }

  /** The actions offered by a lead action followed by a mock tail. */
  lemma TailOffers(lead: string, context: SlideGenerationContext)
    requires lead == "extend_lecture" || lead == "advance_main_thread"
    ensures var acts := [lead] + MockTailActions(context);
      ("go_previous" in acts <==> !context.isFirst) &&
      ("quiz_me" in acts <==> MockOffersQuiz(context)) &&
      ("extend_lecture" in acts <==> lead == "extend_lecture") &&
      "deep_dive" in acts && "clarify_slide" in acts && "regenerate_slide" in acts &&
      "show_references" in acts && "show_concept_map" in acts
  {
  }

  /**
   * Which actions a mock slide offers: "Previous" iff it is not the first
   * slide, "Quiz Me" iff it is neither first nor last by index, an extension
   * of the lecture iff it is the last; deep dive, clarify, regenerate,
   * references and the concept map always.
   */
  lemma MockSlideOffers(context: SlideGenerationContext)
    requires MockGenerateSlide(context).Ok?
    ensures var cs := MockGenerateSlide(context).value.controls;
      (HasAction(cs, "go_previous") <==> !context.isFirst) &&
      (HasAction(cs, "quiz_me") <==> MockOffersQuiz(context)) &&
      (HasAction(cs, "extend_lecture") <==> context.isLast) &&
      HasAction(cs, "deep_dive") && HasAction(cs, "clarify_slide") && HasAction(cs, "regenerate_slide") &&
      HasAction(cs, "show_references") && HasAction(cs, "show_concept_map")
  {
    MockSlideActions(context);
    TailOffers(MockLeadControl(context).value.action, context);
  }

  /** The deep-dive control follows the lead and "Previous" controls, and names the title's last word. */
  lemma MockDeepDivePosition(context: SlideGenerationContext)
    requires MockGenerateSlide(context).Ok?
    ensures var cs := MockGenerateSlide(context).value.controls;
      var k := if context.isFirst then 1 else 2;
      k < |cs| && cs[k] == MockDeepDiveControl(context.slideTitle) &&
      cs[k].labelText == "Deep Dive: " + MockConcept(context.slideTitle) &&
      cs[k].params == Some(map["concept" := Str(Lower(MockConcept(context.slideTitle)))])
  {
  }

  /** `MockLLMProvider.extend_lecture_outline`: four titles numbered `len(existing) // 5 + 1`. */
  function MockExtendLectureOutline(topic: string, existingTitles: seq<string>): (r: seq<string>)
    ensures |r| == 4
  {
    var n := NatToString(|existingTitles| / 5 + 1);
    ["Advanced Topic " + n + ".1", "Advanced Topic " + n + ".2", "Real-World Examples " + n, "Expert Insights " + n]
  }

  /**
   * The extension number is `len(existing_titles) // 5 + 1`: the two
   * "Advanced Topic" titles start with it, the other two end with it.
   */
  lemma MockExtensionNumbered(topic: string, existingTitles: seq<string>)
    ensures var n := NatToString(|existingTitles| / 5 + 1);
      var r := MockExtendLectureOutline(topic, existingTitles);
      StartsWith(r[0], "Advanced Topic " + n) && StartsWith(r[1], "Advanced Topic " + n) &&
      EndsWith(r[2], n) && EndsWith(r[3], n)
  {
    var n := NatToString(|existingTitles| / 5 + 1);
    StartsWithAppend("Advanced Topic " + n, ".1");
    StartsWithAppend("Advanced Topic " + n, ".2");
    EndsWithAppend("Real-World Examples ", n);
    EndsWithAppend("Expert Insights ", n);
  }

  /** The extension depends on the existing outline only through its batch of five, and not on the topic. */
  lemma MockExtensionBatch(topic: string, existingTitles: seq<string>, otherTopic: string, otherTitles: seq<string>)
    requires |existingTitles| / 5 == |otherTitles| / 5
    ensures MockExtendLectureOutline(topic, existingTitles) == MockExtendLectureOutline(otherTopic, otherTitles)
  {
  }

  /** The markdown of the mock references slide. */
  function MockReferencesText(topic: string): string {
    "### Official Documentation\n" +
    "- [Wikipedia: " + topic + "](https://en.wikipedia.org/wiki/" + ReplaceChar(topic, ' ', '_') + ") - Encyclopedia overview\n\n" +
    "### Tutorials\n" +
    "- [Learn " + topic + "](https://example.com/learn) - Beginner-friendly tutorial\n\n" +
    "### Advanced Resources\n" +
    "- [Deep Dive into " + topic + "](https://example.com/advanced) - For advanced learners\n\n" +
    "### Video Resources\n" +
    "- [Introduction to " + topic + "](https://youtube.com/watch) - Video explanation"
  }

  /** `MockLLMProvider.generate_references` */
  function MockGenerateReferences(topic: string, outline: seq<string>, currentIndex: int): (r: Result<GeneratedSlide>)
    ensures r.Ok? <==> ReferenceControls(outline, currentIndex, "Next").Ok?
    ensures r.Ok? ==> r.value.content == Content("References & Further Reading", MockReferencesText(topic))
    ensures r.Ok? ==> r.value.controls == ReferenceControls(outline, currentIndex, "Next").value
  {
    match ReferenceControls(outline, currentIndex, "Next")
    case Raise(e) => Raise(e)
    case Ok(controls) => Ok(GeneratedSlide(Content("References & Further Reading", MockReferencesText(topic)), controls))
  }

  /** Python truthiness of an optional string. */
  predicate TruthyText(s: Option<string>) {
    s.Some? && s.value != []
  }

  /** The forward control of a regenerated mock slide, if any. */
  function MockRegenerateForward(context: SlideGenerationContext): (r: Result<seq<InteractiveControl>>)
    ensures r.Raise? <==> context.slideIndex < context.totalSlides - 1 && PyIndex(|context.outline|, context.slideIndex + 1).None?
    ensures r.Ok? ==> (r.value == [] <==> context.slideIndex >= context.totalSlides - 1)
    ensures r.Ok? ==> Actions(r.value) == if context.slideIndex < context.totalSlides - 1 then ["advance_main_thread"] else []
  {
    if context.slideIndex < context.totalSlides - 1 then
      match PyIndex(|context.outline|, context.slideIndex + 1)
      case Some(k) => Ok([Control("Next: " + context.outline[k], "advance_main_thread")])
      case None => Raise(IndexError)
    else Ok([])
  }

  /** The title suffix of a regenerated slide. */
  function RegeneratedNote(feedback: Option<string>): string {
    if TruthyText(feedback) then " (Regenerated with feedback: " + feedback.value + ")" else " (Regenerated)"
  }

  /** `MockLLMProvider.regenerate_slide` */
  function MockRegenerateSlide(context: SlideGenerationContext, feedback: Option<string>): (r: Result<GeneratedSlide>)
    ensures r.Raise? <==> MockRegenerateForward(context).Raise?
    ensures r.Ok? ==> r.value.content.title == context.slideTitle + RegeneratedNote(feedback)
    ensures r.Ok? ==>
      r.value.controls ==
        [Control("Regenerate", "regenerate_slide"), Control("Clarify This", "clarify_slide")] +
        (if context.slideIndex > 0 then [Control("Previous", "go_previous")] else []) +
        MockRegenerateForward(context).value
  {
    match MockRegenerateForward(context)
    case Raise(e) => Raise(e)
    case Ok(forward) =>
      var controls :=
        [Control("Regenerate", "regenerate_slide"), Control("Clarify This", "clarify_slide")] +
        (if context.slideIndex > 0 then [Control("Previous", "go_previous")] else []) +
        forward;
      Ok(GeneratedSlide(
        Content(context.slideTitle + RegeneratedNote(feedback),
          "This is a regenerated version of the slide about " + context.slideTitle + ". " +
          "The content has been revised to provide a fresh perspective on the topic."),
        controls))
  }

  /**
   * A regenerated mock slide always starts with Regenerate and Clarify; it
   * has "Previous" iff the index is positive and "Next" iff it is below
   * `total_slides - 1`.
   */
  lemma MockRegenerateRules(context: SlideGenerationContext, feedback: Option<string>)
    requires MockRegenerateSlide(context, feedback).Ok?
    ensures var cs := MockRegenerateSlide(context, feedback).value.controls;
      |cs| >= 2 &&
      cs[..2] == [Control("Regenerate", "regenerate_slide"), Control("Clarify This", "clarify_slide")] &&
      (HasAction(cs, "go_previous") <==> context.slideIndex > 0) &&
      (HasAction(cs, "advance_main_thread") <==> context.slideIndex < context.totalSlides - 1)
  {
    RegenerateControls(context.slideIndex > 0, context.slideIndex < context.totalSlides - 1, MockRegenerateForward(context).value);
  }

  /** The controls of a regenerated slide, given whether it goes back and its forward controls. */
  lemma RegenerateControls(back: bool, forth: bool, forward: seq<InteractiveControl>)
    requires Actions(forward) == if forth then ["advance_main_thread"] else []
    ensures var head := [Control("Regenerate", "regenerate_slide"), Control("Clarify This", "clarify_slide")];
      var cs := head + (if back then [Control("Previous", "go_previous")] else []) + forward;
      |cs| >= 2 && cs[..2] == head &&
      (HasAction(cs, "go_previous") <==> back) && (HasAction(cs, "advance_main_thread") <==> forth)
  {
    var head := [Control("Regenerate", "regenerate_slide"), Control("Clarify This", "clarify_slide")];
    var prev: seq<InteractiveControl> := if back then [Control("Previous", "go_previous")] else [];
    var cs := head + prev + forward;
    ActionsAppend3(head, prev, forward);
    ActionsOptional(back, Control("Previous", "go_previous"));
    assert Actions(head) == ["regenerate_slide", "clarify_slide"];
    RegenerateOffers(back, forth);
    assert cs[..2] == head;
  }

  /** The actions offered by a regenerated slide with or without its backward and forward controls. */
  lemma RegenerateOffers(back: bool, forth: bool)
    ensures var acts := ["regenerate_slide", "clarify_slide"] + (if back then ["go_previous"] else []) +
        (if forth then ["advance_main_thread"] else []);
      ("go_previous" in acts <==> back) && ("advance_main_thread" in acts <==> forth)
  {
  }
}
