/**
 * The lecture actions (src/main.py): the generation context and payload of
 * the current slide, and `perform_action`, the handler that moves a
 * learner through a lecture, opens and closes detours (deep dives,
 * examples, quizzes, references, concept maps) and extends the outline.
 *
 * Each action is a transition function from the session's fields and the
 * request to the new fields and the response; the handler methods change a
 * `LectureSession` object in place in the order the source does and are
 * proved to reach that transition's state. An exception is a `Crash`
 * response (HTTP 500); changes made to the object before it stay on the
 * object.
 */
module Api {
  import opened Wrappers
  import opened PyStr
  import opened Slides
  import opened Session
  import opened Llm

  /** A handler's answer: a slide, an `HTTPException`, or an exception that escapes (HTTP 500). */
  datatype Response = Payload(payload: SlidePayload) | HttpError(status: int, detail: string) | Crash(message: string)

  /** The session's fields after a request, with the answer to it. */
  datatype Outcome = Outcome(state: SessionState, response: Response)

  /** The three fields the references loop reads from a validation result. */
  datatype RefinementResult = RefinementResult(filteredText: string, validLinks: int, needsRegeneration: bool)

  /** Validation of a references text; it probes the network, so the attempt number is passed along. */
  type Refiner = (nat, string) -> RefinementResult

  /** The message of the KeyError a missing slide key raises. */
  function KeyErrorMessage(key: int): string {
    IntToString(key)
  }

  /** Python's `s[:n]`. */
  function Prefix(s: string, n: nat): (r: string)
    ensures |r| <= n && |r| <= |s| && r == s[..|r|]
    ensures |s| <= n ==> r == s
  {
    if |s| <= n then s else s[..n]
  }

  // ---------------------------------------------------------------------------
  // get_generation_context and build_slide_payload

  /**
   * `get_generation_context`: the title is `outline[current_index]`, so this
   * raises where that index is out of range.
   */
  function GetGenerationContext(st: SessionState): (r: Result<SlideGenerationContext>)
    ensures r.Raise? <==> PyIndex(|st.outline|, st.currentIndex).None?
    ensures r.Ok? ==>
      r.value.topic == st.topic && r.value.slideIndex == st.currentIndex &&
      r.value.totalSlides == |st.outline| && r.value.outline == st.outline &&
      (r.value.isFirst <==> st.currentIndex == 0) && (r.value.isLast <==> st.currentIndex == |st.outline| - 1)
    ensures r.Ok? ==> r.value.slideTitle == st.outline[PyIndex(|st.outline|, st.currentIndex).value]
    ensures 0 <= st.currentIndex < |st.outline| ==> r.Ok? && r.value.slideTitle == st.outline[st.currentIndex]
    ensures -|st.outline| <= st.currentIndex < 0 ==> r.Ok? && r.value.slideTitle == st.outline[|st.outline| + st.currentIndex]
  {
    match PyIndex(|st.outline|, st.currentIndex)
    case None => Raise(IndexError)
    case Some(k) =>
      Ok(SlideGenerationContext(st.topic, st.outline[k], st.currentIndex, st.TotalSlides(), st.outline, st.IsFirst(), st.IsLast()))
  }

  /**
   * `build_slide_payload`: the slide as a "default" payload at the current
   * position, with the id "slide_" and the one-based position zero-padded to
   * two digits.
   */
  function BuildSlidePayload(st: SessionState, slide: SlideState): (r: SlidePayload)
    ensures r.slideIndex == st.currentIndex && r.totalSlides == |st.outline| && r.sessionId == st.sessionId
    ensures r.layout == "default" && r.content == slide.content && r.interactiveControls == slide.controls
    ensures r.slideId == "slide_" + Pad2(st.currentIndex + 1)
  {
    SlidePayload("slide_" + Pad2(st.currentIndex + 1), st.sessionId, "default", slide.content, slide.controls,
      st.currentIndex, st.TotalSlides())
  }

  /**
   * The id of a main slide is "slide_" followed by at least two digits that
   * denote its one-based position; before the tenth slide the first digit is 0.
   */
  lemma SlideIdDigits(st: SessionState, slide: SlideState)
    requires st.currentIndex >= -1
    ensures var id := BuildSlidePayload(st, slide).slideId;
      |id| >= 8 && id[..6] == "slide_" && IsDigits(id[6..]) && DigitsValue(id[6..]) == st.currentIndex + 1 &&
      (st.currentIndex < 9 <==> id[6] == '0') &&
      (st.currentIndex < 9 ==> id == "slide_0" + [DigitChar(st.currentIndex + 1)])
  {
    var p := Pad2(st.currentIndex + 1);
    Pad2Value(st.currentIndex + 1);
    assert ("slide_" + p)[..6] == "slide_" && ("slide_" + p)[6..] == p;
    if st.currentIndex < 9 {
      assert p == "0" + NatToString(st.currentIndex + 1);
    }
  }

  /** A payload of a detour slide shown at the current position. */
  function DetourPayload(st: SessionState, slideId: string, layout: string, content: SlideContent, controls: seq<InteractiveControl>): SlidePayload {
    SlidePayload(slideId, st.sessionId, layout, content, controls, st.currentIndex, st.TotalSlides())
  }

  /** The state with `generated` stored under `key`. */
  function Stored(st: SessionState, key: int, generated: GeneratedSlide): SessionState {
    st.(slides := st.slides[key := SlideState(generated.content, generated.controls)])
  }

  /** The reserved slide keys of the detours. */
  const DeepDiveKey: int := -1
  const ExampleKey: int := -2
  const QuizKey: int := -3
  const ReferencesKey: int := -4
  const ConceptMapKey: int := -5

  /** Whether the request has parameters holding `key` (`request.params and key in request.params`). */
  predicate HasParam(params: Option<Params>, key: string) {
    params.Some? && key in params.value
  }

  /** The parameter `key`, when present, is a string. */
  predicate StrParam(params: Option<Params>, key: string) {
    HasParam(params, key) ==> params.value[key].Str?
  }

  /** The parameter `key`, when present, is an integer. */
  predicate IntParam(params: Option<Params>, key: string) {
    HasParam(params, key) ==> params.value[key].Int?
  }

  /**
   * The parameters that `deep_dive` keeps in the session as the concept
   * (a string) and that `return_to_main` keeps as the current index (an
   * integer) have those types; every other action takes any parameters.
   */
  predicate ParamsFit(action: string, params: Option<Params>) {
    (action == "deep_dive" ==> StrParam(params, "concept")) &&
    (action == "return_to_main" ==> IntParam(params, "slide_index"))
  }

  // ---------------------------------------------------------------------------
  // The transitions of perform_action

  /** `advance_main_thread` */
  function Advance(st: SessionState, llm: Provider): Outcome {
    if !st.HasNext() then Outcome(st, HttpError(400, "No more slides"))
    else
      var moved := st.LeaveDeepDive().(currentIndex := st.currentIndex + 1);
      if moved.currentIndex in moved.slides then
        Outcome(moved, Payload(BuildSlidePayload(moved, moved.slides[moved.currentIndex])))
      else match GetGenerationContext(moved)
        case Raise(e) => Outcome(moved, Crash(e))
        case Ok(context) =>
          match llm.generateSlide(context)
          case Raise(e) => Outcome(moved, Crash(e))
          case Ok(generated) =>
            var after := Stored(moved, moved.currentIndex, generated);
            Outcome(after, Payload(BuildSlidePayload(after, after.slides[after.currentIndex])))
  }

  /** `go_previous` */
  function GoPrevious(st: SessionState): Outcome {
    if !st.HasPrevious() then Outcome(st, HttpError(400, "No previous slide"))
    else
      var moved := st.LeaveDeepDive().(currentIndex := st.currentIndex - 1);
      if moved.currentIndex in moved.slides then
        Outcome(moved, Payload(BuildSlidePayload(moved, moved.slides[moved.currentIndex])))
      else Outcome(moved, Crash(KeyErrorMessage(moved.currentIndex)))
  }

  /** `clarify_slide` */
  function Clarify(st: SessionState, llm: Provider): Outcome {
    if st.currentIndex !in st.slides then Outcome(st, Crash(KeyErrorMessage(st.currentIndex)))
    else match GetGenerationContext(st)
      case Raise(e) => Outcome(st, Crash(e))
      case Ok(context) =>
        match llm.clarifySlide(st.slides[st.currentIndex].content, context)
        case Raise(e) => Outcome(st, Crash(e))
        case Ok(generated) =>
          var after := Stored(st, st.currentIndex, generated);
          Outcome(after, Payload(BuildSlidePayload(after, after.slides[after.currentIndex])))
  }

  /** `deep_dive` */
  function DeepDive(st: SessionState, params: Option<Params>, llm: Provider): Outcome
    requires StrParam(params, "concept")
  {
    if !HasParam(params, "concept") then Outcome(st, HttpError(400, "deep_dive requires 'concept' parameter"))
    else
      var concept := params.value["concept"].s;
      match GetGenerationContext(st)
      case Raise(e) => Outcome(st, Crash(e))
      case Ok(parentContext) =>
        var marked := st.(inDeepDive := true, deepDiveParentIndex := Some(st.currentIndex), deepDiveConcept := Some(concept));
        match llm.handleDeepDive(st.topic, concept, parentContext)
        case Raise(e) => Outcome(marked, Crash(e))
        case Ok(generated) =>
          var after := Stored(marked, DeepDiveKey, generated);
          Outcome(after, Payload(DetourPayload(after, "deep_dive_" + ReplaceChar(concept, ' ', '_'), "deep_dive",
            generated.content, generated.controls)))
  }

  /** The slide `return_to_main` goes back to: the `slide_index` parameter, or the current index. */
  function ReturnTarget(st: SessionState, params: Option<Params>): int
    requires IntParam(params, "slide_index")
  {
    if HasParam(params, "slide_index") then params.value["slide_index"].i else st.currentIndex
  }

  /** `return_to_main` */
  function ReturnToMain(st: SessionState, params: Option<Params>): Outcome
    requires IntParam(params, "slide_index")
  {
    var moved := st.(currentIndex := ReturnTarget(st, params)).LeaveDeepDive();
    if moved.currentIndex in moved.slides then
      Outcome(moved, Payload(BuildSlidePayload(moved, moved.slides[moved.currentIndex])))
    else Outcome(moved, Crash(KeyErrorMessage(moved.currentIndex)))
  }

  /** `session.slides.get(current_index) or session.slides.get(-1)`: slide records are always truthy. */
  function CurrentOrDeepDive(st: SessionState): Option<SlideState> {
    if st.currentIndex in st.slides then Some(st.slides[st.currentIndex])
    else if DeepDiveKey in st.slides then Some(st.slides[DeepDiveKey])
    else None
  }

  /** The "Return to Slide" control of the quiz and error slides, which carries the slide to return to. */
  function ReturnToSlide(currentIndex: int): InteractiveControl {
    InteractiveControl("Return to Slide", "return_to_main", Some(map["slide_index" := Int(currentIndex)]))
  }

  /** The slide shown when generating an example or a quiz raised. */
  function FailurePayload(st: SessionState, title: string, what: string, message: string, retryAction: string, slideId: string, layout: string): SlidePayload {
    DetourPayload(st, slideId, layout,
      Content(title, "Sorry, I couldn't generate " + what + ". Error: " + Prefix(message, 200)),
      [ReturnToSlide(st.currentIndex), Control("Try Again", retryAction)])
  }

  /** The example type handed to the provider as it came: the `type` parameter, or "code". */
  function ExampleType(params: Option<Params>): Value {
    if HasParam(params, "type") then params.value["type"] else Str("code")
  }

  /** `show_example` */
  function ShowExample(st: SessionState, params: Option<Params>, llm: Provider): Outcome
  {
    match CurrentOrDeepDive(st)
    case None => Outcome(st, HttpError(400, "No current slide"))
    case Some(current) =>
      match GetGenerationContext(st)
      case Raise(e) => Outcome(st, Crash(e))
      case Ok(context) =>
        match llm.generateExample(current.content, context, ExampleType(params))
        case Raise(e) =>
          Outcome(st, Payload(FailurePayload(st, "Example Generation Failed", "an example", e, "show_example",
            "example_error_" + IntToString(st.currentIndex), "example")))
        case Ok(generated) =>
          var after := Stored(st, ExampleKey, generated);
          Outcome(after, Payload(DetourPayload(after, "example_" + IntToString(st.currentIndex), "example",
            generated.content, generated.controls)))
  }

  /** `quiz_me` */
  function QuizMe(st: SessionState, llm: Provider): Outcome {
    match CurrentOrDeepDive(st)
    case None => Outcome(st, HttpError(400, "No current slide"))
    case Some(current) =>
      match GetGenerationContext(st)
      case Raise(e) => Outcome(st, Crash(e))
      case Ok(context) =>
        match llm.generateQuiz(current.content, context)
        case Raise(e) =>
          Outcome(st, Payload(FailurePayload(st, "Quiz Generation Failed", "a quiz", e, "quiz_me",
            "quiz_error_" + IntToString(st.currentIndex), "quiz")))
        case Ok(generated) =>
          var after := Stored(st, QuizKey, generated);
          Outcome(after, Payload(DetourPayload(after, "quiz_" + IntToString(st.currentIndex), "quiz",
            generated.content, generated.controls)))
  }

  /** `params.get(key, default)`, shown as `f"{...}"`. */
  function ShownParam(p: Params, key: string, default: string): string {
    if key in p then Show(p[key]) else default
  }

  /** `quiz_answer`: the verdict on an answer, from the request alone. */
  function QuizAnswer(st: SessionState, params: Option<Params>): Outcome {
    if params.None? || params.value == map[] then Outcome(st, HttpError(400, "quiz_answer requires params"))
    else
      var p := params.value;
      var answer := ShownParam(p, "answer", "?");
      var isCorrect := "correct" in p && Truthy(p["correct"]);
      var explanation := ShownParam(p, "explanation", "");
      var content :=
        if isCorrect then Content("Correct! (" + answer + ")", "**Well done!** " + explanation)
        else Content("Incorrect (" + answer + ")", "**Not quite.** " + explanation);
      var controls := [
        ReturnToSlide(st.currentIndex),
        Control("Try Another Question", "quiz_me"),
        Control("Continue Lecture", "advance_main_thread")];
      Outcome(st, Payload(DetourPayload(st, "quiz_result_" + IntToString(st.currentIndex), "quiz_result", content, controls)))
  }

  /** `extend_lecture` */
  function Extend(st: SessionState, llm: Provider): Outcome {
    match llm.extendLectureOutline(st.topic, st.outline)
    case Raise(e) => Outcome(st, Crash(e))
    case Ok(newTitles) =>
      var grown := st.(outline := st.outline + newTitles, currentIndex := st.currentIndex + 1);
      match GetGenerationContext(grown)
      case Raise(e) => Outcome(grown, Crash(e))
      case Ok(context) =>
        match llm.generateSlide(context)
        case Raise(e) => Outcome(grown, Crash(e))
        case Ok(generated) =>
          var after := Stored(grown, grown.currentIndex, generated);
          Outcome(after, Payload(BuildSlidePayload(after, after.slides[after.currentIndex])))
  }

  // ---------------------------------------------------------------------------
  // The references loop of show_references

  const MaxRegenerationAttempts: nat := 3

  /** What every attempt at a references slide asks and how it is validated. */
  datatype Query = Query(topic: string, outline: seq<string>, index: int, llm: Provider, refine: Refiner)

  /** One generated references slide with its validation. */
  datatype Candidate = Candidate(generated: GeneratedSlide, result: RefinementResult)

  /** The pick so far, the attempt it came from, and how many attempts were made. */
  datatype Found = Found(best: Candidate, bestIndex: nat, calls: nat)

  /** Attempt number `k`: generate, then validate the generated text. */
  function Attempt(q: Query, k: nat): Result<Candidate> {
    match q.llm.generateReferences(q.topic, q.outline, q.index, k)
    case Raise(e) => Raise(e)
    case Ok(generated) => Ok(Candidate(generated, q.refine(k, generated.content.text)))
  }

  /** Keep the new candidate only when it has strictly more valid links. */
  function Keep(best: Option<Found>, c: Candidate, k: nat): Found {
    if best.None? || c.result.validLinks > best.value.best.result.validLinks then Found(c, k, k + 1)
    else best.value.(calls := k + 1)
  }

  /** The loop from attempt `k` on, with `best` the pick of the attempts before it. */
  function SearchFrom(q: Query, k: nat, best: Option<Found>): Result<Found>
    requires k < MaxRegenerationAttempts
    decreases MaxRegenerationAttempts - k
  {
    match Attempt(q, k)
    case Raise(e) => Raise(e)
    case Ok(c) =>
      var kept := Keep(best, c, k);
      if !c.result.needsRegeneration || k + 1 == MaxRegenerationAttempts then Ok(kept)
      else SearchFrom(q, k + 1, Some(kept))
  }

  /** The outcome of the references loop. */
  function Search(q: Query): Result<Found> {
    SearchFrom(q, 0, None)
  }

  /** The first `n` attempts succeeded and each asked for regeneration. */
  predicate Regenerating(q: Query, n: nat) {
    forall j: nat :: j < n ==> Attempt(q, j).Ok? && Attempt(q, j).value.result.needsRegeneration
  }

  /**
   * `f` is the pick of the first `n` attempts: made after `n` calls, from an
   * attempt among them, with no fewer valid links than any of them and
   * strictly more than any before it.
   */
  predicate BestOf(q: Query, n: nat, f: Found) {
    f.calls == n && f.bestIndex < n && Attempt(q, f.bestIndex) == Ok(f.best) &&
    (forall j: nat :: j < n ==> Attempt(q, j).Ok? && Attempt(q, j).value.result.validLinks <= f.best.result.validLinks) &&
    (forall j: nat :: j < f.bestIndex ==> Attempt(q, j).value.result.validLinks < f.best.result.validLinks)
  }

  /** What the loop promises once it has made `f.calls` attempts and stopped. */
  predicate SearchResult(q: Query, f: Found) {
    1 <= f.calls <= MaxRegenerationAttempts && BestOf(q, f.calls, f) && Regenerating(q, f.calls - 1) &&
    (f.calls < MaxRegenerationAttempts ==> !Attempt(q, f.calls - 1).value.result.needsRegeneration)
  }

  lemma KeepBest(q: Query, k: nat, best: Option<Found>, c: Candidate)
    requires Attempt(q, k) == Ok(c)
    requires k == 0 ==> best.None?
    requires k > 0 ==> best.Some? && BestOf(q, k, best.value)
    ensures BestOf(q, k + 1, Keep(best, c, k))
  {
    var kept := Keep(best, c, k);
    forall j: nat | j < k + 1
      ensures Attempt(q, j).Ok? && Attempt(q, j).value.result.validLinks <= kept.best.result.validLinks
    {
      if j < k {
        assert Attempt(q, j).value.result.validLinks <= best.value.best.result.validLinks;
      }
    }
  }

  lemma {:induction false} SearchFromSpec(q: Query, k: nat, best: Option<Found>)
    requires k < MaxRegenerationAttempts
    requires Regenerating(q, k)
    requires k == 0 ==> best.None?
    requires k > 0 ==> best.Some? && BestOf(q, k, best.value)
    ensures SearchFrom(q, k, best).Ok? ==> k < SearchFrom(q, k, best).value.calls && SearchResult(q, SearchFrom(q, k, best).value)
    ensures SearchFrom(q, k, best).Raise? ==>
      exists j: nat :: k <= j < MaxRegenerationAttempts && Regenerating(q, j) && Attempt(q, j) == Raise(SearchFrom(q, k, best).message)
    decreases MaxRegenerationAttempts - k
  {
    match Attempt(q, k)
    case Raise(e) =>
    case Ok(c) =>
      var kept := Keep(best, c, k);
      KeepBest(q, k, best, c);
      if !(!c.result.needsRegeneration || k + 1 == MaxRegenerationAttempts) {
        assert Regenerating(q, k + 1);
        SearchFromSpec(q, k + 1, Some(kept));
      }
  }

  /**
   * The references loop makes one to three attempts, each after an attempt
   * that asked for regeneration, and stops after the first that did not;
   * its pick is an attempt it made, with the most valid links among them,
   * and the earliest such; an exception comes from the first attempt that
   * raised.
   */
  lemma SearchSpec(q: Query)
    ensures Search(q).Ok? ==> SearchResult(q, Search(q).value)
    ensures Search(q).Raise? ==>
      exists j: nat :: j < MaxRegenerationAttempts && Regenerating(q, j) && Attempt(q, j) == Raise(Search(q).message)
  {
    SearchFromSpec(q, 0, None);
  }

  /** The loop of `show_references`, over the attempts in order with an early break. */
  method ShowReferencesLoop(q: Query) returns (r: Result<Found>)
    ensures r == Search(q)
  {
    var best: Option<Found> := None;
    var attempt: nat := 0;
    while attempt < MaxRegenerationAttempts
      invariant attempt <= MaxRegenerationAttempts
      invariant attempt == 0 <==> best.None?
      invariant attempt < MaxRegenerationAttempts ==> SearchFrom(q, attempt, best) == Search(q)
      invariant attempt == MaxRegenerationAttempts ==> best.Some? && Search(q) == Ok(best.value)
    {
      var generated := q.llm.generateReferences(q.topic, q.outline, q.index, attempt);
      if generated.Raise? {
        return Raise(generated.message);
      }
      var result := q.refine(attempt, generated.value.content.text);
      var candidate := Candidate(generated.value, result);
      if best.None? || result.validLinks > best.value.best.result.validLinks {
        best := Some(Found(candidate, attempt, attempt + 1));
      } else {
        best := Some(best.value.(calls := attempt + 1));
      }
      if !result.needsRegeneration {
        break;
      }
      attempt := attempt + 1;
    }
    return Ok(best.value);
  }

  /** The references query of a session. */
  function QueryOf(st: SessionState, llm: Provider, refine: Refiner): Query {
    Query(st.topic, st.outline, st.currentIndex, llm, refine)
  }

  /** The references slide built from the loop's pick: its title and controls, with the validated text. */
  function ReferencesSlide(f: Found): SlideState {
    SlideState(Content(f.best.generated.content.title, f.best.result.filteredText), f.best.generated.controls)
  }

  /** `show_references` */
  function References(st: SessionState, llm: Provider, refine: Refiner): Outcome {
    match Search(QueryOf(st, llm, refine))
    case Raise(e) => Outcome(st, Crash(e))
    case Ok(f) =>
      var slide := ReferencesSlide(f);
      var after := st.(slides := st.slides[ReferencesKey := slide]);
      Outcome(after, Payload(DetourPayload(after, "references_" + IntToString(st.currentIndex), "references",
        slide.content, slide.controls)))
  }

  /** `show_concept_map` */
  function ConceptMapAction(st: SessionState, llm: Provider): Outcome {
    match llm.generateConceptMap(st.topic, st.outline, st.currentIndex)
    case Raise(e) => Outcome(st, Crash(e))
    case Ok(generated) =>
      var after := Stored(st, ConceptMapKey, generated);
      Outcome(after, Payload(DetourPayload(after, "concept_map_" + IntToString(st.currentIndex), "concept_map",
        generated.content, generated.controls)))
  }

  /** The actions `perform_action` handles. */
  const KnownActions: set<string> := {
    "advance_main_thread", "go_previous", "clarify_slide", "deep_dive", "return_to_main", "show_example",
    "quiz_me", "quiz_answer", "extend_lecture", "show_references", "show_concept_map"}

  /** `perform_action` on an existing session: dispatch on the action name. */
  function Step(st: SessionState, action: string, params: Option<Params>, llm: Provider, refine: Refiner): Outcome
    requires ParamsFit(action, params)
  {
    if action == "advance_main_thread" then Advance(st, llm)
    else if action == "go_previous" then GoPrevious(st)
    else if action == "clarify_slide" then Clarify(st, llm)
    else if action == "deep_dive" then DeepDive(st, params, llm)
    else if action == "return_to_main" then ReturnToMain(st, params)
    else if action == "show_example" then ShowExample(st, params, llm)
    else if action == "quiz_me" then QuizMe(st, llm)
    else if action == "quiz_answer" then QuizAnswer(st, params)
    else if action == "extend_lecture" then Extend(st, llm)
    else if action == "show_references" then References(st, llm, refine)
    else if action == "show_concept_map" then ConceptMapAction(st, llm)
    else Outcome(st, HttpError(400, "Unknown action: " + action))
  }

  // ---------------------------------------------------------------------------
  // Properties of the transitions

  /** The main slides: those under a non-negative key. */
  predicate SameMainSlides(a: map<int, SlideState>, b: map<int, SlideState>) {
    (forall k :: k in a && 0 <= k ==> k in b && b[k] == a[k]) &&
    (forall k :: k in b && 0 <= k ==> k in a)
  }

  /** Every slide stored before is still there, unchanged. */
  predicate Extends(before: map<int, SlideState>, after: map<int, SlideState>) {
    forall k :: k in before ==> k in after && after[k] == before[k]
  }

  /**
   * `advance_main_thread` answers 400 without a next slide. Otherwise it
   * leaves any deep dive, moves one slide forward, keeps every stored slide
   * and adds at most the new one, generating it only if it was not stored
   * yet; a slide it answers with is the stored slide at the new index.
   */
  lemma AdvanceRule(st: SessionState, llm: Provider)
    ensures var o := Advance(st, llm);
      (!st.HasNext() ==> o == Outcome(st, HttpError(400, "No more slides"))) &&
      (st.HasNext() ==>
        o.state.currentIndex == st.currentIndex + 1 &&
        !o.state.inDeepDive && o.state.deepDiveParentIndex.None? && o.state.deepDiveConcept.None? &&
        o.state.outline == st.outline && o.state.topic == st.topic && o.state.sessionId == st.sessionId &&
        Extends(st.slides, o.state.slides) && o.state.slides.Keys <= st.slides.Keys + {st.currentIndex + 1} &&
        (st.currentIndex + 1 in st.slides ==> o.state.slides == st.slides && o.response.Payload?) &&
        (o.response.Payload? ==>
          o.state.currentIndex in o.state.slides &&
          o.response.payload == BuildSlidePayload(o.state, o.state.slides[o.state.currentIndex])))
  {
  }

  /**
   * Moving forward from a slide of the outline can only fail when the new
   * slide is not stored and generating it raises.
   */
  lemma AdvanceFailsOnlyInGeneration(st: SessionState, llm: Provider)
    requires st.HasNext() && 0 <= st.currentIndex
    ensures Advance(st, llm).response.Crash? ==>
      st.currentIndex + 1 !in st.slides &&
      GetGenerationContext(st.LeaveDeepDive().(currentIndex := st.currentIndex + 1)).Ok? &&
      llm.generateSlide(GetGenerationContext(st.LeaveDeepDive().(currentIndex := st.currentIndex + 1)).value).Raise?
    ensures Advance(st, llm).response.Payload? || Advance(st, llm).response.Crash?
  {
  }

  /**
   * `go_previous` answers 400 on the first slide; otherwise it leaves any
   * deep dive and moves one slide back, never touching the stored slides,
   * and answers with the stored slide there, or raises KeyError when there
   * is none.
   */
  lemma GoPreviousRule(st: SessionState)
    ensures var o := GoPrevious(st);
      o.state.slides == st.slides && o.state.outline == st.outline &&
      (!st.HasPrevious() ==> o == Outcome(st, HttpError(400, "No previous slide"))) &&
      (st.HasPrevious() ==>
        o.state.currentIndex == st.currentIndex - 1 &&
        !o.state.inDeepDive && o.state.deepDiveParentIndex.None? && o.state.deepDiveConcept.None? &&
        (o.response.Payload? <==> st.currentIndex - 1 in st.slides) &&
        (o.response.Payload? ==> o.response.payload == BuildSlidePayload(o.state, st.slides[st.currentIndex - 1])))
  {
  }

  /**
   * `clarify_slide` raises KeyError when the current slide is not stored;
   * otherwise it changes at most the stored slide at the current index.
   */
  lemma ClarifyRule(st: SessionState, llm: Provider)
    ensures var o := Clarify(st, llm);
      (st.currentIndex !in st.slides ==> o == Outcome(st, Crash(KeyErrorMessage(st.currentIndex)))) &&
      o.state == st.(slides := o.state.slides) &&
      o.state.slides.Keys == st.slides.Keys &&
      (forall k :: k in st.slides && k != st.currentIndex ==> o.state.slides[k] == st.slides[k])
  {
  }

  /**
   * `deep_dive` answers 400 without a `concept` parameter. Otherwise, once
   * the current slide's context is built, it marks the deep dive, records the
   * current index as its parent and the concept, keeps the index, the
   * outline and the main slides, and stores the generated slide under key
   * -1; the answer is shown at the parent index with an id made from the
   * concept with spaces replaced by underscores.
   */
  lemma DeepDiveRule(st: SessionState, params: Option<Params>, llm: Provider)
    requires StrParam(params, "concept")
    ensures var o := DeepDive(st, params, llm);
      (!HasParam(params, "concept") ==> o == Outcome(st, HttpError(400, "deep_dive requires 'concept' parameter"))) &&
      o.state.currentIndex == st.currentIndex && o.state.outline == st.outline &&
      SameMainSlides(st.slides, o.state.slides) && o.state.slides.Keys <= st.slides.Keys + {DeepDiveKey} &&
      (HasParam(params, "concept") && GetGenerationContext(st).Ok? ==>
        o.state.inDeepDive && o.state.deepDiveParentIndex == Some(st.currentIndex) &&
        o.state.deepDiveConcept == Some(params.value["concept"].s)) &&
      (o.response.Payload? ==>
        DeepDiveKey in o.state.slides &&
        o.response.payload.slideIndex == st.currentIndex && o.response.payload.layout == "deep_dive" &&
        o.response.payload.content == o.state.slides[DeepDiveKey].content &&
        o.response.payload.slideId == "deep_dive_" + ReplaceChar(params.value["concept"].s, ' ', '_') &&
        ' ' !in o.response.payload.slideId)
  {
    var o := DeepDive(st, params, llm);
    if o.response.Payload? {
      var c := params.value["concept"].s;
      assert ' ' !in "deep_dive_";
      assert ' ' !in ReplaceChar(c, ' ', '_');
    }
  }

  /**
   * `return_to_main` goes to the `slide_index` parameter, or stays, leaves
   * any deep dive, keeps the stored slides, and answers with the stored
   * slide there or raises KeyError.
   */
  lemma ReturnToMainRule(st: SessionState, params: Option<Params>)
    requires IntParam(params, "slide_index")
    ensures var o := ReturnToMain(st, params);
      o.state.currentIndex == (if HasParam(params, "slide_index") then params.value["slide_index"].i else st.currentIndex) &&
      !o.state.inDeepDive && o.state.deepDiveParentIndex.None? && o.state.deepDiveConcept.None? &&
      o.state.slides == st.slides && o.state.outline == st.outline &&
      (o.response.Payload? <==> o.state.currentIndex in st.slides) &&
      (o.response.Payload? ==> o.response.payload == BuildSlidePayload(o.state, st.slides[o.state.currentIndex])) &&
      (o.response.Crash? <==> o.state.currentIndex !in st.slides)
  {
  }

  /**
   * `extend_lecture` keeps the outline as a prefix of the new one, which
   * grows by the returned titles, and moves one slide forward, even when
   * generating the new slide then raises; on success the new slide is
   * stored at the new index.
   */
  lemma ExtendGrows(st: SessionState, llm: Provider)
    requires llm.extendLectureOutline(st.topic, st.outline).Ok?
    ensures var titles := llm.extendLectureOutline(st.topic, st.outline).value;
      var o := Extend(st, llm);
      |o.state.outline| == |st.outline| + |titles| && o.state.outline[..|st.outline|] == st.outline &&
      o.state.outline[|st.outline|..] == titles &&
      o.state.currentIndex == st.currentIndex + 1 &&
      Extends(st.slides - {st.currentIndex + 1}, o.state.slides) &&
      (o.response.Payload? ==> st.currentIndex + 1 in o.state.slides)
  {
    var titles := llm.extendLectureOutline(st.topic, st.outline).value;
    assert (st.outline + titles)[..|st.outline|] == st.outline;
    assert (st.outline + titles)[|st.outline|..] == titles;
  }

  /** With the mock provider's extension, the outline grows by four titles. */
  lemma ExtendWithMock(st: SessionState, llm: Provider)
    requires llm.extendLectureOutline(st.topic, st.outline) == Ok(MockExtendLectureOutline(st.topic, st.outline))
    ensures |Extend(st, llm).state.outline| == |st.outline| + 4
  {
    ExtendGrows(st, llm);
  }

  /**
   * A detour's outcome: every main slide is kept as it was, new slides go
   * only under the reserved keys -1 to -5, and the position, outline and
   * topic stay; `touchesDive` allows the deep-dive fields to change too.
   */
  predicate KeepsMain(st: SessionState, o: Outcome, touchesDive: bool) {
    SameMainSlides(st.slides, o.state.slides) &&
    o.state.slides.Keys <= st.slides.Keys + {DeepDiveKey, ExampleKey, QuizKey, ReferencesKey, ConceptMapKey} &&
    o.state.currentIndex == st.currentIndex && o.state.outline == st.outline && o.state.topic == st.topic &&
    (!touchesDive ==> o.state == st.(slides := o.state.slides))
  }

  /**
   * An outcome that may store a slide under `key` and changes nothing else:
   * every other stored slide, the deep-dive slide included, is kept as it
   * was, and every field apart from the slides stays.
   */
  predicate OnlyUnder(st: SessionState, o: Outcome, key: int) {
    o.state.slides.Keys <= st.slides.Keys + {key} &&
    (forall k :: k in st.slides && k != key ==> k in o.state.slides && o.state.slides[k] == st.slides[k]) &&
    o.state == st.(slides := o.state.slides)
  }

  /** A change under one reserved key is a detour that keeps the main slides. */
  lemma OnlyUnderKeepsMain(st: SessionState, o: Outcome, key: int)
    requires key in {DeepDiveKey, ExampleKey, QuizKey, ReferencesKey, ConceptMapKey}
    requires OnlyUnder(st, o, key)
    ensures KeepsMain(st, o, false)
  {
  }

  /** `show_example` stores only under -2. */
  lemma ExampleKeepsMain(st: SessionState, params: Option<Params>, llm: Provider)
    ensures OnlyUnder(st, ShowExample(st, params, llm), ExampleKey)
  {
  }

  /** `quiz_me` stores only under -3. */
  lemma QuizKeepsMain(st: SessionState, llm: Provider)
    ensures OnlyUnder(st, QuizMe(st, llm), QuizKey)
  {
  }

  /** `show_references` stores only under -4. */
  lemma ReferencesKeepMain(st: SessionState, llm: Provider, refine: Refiner)
    ensures OnlyUnder(st, References(st, llm, refine), ReferencesKey)
  {
  }

  /** `show_concept_map` stores only under -5. */
  lemma ConceptMapKeepsMain(st: SessionState, llm: Provider)
    ensures OnlyUnder(st, ConceptMapAction(st, llm), ConceptMapKey)
  {
  }

  /**
   * The detours (deep dive, example, quiz, quiz answer, references, concept
   * map) store their slides under the reserved keys -1 to -5, so every main
   * slide is kept as it was; apart from the deep dive fields they change
   * nothing else.
   */
  lemma DetoursKeepMainSlides(st: SessionState, action: string, params: Option<Params>, llm: Provider, refine: Refiner)
    requires ParamsFit(action, params)
    requires action in {"deep_dive", "show_example", "quiz_me", "quiz_answer", "show_references", "show_concept_map"}
    ensures KeepsMain(st, Step(st, action, params, llm, refine), action == "deep_dive")
  {
    var o := Step(st, action, params, llm, refine);
    if action == "deep_dive" {
      assert o == DeepDive(st, params, llm);
      DeepDiveRule(st, params, llm);
    } else if action == "show_example" {
      assert o == ShowExample(st, params, llm);
      ExampleKeepsMain(st, params, llm);
      OnlyUnderKeepsMain(st, o, ExampleKey);
    } else if action == "quiz_me" {
      assert o == QuizMe(st, llm);
      QuizKeepsMain(st, llm);
      OnlyUnderKeepsMain(st, o, QuizKey);
    } else if action == "quiz_answer" {
      assert o == QuizAnswer(st, params);
    } else if action == "show_references" {
      assert o == References(st, llm, refine);
      ReferencesKeepMain(st, llm, refine);
      OnlyUnderKeepsMain(st, o, ReferencesKey);
    } else {
      assert o == ConceptMapAction(st, llm);
      ConceptMapKeepsMain(st, llm);
      OnlyUnderKeepsMain(st, o, ConceptMapKey);
    }
  }

  /** An action `perform_action` does not know is answered with 400 and changes nothing. */
  lemma UnknownAction400(st: SessionState, action: string, params: Option<Params>, llm: Provider, refine: Refiner)
    requires action !in KnownActions
    ensures Step(st, action, params, llm, refine) == Outcome(st, HttpError(400, "Unknown action: " + action))
  {
  }

  /**
   * The "Regenerate" control that the mock provider puts on every slide
   * (MockSlideOffers) asks for `regenerate_slide`, which `perform_action`
   * answers with 400.
   */
  lemma RegenerateIsUnknown(st: SessionState, params: Option<Params>, llm: Provider, refine: Refiner)
    ensures Step(st, "regenerate_slide", params, llm, refine) == Outcome(st, HttpError(400, "Unknown action: regenerate_slide"))
  {
    RegenerateNotKnown();
    UnknownAction400(st, "regenerate_slide", params, llm, refine);
    assert "Unknown action: " + "regenerate_slide" == "Unknown action: regenerate_slide";
  }

  lemma RegenerateNotKnown()
    ensures "regenerate_slide" !in KnownActions
  {
  }

  /**
   * `quiz_answer` answers 400 without parameters; otherwise it answers
   * "Correct!" or "Incorrect" with the answer, by the truthiness of
   * `correct`, and changes nothing.
   */
  lemma QuizAnswerRule(st: SessionState, params: Option<Params>)
    ensures var o := QuizAnswer(st, params);
      o.state == st &&
      ((params.None? || params.value == map[]) <==> o.response.HttpError?) &&
      (o.response.Payload? ==>
        var p := params.value;
        var answer := if "answer" in p then Show(p["answer"]) else "?";
        o.response.payload.layout == "quiz_result" &&
        o.response.payload.content.title ==
          (if "correct" in p && Truthy(p["correct"]) then "Correct! (" + answer + ")" else "Incorrect (" + answer + ")") &&
        |o.response.payload.interactiveControls| == 3 &&
        o.response.payload.interactiveControls[0].params == Some(map["slide_index" := Int(st.currentIndex)]))
  {
  }

  /**
   * `show_example` changes at most the example slide under -2; when
   * generating the example raises, the answer is an error slide that offers
   * to return and to try again, with at most 200 characters of the error,
   * and nothing changes.
   */
  lemma GenerationFailureRule(st: SessionState, params: Option<Params>, llm: Provider)
    ensures var o := ShowExample(st, params, llm);
      o.state == st || o.state == Stored(st, ExampleKey, llm.generateExample(CurrentOrDeepDive(st).value.content, GetGenerationContext(st).value, ExampleType(params)).value)
    ensures var o := ShowExample(st, params, llm);
      CurrentOrDeepDive(st).Some? && GetGenerationContext(st).Ok? &&
      llm.generateExample(CurrentOrDeepDive(st).value.content, GetGenerationContext(st).value, ExampleType(params)).Raise? ==>
        o.state == st && o.response.Payload? &&
        o.response.payload.slideId == "example_error_" + IntToString(st.currentIndex) &&
        o.response.payload.content.text == "Sorry, I couldn't generate an example. Error: " +
          Prefix(llm.generateExample(CurrentOrDeepDive(st).value.content, GetGenerationContext(st).value, ExampleType(params)).message, 200) &&
        |o.response.payload.interactiveControls| == 2 &&
        o.response.payload.interactiveControls[0] == ReturnToSlide(st.currentIndex) &&
        o.response.payload.interactiveControls[1] == Control("Try Again", "show_example")
  {
    if CurrentOrDeepDive(st).Some? && GetGenerationContext(st).Ok? {
      var example := llm.generateExample(CurrentOrDeepDive(st).value.content, GetGenerationContext(st).value, ExampleType(params));
      if example.Raise? {
        assert "Sorry, I couldn't generate " + "an example" + ". Error: " == "Sorry, I couldn't generate an example. Error: ";
        FailureSlideText(st, "Example Generation Failed", "an example", example.message, "show_example",
          "example_error_" + IntToString(st.currentIndex), "example");
      }
    }
  }

  /**
   * When generating a quiz raises, the answer is an error slide that offers
   * to return and to try again, with at most 200 characters of the error,
   * and nothing changes.
   */
  lemma QuizFailureRule(st: SessionState, llm: Provider)
    ensures var o := QuizMe(st, llm);
      CurrentOrDeepDive(st).Some? && GetGenerationContext(st).Ok? &&
      llm.generateQuiz(CurrentOrDeepDive(st).value.content, GetGenerationContext(st).value).Raise? ==>
        o.state == st && o.response.Payload? &&
        o.response.payload.slideId == "quiz_error_" + IntToString(st.currentIndex) &&
        o.response.payload.content.text == "Sorry, I couldn't generate a quiz. Error: " +
          Prefix(llm.generateQuiz(CurrentOrDeepDive(st).value.content, GetGenerationContext(st).value).message, 200) &&
        |o.response.payload.interactiveControls| == 2 &&
        o.response.payload.interactiveControls[0] == ReturnToSlide(st.currentIndex) &&
        o.response.payload.interactiveControls[1] == Control("Try Again", "quiz_me")
  {
    if CurrentOrDeepDive(st).Some? && GetGenerationContext(st).Ok? {
      var quiz := llm.generateQuiz(CurrentOrDeepDive(st).value.content, GetGenerationContext(st).value);
      if quiz.Raise? {
        assert "Sorry, I couldn't generate " + "a quiz" + ". Error: " == "Sorry, I couldn't generate a quiz. Error: ";
        FailureSlideText(st, "Quiz Generation Failed", "a quiz", quiz.message, "quiz_me",
          "quiz_error_" + IntToString(st.currentIndex), "quiz");
      }
    }
  }

  /** The error slide's id, text and controls. */
  lemma FailureSlideText(st: SessionState, title: string, what: string, message: string, retryAction: string, slideId: string, layout: string)
    ensures var p := FailurePayload(st, title, what, message, retryAction, slideId, layout);
      p.slideId == slideId && p.content.text == "Sorry, I couldn't generate " + what + ". Error: " + Prefix(message, 200) &&
      p.interactiveControls == [ReturnToSlide(st.currentIndex), Control("Try Again", retryAction)]
  {
  }

  /**
   * `show_references` stores and answers with the loop's pick: its title and
   * controls with its validated text, under key -4; the pick has the most
   * valid links among the attempts made, at most three.
   */
  lemma ReferencesRule(st: SessionState, llm: Provider, refine: Refiner)
    ensures var o := References(st, llm, refine);
      var q := QueryOf(st, llm, refine);
      (o.response.Payload? <==> Search(q).Ok?) &&
      (o.response.Payload? ==>
        var f := Search(q).value;
        SearchResult(q, f) &&
        o.state == st.(slides := st.slides[ReferencesKey := ReferencesSlide(f)]) &&
        o.response.payload.content == Content(f.best.generated.content.title, f.best.result.filteredText) &&
        o.response.payload.interactiveControls == f.best.generated.controls &&
        o.response.payload.layout == "references") &&
      (o.response.Crash? ==> o.state == st)
  {
    SearchSpec(QueryOf(st, llm, refine));
  }

  // ---------------------------------------------------------------------------
  // perform_action on the session object

  /** Clear the deep-dive fields of the session object. */
  method ExitDeepDive(session: LectureSession)
    modifies session
    ensures session.State() == old(session.State()).LeaveDeepDive()
  {
    session.inDeepDive := false;
    session.deepDiveParentIndex := None;
    session.deepDiveConcept := None;
  }

  /** Store a generated slide under `key` on the session object. */
  method StoreSlide(session: LectureSession, key: int, generated: GeneratedSlide)
    modifies session
    ensures session.State() == Stored(old(session.State()), key, generated)
  {
    session.slides := session.slides[key := SlideState(generated.content, generated.controls)];
  }

  /** The `advance_main_thread` branch on the session object. */
  method AdvanceMainThread(session: LectureSession, llm: Provider) returns (r: Response)
    modifies session
    ensures Outcome(session.State(), r) == Advance(old(session.State()), llm)
  {
    if !session.State().HasNext() {
      return HttpError(400, "No more slides");
    }
    ExitDeepDive(session);
    session.currentIndex := session.currentIndex + 1;
    if session.currentIndex !in session.slides {
      var context := GetGenerationContext(session.State());
      if context.Raise? {
        return Crash(context.message);
      }
      var generated := llm.generateSlide(context.value);
      if generated.Raise? {
        return Crash(generated.message);
      }
      StoreSlide(session, session.currentIndex, generated.value);
    }
    return Payload(BuildSlidePayload(session.State(), session.slides[session.currentIndex]));
  }

  /** The `go_previous` branch on the session object. */
  method GoPreviousSlide(session: LectureSession) returns (r: Response)
    modifies session
    ensures Outcome(session.State(), r) == GoPrevious(old(session.State()))
  {
    if !session.State().HasPrevious() {
      return HttpError(400, "No previous slide");
    }
    ExitDeepDive(session);
    session.currentIndex := session.currentIndex - 1;
    if session.currentIndex !in session.slides {
      return Crash(KeyErrorMessage(session.currentIndex));
    }
    return Payload(BuildSlidePayload(session.State(), session.slides[session.currentIndex]));
  }

  /** The `clarify_slide` branch on the session object. */
  method ClarifySlide(session: LectureSession, llm: Provider) returns (r: Response)
    modifies session
    ensures Outcome(session.State(), r) == Clarify(old(session.State()), llm)
  {
    if session.currentIndex !in session.slides {
      return Crash(KeyErrorMessage(session.currentIndex));
    }
    var currentState := session.slides[session.currentIndex];
    var context := GetGenerationContext(session.State());
    if context.Raise? {
      return Crash(context.message);
    }
    var generated := llm.clarifySlide(currentState.content, context.value);
    if generated.Raise? {
      return Crash(generated.message);
    }
    StoreSlide(session, session.currentIndex, generated.value);
    return Payload(BuildSlidePayload(session.State(), session.slides[session.currentIndex]));
  }

  /** The `deep_dive` branch on the session object: the deep-dive fields are set before the slide is generated. */
  method StartDeepDive(session: LectureSession, params: Option<Params>, llm: Provider) returns (r: Response)
    requires StrParam(params, "concept")
    modifies session
    ensures Outcome(session.State(), r) == DeepDive(old(session.State()), params, llm)
  {
    if !HasParam(params, "concept") {
      return HttpError(400, "deep_dive requires 'concept' parameter");
    }
    var concept := params.value["concept"].s;
    var parentContext := GetGenerationContext(session.State());
    if parentContext.Raise? {
      return Crash(parentContext.message);
    }
    session.inDeepDive := true;
    session.deepDiveParentIndex := Some(session.currentIndex);
    session.deepDiveConcept := Some(concept);
    var generated := llm.handleDeepDive(session.topic, concept, parentContext.value);
    if generated.Raise? {
      return Crash(generated.message);
    }
    StoreSlide(session, DeepDiveKey, generated.value);
    return Payload(DetourPayload(session.State(), "deep_dive_" + ReplaceChar(concept, ' ', '_'), "deep_dive",
      generated.value.content, generated.value.controls));
  }

  /** The `return_to_main` branch on the session object. */
  method ReturnToMainSlide(session: LectureSession, params: Option<Params>) returns (r: Response)
    requires IntParam(params, "slide_index")
    modifies session
    ensures Outcome(session.State(), r) == ReturnToMain(old(session.State()), params)
  {
    if HasParam(params, "slide_index") {
      session.currentIndex := params.value["slide_index"].i;
    }
    ExitDeepDive(session);
    if session.currentIndex !in session.slides {
      return Crash(KeyErrorMessage(session.currentIndex));
    }
    return Payload(BuildSlidePayload(session.State(), session.slides[session.currentIndex]));
  }

  /** The `show_example` branch on the session object. */
  method ShowExampleSlide(session: LectureSession, params: Option<Params>, llm: Provider) returns (r: Response)
    modifies session
    ensures Outcome(session.State(), r) == ShowExample(old(session.State()), params, llm)
  {
    var currentState := CurrentOrDeepDive(session.State());
    if currentState.None? {
      return HttpError(400, "No current slide");
    }
    var context := GetGenerationContext(session.State());
    if context.Raise? {
      return Crash(context.message);
    }
    var exampleType := ExampleType(params);
    var generated := llm.generateExample(currentState.value.content, context.value, exampleType);
    if generated.Raise? {
      return Payload(FailurePayload(session.State(), "Example Generation Failed", "an example", generated.message,
        "show_example", "example_error_" + IntToString(session.currentIndex), "example"));
    }
    StoreSlide(session, ExampleKey, generated.value);
    return Payload(DetourPayload(session.State(), "example_" + IntToString(session.currentIndex), "example",
      generated.value.content, generated.value.controls));
  }

  /** The `quiz_me` branch on the session object. */
  method QuizMeSlide(session: LectureSession, llm: Provider) returns (r: Response)
    modifies session
    ensures Outcome(session.State(), r) == QuizMe(old(session.State()), llm)
  {
    var currentState := CurrentOrDeepDive(session.State());
    if currentState.None? {
      return HttpError(400, "No current slide");
    }
    var context := GetGenerationContext(session.State());
    if context.Raise? {
      return Crash(context.message);
    }
    var generated := llm.generateQuiz(currentState.value.content, context.value);
    if generated.Raise? {
      return Payload(FailurePayload(session.State(), "Quiz Generation Failed", "a quiz", generated.message,
        "quiz_me", "quiz_error_" + IntToString(session.currentIndex), "quiz"));
    }
    StoreSlide(session, QuizKey, generated.value);
    return Payload(DetourPayload(session.State(), "quiz_" + IntToString(session.currentIndex), "quiz",
      generated.value.content, generated.value.controls));
  }

  /** The `extend_lecture` branch on the session object: the outline grows and the index moves before the new slide is generated. */
  method ExtendLecture(session: LectureSession, llm: Provider) returns (r: Response)
    modifies session
    ensures Outcome(session.State(), r) == Extend(old(session.State()), llm)
  {
    var newTitles := llm.extendLectureOutline(session.topic, session.outline);
    if newTitles.Raise? {
      return Crash(newTitles.message);
    }
    session.outline := session.outline + newTitles.value;
    session.currentIndex := session.currentIndex + 1;
    var context := GetGenerationContext(session.State());
    if context.Raise? {
      return Crash(context.message);
    }
    var generated := llm.generateSlide(context.value);
    if generated.Raise? {
      return Crash(generated.message);
    }
    StoreSlide(session, session.currentIndex, generated.value);
    return Payload(BuildSlidePayload(session.State(), session.slides[session.currentIndex]));
  }

  /** The `show_references` branch on the session object. */
  method ShowReferences(session: LectureSession, llm: Provider, refine: Refiner) returns (r: Response)
    modifies session
    ensures Outcome(session.State(), r) == References(old(session.State()), llm, refine)
  {
    var found := ShowReferencesLoop(QueryOf(session.State(), llm, refine));
    if found.Raise? {
      return Crash(found.message);
    }
    var slide := ReferencesSlide(found.value);
    session.slides := session.slides[ReferencesKey := slide];
    return Payload(DetourPayload(session.State(), "references_" + IntToString(session.currentIndex), "references",
      slide.content, slide.controls));
  }

  /** The `show_concept_map` branch on the session object. */
  method ShowConceptMap(session: LectureSession, llm: Provider) returns (r: Response)
    modifies session
    ensures Outcome(session.State(), r) == ConceptMapAction(old(session.State()), llm)
  {
    var generated := llm.generateConceptMap(session.topic, session.outline, session.currentIndex);
    if generated.Raise? {
      return Crash(generated.message);
    }
    StoreSlide(session, ConceptMapKey, generated.value);
    return Payload(DetourPayload(session.State(), "concept_map_" + IntToString(session.currentIndex), "concept_map",
      generated.value.content, generated.value.controls));
  }

  /**
   * `perform_action`: 404 when `get_session` found no session; otherwise the
   * session object ends in the state of the action's transition and the
   * answer is the transition's.
   */
  method PerformAction(session: LectureSession?, action: string, params: Option<Params>, llm: Provider, refine: Refiner)
    returns (r: Response)
    requires ParamsFit(action, params)
    modifies session
    ensures session == null ==> r == HttpError(404, "Session not found")
    ensures session != null ==>
      Outcome(session.State(), r) == Step(old(session.State()), action, params, llm, refine)
  {
    if session == null {
      return HttpError(404, "Session not found");
    }
    if action == "advance_main_thread" {
      r := AdvanceMainThread(session, llm);
    } else if action == "go_previous" {
      r := GoPreviousSlide(session);
    } else if action == "clarify_slide" {
      r := ClarifySlide(session, llm);
    } else if action == "deep_dive" {
      r := StartDeepDive(session, params, llm);
    } else if action == "return_to_main" {
      r := ReturnToMainSlide(session, params);
    } else if action == "show_example" {
      r := ShowExampleSlide(session, params, llm);
    } else if action == "quiz_me" {
      r := QuizMeSlide(session, llm);
    } else if action == "quiz_answer" {
      r := QuizAnswer(session.State(), params).response;
    } else if action == "extend_lecture" {
      r := ExtendLecture(session, llm);
    } else if action == "show_references" {
      r := ShowReferences(session, llm, refine);
    } else if action == "show_concept_map" {
      r := ShowConceptMap(session, llm);
    } else {
      r := HttpError(400, "Unknown action: " + action);
    }
  }
}
