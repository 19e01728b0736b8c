/**
 * The lecture session (src/session.py): the record of where a learner is in
 * a lecture, its derived navigation properties, and the state a new session
 * starts in. The handlers change a `LectureSession` object in place; the
 * database that stores it between requests is not part of this model.
 */
module Session {
  import opened Wrappers
  import opened PyStr
  import opened Slides

  datatype KnowledgeLevel = Advanced | Intermediate | Beginner

  /** The content and controls of one generated slide. */
  datatype SlideState = SlideState(content: SlideContent, controls: seq<InteractiveControl>)

  /**
   * The value of every field of a `LectureSession` at one moment. The
   * properties of the Python class are functions of these fields.
   */
  datatype SessionState = SessionState(
    sessionId: string,
    topic: string,
    outline: seq<string>,
    slides: map<int, SlideState>,
    currentIndex: int,
    knowledgeLevel: KnowledgeLevel,
    inDeepDive: bool,
    deepDiveParentIndex: Option<int>,
    deepDiveConcept: Option<string>)
  {
    /** `total_slides` */
    function TotalSlides(): nat {
      |outline|
    }

    /** Whether `current_title` shows the deep-dive concept instead of an outline entry. */
    predicate ShowsConcept() {
      inDeepDive && deepDiveConcept.Some? && deepDiveConcept.value != []
    }

    /**
     * `current_title`: "Deep Dive: <concept>" during a deep dive with a
     * non-empty concept, otherwise `outline[current_index]`, which raises
     * IndexError outside `-len(outline) <= current_index < len(outline)`.
     */
    function CurrentTitle(): (r: Result<string>)
      ensures r.Raise? <==> !ShowsConcept() && PyIndex(|outline|, currentIndex).None?
    {
      if ShowsConcept() then Ok("Deep Dive: " + deepDiveConcept.value)
      else match PyIndex(|outline|, currentIndex)
        case Some(k) => Ok(outline[k])
        case None => Raise("list index out of range")
    }

    /** `has_next` */
    predicate HasNext() {
      currentIndex < TotalSlides() - 1
    }

    /** `has_previous` */
    predicate HasPrevious() {
      currentIndex > 0
    }

    /** `is_first` */
    predicate IsFirst() {
      currentIndex == 0
    }

    /** `is_last` */
    predicate IsLast() {
      currentIndex == TotalSlides() - 1
    }

    /** The same session with the deep-dive fields reset. */
    function LeaveDeepDive(): (r: SessionState)
      ensures !r.inDeepDive && r.deepDiveParentIndex.None? && r.deepDiveConcept.None?
      ensures r.outline == outline && r.slides == slides && r.currentIndex == currentIndex
    {
      this.(inDeepDive := false, deepDiveParentIndex := None, deepDiveConcept := None)
    }
  }

  /** The session `create_session` builds: index 0, no slides, intermediate level, no deep dive. */
  function Initial(sessionId: string, topic: string, outline: seq<string>): SessionState {
    SessionState(sessionId, topic, outline, map[], 0, Intermediate, false, None, None)
  }

  /** A new session starts on its first slide, with no way back, and a way forward iff its outline has two titles or more. */
  lemma InitialNavigation(sessionId: string, topic: string, outline: seq<string>)
    ensures var st := Initial(sessionId, topic, outline);
      st.IsFirst() && !st.HasPrevious() && (st.HasNext() <==> |outline| >= 2) &&
      (st.IsLast() <==> |outline| == 1) &&
      st.slides == map[] && !st.inDeepDive && st.knowledgeLevel == Intermediate &&
      st.topic == topic && st.outline == outline && st.TotalSlides() == |outline|
  {
  }

  /** On a slide of the outline, there is a next slide iff it is not the last, and a previous one iff it is not the first. */
  lemma NavigationDuality(st: SessionState)
    requires 0 <= st.currentIndex < st.TotalSlides()
    ensures st.HasNext() <==> !st.IsLast()
    ensures st.HasPrevious() <==> !st.IsFirst()
  {
  }

  /** Outside a deep dive, the title of a slide of the outline is its outline entry. */
  lemma CurrentTitleOfOutline(st: SessionState)
    requires !st.ShowsConcept() && 0 <= st.currentIndex < st.TotalSlides()
    ensures st.CurrentTitle() == Ok(st.outline[st.currentIndex])
  {
  }

  /** A lecture session as the handlers hold it: a mutable record. */
  class LectureSession {
    var sessionId: string
    var topic: string
    var outline: seq<string>
    var slides: map<int, SlideState>
    var currentIndex: int
    var knowledgeLevel: KnowledgeLevel
    var inDeepDive: bool
    var deepDiveParentIndex: Option<int>
    var deepDiveConcept: Option<string>

    /** The current value of every field. */
    function State(): SessionState
      reads this
    {
      SessionState(sessionId, topic, outline, slides, currentIndex, knowledgeLevel,
        inDeepDive, deepDiveParentIndex, deepDiveConcept)
    }

    /** `LectureSession(...)` with every field given. */
    constructor (st: SessionState)
      ensures State() == st
    {
      sessionId := st.sessionId;
      topic := st.topic;
      outline := st.outline;
      slides := st.slides;
      currentIndex := st.currentIndex;
      knowledgeLevel := st.knowledgeLevel;
      inDeepDive := st.inDeepDive;
      deepDiveParentIndex := st.deepDiveParentIndex;
      deepDiveConcept := st.deepDiveConcept;
    }

    /** The object `create_session` returns, without the database insert. */
    constructor Create(sessionId: string, topic: string, outline: seq<string>)
      ensures State() == Initial(sessionId, topic, outline)
    {
      this.sessionId := sessionId;
      this.topic := topic;
      this.outline := outline;
      slides := map[];
      currentIndex := 0;
      knowledgeLevel := Intermediate;
      inDeepDive := false;
      deepDiveParentIndex := None;
      deepDiveConcept := None;
    }
  }
}
