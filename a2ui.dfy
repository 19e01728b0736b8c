/**
 * The A2UI adapter (src/a2ui_adapter.py): the button variant of each action,
 * the row of buttons built from a slide's controls, and the component tree
 * and metadata a slide payload is rendered as. The component records follow
 * src/a2ui_core.py.
 */
module A2ui {
  import opened Wrappers
  import opened Slides

  datatype A2UIAction = A2UIAction(name: string, parameters: Params)

  /** The component kinds the adapter produces (`textVariant` is a Text's `variant`). */
  datatype Component =
    | Text(content: string, textVariant: string)
    | Markdown(content: string)
    | Button(labelText: string, action: A2UIAction, variant: string)
    | Container(layout: string, style: map<string, string>, children: seq<Component>)
    | Code(code: string, language: string)
    | ConceptMap(mermaidCode: string)
    | CodeExecution(code: string, language: string)

  datatype A2UIMessage = A2UIMessage(root: Component, meta: map<string, Value>)

  /** The variants a button may have. */
  const ButtonVariants: set<string> := {"primary", "secondary", "outline", "ghost", "danger"}

  /** `map_variant_from_action` */
  function MapVariantFromAction(action: string): (r: string)
    ensures r in ButtonVariants
    ensures r == "primary" <==> action == "advance_main_thread" || action == "extend_lecture"
    ensures r == "outline" <==> action == "quiz_me" || action == "show_example"
    ensures r == "ghost" <==> action == "return_to_main"
    ensures r == "danger" <==> action == "regenerate_slide"
  {
    if action in ["advance_main_thread", "extend_lecture"] then "primary"
    else if action in ["deep_dive", "show_concept_map"] then "secondary"
    else if action in ["quiz_me", "show_example"] then "outline"
    else if action in ["return_to_main"] then "ghost"
    else if action == "regenerate_slide" then "danger"
    else "secondary"
  }

  /** Every action outside the eight named ones is shown as a secondary button. */
  lemma VariantDefault(action: string)
    requires action !in {"advance_main_thread", "extend_lecture", "deep_dive", "show_concept_map",
      "quiz_me", "show_example", "return_to_main", "regenerate_slide"}
    ensures MapVariantFromAction(action) == "secondary"
  {
  }

  /** `control.params or {}` */
  function ParamsOrEmpty(params: Option<Params>): Params {
    if params.Some? then params.value else map[]
  }

  /** The button for one control. */
  function ButtonFor(control: InteractiveControl): Component {
    Button(control.labelText, A2UIAction(control.action, ParamsOrEmpty(control.params)), MapVariantFromAction(control.action))
  }

  const ControlsStyle: map<string, string> := map["gap" := "0.5rem", "flexWrap" := "wrap", "marginTop" := "1rem"]

  /** The buttons of a list of controls, one per control, in order. */
  function ButtonsFor(controls: seq<InteractiveControl>): (r: seq<Component>)
    ensures |r| == |controls|
  {
    seq(|controls|, i requires 0 <= i < |controls| => ButtonFor(controls[i]))
  }

  /** The container `convert_controls` returns. */
  function ControlsContainer(controls: seq<InteractiveControl>): Component {
    Container("horizontal", ControlsStyle, ButtonsFor(controls))
  }

  /**
   * `convert_controls`: a horizontal, wrapping container holding one button
   * per control, in order, with the control's label, its action as the
   * action name, its parameters or an empty dictionary, and the action's
   * variant.
   */
  method ConvertControls(controls: seq<InteractiveControl>) returns (r: Component)
    ensures r == ControlsContainer(controls)
    ensures r.Container? && r.layout == "horizontal" && r.style == ControlsStyle
    ensures |r.children| == |controls|
    ensures forall i :: 0 <= i < |controls| ==>
      r.children[i].Button? &&
      r.children[i].labelText == controls[i].labelText &&
      r.children[i].action.name == controls[i].action &&
      r.children[i].action.parameters == (if controls[i].params.Some? then controls[i].params.value else map[]) &&
      r.children[i].variant == MapVariantFromAction(controls[i].action)
  {
    var buttons: seq<Component> := [];
    var i := 0;
    while i < |controls|
      invariant 0 <= i <= |controls|
      invariant buttons == ButtonsFor(controls[..i])
    {
      assert controls[..i + 1] == controls[..i] + [controls[i]];
      buttons := buttons + [ButtonFor(controls[i])];
      i := i + 1;
    }
    assert controls[..i] == controls;
    r := Container("horizontal", ControlsStyle, buttons);
  }

  /** Python truthiness of `diagram_code`. */
  predicate HasDiagram(content: SlideContent) {
    content.diagramCode.Some? && content.diagramCode.value != []
  }

  /** The metadata of a message: the payload's session, position, identifier and layout. */
  function Metadata(payload: SlidePayload): map<string, Value> {
    map[
      "session_id" := Str(payload.sessionId),
      "slide_index" := Int(payload.slideIndex),
      "total_slides" := Int(payload.totalSlides),
      "slide_id" := Str(payload.slideId),
      "layout" := Str(payload.layout)]
  }

  /** The components shown between the title and the controls, by layout and content. */
  function BodyComponents(payload: SlidePayload): seq<Component> {
    var content := payload.content;
    if payload.layout == "concept_map" && HasDiagram(content) then
      [ConceptMap(content.diagramCode.value)] + (if content.text != [] then [Markdown(content.text)] else [])
    else if payload.layout == "example" && HasDiagram(content) then
      [CodeExecution(content.diagramCode.value, "javascript")] + (if content.text != [] then [Markdown(content.text)] else [])
    else
      [Markdown(content.text)] +
      (if HasDiagram(content) && payload.layout !in ["concept_map", "example"] then [Code(content.diagramCode.value, "text")] else [])
  }

  const RootStyle: map<string, string> := map["gap" := "1.5rem", "padding" := "1rem"]

  /** The message `domain_to_a2ui` builds for a payload. */
  function Message(payload: SlidePayload): A2UIMessage {
    var controls := if payload.interactiveControls != [] then [ControlsContainer(payload.interactiveControls)] else [];
    A2UIMessage(
      Container("vertical", RootStyle, [Text(payload.content.title, "h2")] + BodyComponents(payload) + controls),
      Metadata(payload))
  }

  /** `domain_to_a2ui`: the title, then the body by layout, then the controls if there are any. */
  method DomainToA2ui(payload: SlidePayload) returns (m: A2UIMessage)
    ensures m == Message(payload)
  {
    var metadata := Metadata(payload);
    var children: seq<Component> := [];
    children := children + [Text(payload.content.title, "h2")];
    var content := payload.content;
    if payload.layout == "concept_map" && HasDiagram(content) {
      children := children + [ConceptMap(content.diagramCode.value)];
      if content.text != [] {
        children := children + [Markdown(content.text)];
      }
    } else if payload.layout == "example" && HasDiagram(content) {
      children := children + [CodeExecution(content.diagramCode.value, "javascript")];
      if content.text != [] {
        children := children + [Markdown(content.text)];
      }
    } else {
      children := children + [Markdown(content.text)];
      if HasDiagram(content) && payload.layout !in ["concept_map", "example"] {
        children := children + [Code(content.diagramCode.value, "text")];
      }
    }
    assert children == [Text(payload.content.title, "h2")] + BodyComponents(payload);
    if payload.interactiveControls != [] {
      var row := ConvertControls(payload.interactiveControls);
      children := children + [row];
    }
    var controls := if payload.interactiveControls != [] then [ControlsContainer(payload.interactiveControls)] else [];
    assert children == [Text(payload.content.title, "h2")] + BodyComponents(payload) + controls;
    var root := Container("vertical", RootStyle, children);
    assert root == Message(payload).root;
    m := A2UIMessage(root, metadata);
  }

  /** The root is a vertical container whose first child is the title as an h2 text. */
  lemma RootShape(payload: SlidePayload)
    ensures var root := Message(payload).root;
      root.Container? && root.layout == "vertical" && root.style == RootStyle &&
      |root.children| >= 2 && root.children[0] == Text(payload.content.title, "h2")
  {
  }

  /** The last child is the controls container iff the payload has controls; no other child is a container. */
  lemma ControlsLast(payload: SlidePayload)
    ensures var cs := Message(payload).root.children;
      (cs[|cs| - 1] == ControlsContainer(payload.interactiveControls) <==> payload.interactiveControls != []) &&
      forall i :: 0 <= i < |cs| - 1 ==> !cs[i].Container?
  {
    var cs := Message(payload).root.children;
    var body := BodyComponents(payload);
    assert forall i :: 0 <= i < |body| ==> !body[i].Container?;
    if payload.interactiveControls == [] {
      assert cs[|cs| - 1] in body;
    }
  }

  /** A concept-map payload with a diagram shows the map, then its text only if the text is non-empty. */
  lemma ConceptMapLayout(payload: SlidePayload)
    requires payload.layout == "concept_map" && HasDiagram(payload.content)
    ensures var cs := Message(payload).root.children;
      cs[1] == ConceptMap(payload.content.diagramCode.value) &&
      (Markdown(payload.content.text) in cs <==> payload.content.text != [])
  {
    var cs := Message(payload).root.children;
    if payload.content.text == [] {
      NoMarkdownHere(payload);
    }
  }

  /** An example payload with a diagram shows it as executable JavaScript, then its text only if non-empty. */
  lemma ExampleLayout(payload: SlidePayload)
    requires payload.layout == "example" && HasDiagram(payload.content)
    ensures var cs := Message(payload).root.children;
      cs[1] == CodeExecution(payload.content.diagramCode.value, "javascript") &&
      (Markdown(payload.content.text) in cs <==> payload.content.text != [])
  {
    if payload.content.text == [] {
      NoMarkdownHere(payload);
    }
  }

  lemma NoMarkdownHere(payload: SlidePayload)
    requires (payload.layout == "concept_map" || payload.layout == "example") && HasDiagram(payload.content)
    requires payload.content.text == []
    ensures Markdown(payload.content.text) !in Message(payload).root.children
  {
    var cs := Message(payload).root.children;
    assert forall i :: 0 <= i < |cs| ==> !cs[i].Markdown?;
  }

  /**
   * Any other payload shows its text as markdown second, followed by the
   * diagram as plain code iff it has one; the fallback's layout test never
   * fails, since the special layouts with a diagram were handled above.
   */
  lemma StandardLayout(payload: SlidePayload)
    requires !((payload.layout == "concept_map" || payload.layout == "example") && HasDiagram(payload.content))
    ensures var cs := Message(payload).root.children;
      cs[1] == Markdown(payload.content.text) &&
      (HasDiagram(payload.content) ==> cs[2] == Code(payload.content.diagramCode.value, "text")) &&
      (!HasDiagram(payload.content) ==> forall i :: 0 <= i < |cs| ==> !cs[i].Code?)
  {
    var cs := Message(payload).root.children;
    if HasDiagram(payload.content) {
      assert payload.layout !in ["concept_map", "example"];
    }
  }

  /** The metadata copies the payload's session id, index, total, slide id and layout. */
  lemma MetadataCopies(payload: SlidePayload)
    ensures var meta := Message(payload).meta;
      meta.Keys == {"session_id", "slide_index", "total_slides", "slide_id", "layout"} &&
      meta["session_id"] == Str(payload.sessionId) && meta["slide_index"] == Int(payload.slideIndex) &&
      meta["total_slides"] == Int(payload.totalSlides) && meta["slide_id"] == Str(payload.slideId) &&
      meta["layout"] == Str(payload.layout)
  {
  }
}
