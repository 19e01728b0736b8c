/**
 * The slide records shared by the session store, the LLM layer and the HTTP
 * handlers (src/components/slides.py), and the decoded JSON values that request
 * parameters and payload metadata carry.
 */
module Slides {
  import opened Wrappers
  import opened PyStr

  /**
   * A JSON value without fraction or nesting as Python holds it after
   * decoding: `str`, `int`, `bool` or `None` (JSON null). Floats, lists and
   * objects are not modelled.
   */
  datatype Value = Str(s: string) | Int(i: int) | Bool(b: bool) | Null

  /** Python truthiness of a decoded value. */
  predicate Truthy(v: Value) {
    match v
    case Str(s) => s != []
    case Int(i) => i != 0
    case Bool(b) => b
    case Null => false
  }

  /** `f"{v}"` for a decoded value. */
  function Show(v: Value): string {
    match v
    case Str(s) => s
    case Int(i) => IntToString(i)
    case Bool(b) => if b then "True" else "False"
    case Null => "None"
  }

  /** A parameter dictionary: `dict` from key to decoded value. */
  type Params = map<string, Value>

  /** A button or control rendered on a slide (`labelText` is its `label`; `label` is a Dafny keyword); `params` is None for Python's `None`. */
  datatype InteractiveControl = InteractiveControl(labelText: string, action: string, params: Option<Params>)

  /** A control without parameters. */
  function Control(labelText: string, action: string): InteractiveControl {
    InteractiveControl(labelText, action, None)
  }

  datatype SlideContent = SlideContent(title: string, text: string, diagramCode: Option<string>)

  /** Content with the default `diagram_code=None`. */
  function Content(title: string, text: string): SlideContent {
    SlideContent(title, text, None)
  }

  /** The response payload of the lecture endpoints, with the fields the handlers set. */
  datatype SlidePayload = SlidePayload(
    slideId: string,
    sessionId: string,
    layout: string,
    content: SlideContent,
    interactiveControls: seq<InteractiveControl>,
    slideIndex: int,
    totalSlides: nat)
}
