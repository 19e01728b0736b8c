# Adaptive Professor — a verified model of the lecture backend

Adaptive Professor is a lecture server driven by a language model. A learner
picks a topic, the server asks a model for an outline, and one slide is
generated at a time. Each slide carries buttons ("interactive controls").
A button names an action, and `perform_action` carries the action out:
- move forward or back;
- clarify the slide;
- dive into a concept and return from it;
- show an example, a quiz, references or a concept map;
- extend the lecture past its outline.

A references slide is produced by a best-of-three loop. Each attempt's
markdown links are checked, and broken ones are struck through. Every slide
is sent to the browser as an A2UI component tree.

This project models that core in Dafny and proves its properties:

- `wrappers.dfy`, module `Wrappers`: `Option` and `Result`. `Raise(message)` is a Python exception.
- `pystr.dfy`, module `PyStr`: the Python `str` and `list` built-ins the core relies on:
  - `strip` and `split()`;
  - `split(sep)` and `find`;
  - `str(int)` and `f"{n:02d}"`;
  - ASCII `lower()` and single-character `replace`;
  - negative list indexing.
- `slides.dfy`, module `Slides`: the records of `src/components/slides.py` and the decoded JSON values that parameters hold.
- `url_validator.dfy`, module `UrlValidator`: link extraction, the per-URL check, the strikethrough rewrite and the summary triple.
  - The link regex is a leftmost, non-overlapping scanner.
  - The network is an input: `Probe` is what the HEAD and GET requests would return.
- `session.dfy`, module `Session`: the `LectureSession` record and its navigation properties, with the state `create_session` builds.
  - A `LectureSession` class holds the fields the handlers update in place.
- `llm.dfy`, module `Llm`: the provider interface, `clean_json_response`, the next-title rule, the controls of references slides, and the mock provider's answers.
  - The provider is a record of functions, each returning a value or raising.
- `a2ui.dfy`, module `A2ui`: the variant of each button, the row of buttons and the component tree of a payload.
- `main.dfy`, module `Api`: `get_generation_context`, `build_slide_payload` and every branch of `perform_action`, including the `show_references` loop.
  - Each action is a transition function from the session's fields to the new fields and the response.
  - One method per action changes the `LectureSession` object in the order the source does. Its `ensures` ties the object's final state and the answer to the transition.
  - An exception that escapes a handler is a `Crash` response, i.e. HTTP 500. Changes made to the in-memory object before the exception stay on that object. Whether they are also saved depends on the handler:
    - `advance_main_thread`, `clarify_slide`, `deep_dive`, `show_example`, `quiz_me`, `extend_lecture`, `show_references` and `show_concept_map` raise only before their `update_session` call (src/main.py:161, 184, 208, 275, 325, 392, 433 and 454). The stored session keeps its old state.
    - `go_previous` and `return_to_main` save the move with `update_session` (src/main.py:174 and src/main.py:232) before the lookup that raises KeyError (src/main.py:175 and src/main.py:233). The stored session holds the new index and the cleared deep-dive fields.

Where the code and its tests disagree, the model follows the code:

- Thresholds.
  - tests/test_url_validator.py:129-150 expects a `ValidationResult` that decides "needs regeneration" from thresholds on the valid links.
  - tests/test_url_validator.py:184-210 expects `validate_and_filter_references` to take `min_valid_ratio` and `min_valid_links` and to return such a record.
  - `src/url_validator.py` defines neither. Its `validate_and_filter_references` returns a plain `(filtered_text, total, valid)` triple.
  - src/main.py:14 imports `ValidationResult` from `src/url_validator.py`, which does not define it, so `src/main.py` cannot be loaded as written.
  - The model takes the handlers as if that import succeeded. The references loop in `src/main.py` reads `valid_links`, `needs_regeneration` and `filtered_text` from that record, so the loop is modelled over an abstract `RefinementResult` with those three fields.
- Section cleanup. tests/test_url_validator.py:57-110 expects `remove_invalid_links_from_markdown` to remove broken links and emptied sections. `src/url_validator.py` has no such function. Its rewrite replaces a broken link with `~~text~~ (link unavailable)` and removes nothing.
- Bare URLs. The docstring of `extract_urls_from_markdown` mentions bare URLs, but the code finds only `[text](url)` links.

## Model

| member | source | states |
|---|---|---|
| PyStr.LStrip | src/llm.py:475 | `lstrip()` removes exactly a whitespace prefix: what it drops is whitespace and what remains does not start with whitespace |
| PyStr.RStrip | src/llm.py:485 | `rstrip()` removes exactly a whitespace suffix: what it drops is whitespace and what remains does not end with whitespace |
| PyStr.Strip | src/llm.py:475 | `strip()` leaves no whitespace at either end |
| PyStr.StripStripped | src/llm.py:485 | stripping text that has no surrounding whitespace changes nothing |
| PyStr.StripTrailingSpace | src/llm.py:485 | a trailing whitespace character does not survive `strip()` |
| PyStr.IndexOf | src/llm.py:479 | `find("\n")` gives the first occurrence, or none when the character does not occur |
| PyStr.Find | src/url_validator.py:73 | `find(sep)` gives an occurrence with none before it, or none when `sep` never occurs |
| PyStr.SplitPieces | src/url_validator.py:73 | `split(sep)` has a second piece iff `sep` occurs; it has one piece, the whole text, iff it does not; the second piece starts right after the first occurrence |
| PyStr.SplitHead | src/url_validator.py:73 | the first piece of `split(sep)` is the text before the first occurrence of `sep`, or the whole text |
| PyStr.WordEnd | src/llm.py:863 | the first word of a stripped text runs to the first whitespace character |
| PyStr.WordsOfWord | src/llm.py:863 | `split()` of a single word without whitespace is that word alone |
| PyStr.WordsSnoc | src/llm.py:863 | `split()` of a text followed by whitespace and a word is the text's words followed by that word |
| PyStr.WordsOfBlank | src/llm.py:863-864 | `split()` of a text made only of whitespace, the empty text included, is empty |
| PyStr.Lower | src/llm.py:888 | `lower()` lowers each character in place: the i-th character of the result is the i-th of the text, lowered, and the length is kept |
| PyStr.ReplaceChar | src/main.py:212 | `replace(" ", "_")` turns each space into `_` and keeps every other character at its place, so no space remains |
| PyStr.NatToStringValue | src/llm.py:852-858 | `str(n)` of a natural number is its decimal numeral: digits only, denoting `n`, with a leading zero only for 0, which is "0" |
| PyStr.IntToStringValue | src/main.py:261-278 | `str(i)` starts with `-` iff `i` is negative and continues with the decimal numeral of `abs(i)`, without a leading zero unless `i` is 0 |
| PyStr.Pad2Value | src/main.py:94 | `f"{i:02d}"` of a non-negative `i` is digits denoting `i`, exactly two with a leading zero below 10 and no leading zero from 10 on; of a negative `i` it is `str(i)` |
| PyStr.PyIndex | src/session.py:54 | `outline[i]` reads a position iff `-len <= i < len`: `i` itself when it is non-negative, `len + i` when it is negative; otherwise it raises IndexError |
| UrlValidator.MatchPrefix | src/url_validator.py:51 | a match is at least four characters long and lies inside the text |
| UrlValidator.RunWithoutStops | src/url_validator.py:51 | the greedy `[^c]*` run holds no `c` and stops at the first `c` or at the end |
| UrlValidator.RunWithoutIs | src/url_validator.py:51 | a prefix without `c`, followed by `c` or by the end, is exactly the run |
| UrlValidator.MatchPrefixSound | src/url_validator.py:51 | every match is a well-formed `[linkText](url)` at the start of the text, with a non-empty linkText without `]`, a non-empty URL without `)`, and the length of that link |
| UrlValidator.MatchPrefixOfLink | src/url_validator.py:51 | every well-formed link at the start of a text is matched, with exactly its linkText and URL |
| UrlValidator.MatchesStep | src/url_validator.py:53 | `finditer` reports a match at the scan position and resumes after it, or moves one character on |
| UrlValidator.MatchesNoBracket | src/url_validator.py:51-53 | text without `[` has no match |
| UrlValidator.LinkFreeStep | src/url_validator.py:51-53 | no link starts anywhere in a text iff none starts at its front and none anywhere in its tail |
| UrlValidator.MatchesEmptyIff | src/url_validator.py:51-53 | `finditer` reports no match iff no link starts at any position of the text |
| UrlValidator.PlainLinkFree | src/url_validator.py:51 | text without `[` is a text in which no link starts |
| UrlValidator.MatchesSkipPlain | src/url_validator.py:51-53 | text without `[` in front of the rest adds no match |
| UrlValidator.MatchesOfLink | src/url_validator.py:51-53 | a link at the front is reported first, and the scan continues right after its `)` |
| UrlValidator.HttpUrlsMembers | src/url_validator.py:54-57 | the kept URLs are exactly the matched URLs that start with "http" |
| UrlValidator.ExtractUrlsFromMarkdown | src/url_validator.py:43-59 | the loop over the matches returns the URLs of the matches that start with "http", in order |
| UrlValidator.ExtractLink | src/url_validator.py:43-59 | for plain text, a link and a rest, the result is the link's URL, kept whole with its path, query and fragment, if it starts with "http", followed by the rest's URLs; mailto: and relative targets are dropped |
| UrlValidator.ExtractNoLinks | src/url_validator.py:43-59 | text without `[` yields no URL |
| UrlValidator.ExtractLinkFree | src/url_validator.py:43-59 | text in which no link starts at any position yields no URL |
| UrlValidator.Truncate100 | src/url_validator.py:121 | `str(e)[:100]` has at most 100 characters |
| UrlValidator.CheckUrl | src/url_validator.py:62-121 | the result carries its URL and an error of at most 100 characters; it issues no request, HEAD alone, or HEAD then GET; it issues no request iff the domain cannot be parsed |
| UrlValidator.MalformedUrl | src/url_validator.py:72-79 | a URL without "//" is exactly one that gets "Invalid URL format", invalid, with no status and no request |
| UrlValidator.StatusRule | src/url_validator.py:93-106 | a HEAD status below 400 is valid with that status and no GET; a 405 brings exactly one GET, valid iff its status is below 400; any other status is invalid and recorded |
| UrlValidator.ValidIff | src/url_validator.py:62-121 | a URL is valid iff its domain parses and the deciding outcome is a status below 400, or a timeout on a trusted domain |
| UrlValidator.TimeoutRule | src/url_validator.py:82-112 | a timeout is valid with "Timeout (trusted domain)" iff the raw or www-stripped domain is trusted, otherwise invalid with "Timeout"; no status either way |
| UrlValidator.FailureRule | src/url_validator.py:114-121 | a connect failure gives "Connection failed" and too many redirects "Too many redirects", both invalid; any other error is invalid with its message cut to 100 characters |
| UrlValidator.DomainOfUrl | src/url_validator.py:73 | the domain of `scheme//host/path` is the host |
| UrlValidator.TimeoutOnHost | src/url_validator.py:73-112 | on a timeout, `scheme//host/path` is valid iff its host is trusted |
| UrlValidator.TrustedExamples | src/url_validator.py:22-82 | docs.python.org and www.github.com are trusted; definitely-fake-xyz.com is not |
| UrlValidator.CheckAll | src/url_validator.py:139-159 | one result per URL, the i-th being the check of the i-th URL |
| UrlValidator.ValidateUrls | src/url_validator.py:124-159 | a sequential `validate_urls` returns one result per input URL, in input order, each for its own URL; the empty list gives no result |
| UrlValidator.FilterAllValid | src/url_validator.py:162-178 | when every matched URL is valid, the rewrite returns its input unchanged |
| UrlValidator.KeptLink | src/url_validator.py:172-174 | a match with a valid URL is replaced by the very text it matched |
| UrlValidator.FilterSkipPlain | src/url_validator.py:162-178 | text without `[` in front of the rest passes through the rewrite unchanged |
| UrlValidator.FilterLinkFree | src/url_validator.py:162-178 | text in which no link starts at any position passes through the rewrite unchanged, whatever the valid URLs |
| UrlValidator.FilterLink | src/url_validator.py:170-178 | a link is kept verbatim iff its URL is valid; otherwise it becomes `~~linkText~~ (link unavailable)`; the rest of the text is rewritten on its own |
| UrlValidator.ValidUrlsBound | src/url_validator.py:196-198 | there are at most as many distinct valid URLs as results |
| UrlValidator.ValidUrlsAreHttp | src/url_validator.py:190-196 | every validated URL is one of the extracted URLs and starts with "http" |
| UrlValidator.NonHttpLinkStruck | src/url_validator.py:56-200 | a link whose URL does not start with "http" is never validated, so the rewrite always strikes it through |
| UrlValidator.ValidateAndFilterReferences | src/url_validator.py:181-203 | with no http link, the text comes back with (0, 0); otherwise the text is rewritten against the valid URLs; `total` counts the extracted occurrences and `valid` the distinct valid URLs, so `valid <= total` |
| Session.SessionState.CurrentTitle | src/session.py:50-54 | `current_title` raises iff no non-empty deep-dive concept is shown and the index is outside `-len(outline) <= i < len(outline)` |
| Session.SessionState.LeaveDeepDive | src/main.py:146-148 | the deep-dive fields are cleared and the outline, the slides and the index are kept |
| Session.InitialNavigation | src/session.py:45-142 | a new session is on index 0 with no slides, no deep dive, an intermediate level and the given topic and outline; it is first, has no previous slide, has a next slide iff the outline has two titles or more, is last iff it has one, and `total_slides` is the outline length |
| Session.NavigationDuality | src/session.py:57-74 | on a slide of the outline, `has_next == not is_last` and `has_previous == not is_first` |
| Session.CurrentTitleOfOutline | src/session.py:50-54 | outside a deep dive with a concept, the title of a slide of the outline is its outline entry |
| Session.LectureSession.constructor | src/session.py:29-42 | the object built from given fields holds exactly those fields |
| Session.LectureSession.Create | src/session.py:110-142 | `create_session`'s object holds the given topic and outline, index 0, no slides, an intermediate level and no deep dive |
| Llm.CleanJsonResponse | src/llm.py:470-485 | the result has no surrounding whitespace; a reply that does not open a fence comes back stripped |
| Llm.CleanJson | src/llm.py:470-485 | the step-by-step reassignment of `text` computes `clean_json_response`, so its result has no surrounding whitespace |
| Llm.CleanFenced | src/llm.py:477-485 | a reply "```tag", newline, body, "```" comes back as the stripped body: the first line and the closing fence are dropped |
| Llm.CleanJsonFence | src/llm.py:470-485 | "```json\nBODY\n```" becomes `strip(BODY)` |
| Llm.NextTitle | src/llm.py:600-604 | as in the prompt builders (also src/llm.py:509-513), the next title is `outline[i+1]` for a slide of the outline before the last; there is none iff `i >= len(outline) - 1`; the lookup raises iff `i + 1 < -len(outline)` |
| Llm.ReferenceControls | src/llm.py:1045-1062 | as the mock builds them and `get_references_prompt` (src/llm.py:387-402) asks for them, a references slide has two controls: "Return to Lecture" with `slide_index` set to the current index, then "Next: outline[i+1]" when `i < len(outline) - 1`, or "Extend Lecture" otherwise |
| Llm.ReferenceFallbackUnused | src/llm.py:1056-1057 | the fallback title ("next topic", "Next") has no effect on the controls |
| Llm.Actions | src/llm.py:866-901 | the action list has one entry per control, in order |
| Llm.MockConceptLastWord | src/llm.py:863-864 | the mock's concept is the last word of the title |
| Llm.MockConceptOneWord | src/llm.py:863-864 | a one-word title is its own concept |
| Llm.MockConceptBlank | src/llm.py:863-864 | a title without words, empty or all whitespace, has the concept "concept" |
| Llm.MockLeadControl | src/llm.py:866-876 | the first mock control is "Next: outline[i+1]" with `advance_main_thread` when the slide is not the last, otherwise "Continue Learning" with `extend_lecture`; it raises iff that lookup is out of range |
| Llm.MockGenerateSlide | src/llm.py:860-909 | a generated mock slide keeps its title, and its controls are the lead control followed by the tail; it raises iff the lead control does |
| Llm.MockTailActionsOf | src/llm.py:878-901 | after the lead control, the actions are: `go_previous` iff not first; deep dive, clarify and regenerate; `quiz_me` iff neither first nor last by index; then references and the concept map |
| Llm.MockSlideActions | src/llm.py:866-901 | the actions of a mock slide are the lead's then the tail's; the lead is `extend_lecture` iff the slide is last and `advance_main_thread` iff it is not |
| Llm.TailOffers | src/llm.py:866-901 | a lead followed by the tail offers `go_previous` iff not first, `quiz_me` iff neither first nor last, `extend_lecture` iff the lead is that action, and always the other five |
| Llm.MockSlideOffers | src/llm.py:866-901 | a mock slide offers Previous iff not first, Quiz Me iff its index is neither 0 nor `total - 1`, an extension iff last, and deep dive, clarify, regenerate, references and the concept map always |
| Llm.MockDeepDivePosition | src/llm.py:863-889 | the deep-dive control follows the lead and Previous controls; its label is "Deep Dive: " and the concept, and its `concept` parameter is the concept in lower case |
| Llm.MockExtendLectureOutline | src/llm.py:850-858 | the mock's extension has exactly four titles |
| Llm.MockExtensionNumbered | src/llm.py:852-858 | the extension number is `len(existing) // 5 + 1`: two titles start with "Advanced Topic" and the number, two end with it |
| Llm.MockExtensionBatch | src/llm.py:850-858 | the extension depends only on `len(existing) // 5`, not on the topic or the titles |
| Llm.MockGenerateReferences | src/llm.py:1041-1079 | the mock references slide is "References & Further Reading" with the fixed markdown, and its controls are the reference controls with the fallback "Next"; it raises iff they raise |
| Llm.MockRegenerateForward | src/llm.py:1144-1148 | a regenerated slide has a Next control iff `slide_index < total_slides - 1`; the lookup raises iff it is out of range there |
| Llm.MockRegenerateSlide | src/llm.py:1131-1160 | the title gets " (Regenerated with feedback: f)" for non-empty feedback, or " (Regenerated)"; the controls are Regenerate, Clarify, Previous if the index is positive, then the forward control |
| Llm.MockRegenerateRules | src/llm.py:1135-1148 | a regenerated slide starts with Regenerate and Clarify, has Previous iff `slide_index > 0`, and has Next iff `slide_index < total_slides - 1` |
| Llm.RegenerateOffers | src/llm.py:1135-1148 | the regenerated action list has `go_previous` iff the slide goes back and `advance_main_thread` iff it goes forward |
| A2ui.MapVariantFromAction | src/a2ui_adapter.py:22-34 | every action maps to one of the five variants of src/a2ui_core.py:49; "primary" iff advance or extend, "outline" iff quiz or example, "ghost" iff return, "danger" iff regenerate |
| A2ui.VariantDefault | src/a2ui_adapter.py:22-34 | every action outside the eight named ones is "secondary" |
| A2ui.ButtonsFor | src/a2ui_adapter.py:40-47 | one button per control |
| A2ui.ConvertControls | src/a2ui_adapter.py:37-53 | a horizontal, wrapping container with one button per control, in order, copying the label and the action name, with the parameters or `{}`, and the action's variant |
| A2ui.DomainToA2ui | src/a2ui_adapter.py:56-113 | the conditional appends build the title, the layout's body and the controls row |
| A2ui.RootShape | src/a2ui_adapter.py:71-111 | the root is a vertical container whose first child is the title as an h2 text |
| A2ui.ControlsLast | src/a2ui_adapter.py:105-106 | the controls container is the last child iff there are controls; no other child is a container |
| A2ui.ConceptMapLayout | src/a2ui_adapter.py:77-83 | a concept map with a diagram shows ConceptMap, then Markdown only if the text is non-empty |
| A2ui.ExampleLayout | src/a2ui_adapter.py:84-94 | an example with a diagram shows CodeExecution in JavaScript, then Markdown only if the text is non-empty |
| A2ui.StandardLayout | src/a2ui_adapter.py:96-102 | otherwise Markdown is second, followed by a "text" Code child iff there is a diagram |
| A2ui.MetadataCopies | src/a2ui_adapter.py:62-68 | the metadata holds exactly session_id, slide_index, total_slides, slide_id and layout, copied from the payload |
| Api.Prefix | src/main.py:250 | `str(e)[:200]` of the example and quiz error slides (also src/main.py:300): `s[:n]` is a prefix of at most `n` characters, the whole text when it is short enough |
| Api.GetGenerationContext | src/main.py:78-88 | the context copies topic, index, total and outline, with first and last by index; it raises IndexError iff `outline[current_index]` does; the title is the outline entry at `current_index`, counted from the end when the index is negative |
| Api.BuildSlidePayload | src/main.py:91-101 | a "default" payload with the slide's content and controls, the session's id, the current index and the outline length; its id is "slide_" followed by `f"{index + 1:02d}"` |
| Api.SlideIdDigits | src/main.py:94 | from index -1 on, a main slide's id is "slide_" followed by at least two digits that denote index + 1; the first digit is 0 iff the index is below 9, and then the id is "slide_0" and the digit of index + 1 |
| Api.SearchSpec | src/main.py:397-420 | the references loop makes one to three attempts, each after one asking for regeneration, and stops after the first that does not; the pick is an attempt made, with the most valid links, the earliest such; an exception comes from the first attempt that raised |
| Api.ShowReferencesLoop | src/main.py:397-420 | the loop with its early break computes the specified search |
| Api.AdvanceRule | src/main.py:142-162 | 400 "No more slides" without a next slide; otherwise it leaves the deep dive, moves one forward, keeps every stored slide, adds at most the new one (generated only if missing), and answers with the stored slide there |
| Api.AdvanceFailsOnlyInGeneration | src/main.py:142-162 | moving forward from a slide of the outline fails only when the new slide is missing and generating it raises |
| Api.GoPreviousRule | src/main.py:164-175 | 400 "No previous slide" on the first slide; otherwise it leaves the deep dive and moves back, never touching the slides, and answers with the stored slide or raises KeyError |
| Api.ClarifyRule | src/main.py:177-185 | KeyError if the current slide is missing; otherwise only the current slide may change |
| Api.DeepDiveRule | src/main.py:187-219 | 400 without a concept; otherwise it marks the deep dive with its parent index and concept, keeps the index and main slides, stores under -1 and answers at the parent index with the id "deep_dive_" and the concept with `_` for spaces |
| Api.ReturnToMainRule | src/main.py:221-233 | goes to `slide_index` or stays, leaves the deep dive, keeps the slides, answers iff the slide at the new index is stored, with `build_slide_payload` of that slide at the new state, and raises KeyError otherwise |
| Api.ExtendGrows | src/main.py:375-393 | the old outline is a prefix of the new one, which grows by the returned titles; on the in-memory object the index moves on even when generation then raises, and that change is never saved; on success the new slide is stored there |
| Api.ExtendWithMock | src/main.py:377-380 | with the mock's extension the outline grows by four |
| Api.ExampleKeepsMain | src/main.py:235-285 | `show_example` may add or replace only the slide under -2; every other stored slide, the deep-dive slide under -1 included, is kept as it was, and every other field stays |
| Api.QuizKeepsMain | src/main.py:287-335 | `quiz_me` may add or replace only the slide under -3; every other stored slide, the deep-dive slide under -1 included, is kept as it was, and every other field stays |
| Api.ReferencesKeepMain | src/main.py:395-443 | `show_references` may add or replace only the slide under -4; every other stored slide, the deep-dive slide under -1 included, is kept as it was, and every other field stays |
| Api.ConceptMapKeepsMain | src/main.py:445-464 | `show_concept_map` may add or replace only the slide under -5; every other stored slide, the deep-dive slide under -1 included, is kept as it was, and every other field stays |
| Api.DetoursKeepMainSlides | src/main.py:187-464 | every detour stores only under the reserved keys -1 to -5, keeps every main slide, the index, the outline and the topic, and changes nothing else apart from the deep-dive fields |
| Api.UnknownAction400 | src/main.py:466-467 | an unknown action gets 400 "Unknown action: ..." and changes nothing |
| Api.RegenerateIsUnknown | src/main.py:466-467 | `regenerate_slide`, offered on every mock slide, gets 400 |
| Api.RegenerateNotKnown | src/main.py:142-467 | `regenerate_slide` is none of the handled actions |
| Api.QuizAnswerRule | src/main.py:337-373 | 400 iff there are no params or they are empty; otherwise "Correct! (answer)" or "Incorrect (answer)" by the Python truthiness of `correct` (absent, null, false, 0 and "" are incorrect), with the answer as `f"{...}"` shows it or "?", three controls, the first returning to the current index, and no state change |
| Api.GenerationFailureRule | src/main.py:235-285 | `show_example` changes nothing or stores the generated example under -2; when generation raises, nothing changes and the answer is the "example_error_" slide whose text is "Sorry, I couldn't generate an example. Error: " and the first 200 characters of the error, with "Return to Slide" to the current index, then "Try Again" |
| Api.QuizFailureRule | src/main.py:287-335 | when quiz generation raises, nothing changes and the answer is the "quiz_error_" slide whose text is "Sorry, I couldn't generate a quiz. Error: " and the first 200 characters of the error, with "Return to Slide" to the current index, then "Try Again" |
| Api.ReferencesRule | src/main.py:395-443 | the stored and returned references slide is the pick's title and controls with its validated text, under -4; an exception changes nothing |
| Api.ExitDeepDive | src/main.py:146-148 | the object's deep-dive fields are cleared and nothing else changes |
| Api.StoreSlide | src/main.py:157-159 | the object gains exactly the slide under the key |
| Api.AdvanceMainThread | src/main.py:142-162 | the object and the answer end as `Advance` says |
| Api.GoPreviousSlide | src/main.py:164-175 | the object and the answer end as `GoPrevious` says |
| Api.ClarifySlide | src/main.py:177-185 | the object and the answer end as `Clarify` says |
| Api.StartDeepDive | src/main.py:187-219 | the object and the answer end as `DeepDive` says |
| Api.ReturnToMainSlide | src/main.py:221-233 | the object and the answer end as `ReturnToMain` says |
| Api.ShowExampleSlide | src/main.py:235-285 | the object and the answer end as `ShowExample` says |
| Api.QuizMeSlide | src/main.py:287-335 | the object and the answer end as `QuizMe` says |
| Api.ExtendLecture | src/main.py:375-393 | the object and the answer end as `Extend` says |
| Api.ShowReferences | src/main.py:395-443 | the object and the answer end as `References` says |
| Api.ShowConceptMap | src/main.py:445-464 | the object and the answer end as `ConceptMapAction` says |
| Api.PerformAction | src/main.py:133-467 | 404 "Session not found" without a session; otherwise the object and the answer end as the action's transition says |

## Left out

- Network probing: the HEAD and GET requests and httpx's exception types are the `Probe` input. Timeouts, headers and redirects are not modelled.
- Concurrency: the semaphore, `asyncio.gather` and the shared client are not modelled. `validate_urls` is a sequential map, and `net(i)` answers for the i-th URL.
- Real model providers: the Gemini and Anthropic clients, and the prose of the prompt builders, are foreign API calls and literal text. The handlers call an arbitrary `Provider`.
- JSON parsing: `parse_slide_response` and the session serializers are thin wrappers over `json`.
- `get_llm_provider` and `get_llm`: configuration lookup.
- Persistence: `get_session`, `update_session`, `delete_session`, `clear_all_sessions`, the database INSERT of `create_session`, and the `UNIQUE` constraint of the sessions table are SQLite I/O. `update_session` does nothing in the model. The object a handler changes is the state; on the paths that reach `update_session` it is also what gets stored.
- Nondeterminism and framework code: the uuid and timestamps of `create_session`, the FastAPI app, CORS, lifespan, the health route and `start_lecture`, which only calls the outline and slide generators. `HTTPException` is an `HttpError` response.
- The mock provider's answers to clarify, deep dive, example, quiz, concept map and the initial outline: the handlers are proved for every provider, so the mock's literal texts for these are not modelled.
- Behaviour asserted only by tests against functions that `src/url_validator.py` does not define: full-line removal, empty-section cleanup, and the valid-ratio and valid-count thresholds. The `simplify_slide` action the behaviour tests expect does not exist in `src/main.py`.
- UrlValidator.Truncate100: the text of a generic exception is not modelled, only the bound on `str(e)[:100]`.
- Api.ClarifyRule, Api.GoPreviousRule, Api.ReturnToMainRule: the KeyError's message is a placeholder of the model's own; Python's exact text is not modelled.
- PyStr.Lower: only the ASCII letters are lowered; Python's full Unicode case mapping is not modelled.
- Api.DeepDiveRule, Api.StartDeepDive: they require the `concept` parameter, when present, to be a string (`StrParam`). The model's `deepDiveConcept` is a string. In the source a non-string concept is stored on the session (src/main.py:195-197) and saved by `update_session` (src/main.py:208). Only then does `concept.replace` raise AttributeError (src/main.py:212), so the stored session keeps a non-string concept.
- Api.ReturnToMainRule, Api.ReturnToMainSlide: they require the `slide_index` parameter, when present, to be an integer (`IntParam`). The source assigns any value to `current_index` (src/main.py:225) and saves it (src/main.py:232); the model's index is an integer.
- Api.PerformAction, Api.DetoursKeepMainSlides: they require `ParamsFit`, which is the two conditions above for `deep_dive` and `return_to_main` only. Every other action takes any parameters, `show_example` included: its `type` goes to the provider as it came.
- Api.QuizAnswerRule: a parameter is a string, an integer, a boolean or null. JSON floats, lists and objects are not modelled, nor their truthiness or `f"{...}"` text.
- A2ui.DomainToA2ui, A2ui.MetadataCopies: src/components/slides.py:22-30 declares no `session_id`, `slide_index` or `total_slides` field on `SlidePayload`. Pydantic ignores those keywords when src/main.py passes them, so reading `payload.session_id` at src/a2ui_adapter.py:63 raises AttributeError. The model's `SlidePayload` has these fields and follows the intent of tests/test_a2ui_compliance.py:33-34, which expects them in the metadata; the AttributeError is not modelled.
- Llm.MockGenerateSlide: its body text is modelled as a string, but nothing is proved about that prose beyond its title.
- Llm.ReferenceControls: the prompt's controls are JSON text in the source; the model states the controls the text describes.
- Regeneration: the Regenerate control that every mock slide offers asks for `regenerate_slide`, which `perform_action` answers with 400 (Api.RegenerateIsUnknown). The provider's `regenerate_slide` is modelled (Llm.MockRegenerateSlide), but no handler calls it.
