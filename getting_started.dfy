/**
 * The getting-started content: the registry of content providers keyed by
 * module id, the resolution of a walkthrough resource to its content, the
 * Markdown button builder and the Copilot setup step.
 */
module GettingStarted {
  import opened Text

  /** A content provider, represented by the text it returns. */
  datatype Provider = Provider(content: string)

  // ---------------------------------------------------------------------
  // The registry
  // ---------------------------------------------------------------------

  class ContentProviderRegistry {
    var providers: map<string, Provider>

    constructor ()
      ensures providers == map[]
    {
      providers := map[];
    }

    /** registerProvider: the new provider replaces any earlier one for the id. */
    method RegisterProvider(moduleId: string, provider: Provider)
      modifies this
      ensures providers == old(providers)[moduleId := provider]
    {
      providers := providers[moduleId := provider];
    }

    function GetProvider(moduleId: string): (r: Option<Provider>)
      reads this
      ensures r.Some? <==> moduleId in providers
      ensures r.Some? ==> r.value == providers[moduleId]
    {
      MapGet(providers, moduleId)
    }
  }

  /** After registering, the id resolves to the provider registered last. */
  lemma RegisterThenGet(providers: map<string, Provider>, moduleId: string, first: Provider, second: Provider, other: string)
    requires other != moduleId
    ensures MapGet(providers[moduleId := first][moduleId := second], moduleId) == Some(second)
    ensures MapGet(providers[moduleId := first], other) == MapGet(providers, other)
  {
  }

  // ---------------------------------------------------------------------
  // moduleToContent
  // ---------------------------------------------------------------------

  /**
   * What `JSON.parse` makes of the resource's query: a syntax error, the
   * value `null`, or any other value, of which only a truthy string
   * `moduleId` property matters (None when it is absent or falsy).
   */
  datatype ParsedQuery = NotJson | JsonNull | JsonValue(moduleId: Option<string>)

  datatype ContentError =
    | InvalidResource
    | SyntaxError
    /** Reading `moduleId` of `null` throws. */
    | PropertyOfNull
    | NoProvider(moduleId: string)

  datatype ContentResult = Content(text: string) | Failed(error: ContentError)

  function ErrorMessage(e: ContentError): (m: string)
    ensures e == InvalidResource ==> m == "Getting Started: invalid resource"
    ensures e.NoProvider? ==> m == "Getting Started: no provider registered for " + e.moduleId
  {
    match e
    case InvalidResource => "Getting Started: invalid resource"
    case SyntaxError => "SyntaxError"
    case PropertyOfNull => "TypeError"
    case NoProvider(id) => "Getting Started: no provider registered for " + id
  }

  /** moduleToContent on a resource query, with the host's JSON parser and the providers. */
  function ModuleToContent(query: string, parse: string -> ParsedQuery, providers: map<string, Provider>)
    : (r: ContentResult)
    ensures query == "" ==> r == Failed(InvalidResource)
    ensures query != "" && parse(query) == JsonValue(None) ==> r == Failed(InvalidResource)
    ensures r.Content? <==>
      query != "" && parse(query).JsonValue? && parse(query).moduleId.Some?
      && parse(query).moduleId.value in providers
    ensures r.Content? ==> r.text == providers[parse(query).moduleId.value].content
    ensures r.Failed? && r.error.NoProvider? ==> r.error.moduleId !in providers
  {
    if query == "" then Failed(InvalidResource)
    else
      match parse(query)
      case NotJson => Failed(SyntaxError)
      case JsonNull => Failed(PropertyOfNull)
      case JsonValue(None) => Failed(InvalidResource)
      case JsonValue(Some(id)) =>
        match MapGet(providers, id)
        case None => Failed(NoProvider(id))
        case Some(p) => Content(p.content)
  }

  /** Registering a provider makes its id resolve to it, and leaves the other ids' results alone. */
  lemma RegisteredModuleResolves(query: string, parse: string -> ParsedQuery, providers: map<string, Provider>,
                                 id: string, p: Provider)
    requires query != "" && parse(query) == JsonValue(Some(id))
    ensures ModuleToContent(query, parse, providers[id := p]) == Content(p.content)
    ensures id !in providers ==> ModuleToContent(query, parse, providers) == Failed(NoProvider(id))
  {
  }

  // ---------------------------------------------------------------------
  // Markdown buttons and the Copilot setup step
  // ---------------------------------------------------------------------

  /** A Markdown link `[title](href)`, which the walkthrough renders as a button. */
  function Button(title: string, href: string): (b: string)
    ensures |b| == |title| + |href| + 4
  {
    "[" + title + "](" + href + ")"
  }

  /** Reads a Markdown link back: the title runs up to the first `]`. */
  function ParseButton(b: string): (r: Option<(string, string)>)
  {
    if |b| < 4 || b[0] != '[' || b[|b| - 1] != ')' then None
    else
      var close := FirstIndex(b, ']', 1);
      if close.None? || close.value + 1 >= |b| - 1 || b[close.value + 1] != '(' then None
      else Some((b[1..close.value], b[close.value + 2..|b| - 1]))
  }

  /** The first index at or after `from` holding `c`. */
  function FirstIndex(s: string, c: char, from: nat): (r: Option<nat>)
    ensures r.Some? ==> from <= r.value < |s| && s[r.value] == c
    ensures r.Some? ==> forall k :: from <= k < r.value ==> s[k] != c
    ensures r.None? ==> forall k :: from <= k < |s| ==> s[k] != c
    decreases |s| - from
  {
    if from >= |s| then None
    else if s[from] == c then Some(from)
    else FirstIndex(s, c, from + 1)
  }

  /** A button whose title has no `]` reads back as its title and target. */
  lemma ButtonRoundTrip(title: string, href: string)
    requires ']' !in title
    ensures ParseButton(Button(title, href)) == Some((title, href))
  {
    var b := Button(title, href);
    assert forall k :: 1 <= k < |title| + 1 ==> b[k] == title[k - 1];
    assert b[|title| + 1] == ']' && b[|title| + 2] == '(';
    assert FirstIndex(b, ']', 1) == Some(|title| + 1);
    assert b[1..|title| + 1] == title;
    assert b[|title| + 3..|b| - 1] == href;
  }

  /** The localized texts the Copilot step is built from. */
  datatype CopilotTexts = CopilotTexts(title: string, description: string, terms: string)

  datatype Media = Svg(altText: string, path: string)

  datatype Step = Step(id: string, title: string, description: string, when: string, media: Media)

  const ChatSetupHiddenGuard := " && !chatSetupHidden"

  /** createCopilotSetupStep. */
  function CopilotSetupStep(texts: CopilotTexts, id: string, button: string, when: string, includeTerms: bool)
    : (step: Step)
    ensures step.id == id && step.title == texts.title
    ensures step.when == when + ChatSetupHiddenGuard
    ensures step.media == Svg("VS Code Copilot multi file edits", "multi-file-edits.svg")
  {
    var description :=
      if includeTerms then texts.description + "\n" + texts.terms + "\n" + button
      else texts.description + "\n" + button;
    Step(id, texts.title, description, when + ChatSetupHiddenGuard,
         Svg("VS Code Copilot multi file edits", "multi-file-edits.svg"))
  }

  /**
   * The description's lines are the description, the terms when included,
   * and the button last, as long as none of them spans several lines.
   */
  lemma CopilotDescriptionLines(texts: CopilotTexts, id: string, button: string, when: string, includeTerms: bool)
    requires '\n' !in texts.description && '\n' !in texts.terms && '\n' !in button
    ensures var lines := Split(CopilotSetupStep(texts, id, button, when, includeTerms).description, '\n');
      && lines[0] == texts.description && lines[|lines| - 1] == button
      && (includeTerms <==> |lines| == 3)
      && (includeTerms ==> lines[1] == texts.terms)
  {
    var parts := if includeTerms then [texts.description, texts.terms, button] else [texts.description, button];
    var tail := parts[1..];
    assert Join(parts, '\n') == texts.description + "\n" + Join(tail, '\n');
    if includeTerms {
      assert tail[1..] == [button];
      assert Join(tail, '\n') == texts.terms + "\n" + button;
    }
    assert CopilotSetupStep(texts, id, button, when, includeTerms).description == Join(parts, '\n');
    SplitJoin(parts, '\n');
  }
}
