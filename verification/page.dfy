/**
 * `Page`: a view with a URL template. Its URL is the template formatted with `base_url` and the
 * page's keyword arguments; opening it navigates there and then waits until the browser's current
 * URL contains it.
 */
module Pages {
  import opened Outcomes
  import opened Browser
  import opened PythonStrings
  import opened View

  /** The class attribute `_url`: the page lives at the base URL itself. */
  const DefaultUrlTemplate: string := "{base_url}"

  /** The keyword under which the base URL is always passed to the format operation. */
  const BaseUrlKey: string := "base_url"

  /** `str(base_url)`: a missing base URL is Python's `None` and formats as such. */
  function BaseUrlText(baseUrl: Option<string>): string {
    if baseUrl.Some? then baseUrl.value else "None"
  }

  /**
   * `template.format(base_url=base_url, **kwargs)`: a keyword argument that is also called
   * `base_url` is a duplicate keyword and raises TypeError before any formatting happens.
   */
  function PageUrl(template: string, baseUrl: Option<string>, kwargs: map<string, string>): (r: Result<string>)
    ensures BaseUrlKey in kwargs ==> r.Err? && r.error.TypeError?
    ensures BaseUrlKey !in kwargs ==> r == Format(template, kwargs[BaseUrlKey := BaseUrlText(baseUrl)])
  {
    if BaseUrlKey in kwargs then Err(TypeError("got multiple values for keyword argument 'base_url'"))
    else Format(template, kwargs[BaseUrlKey := BaseUrlText(baseUrl)])
  }

  /** `base_url` is a plain keyword name. */
  lemma BaseUrlKeyIsPlain()
    ensures PlainName(BaseUrlKey)
  {
    assert BaseUrlKey[0] == 'b';
  }

  /** With the default template the URL is the base URL, or the text `None` when there is none. */
  lemma DefaultUrlIsBaseUrl(baseUrl: Option<string>, kwargs: map<string, string>)
    requires BaseUrlKey !in kwargs
    ensures PageUrl(DefaultUrlTemplate, baseUrl, kwargs) == Ok(BaseUrlText(baseUrl))
    ensures baseUrl.Some? ==> PageUrl(DefaultUrlTemplate, baseUrl, kwargs) == Ok(baseUrl.value)
  {
    var text := BaseUrlText(baseUrl);
    var args := kwargs[BaseUrlKey := text];
    assert DefaultUrlTemplate == "{" + BaseUrlKey + "}" + "";
    calc {
      PageUrl(DefaultUrlTemplate, baseUrl, kwargs);
      Format(DefaultUrlTemplate, args);
      { BaseUrlKeyIsPlain(); FormatField(BaseUrlKey, "", args); }
      Prepend(text, Format("", args));
      Prepend(text, Ok(""));
      { assert text + "" == text; }
      Ok(text);
    }
  }

  /**
   * A template written as literal text and `{name}` fields, every name being `base_url` or one of
   * the keyword arguments, yields the text with each field replaced by its value.
   */
  lemma UrlSubstitutesFields(pieces: seq<Piece>, baseUrl: Option<string>, kwargs: map<string, string>)
    requires BaseUrlKey !in kwargs
    requires Substitutable(pieces, kwargs[BaseUrlKey := BaseUrlText(baseUrl)])
    ensures PageUrl(Render(pieces), baseUrl, kwargs) == Ok(Expand(pieces, kwargs[BaseUrlKey := BaseUrlText(baseUrl)]))
  {
    FormatRender(pieces, kwargs[BaseUrlKey := BaseUrlText(baseUrl)]);
  }

  /** A template that holds no brace is the URL as it stands, whatever the arguments. */
  lemma LiteralUrlUnchanged(template: string, baseUrl: Option<string>, kwargs: map<string, string>)
    requires BaseUrlKey !in kwargs
    requires '{' !in template && '}' !in template
    ensures PageUrl(template, baseUrl, kwargs) == Ok(template)
  {
  }

  /**
   * A field naming neither `base_url` nor a keyword argument makes the URL raise KeyError for it.
   */
  lemma UnknownFieldRaisesKeyError(name: string, rest: string, baseUrl: Option<string>, kwargs: map<string, string>)
    requires PlainName(name) && name != BaseUrlKey && name !in kwargs && BaseUrlKey !in kwargs
    ensures PageUrl("{" + name + "}" + rest, baseUrl, kwargs) == Err(KeyError(name))
  {
    FormatField(name, rest, kwargs[BaseUrlKey := BaseUrlText(baseUrl)]);
  }

  class Page {
    const view: WebView
    const urlTemplate: string
    const baseUrl: Option<string>
    const kwargs: map<string, string>

    /** A page object over a view; `urlTemplate` is the page class's `_url`. */
    constructor (view: WebView, urlTemplate: string, baseUrl: Option<string>, kwargs: map<string, string>)
      ensures this.view == view && this.urlTemplate == urlTemplate
      ensures this.baseUrl == baseUrl && this.kwargs == kwargs
    {
      this.view := view;
      this.urlTemplate := urlTemplate;
      this.baseUrl := baseUrl;
      this.kwargs := kwargs;
    }

    /** The `url` property: the page's template formatted for this page's base URL and arguments. */
    function Url(): (r: Result<string>)
      ensures BaseUrlKey in kwargs ==> r.Err? && r.error.TypeError?
      ensures urlTemplate == DefaultUrlTemplate && BaseUrlKey !in kwargs ==> r == Ok(BaseUrlText(baseUrl))
      ensures '{' !in urlTemplate && '}' !in urlTemplate && BaseUrlKey !in kwargs ==> r == Ok(urlTemplate)
    {
      if BaseUrlKey !in kwargs then
        DefaultUrlIsBaseUrl(baseUrl, kwargs);
        PageUrl(urlTemplate, baseUrl, kwargs)
      else
        PageUrl(urlTemplate, baseUrl, kwargs)
    }

    /**
     * `wait_for_page_to_load()`: `polls` are the browser's `current_url` values the wait observes.
     * The page itself comes back at the first poll that contains the page's URL; a URL that cannot
     * be formatted raises its error; a URL that never appears makes the wait raise Timeout.
     */
    function WaitForPageToLoad(polls: seq<string>): (r: Result<Page>)
      ensures Url().Err? ==> r == Err(Url().error)
      ensures Url().Ok? ==> (r == Ok(this) <==> exists i :: 0 <= i < |polls| && Contains(polls[i], Url().value))
      ensures Url().Ok? ==> (r == Err(Timeout) <==> forall i :: 0 <= i < |polls| ==> !Contains(polls[i], Url().value))
      ensures r.Ok? ==> r.value == this
    {
      match Url()
      case Err(e) => Err(e)
      case Ok(url) =>
        match view.wait.Until(polls, (current: string) => Contains(current, url))
        case Ok(_) => Ok(this)
        case Err(e) => Err(e)
    }

    /**
     * `open()`: the URL is computed first; if it cannot be formatted nothing is navigated. Otherwise
     * the driver's `get` is called with exactly that URL, once, and then the page waits to load and
     * returns itself, or raises the wait's Timeout after that single navigation.
     */
    method Open(polls: seq<string>) returns (r: Result<Page>)
      modifies view.driver
      ensures view.driver.document == old(view.driver.document)
      ensures Url().Err? ==> r == Err(Url().error) && view.driver.history == old(view.driver.history)
      ensures Url().Ok? ==> view.driver.history == old(view.driver.history) + [Got(Url().value)]
      ensures Url().Ok? ==> r == WaitForPageToLoad(polls)
      ensures Url().Ok? ==> (r.Ok? <==> exists i :: 0 <= i < |polls| && Contains(polls[i], Url().value))
      ensures Url().Ok? && r.Err? ==> r.error == Timeout
      ensures r.Ok? ==> r.value == this
    {
      var url := Url();
      if url.Err? {
        return Err(url.error);
      }
      view.Selenium().Get(url.value);
      r := WaitForPageToLoad(polls);
    }
  }
}
