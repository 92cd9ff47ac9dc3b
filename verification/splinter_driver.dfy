/**
 * The adapter for Splinter browsers: a fixed vocabulary of locator strategies, first-or-`None`
 * selection, and presence and visibility derived from it. Absence is never an error here.
 */
module SplinterDriver {
  import opened Outcomes
  import opened Browser

  /** The only strategies Splinter's `find_by_<strategy>` family offers. */
  const AllowedStrategies: seq<string> := ["name", "id", "css", "xpath", "text", "value", "tag"]

  /** The message of the UsageError raised for any other strategy. */
  const StrategyNotAllowed: string := "Strategy not allowed"

  /** The marker interface Splinter browsers are declared to carry. */
  const SplinterMarker: Marker := "ISplinter"

  /** The browser classes `register()` declares to carry `ISplinter`. */
  const SplinterDriverClasses: seq<ClassName> := [
    "splinter.driver.webdriver.firefox.WebDriver", "splinter.driver.webdriver.chrome.WebDriver",
    "splinter.driver.webdriver.remote.WebDriver", "splinter.driver.webdriver.phantomjs.WebDriver"]

  /**
   * `Splinter.find_elements`: for an allowed strategy, exactly `find_by_<strategy>(locator)` on the
   * root (or the driver); any other strategy raises UsageError and looks nothing up.
   */
  function FindElements(doc: Document, strategy: string, locator: string, root: Option<Node>): (r: Result<seq<ElementId>>)
    ensures (r.Err? && r.error.UsageError?) <==> strategy !in AllowedStrategies
    ensures strategy !in AllowedStrategies ==> r == Err(UsageError(StrategyNotAllowed))
    ensures strategy in AllowedStrategies ==> r == FindElementsOn(doc, Scope(root), strategy, locator)
  {
    var node := if root.Some? then root.value else DriverRoot;
    if strategy in AllowedStrategies then FindElementsOn(doc, node, strategy, locator)
    else Err(UsageError(StrategyNotAllowed))
  }

  /** `Splinter.find_element`: the first element found, or `None` when nothing is found. */
  function FindElement(doc: Document, strategy: string, locator: string, root: Option<Node>): (r: Result<Option<ElementId>>)
    ensures var all := FindElements(doc, strategy, locator, root);
      && (all.Err? ==> r == Err(all.error))
      && (all.Ok? && all.value != [] ==> r == Ok(Some(all.value[0])))
      && (all.Ok? && all.value == [] ==> r == Ok(None))
  {
    match FindElements(doc, strategy, locator, root)
    case Err(e) => Err(e)
    case Ok(elements) => if elements != [] then Ok(Some(elements[0])) else Ok(None)
  }

  /** `Splinter.is_element_present`: `True` exactly when the lookup finds something. */
  function IsElementPresent(doc: Document, strategy: string, locator: string, root: Option<Node>): (r: Result<bool>)
    ensures var all := FindElements(doc, strategy, locator, root);
      && (all.Err? ==> r == Err(all.error))
      && (all.Ok? ==> r == Ok(all.value != []))
  {
    match FindElement(doc, strategy, locator, root)
    case Err(e) => Err(e)
    case Ok(element) => Ok(element.Some?)
  }

  /**
   * `Splinter.is_element_displayed`: `False` when nothing is found, otherwise the first element's
   * `visible` flag.
   */
  function IsElementDisplayed(doc: Document, strategy: string, locator: string, root: Option<Node>): (r: Result<bool>)
    ensures var all := FindElements(doc, strategy, locator, root);
      && (all.Err? ==> r == Err(all.error))
      && (all.Ok? && all.value == [] ==> r == Ok(false))
      && (all.Ok? && all.value != [] ==> r == Ok(all.value[0] in doc.visible))
  {
    match FindElement(doc, strategy, locator, root)
    case Err(e) => Err(e)
    case Ok(element) => Ok(element.Some? && element.value in doc.visible)
  }

  /**
   * A strategy outside the whitelist raises UsageError through every lookup, because each of them
   * goes through `find_elements`; an allowed one never does.
   */
  lemma UsageErrorIffStrategyRejected(doc: Document, strategy: string, locator: string, root: Option<Node>)
    ensures var e := UsageError(StrategyNotAllowed);
      && (strategy !in AllowedStrategies <==> FindElement(doc, strategy, locator, root) == Err(e))
      && (strategy !in AllowedStrategies <==> IsElementPresent(doc, strategy, locator, root) == Err(e))
      && (strategy !in AllowedStrategies <==> IsElementDisplayed(doc, strategy, locator, root) == Err(e))
  {
  }

  /** Absence is never an error: no Splinter lookup raises NoSuchElement. */
  lemma AbsenceIsNotAnError(doc: Document, strategy: string, locator: string, root: Option<Node>)
    ensures FindElement(doc, strategy, locator, root) != Err(NoSuchElement)
    ensures IsElementPresent(doc, strategy, locator, root) != Err(NoSuchElement)
    ensures IsElementDisplayed(doc, strategy, locator, root) != Err(NoSuchElement)
  {
  }

  /** `Splinter.open`: the URL goes unchanged to the browser's `visit`. */
  method Open(driver: Driver, url: string)
    modifies driver
    ensures driver.history == old(driver.history) + [Visited(url)]
    ensures driver.document == old(driver.document)
  {
    driver.Visit(url);
  }
}
