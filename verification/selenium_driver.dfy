/** The adapter for Selenium-style drivers: lookups scoped to a root, and the not-found rule. */
module SeleniumDriver {
  import opened Outcomes
  import opened Browser

  /** The marker interface Selenium drivers are declared to carry. */
  const SeleniumMarker: Marker := "ISelenium"

  /** The driver classes `register()` declares to carry `ISelenium`. */
  const SeleniumDriverClasses: seq<ClassName> := [
    "selenium.webdriver.Firefox", "selenium.webdriver.Chrome", "selenium.webdriver.Ie",
    "selenium.webdriver.Edge", "selenium.webdriver.Opera", "selenium.webdriver.Safari",
    "selenium.webdriver.BlackBerry", "selenium.webdriver.PhantomJS", "selenium.webdriver.Android",
    "selenium.webdriver.Remote"]

  /** `Selenium.find_element`: the first match under the root (or the driver), else NoSuchElement. */
  function FindElement(doc: Document, strategy: string, locator: string, root: Option<Node>): (r: Result<ElementId>)
    ensures var q := Query(Scope(root), strategy, locator);
      && (r.Ok? ==> q !in doc.failing && Found(doc, q) != [] && r.value == Found(doc, q)[0])
      && (r == Err(NoSuchElement) <==> q !in doc.failing && Found(doc, q) == [])
      && (r.Err? && r.error != NoSuchElement ==> q in doc.failing)
      && (r.Err? ==> r.error in {NoSuchElement, WebDriverError})
  {
    if root.Some? then FindElementOn(doc, root.value, strategy, locator)
    else FindElementOn(doc, DriverRoot, strategy, locator)
  }

  /** `Selenium.find_elements`: every match under the root (or the driver), possibly none. */
  function FindElements(doc: Document, strategy: string, locator: string, root: Option<Node>): (r: Result<seq<ElementId>>)
    ensures var q := Query(Scope(root), strategy, locator);
      && (r.Ok? <==> q !in doc.failing)
      && (r.Ok? ==> r.value == Found(doc, q))
      && (r.Err? ==> r.error == WebDriverError)
  {
    if root.Some? then FindElementsOn(doc, root.value, strategy, locator)
    else FindElementsOn(doc, DriverRoot, strategy, locator)
  }

  /**
   * `Selenium.is_element_present`: the found element itself (a true value), `False` exactly when the
   * lookup raised NoSuchElement; every other error passes through.
   */
  function IsElementPresent(doc: Document, strategy: string, locator: string, root: Option<Node>): (r: Result<PyValue>)
    ensures var found := FindElement(doc, strategy, locator, root);
      && (r == Ok(PyBool(false)) <==> found == Err(NoSuchElement))
      && (found.Ok? ==> r == Ok(PyElement(found.value)))
      && (found.Err? && found.error != NoSuchElement ==> r == Err(found.error))
  {
    match FindElement(doc, strategy, locator, root)
    case Ok(e) => Ok(PyElement(e))
    case Err(NoSuchElement) => Ok(PyBool(false))
    case Err(e) => Err(e)
  }

  /**
   * `Selenium.is_element_displayed`: the found element's visibility; `False` when the lookup raised
   * NoSuchElement, without consulting visibility at all; every other error passes through.
   */
  function IsElementDisplayed(doc: Document, strategy: string, locator: string, root: Option<Node>): (r: Result<bool>)
    ensures var found := FindElement(doc, strategy, locator, root);
      && (found == Err(NoSuchElement) ==> r == Ok(false))
      && (found.Ok? ==> r == Ok(found.value in doc.visible))
      && (found.Err? && found.error != NoSuchElement ==> r == Err(found.error))
  {
    match FindElement(doc, strategy, locator, root)
    case Ok(e) => Ok(e in doc.visible)
    case Err(NoSuchElement) => Ok(false)
    case Err(e) => Err(e)
  }

  /**
   * With a root, a lookup never consults the driver: two documents that agree on the root's query
   * give the same answers, whatever the driver-wide query would find.
   */
  lemma RootedLookupIgnoresDriver(d1: Document, d2: Document, strategy: string, locator: string, root: Node)
    requires AgreeOn(d1, d2, Query(root, strategy, locator))
    ensures FindElement(d1, strategy, locator, Some(root)) == FindElement(d2, strategy, locator, Some(root))
    ensures FindElements(d1, strategy, locator, Some(root)) == FindElements(d2, strategy, locator, Some(root))
    ensures IsElementPresent(d1, strategy, locator, Some(root)) == IsElementPresent(d2, strategy, locator, Some(root))
  {
    LookupIsLocal(d1, d2, root, strategy, locator);
  }

  /** `Selenium.open`: the URL goes unchanged to the driver's `get`. */
  method Open(driver: Driver, url: string)
    modifies driver
    ensures driver.history == old(driver.history) + [Got(url)]
    ensures driver.document == old(driver.document)
  {
    driver.Get(url);
  }

  /** A `WebDriverWait` built for a driver and a timeout. */
  datatype Wait = WebDriverWait(driver: Driver, timeout: real)
  {
    /**
     * `until(condition)`: `polls` are the driver states the wait observes, one per evaluation of the
     * condition, until its timeout runs out. The result is the first poll at which the condition
     * holds; if it holds at none, the wait raises TimeoutException.
     */
    function Until<T>(polls: seq<T>, condition: T -> bool): (r: Result<nat>)
      ensures r.Ok? ==> r.value < |polls| && condition(polls[r.value])
      ensures r.Ok? ==> forall j :: 0 <= j < r.value ==> !condition(polls[j])
      ensures r.Err? ==> r.error == Timeout
      ensures r.Err? <==> forall j :: 0 <= j < |polls| ==> !condition(polls[j])
    {
      if polls == [] then Err(Timeout)
      else if condition(polls[0]) then Ok(0)
      else
        match Until(polls[1..], condition)
        case Ok(k) => Ok(k + 1)
        case Err(e) => Err(e)
    }
  }

  /** `Selenium.wait_factory`: a `WebDriverWait` on the adapter's driver with the given timeout. */
  function WaitFactory(driver: Driver, timeout: real): (w: Wait)
    ensures w.driver == driver && w.timeout == timeout
  {
    WebDriverWait(driver, timeout)
  }
}
