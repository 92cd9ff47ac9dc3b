/**
 * The driver adapter interface: one adapter per backend family, bound to one driver, answering the
 * same five requests (`open`, the two finds, presence, visibility) and building the wait. The two
 * families' `register()` calls are here too.
 */
module DriverInterface {
  import opened Outcomes
  import opened Browser
  import SeleniumDriver
  import SplinterDriver
  import opened Registry

  /** The adapter factories a driver can be registered with. */
  datatype Backend = Selenium | Splinter

  /** `factory(driver)`: an adapter of one family bound to one driver. */
  datatype Adapter = Adapter(backend: Backend, driver: Driver)

  /** Splinter refuses a strategy off its whitelist before it asks the browser anything. */
  predicate Rejects(backend: Backend, strategy: string) {
    backend.Splinter? && strategy !in SplinterDriver.AllowedStrategies
  }

  /** A query the adapter passes on to the browser and the browser answers without an error. */
  predicate Usable(backend: Backend, doc: Document, q: Query) {
    q !in doc.failing && !Rejects(backend, q.strategy)
  }

  /** `wait_factory(timeout)`: Splinter inherits Selenium's, so both build a `WebDriverWait`. */
  function WaitFactory(a: Adapter, timeout: real): (w: SeleniumDriver.Wait)
    ensures w.driver == a.driver && w.timeout == timeout
  {
    SeleniumDriver.WaitFactory(a.driver, timeout)
  }

  /** `find_element(strategy, locator, root)`, dispatched on the family. */
  function FindElement(a: Adapter, strategy: string, locator: string, root: Option<Node>): (r: Result<PyValue>)
    reads a.driver
    ensures var doc := a.driver.document;
      var q := Query(Scope(root), strategy, locator);
      var usable := Usable(a.backend, doc, q);
      && ((r.Ok? && r.value.PyElement?) <==> usable && Found(doc, q) != [])
      && (r.Ok? && r.value.PyElement? ==> r.value.id == Found(doc, q)[0])
      && (a.backend.Selenium? ==> (r == Err(NoSuchElement) <==> usable && Found(doc, q) == []))
      && (a.backend.Splinter? ==> (r == Ok(PyNone) <==> usable && Found(doc, q) == []))
      && (Rejects(a.backend, strategy) ==> r == Err(UsageError(SplinterDriver.StrategyNotAllowed)))
      && (q in doc.failing && !Rejects(a.backend, strategy) ==> r == Err(WebDriverError))
  {
    var doc := a.driver.document;
    match a.backend
    case Selenium =>
      (match SeleniumDriver.FindElement(doc, strategy, locator, root)
       case Ok(e) => Ok(PyElement(e))
       case Err(x) => Err(x))
    case Splinter =>
      (match SplinterDriver.FindElement(doc, strategy, locator, root)
       case Ok(Some(e)) => Ok(PyElement(e))
       case Ok(None) => Ok(PyNone)
       case Err(x) => Err(x))
  }

  /** `find_elements(strategy, locator, root)`, dispatched on the family. */
  function FindElements(a: Adapter, strategy: string, locator: string, root: Option<Node>): (r: Result<seq<ElementId>>)
    reads a.driver
    ensures var doc := a.driver.document;
      var q := Query(Scope(root), strategy, locator);
      && (r.Ok? <==> Usable(a.backend, doc, q))
      && (r.Ok? ==> r.value == Found(doc, q))
      && (Rejects(a.backend, strategy) ==> r == Err(UsageError(SplinterDriver.StrategyNotAllowed)))
      && (q in doc.failing && !Rejects(a.backend, strategy) ==> r == Err(WebDriverError))
  {
    match a.backend
    case Selenium => SeleniumDriver.FindElements(a.driver.document, strategy, locator, root)
    case Splinter => SplinterDriver.FindElements(a.driver.document, strategy, locator, root)
  }

  /** `is_element_present(strategy, locator, root)`, dispatched on the family. */
  function IsElementPresent(a: Adapter, strategy: string, locator: string, root: Option<Node>): (r: Result<PyValue>)
    reads a.driver
    ensures var doc := a.driver.document;
      var q := Query(Scope(root), strategy, locator);
      var usable := Usable(a.backend, doc, q);
      && ((r.Ok? && r.value.Truthy()) <==> usable && Found(doc, q) != [])
      && (usable && Found(doc, q) == [] ==> r == Ok(PyBool(false)))
      && (Rejects(a.backend, strategy) ==> r == Err(UsageError(SplinterDriver.StrategyNotAllowed)))
      && (q in doc.failing && !Rejects(a.backend, strategy) ==> r == Err(WebDriverError))
  {
    match a.backend
    case Selenium => SeleniumDriver.IsElementPresent(a.driver.document, strategy, locator, root)
    case Splinter =>
      (match SplinterDriver.IsElementPresent(a.driver.document, strategy, locator, root)
       case Ok(b) => Ok(PyBool(b))
       case Err(x) => Err(x))
  }

  /** `is_element_displayed(strategy, locator, root)`, dispatched on the family. */
  function IsElementDisplayed(a: Adapter, strategy: string, locator: string, root: Option<Node>): (r: Result<bool>)
    reads a.driver
    ensures var doc := a.driver.document;
      var q := Query(Scope(root), strategy, locator);
      var usable := Usable(a.backend, doc, q);
      && (r.Ok? <==> usable)
      && (r == Ok(true) <==> usable && Found(doc, q) != [] && Found(doc, q)[0] in doc.visible)
      && (Rejects(a.backend, strategy) ==> r == Err(UsageError(SplinterDriver.StrategyNotAllowed)))
      && (q in doc.failing && !Rejects(a.backend, strategy) ==> r == Err(WebDriverError))
  {
    match a.backend
    case Selenium => SeleniumDriver.IsElementDisplayed(a.driver.document, strategy, locator, root)
    case Splinter => SplinterDriver.IsElementDisplayed(a.driver.document, strategy, locator, root)
  }

  /**
   * For either family, the presence check is true exactly when `find_element` yields an element,
   * and it never raises NotFound: absence is reported as a false value.
   */
  lemma PresentIffFound(a: Adapter, strategy: string, locator: string, root: Option<Node>)
    ensures IsElementPresent(a, strategy, locator, root) != Err(NoSuchElement)
    ensures var p := IsElementPresent(a, strategy, locator, root);
      (p.Ok? && p.value.Truthy()) <==> FindElement(a, strategy, locator, root).Ok? && FindElement(a, strategy, locator, root).value.PyElement?
  {
  }

  /**
   * For either family, visibility implies presence: the visibility check is true only for an element
   * that is found and visible, and it never raises NotFound.
   */
  lemma DisplayedImpliesPresent(a: Adapter, strategy: string, locator: string, root: Option<Node>)
    ensures IsElementDisplayed(a, strategy, locator, root) != Err(NoSuchElement)
    ensures IsElementDisplayed(a, strategy, locator, root) == Ok(true) <==>
      && FindElement(a, strategy, locator, root).Ok?
      && FindElement(a, strategy, locator, root).value.PyElement?
      && FindElement(a, strategy, locator, root).value.id in a.driver.document.visible
  {
  }

  /** `open(url)`, dispatched on the family: Selenium calls `get`, Splinter calls `visit`. */
  method Open(a: Adapter, url: string)
    modifies a.driver
    ensures a.backend == Selenium ==> a.driver.history == old(a.driver.history) + [Got(url)]
    ensures a.backend == Splinter ==> a.driver.history == old(a.driver.history) + [Visited(url)]
    ensures a.driver.document == old(a.driver.document)
  {
    match a.backend
    case Selenium => SeleniumDriver.Open(a.driver, url);
    case Splinter => SplinterDriver.Open(a.driver, url);
  }

  /** Selenium's `register()`: the Selenium adapter for `ISelenium`, declared on Selenium's drivers. */
  method RegisterSelenium(registry: Registry<Backend>)
    modifies registry
    ensures registry.declarations ==
      DeclareAll(old(registry.declarations), SeleniumDriver.SeleniumDriverClasses, SeleniumDriver.SeleniumMarker)
    ensures registry.adapters == old(registry.adapters)[SeleniumDriver.SeleniumMarker := Selenium]
  {
    registry.RegisterDriver(SeleniumDriver.SeleniumMarker, Selenium, SeleniumDriver.SeleniumDriverClasses);
  }

  /** Splinter's `register()`: the Splinter adapter for `ISplinter`, declared on Splinter's browsers. */
  method RegisterSplinter(registry: Registry<Backend>)
    modifies registry
    ensures registry.declarations ==
      DeclareAll(old(registry.declarations), SplinterDriver.SplinterDriverClasses, SplinterDriver.SplinterMarker)
    ensures registry.adapters == old(registry.adapters)[SplinterDriver.SplinterMarker := Splinter]
  {
    registry.RegisterDriver(SplinterDriver.SplinterMarker, Splinter, SplinterDriver.SplinterDriverClasses);
  }

  /*
   * Disjointness of the two class lists is shown through the lengths of the names: a proof device
   * that happens to separate these particular lists, not something the library relies on.
   */

  /** Every Selenium driver class name is shorter than 30 characters. */
  lemma SeleniumNamesShort(c: ClassName)
    requires c in SeleniumDriver.SeleniumDriverClasses
    ensures |c| < 30
  {
    var i :| 0 <= i < |SeleniumDriver.SeleniumDriverClasses| && SeleniumDriver.SeleniumDriverClasses[i] == c;
    assert forall j :: 0 <= j < |SeleniumDriver.SeleniumDriverClasses| ==> |SeleniumDriver.SeleniumDriverClasses[j]| < 30;
  }

  /** Every Splinter browser class name is longer than 40 characters. */
  lemma SplinterNamesLong(c: ClassName)
    requires c in SplinterDriver.SplinterDriverClasses
    ensures |c| > 40
  {
    var i :| 0 <= i < |SplinterDriver.SplinterDriverClasses| && SplinterDriver.SplinterDriverClasses[i] == c;
    assert forall j :: 0 <= j < |SplinterDriver.SplinterDriverClasses| ==> |SplinterDriver.SplinterDriverClasses[j]| > 40;
  }

  /** No class is declared by both `register()` calls. */
  lemma ClassListsDisjoint(c: ClassName)
    ensures c in SeleniumDriver.SeleniumDriverClasses ==> c !in SplinterDriver.SplinterDriverClasses
    ensures c in SplinterDriver.SplinterDriverClasses ==> c !in SeleniumDriver.SeleniumDriverClasses
  {
    if c in SeleniumDriver.SeleniumDriverClasses { SeleniumNamesShort(c); }
    if c in SplinterDriver.SplinterDriverClasses { SplinterNamesLong(c); }
  }

  /**
   * Both families coexist: after Selenium's `register()` and then Splinter's in a fresh process, a
   * plain Selenium driver resolves to the Selenium adapter and a plain Splinter browser to the
   * Splinter adapter, each by its class alone.
   */
  lemma BothFamiliesResolve(seleniumClass: ClassName, splinterClass: ClassName)
    requires seleniumClass in SeleniumDriver.SeleniumDriverClasses
    requires splinterClass in SplinterDriver.SplinterDriverClasses
    ensures var decls := DeclareAll(DeclareAll(map[], SeleniumDriver.SeleniumDriverClasses, SeleniumDriver.SeleniumMarker),
                                    SplinterDriver.SplinterDriverClasses, SplinterDriver.SplinterMarker);
      var adapters := map[SeleniumDriver.SeleniumMarker := Selenium, SplinterDriver.SplinterMarker := Splinter];
      && ResolveIn(decls, adapters, seleniumClass, []) == Ok(Selenium)
      && ResolveIn(decls, adapters, splinterClass, []) == Ok(Splinter)
  {
    ClassListsDisjoint(seleniumClass);
    ClassListsDisjoint(splinterClass);
    TwoRegistrationsResolve(SeleniumDriver.SeleniumMarker, Selenium, SeleniumDriver.SeleniumDriverClasses,
                            SplinterDriver.SplinterMarker, Splinter, SplinterDriver.SplinterDriverClasses,
                            seleniumClass, splinterClass);
  }
}
