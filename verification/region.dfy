/**
 * `Region`: a part of a page whose lookups run under a root element. The root is worked out anew on
 * every access: an element given at construction, else the element the region's root locator finds
 * on the driver, else the driver itself.
 */
module Regions {
  import opened Outcomes
  import opened Browser
  import SeleniumDriver
  import SplinterDriver
  import opened DriverInterface
  import opened View
  import opened Pages

  class Region {
    const page: Page
    const driver: Driver
    const rootElement: Option<Node>
    const rootLocator: Option<Locator>

    /**
     * `Region(page, root)`: stores the page and the explicit root as given; `rootLocator` is the
     * region class's `_root_locator`. Lookups go to the page's driver (its `selenium` attribute).
     */
    constructor (page: Page, root: Option<Node>, rootLocator: Option<Locator>)
      ensures this.page == page && rootElement == root && this.rootLocator == rootLocator
      ensures driver == page.view.Selenium()
    {
      this.page := page;
      driver := page.view.Selenium();
      rootElement := root;
      this.rootLocator := rootLocator;
    }

    /**
     * The `root` property, evaluated against the driver's current document: an explicit root wins
     * whatever the locator; failing that, the first element the root locator matches on the whole
     * document (NoSuchElement when none does); failing that, the driver itself.
     */
    function Root(): (r: Result<Node>)
      reads driver
      ensures rootElement.Some? ==> r == Ok(rootElement.value)
      ensures rootElement.None? && rootLocator.None? ==> r == Ok(DriverRoot)
      ensures rootElement.None? && rootLocator.Some? ==>
        var doc := driver.document;
        var q := Query(DriverRoot, rootLocator.value.strategy, rootLocator.value.value);
        && (r.Ok? <==> q !in doc.failing && Found(doc, q) != [])
        && (r.Ok? ==> r.value == Element(Found(doc, q)[0]))
        && (r == Err(NoSuchElement) <==> q !in doc.failing && Found(doc, q) == [])
        && (r.Err? ==> r.error in {NoSuchElement, WebDriverError})
    {
      if rootElement.None? then
        if rootLocator.Some? then
          match FindElementOn(driver.document, DriverRoot, rootLocator.value.strategy, rootLocator.value.value)
          case Ok(id) => Ok(Element(id))
          case Err(e) => Err(e)
        else Ok(DriverRoot)
      else Ok(rootElement.value)
    }

    /**
     * `find_element(locator)`: the first element `locator` matches under the root, NoSuchElement when
     * it matches none; an error working out the root is raised instead.
     */
    function FindElement(locator: Locator): (r: Result<ElementId>)
      reads driver
      ensures Root().Err? ==> r == Err(Root().error)
      ensures r.Err? ==> r.error in {NoSuchElement, WebDriverError}
      ensures Root().Ok? ==>
        var doc := driver.document;
        var q := Query(Root().value, locator.strategy, locator.value);
        && (r.Ok? <==> q !in doc.failing && Found(doc, q) != [])
        && (r.Ok? ==> r.value == Found(doc, q)[0])
        && (r == Err(NoSuchElement) <==> q !in doc.failing && Found(doc, q) == [])
    {
      match Root()
      case Err(e) => Err(e)
      case Ok(root) => FindElementOn(driver.document, root, locator.strategy, locator.value)
    }

    /** `find_elements(locator)`: every element `locator` matches under the root, in document order. */
    function FindElements(locator: Locator): (r: Result<seq<ElementId>>)
      reads driver
      ensures Root().Err? ==> r == Err(Root().error)
      ensures r.Err? ==> r.error in {NoSuchElement, WebDriverError}
      ensures Root().Ok? ==>
        var doc := driver.document;
        var q := Query(Root().value, locator.strategy, locator.value);
        && (r.Ok? <==> q !in doc.failing)
        && (r.Ok? ==> r.value == Found(doc, q))
        && (r.Err? ==> r.error == WebDriverError)
    {
      match Root()
      case Err(e) => Err(e)
      case Ok(root) => FindElementsOn(driver.document, root, locator.strategy, locator.value)
    }

    /**
     * `is_element_present(strategy, locator)`, inherited from `WebView`: it asks the adapter of the
     * page's driver with no root, so it searches the whole document whatever the region's root.
     */
    function IsElementPresent(strategy: string, locator: string): (r: Result<PyValue>)
      reads page.view.adapter.driver
      ensures var backend := page.view.adapter.backend;
        var doc := page.view.adapter.driver.document;
        var q := Query(DriverRoot, strategy, locator);
        && ((r.Ok? && r.value.Truthy()) <==> Usable(backend, doc, q) && Found(doc, q) != [])
        && (Usable(backend, doc, q) && Found(doc, q) == [] ==> r == Ok(PyBool(false)))
        && (Rejects(backend, strategy) ==> r == Err(UsageError(SplinterDriver.StrategyNotAllowed)))
        && (q in doc.failing && !Rejects(backend, strategy) ==> r == Err(WebDriverError))
    {
      page.view.IsElementPresent(strategy, locator)
    }

    /**
     * `is_element_displayed(strategy, locator)`, inherited from `WebView`: the first document-wide
     * match's visibility, whatever the region's root.
     */
    function IsElementDisplayed(strategy: string, locator: string): (r: Result<bool>)
      reads page.view.adapter.driver
      ensures var backend := page.view.adapter.backend;
        var doc := page.view.adapter.driver.document;
        var q := Query(DriverRoot, strategy, locator);
        && (r.Ok? <==> Usable(backend, doc, q))
        && (r == Ok(true) <==> Usable(backend, doc, q) && Found(doc, q) != [] && Found(doc, q)[0] in doc.visible)
        && (Rejects(backend, strategy) ==> r == Err(UsageError(SplinterDriver.StrategyNotAllowed)))
        && (q in doc.failing && !Rejects(backend, strategy) ==> r == Err(WebDriverError))
    {
      page.view.IsElementDisplayed(strategy, locator)
    }
  }

  /**
   * The inherited presence and visibility checks ignore the region's root: two regions of one page,
   * whatever their explicit roots and root locators, answer them alike, and alike with the page.
   */
  lemma {:induction false} InheritedChecksIgnoreRoot(r1: Region, r2: Region, strategy: string, locator: string)
    requires r1.page == r2.page
    ensures r1.IsElementPresent(strategy, locator) == r2.IsElementPresent(strategy, locator)
    ensures r1.IsElementDisplayed(strategy, locator) == r2.IsElementDisplayed(strategy, locator)
    ensures r1.IsElementPresent(strategy, locator) == r1.page.view.IsElementPresent(strategy, locator)
  {
  }

  /**
   * Once the root is known, a region's lookups are the Selenium adapter's lookups with that root:
   * the region scopes exactly as `find_element(strategy, locator, root)` does.
   */
  lemma RegionScopesLikeAdapter(region: Region, locator: Locator)
    requires region.Root().Ok?
    ensures region.FindElement(locator) ==
      SeleniumDriver.FindElement(region.driver.document, locator.strategy, locator.value, Some(region.Root().value))
    ensures region.FindElements(locator) ==
      SeleniumDriver.FindElements(region.driver.document, locator.strategy, locator.value, Some(region.Root().value))
  {
  }

  /**
   * A region with no explicit root and no root locator finds what its page finds, when the page is
   * served by the Selenium adapter: the same element, or NoSuchElement in both.
   */
  lemma UnrootedRegionMatchesPage(region: Region, locator: Locator)
    requires region.rootElement.None? && region.rootLocator.None?
    requires region.page.view.Valid() && region.driver == region.page.view.driver
    requires region.page.view.adapter.backend == Selenium
    ensures var fromPage := region.page.view.FindElement(locator.strategy, locator.value);
      && (region.FindElement(locator).Ok? <==> fromPage.Ok? && fromPage.value.PyElement?)
      && (region.FindElement(locator).Ok? ==> fromPage.value == PyElement(region.FindElement(locator).value))
      && (region.FindElement(locator) == Err(NoSuchElement) <==> fromPage == Err(NoSuchElement))
  {
  }

  /**
   * An explicit root shields a region from the rest of the document: two documents that agree on
   * the root's query give the same lookups, whatever the driver-wide lookup or the root locator
   * would find.
   */
  lemma ExplicitRootIsIndependentOfDriver(region: Region, locator: Locator, other: Document)
    requires region.rootElement.Some?
    requires AgreeOn(region.driver.document, other, Query(region.rootElement.value, locator.strategy, locator.value))
    ensures region.FindElement(locator) ==
      FindElementOn(other, region.rootElement.value, locator.strategy, locator.value)
    ensures region.FindElements(locator) ==
      FindElementsOn(other, region.rootElement.value, locator.strategy, locator.value)
  {
    LookupIsLocal(region.driver.document, other, region.rootElement.value, locator.strategy, locator.value);
  }

  /**
   * The two disagree: a region whose explicit root holds no match raises NoSuchElement from its
   * own `find_element`, yet reports the element present when the document has it elsewhere.
   */
  lemma PresenceDisagreesWithRootedFind(region: Region, strategy: string, locator: string)
    requires region.rootElement.Some?
    requires region.driver == region.page.view.adapter.driver
    requires region.page.view.adapter.backend == Selenium
    requires var doc := region.driver.document;
      && Query(region.rootElement.value, strategy, locator) !in doc.failing
      && Found(doc, Query(region.rootElement.value, strategy, locator)) == []
      && Query(DriverRoot, strategy, locator) !in doc.failing
      && Found(doc, Query(DriverRoot, strategy, locator)) != []
    ensures region.FindElement(Locator(strategy, locator)) == Err(NoSuchElement)
    ensures region.IsElementPresent(strategy, locator).Ok? && region.IsElementPresent(strategy, locator).value.Truthy()
  {
  }
}
