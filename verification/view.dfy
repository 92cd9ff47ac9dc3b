/**
 * `WebView`, the base of pages and regions: it resolves the driver's adapter once, keeps or creates
 * the plugin manager, builds the wait, and answers the four lookups through the adapter on the whole
 * document.
 */
module View {
  import opened Outcomes
  import opened Browser
  import SeleniumDriver
  import SplinterDriver
  import opened Registry
  import opened DriverInterface

  /** The project name a fresh plugin manager is created for. */
  const PluginProject: string := "pypom"

  /** The prefix by which a fresh plugin manager recognises hook implementations. */
  const PluginImplPrefix: string := "pypom_"

  /** The plugin manager a view carries; hook discovery and firing are not modelled. */
  class PluginManager {
    const project: string
    const implPrefix: string

    constructor (project: string, implPrefix: string)
      ensures this.project == project && this.implPrefix == implPrefix
    {
      this.project := project;
      this.implPrefix := implPrefix;
    }
  }

  class WebView {
    const driver: Driver
    const adapter: Adapter
    const timeout: real
    const pm: PluginManager
    const wait: SeleniumDriver.Wait

    /** The adapter serves this view's driver and the wait is the adapter's, for this view's timeout. */
    ghost predicate Valid() {
      && adapter.driver == driver
      && wait == WaitFactory(adapter, timeout)
      && wait.driver == driver
      && wait.timeout == timeout
    }

    /** The field assignments of `__init__`, once the adapter's family is known. */
    constructor Init(driver: Driver, backend: Backend, timeout: real, pm: Option<PluginManager>)
      ensures Valid()
      ensures this.driver == driver && adapter.backend == backend && this.timeout == timeout
      ensures pm.Some? ==> this.pm == pm.value
      ensures pm.None? ==> fresh(this.pm) && this.pm.project == PluginProject && this.pm.implPrefix == PluginImplPrefix
    {
      this.driver := driver;
      var a := Adapter(backend, driver);
      adapter := a;
      this.timeout := timeout;
      if pm.Some? {
        this.pm := pm.value;
      } else {
        this.pm := new PluginManager(PluginProject, PluginImplPrefix);
      }
      wait := WaitFactory(a, timeout);
    }

    /**
     * `WebView(driver, timeout, pm)`: the adapter is resolved from the registry once, before anything
     * else; an unresolvable driver makes construction fail with the registry's TypeError.
     */
    static method Create(registry: Registry<Backend>, driver: Driver, timeout: real, pm: Option<PluginManager>)
      returns (r: Result<WebView>)
      ensures r.Err? <==> registry.Resolve(driver).Err?
      ensures r.Err? ==> r.error == TypeError(CouldNotAdapt)
      ensures r.Ok? ==> && fresh(r.value) && r.value.Valid()
                        && r.value.driver == driver && r.value.Selenium() == driver
                        && r.value.adapter.backend == registry.Resolve(driver).value
                        && r.value.timeout == timeout
                        && (pm.Some? ==> r.value.pm == pm.value)
                        && (pm.None? ==> r.value.pm.project == PluginProject && r.value.pm.implPrefix == PluginImplPrefix)
    {
      var resolved := registry.Resolve(driver);
      if resolved.Err? {
        return Err(resolved.error);
      }
      var view := new WebView.Init(driver, resolved.value, timeout, pm);
      return Ok(view);
    }

    /** The `selenium` attribute, kept for backwards compatibility: the driver the view was given. */
    function Selenium(): (d: Driver)
      ensures d == driver
      ensures Valid() ==> d == adapter.driver && d == wait.driver
    {
      driver
    }

    /**
     * `find_element(strategy, locator)`: the adapter's lookup on the whole document. Selenium raises
     * NoSuchElement where Splinter answers `None`; Splinter rejects strategies off its whitelist.
     */
    function FindElement(strategy: string, locator: string): (r: Result<PyValue>)
      reads adapter.driver
      ensures var doc := adapter.driver.document;
        var q := Query(DriverRoot, strategy, locator);
        && ((r.Ok? && r.value.PyElement?) <==> Usable(adapter.backend, doc, q) && Found(doc, q) != [])
        && (r.Ok? && r.value.PyElement? ==> r.value.id == Found(doc, q)[0])
        && (adapter.backend.Selenium? ==> (r == Err(NoSuchElement) <==> Usable(adapter.backend, doc, q) && Found(doc, q) == []))
        && (adapter.backend.Splinter? ==> (r == Ok(PyNone) <==> Usable(adapter.backend, doc, q) && Found(doc, q) == []))
        && (Rejects(adapter.backend, strategy) ==> r == Err(UsageError(SplinterDriver.StrategyNotAllowed)))
        && (q in doc.failing && !Rejects(adapter.backend, strategy) ==> r == Err(WebDriverError))
    {
      DriverInterface.FindElement(adapter, strategy, locator, None)
    }

    /** `find_elements(strategy, locator)`: every match on the whole document, in document order. */
    function FindElements(strategy: string, locator: string): (r: Result<seq<ElementId>>)
      reads adapter.driver
      ensures var doc := adapter.driver.document;
        var q := Query(DriverRoot, strategy, locator);
        && (r.Ok? <==> Usable(adapter.backend, doc, q))
        && (r.Ok? ==> r.value == Found(doc, q))
        && (Rejects(adapter.backend, strategy) ==> r == Err(UsageError(SplinterDriver.StrategyNotAllowed)))
        && (q in doc.failing && !Rejects(adapter.backend, strategy) ==> r == Err(WebDriverError))
    {
      DriverInterface.FindElements(adapter, strategy, locator, None)
    }

    /**
     * `is_element_present(strategy, locator)`: a true value exactly when something matches, `False`
     * when nothing does; the backend's errors pass through.
     */
    function IsElementPresent(strategy: string, locator: string): (r: Result<PyValue>)
      reads adapter.driver
      ensures var doc := adapter.driver.document;
        var q := Query(DriverRoot, strategy, locator);
        && ((r.Ok? && r.value.Truthy()) <==> Usable(adapter.backend, doc, q) && Found(doc, q) != [])
        && (Usable(adapter.backend, doc, q) && Found(doc, q) == [] ==> r == Ok(PyBool(false)))
        && (Rejects(adapter.backend, strategy) ==> r == Err(UsageError(SplinterDriver.StrategyNotAllowed)))
        && (q in doc.failing && !Rejects(adapter.backend, strategy) ==> r == Err(WebDriverError))
    {
      DriverInterface.IsElementPresent(adapter, strategy, locator, None)
    }

    /**
     * `is_element_displayed(strategy, locator)`: an answer exactly when the query is usable, true
     * exactly when the first match is visible, so `False` when nothing matches.
     */
    function IsElementDisplayed(strategy: string, locator: string): (r: Result<bool>)
      reads adapter.driver
      ensures var doc := adapter.driver.document;
        var q := Query(DriverRoot, strategy, locator);
        && (r.Ok? <==> Usable(adapter.backend, doc, q))
        && (r == Ok(true) <==> Usable(adapter.backend, doc, q) && Found(doc, q) != [] && Found(doc, q)[0] in doc.visible)
        && (Rejects(adapter.backend, strategy) ==> r == Err(UsageError(SplinterDriver.StrategyNotAllowed)))
        && (q in doc.failing && !Rejects(adapter.backend, strategy) ==> r == Err(WebDriverError))
    {
      DriverInterface.IsElementDisplayed(adapter, strategy, locator, None)
    }
  }
}
