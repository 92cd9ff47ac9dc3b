# PyPOM core, modelled in Dafny

PyPOM is a page-object library for browser tests. A page or a region object receives a concrete
browser driver (a Selenium WebDriver or a Splinter browser). It asks a global registry for the
adapter that serves that driver. The view's four lookups (`find_element`, `find_elements`,
`is_element_present`, `is_element_displayed`) and the building of its wait (`wait_factory`) go
through that adapter. The adapter also offers `open`. Three calls bypass the adapter:

- `Page.open` calls the driver's own `get` (`pypom/page.py:26`).
- A region's root locator is looked up with the driver's own `find_element` (`pypom/region.py:50`).
- `Region.find_element` and `Region.find_elements` call the root's own methods
  (`pypom/region.py:65, 78`).

This project models that decision logic over an abstract browser.

- **Document.** The browser is reduced to a `Document`. It maps a query (scope node, strategy,
  locator) to the element ids it finds, in document order. It also has a set of visible elements
  and a set of queries that make the backend raise an error other than "not found".
- **Driver.** A `Driver` object carries its class name, the marker interfaces given to it directly,
  its current document and a log of the navigations it was asked to make.

| file | models |
|---|---|
| `outcomes.dfy` | `Option`, `Result` and the exceptions the core raises or lets through |
| `browser.dfy` | the abstract document, element lookups on a node, the `Driver` class |
| `selenium_driver.dfy` | the Selenium adapter, `WebDriverWait.until`, the Selenium class list |
| `splinter_driver.dfy` | the Splinter adapter, its strategy whitelist, the Splinter class list |
| `registry.dfy` | `registerDriver`: class-to-marker declarations and the adapter registry, with resolution |
| `driver_interface.dfy` | the adapter as one value per backend family, dispatch, both `register()` calls |
| `view.dfy` | `WebView`: adapter resolution, plugin-manager choice, wait construction, the four lookups |
| `python_strings.dfy` | the subset of `str.format` that page URLs use, and Python's `sub in s` |
| `page.dfy` | `Page`: URL formatting, `wait_for_page_to_load`, `open` |
| `region.dfy` | `Region`: the root precedence rule and the lookups scoped to the root |

The files of this revision disagree with each other and with the library's later design. The model
follows each file as written:

- **Region root fallback.** `pypom/region.py:51` falls back to the driver itself when there is
  neither an explicit root nor a root locator. `Root` returns `DriverRoot` in that case. The later
  test `tests/test_region.py:32` expects `None`.
- **Page URL.** `pypom/page.py:38` formats `_url` with `base_url` and the keyword arguments. It does
  not join the result to the base URL. Unused keyword arguments do not become query parameters. An
  empty URL is not refused: a page with no base URL formats `None` as the text `None`. The later
  tests that use `URL_TEMPLATE` and `canonical_url` describe a different `Page`.
- **Page navigation.** `Page.open` calls the driver's own `get` (`pypom/page.py:26`). It does not
  call the adapter's `open`.
- **Region lookups.** `Region.find_element` and `Region.find_elements` call the root object's own
  `find_element`/`find_elements` (`pypom/region.py:65, 78`). They do not go through the adapter.
  A region's `is_element_present` and `is_element_displayed` are inherited from `WebView`
  (`pypom/view.py:48-72`). They ask the adapter with no root, so they search the whole document
  and ignore the region's root. The later region tests expect these checks to be scoped to the root.
- **Region lookup arguments.** `Region.find_element(locator)` and `Region.find_elements(locator)`
  take one locator pair (`pypom/region.py:54, 67`). The later tests call them with the pair spread
  into two arguments (`tests/selenium_specific/test_region.py:19, 24`,
  `tests/splinter_specific/test_region.py:28, 35`). The model takes one `Locator`.

## Model

| member | source | states |
|---|---|---|
| SeleniumDriver.FindElement | pypom/selenium_driver.py:54-69 | the first match of the query scoped to the root when it is not `None`, else to the driver; NoSuchElement exactly when that query finds nothing; any other error only from a failing query, and then it is the backend's WebDriverError |
| SeleniumDriver.FindElements | pypom/selenium_driver.py:71-86 | exactly what the query scoped the same way finds (possibly nothing); the only error is the backend's own |
| SeleniumDriver.IsElementPresent | pypom/selenium_driver.py:88-104 | `False` exactly when `find_element` raised NoSuchElement; otherwise the found element itself; every other error passes through |
| SeleniumDriver.IsElementDisplayed | pypom/selenium_driver.py:106-122 | `False` on NoSuchElement without consulting visibility; the found element's visibility otherwise; every other error passes through |
| SeleniumDriver.RootedLookupIgnoresDriver | pypom/selenium_driver.py:67-69 | with a root, the lookups depend only on the root's query: documents that agree on it give identical answers whatever the driver-wide query finds |
| SeleniumDriver.Open | pypom/selenium_driver.py:48-52 | exactly one navigation, `get(url)` with the URL unchanged; the document is untouched |
| SeleniumDriver.WaitFactory | pypom/selenium_driver.py:40-46 | `wait_factory(timeout)` builds a `WebDriverWait` on the adapter's driver with exactly that timeout |
| SeleniumDriver.Wait.Until | pypom/page.py:51 | the index of the first observed state satisfying the condition, with none before it satisfying it; Timeout exactly when no observed state satisfies it |
| SplinterDriver.FindElements | pypom/splinter_driver.py:62-77 | UsageError("Strategy not allowed") exactly when the strategy is outside the seven allowed ones; otherwise exactly `find_by_<strategy>(locator)` on the root if given, else on the driver |
| SplinterDriver.FindElement | pypom/splinter_driver.py:48-60 | the first element found, `None` when nothing is found, and `find_elements`' error otherwise |
| SplinterDriver.IsElementPresent | pypom/splinter_driver.py:79-90 | `True` exactly when the lookup finds something; an empty result is `False`, not an error |
| SplinterDriver.IsElementDisplayed | pypom/splinter_driver.py:92-105 | `False` when nothing is found, else the first element's `visible` flag |
| SplinterDriver.UsageErrorIffStrategyRejected | pypom/splinter_driver.py:48-105 | `find_element`, `is_element_present` and `is_element_displayed` each raise UsageError if and only if the strategy is outside the whitelist |
| SplinterDriver.AbsenceIsNotAnError | pypom/splinter_driver.py:48-105 | no Splinter lookup ever raises NoSuchElement |
| SplinterDriver.Open | pypom/splinter_driver.py:42-46 | exactly one navigation, `visit(url)` with the URL unchanged; the document is untouched |
| Registry.Declare | pypom/driver.py:13 | `classImplements`: the class afterwards carries the marker, appended only if it was missing; every other class is unchanged |
| Registry.DeclareAll | pypom/driver.py:12-13 | the loop over `class_implements`: every listed class carries the marker afterwards, and every unlisted class keeps its declarations |
| Registry.DeclareAllEffect | pypom/driver.py:12-13 | after the loop over `class_implements`, each listed class that lacked the marker has it appended, and every other class's declarations are unchanged |
| Registry.ResolveIn | pypom/driver.py:15-17 | `IDriver(driver)` fails with TypeError("Could not adapt") exactly when none of the driver's markers has an adapter; otherwise it gives the adapter of the first marker, direct markers first, that has one |
| Registry.ResolvesToRegistered | pypom/driver.py:15-17 | after a registration for a marker, a driver carrying that marker and no other registered marker resolves to the registered factory |
| Registry.UnregisteredFails | pypom/driver.py:15-17 | a driver none of whose markers is registered fails to resolve, with TypeError |
| Registry.ClassImplementsMakesResolvable | pypom/driver.py:10-17 | a class that was never decorated but is listed in `class_implements` resolves to the registered factory |
| Registry.RegistrationsCoexist | pypom/driver.py:10-17 | registrations for two different markers coexist; each driver resolves to its own adapter |
| Registry.TwoRegistrationsResolve | pypom/driver.py:10-17 | two registrations into an empty registry, with distinct markers and disjoint class lists, resolve each listed class to its own factory |
| Registry.Registry.RegisterDriver | pypom/driver.py:10-17 | the declarations become exactly the loop's result, and the adapter map gains exactly this marker's factory; every listed class carries the marker, and unlisted classes are unchanged (so nothing changes with the default empty list) |
| Registry.Registry.Resolve | pypom/driver.py:15-17 | resolution against the current registry fails with TypeError("Could not adapt") exactly when no marker of the driver is registered; otherwise it gives the factory of the first registered marker, direct markers first |
| DriverInterface.WaitFactory | pypom/interfaces/driver.py:15-20 | either family's `wait_factory` (Splinter inherits Selenium's) waits on the adapter's driver with the given timeout |
| DriverInterface.FindElement | pypom/interfaces/driver.py:27-38 | for either family, an element exactly when the scoped query succeeds and matches, and then the first match; NoSuchElement (Selenium) or `None` (Splinter) exactly when it matches nothing; UsageError for a Splinter strategy off the whitelist; the backend's error for a failing query |
| DriverInterface.FindElements | pypom/interfaces/driver.py:40-51 | for either family, exactly the scoped matches, succeeding exactly when the query does not fail and, for Splinter, the strategy is allowed; otherwise UsageError or the backend's error |
| DriverInterface.IsElementPresent | pypom/interfaces/driver.py:53-64 | for either family, a true value exactly when the scoped query matches; `False` when it succeeds with no match; UsageError and backend errors pass through |
| DriverInterface.IsElementDisplayed | pypom/interfaces/driver.py:66-77 | for either family, a value exactly when the scoped query can run, `True` exactly when its first match is visible; UsageError and backend errors pass through |
| DriverInterface.PresentIffFound | pypom/selenium_driver.py:88-104 | for both families, the presence check is true exactly when `find_element` yields an element, and it never raises NoSuchElement |
| DriverInterface.DisplayedImpliesPresent | pypom/selenium_driver.py:106-122 | for both families, the visibility check is true exactly when `find_element` yields an element that is visible, and it never raises NoSuchElement |
| DriverInterface.Open | pypom/interfaces/driver.py:22-25 | `open(url)` for either family: the Selenium adapter navigates with `get` (pypom/selenium_driver.py:48-52), the Splinter adapter with `visit` (pypom/splinter_driver.py:42-46), each exactly once with the URL unchanged |
| DriverInterface.RegisterSelenium | pypom/selenium_driver.py:125-145 | Selenium's `register()` declares `ISelenium` on its ten driver classes and registers the Selenium adapter for it |
| DriverInterface.RegisterSplinter | pypom/splinter_driver.py:108-122 | Splinter's `register()` declares `ISplinter` on its four browser classes and registers the Splinter adapter for it |
| DriverInterface.ClassListsDisjoint | pypom/splinter_driver.py:117-122 | no class is in both families' `class_implements` lists |
| DriverInterface.BothFamiliesResolve | pypom/selenium_driver.py:125-145 | after both `register()` calls, each listed Selenium class resolves to the Selenium adapter and each listed Splinter class to the Splinter adapter |
| View.WebView.Init | pypom/view.py:14-24 | the stored driver, adapter family and timeout; a given plugin manager is kept as is, and a fresh `pypom`/`pypom_` one is made only when none is given; the wait is the adapter's for that timeout |
| View.WebView.Create | pypom/view.py:14-24 | construction fails with the registry's TypeError exactly when the driver cannot be adapted; otherwise the adapter is the registry's answer for that driver, the `selenium` attribute is the driver passed in, and the wait is built from the stored timeout |
| View.WebView.Selenium | pypom/view.py:26-30 | the `selenium` attribute is the driver the view was given, the one its adapter and wait use |
| View.WebView.FindElement | pypom/view.py:32-33 | the first match on the whole document; NoSuchElement (Selenium) or `None` (Splinter) exactly when nothing matches; UsageError for a Splinter strategy off the whitelist and the backend's error for a failing query, never swallowed |
| View.WebView.FindElements | pypom/view.py:35-46 | exactly the document-wide matches; UsageError for a Splinter strategy off the whitelist, the backend's error for a failing query |
| View.WebView.IsElementPresent | pypom/view.py:48-59 | a true value exactly when something matches document-wide; `False` when a usable query matches nothing; UsageError for a strategy Splinter rejects and WebDriverError for a failing query pass through rather than becoming `False` |
| View.WebView.IsElementDisplayed | pypom/view.py:61-72 | an answer exactly when the query is usable, true exactly when the first document-wide match is visible, so `False` when nothing matches; UsageError for a strategy Splinter rejects and WebDriverError for a failing query pass through |
| PythonStrings.Format | pypom/page.py:38 | a template without braces formats to itself |
| PythonStrings.FormatEscaped | pypom/page.py:38 | doubled braces and plain text format back to the literal text |
| PythonStrings.FormatField | pypom/page.py:38 | a plain `{name}` field becomes the keyword argument's value, or raises KeyError naming it when there is no such argument |
| PythonStrings.FormatRender | pypom/page.py:38 | formatting the rendering of text runs and supplied fields gives exactly the text with each field replaced by its value |
| PythonStrings.Contains | pypom/page.py:51 | `sub in s` holds exactly when `sub` occurs at some position of `s` |
| Pages.PageUrl | pypom/page.py:30-38 | a keyword argument named `base_url` is a duplicate and raises TypeError; otherwise the template is formatted with `base_url` added to the keyword arguments |
| Pages.DefaultUrlIsBaseUrl | pypom/page.py:10-38 | with the default `'{base_url}'` template the URL is the base URL (or the text `None`) |
| Pages.UrlSubstitutesFields | pypom/page.py:30-38 | each `{name}` placeholder is replaced by `base_url` or the matching keyword argument, and the literal text is kept |
| Pages.LiteralUrlUnchanged | pypom/page.py:30-38 | a template without placeholders is the URL whatever the arguments |
| Pages.UnknownFieldRaisesKeyError | pypom/page.py:30-38 | a placeholder naming neither `base_url` nor a keyword argument raises KeyError for that name |
| Pages.Page.Url | pypom/page.py:30-38 | the `url` property: TypeError for a duplicate `base_url`; the base URL under the default template; a placeholder-free template as it stands |
| Pages.Page.WaitForPageToLoad | pypom/page.py:40-52 | the page itself exactly when some observed `current_url` contains the URL; Timeout exactly when none does; a URL error propagates |
| Pages.Page.Open | pypom/page.py:18-28 | the URL is computed first and an error navigates nowhere; otherwise exactly one `get(url)`, then the wait; the result is the page itself, or Timeout after that one navigation |
| Regions.Region.constructor | pypom/region.py:18-33 | the page and the explicit root are stored unchanged; lookups go to the page's `selenium` driver |
| Regions.Region.Root | pypom/region.py:35-52 | an explicit root wins whatever the locator; otherwise the first driver-wide match of the root locator (NoSuchElement when none, WebDriverError for a failing query, no other error); otherwise the driver; worked out against the current document at each access |
| Regions.Region.FindElement | pypom/region.py:54-65 | the first match under the current root; NoSuchElement exactly when none; an error in finding the root is raised instead; the only errors are NoSuchElement and WebDriverError |
| Regions.Region.FindElements | pypom/region.py:67-78 | every match under the current root, in document order; WebDriverError exactly for a failing query; an error in finding the root is raised instead |
| Regions.Region.IsElementPresent | pypom/view.py:48-59 | inherited: a true value exactly when something matches on the whole document, whatever the region's root; `False` when a usable query matches nothing; UsageError for a strategy Splinter rejects and WebDriverError for a failing query pass through |
| Regions.Region.IsElementDisplayed | pypom/view.py:61-72 | inherited: an answer exactly when the query is usable, true exactly when the first document-wide match is visible, whatever the region's root, so `False` when nothing matches; UsageError and WebDriverError pass through |
| Regions.InheritedChecksIgnoreRoot | pypom/view.py:48-72 | two regions of one page answer the inherited checks alike, whatever their roots, and alike with the page |
| Regions.PresenceDisagreesWithRootedFind | pypom/region.py:54-65 | a region whose explicit root holds no match raises NoSuchElement from `find_element` yet reports the element present when the document has it elsewhere |
| Regions.RegionScopesLikeAdapter | pypom/region.py:54-78 | once the root is known, the region's lookups equal the Selenium adapter's lookups with that root |
| Regions.UnrootedRegionMatchesPage | pypom/region.py:35-65 | a region with neither root nor root locator finds what its Selenium-served page finds, including NoSuchElement |
| Regions.ExplicitRootIsIndependentOfDriver | pypom/region.py:35-78 | with an explicit root, the lookups depend only on the root's query, not on what the driver-wide lookup or the root locator would find |

## Left out

- **zope machinery.** Interfaces, `implementer`, `alsoProvides` and adapter lookup are reduced to
  two explicit maps and a first-registered-marker rule. Interface inheritance is not modelled. An
  object that already provides `IDriver` is not modelled either.
- **Class inheritance of declarations.** `Registry.Declared` looks a driver's class up by its exact
  name. In zope, a subclass inherits the interfaces declared on its base classes. So a subclass of
  `selenium.webdriver.Remote` resolves to the Selenium adapter in the library, but gets TypeError
  from `Registry.ResolveIn`.
- **pluggy.** Entry-point discovery, hook specifications and `check_pending` (`pypom/view.py:21-23`)
  are foreign calls. A fresh plugin manager only records its project name and prefix. Hooks are not
  fired by the shown `page.py` or `region.py`.
- **Deprecation warning.** The `DeprecationWarning` raised by the `selenium` attribute is not
  modelled (`pypom/view.py:29`).
- **Backend objects.** Element objects, their staleness, and falsy element handles are not
  modelled: every handle counts as true.
- **`WebDriverWait.until` timing.** Polling intervals, sleeping and the real clock are left out. The
  wait sees a given sequence of observed `current_url` values, and Timeout means none of them
  satisfied the condition. The model does not record that the real wait always polls at least once.
- **`str.format` features.** Format specs, conversions, attribute and index access are left out.
  `Pages.UrlSubstitutesFields` is stated for plain names only. `Format` treats a field holding `!`,
  `:`, `.` or `[` as one name, where Python would interpret those characters. Only keyword
  arguments with string values are modelled.
- **Import-time registration.** The optional-dependency `try`/`except` in the package `__init__` is
  not part of this model. Packaging is not part of it either.
- **Region base constructor.** `Region.__init__` passes `(selenium, base_url, timeout)` to a base
  constructor whose parameters are `(driver, timeout, pm)` (`pypom/region.py:29-31`,
  `pypom/view.py:14`). The model keeps only what the region's own members use: the page's driver.
  It does not give the region its own adapter, wait or plugin manager built from those mismatched
  arguments.
- **Regions.Region.IsElementPresent: the inherited checks ask the page's adapter.** A region's own
  `WebView` base resolves the adapter again from the page's driver. The model uses the page
  view's adapter instead, which is the same family as long as the registry has not changed in
  between.
- **Inheritance.** `Page` and `Region` subclass `WebView` in Python. Here a `Page` holds its
  `WebView`, and a `Region` holds its page and that page's driver.
- **Missing methods.** The model does not capture that a Splinter browser has no `get` or
  `find_element` method. Through `Page.open` or `Region`, such a browser would raise
  AttributeError.
- **Base URL and keyword arguments.** No shown code sets `base_url` or `kwargs` on a page. They are
  constructor parameters here.
- **Class attributes.** `_url` and `_root_locator` are class attributes overridden by subclasses.
  Here they are constructor parameters.
