/**
 * The browser as the library sees it: an abstract document that answers lookups, a visibility flag
 * per element, and a driver object whose navigations are recorded. No real DOM is involved.
 */
module Browser {
  import opened Outcomes

  type ElementId = nat

  /** The name of a concrete driver class, such as `selenium.webdriver.Firefox`. */
  type ClassName = string

  /** The name of a marker interface, such as `ISelenium`. */
  type Marker = string

  /** What a lookup is evaluated on: the whole document through the driver, or one element. */
  datatype Node = DriverRoot | Element(id: ElementId)

  /** A `(strategy, locator)` pair, as a page object declares it. */
  datatype Locator = Locator(strategy: string, value: string)

  /** One lookup: `strategy` and `locator` evaluated under `node`. */
  datatype Query = Query(node: Node, strategy: string, locator: string)

  /**
   * The rendered page. `matches` lists, in document order, what a query finds (absent means nothing);
   * `visible` holds the elements a user can see; a query in `failing` makes the backend raise an error
   * other than "not found" (a lost session, a malformed selector).
   */
  datatype Document = Document(
    matches: map<Query, seq<ElementId>>,
    visible: set<ElementId>,
    failing: set<Query>)

  /** The Python values the adapters hand back: `None`, a boolean, or an element. */
  datatype PyValue = PyNone | PyBool(b: bool) | PyElement(id: ElementId)
  {
    /** Python truthiness: `None` and `False` are false, every element handle is true. */
    predicate Truthy() {
      match this
      case PyNone => false
      case PyBool(b) => b
      case PyElement(_) => true
    }
  }

  /** What `q` finds when no error occurs. */
  function Found(doc: Document, q: Query): seq<ElementId> {
    if q in doc.matches then doc.matches[q] else []
  }

  /**
   * The node an adapter's lookup runs on: the root when one is given, otherwise the driver. Selenium
   * tests `root is not None` and Splinter `root or driver`; they agree because every element handle
   * is a true value.
   */
  function Scope(root: Option<Node>): (n: Node)
    ensures root.Some? ==> n == root.value
    ensures root.None? ==> n == DriverRoot
  {
    if root.Some? then root.value else DriverRoot
  }

  /** `find_elements(strategy, locator)` on a node (and Splinter's `find_by_<strategy>(locator)`). */
  function FindElementsOn(doc: Document, node: Node, strategy: string, locator: string): Result<seq<ElementId>> {
    var q := Query(node, strategy, locator);
    if q in doc.failing then Err(WebDriverError) else Ok(Found(doc, q))
  }

  /** `find_element(strategy, locator)` on a node: the first match, or NoSuchElementException. */
  function FindElementOn(doc: Document, node: Node, strategy: string, locator: string): (r: Result<ElementId>)
    ensures var q := Query(node, strategy, locator);
      && (r.Ok? <==> q !in doc.failing && Found(doc, q) != [])
      && (r.Ok? ==> r.value == Found(doc, q)[0])
      && (r.Err? ==> (r.error == NoSuchElement <==> q !in doc.failing))
      && (r.Err? ==> r.error in {NoSuchElement, WebDriverError})
  {
    match FindElementsOn(doc, node, strategy, locator)
    case Err(e) => Err(e)
    case Ok(found) => if found == [] then Err(NoSuchElement) else Ok(found[0])
  }

  /** Two documents that answer one query alike. */
  predicate AgreeOn(d1: Document, d2: Document, q: Query) {
    && Found(d1, q) == Found(d2, q)
    && (q in d1.failing <==> q in d2.failing)
  }

  /**
   * A lookup under a node consults that node's query and nothing else: what the rest of the
   * document holds, including what the driver itself would find, cannot change its outcome.
   */
  lemma LookupIsLocal(d1: Document, d2: Document, node: Node, strategy: string, locator: string)
    requires AgreeOn(d1, d2, Query(node, strategy, locator))
    ensures FindElementsOn(d1, node, strategy, locator) == FindElementsOn(d2, node, strategy, locator)
    ensures FindElementOn(d1, node, strategy, locator) == FindElementOn(d2, node, strategy, locator)
  {
  }

  /** A navigation the driver was asked to make. */
  datatype Navigation = Got(url: string) | Visited(url: string)

  /**
   * The concrete driver object a test hands to a page: its class and the marker interfaces it was
   * given directly decide which adapter serves it; the document is what it currently renders.
   */
  class Driver {
    const cls: ClassName
    const directMarkers: seq<Marker>
    var document: Document
    var history: seq<Navigation>

    constructor (cls: ClassName, directMarkers: seq<Marker>, document: Document)
      ensures this.cls == cls && this.directMarkers == directMarkers
      ensures this.document == document && history == []
    {
      this.cls := cls;
      this.directMarkers := directMarkers;
      this.document := document;
      history := [];
    }

    /** Selenium's `driver.get(url)`. */
    method Get(url: string)
      modifies this
      ensures history == old(history) + [Got(url)]
      ensures document == old(document)
    {
      history := history + [Got(url)];
    }

    /** Splinter's `browser.visit(url)`. */
    method Visit(url: string)
      modifies this
      ensures history == old(history) + [Visited(url)]
      ensures document == old(document)
    {
      history := history + [Visited(url)];
    }
  }
}
