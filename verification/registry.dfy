/**
 * The global driver registry: which marker interfaces each driver class is declared to carry, and
 * which adapter factory serves each marker. A driver resolves to the factory of the first marker it
 * carries that has one.
 */
module Registry {
  import opened Outcomes
  import opened Browser

  /** The message of the TypeError raised when no adapter serves a driver. */
  const CouldNotAdapt: string := "Could not adapt"

  /** The markers a class is declared to carry, in declaration order. */
  function Declared(decls: map<ClassName, seq<Marker>>, cls: ClassName): seq<Marker> {
    if cls in decls then decls[cls] else []
  }

  /** `classImplements(cls, iface)`: adds `iface` to the class's declarations unless already there. */
  function Declare(decls: map<ClassName, seq<Marker>>, cls: ClassName, iface: Marker): (r: map<ClassName, seq<Marker>>)
    ensures iface in Declared(r, cls)
    ensures Declared(r, cls) == if iface in Declared(decls, cls) then Declared(decls, cls) else Declared(decls, cls) + [iface]
    ensures forall c :: c != cls ==> Declared(r, c) == Declared(decls, c)
  {
    if iface in Declared(decls, cls) then decls else decls[cls := Declared(decls, cls) + [iface]]
  }

  /** The declarations after `classImplements(c, iface)` for each `c` of `classes`, in order. */
  function DeclareAll(decls: map<ClassName, seq<Marker>>, classes: seq<ClassName>, iface: Marker): (r: map<ClassName, seq<Marker>>)
    ensures forall c {:trigger Declared(r, c)} :: c in classes ==> iface in Declared(r, c)
    ensures forall c {:trigger Declared(r, c)} :: c !in classes ==> Declared(r, c) == Declared(decls, c)
    decreases |classes|
  {
    if classes == [] then decls
    else Declare(DeclareAll(decls, classes[..|classes| - 1], iface), classes[|classes| - 1], iface)
  }

  /**
   * Declaring `iface` for a list of classes adds it, at the end, to each listed class that did not
   * carry it yet, and leaves every other class's declarations as they were.
   */
  lemma {:induction false} DeclareAllEffect(decls: map<ClassName, seq<Marker>>, classes: seq<ClassName>, iface: Marker, c: ClassName)
    ensures Declared(DeclareAll(decls, classes, iface), c) ==
      if c in classes && iface !in Declared(decls, c) then Declared(decls, c) + [iface] else Declared(decls, c)
    decreases |classes|
  {
    if classes != [] {
      var init := classes[..|classes| - 1];
      var last := classes[|classes| - 1];
      var before := DeclareAll(decls, init, iface);
      assert DeclareAll(decls, classes, iface) == Declare(before, last, iface);
      DeclareAllEffect(decls, init, iface, c);
      DeclareStep(before, last, iface, c);
      LastSplit(classes, c);
      var a := Declared(decls, c);
      if c in init && iface !in a {
        assert iface in a + [iface];
      }
    }
  }

  /** A member of a non-empty list is a member of all but its last element, or is that element. */
  lemma LastSplit(classes: seq<ClassName>, c: ClassName)
    requires classes != []
    ensures c in classes <==> c in classes[..|classes| - 1] || c == classes[|classes| - 1]
  {
    assert classes == classes[..|classes| - 1] + [classes[|classes| - 1]];
  }

  /** One `classImplements` call, seen from any class. */
  lemma DeclareStep(decls: map<ClassName, seq<Marker>>, cls: ClassName, iface: Marker, c: ClassName)
    ensures Declared(Declare(decls, cls, iface), c) ==
      if c == cls && iface !in Declared(decls, c) then Declared(decls, c) + [iface] else Declared(decls, c)
  {
  }

  /** The markers a driver carries, most specific first: those given to it directly, then its class's. */
  function Provided(decls: map<ClassName, seq<Marker>>, cls: ClassName, direct: seq<Marker>): seq<Marker> {
    direct + Declared(decls, cls)
  }

  /** The position of the first of `markers` that has a registered adapter, or `|markers|`. */
  function FirstRegistered<F>(adapters: map<Marker, F>, markers: seq<Marker>): (k: nat)
    ensures k <= |markers|
    ensures k < |markers| ==> markers[k] in adapters
    ensures forall j :: 0 <= j < k ==> markers[j] !in adapters
  {
    if markers == [] || markers[0] in adapters then 0 else 1 + FirstRegistered(adapters, markers[1..])
  }

  /** `IDriver(driver)`: the factory of the first carried marker that has one, else TypeError. */
  function ResolveIn<F>(decls: map<ClassName, seq<Marker>>, adapters: map<Marker, F>, cls: ClassName, direct: seq<Marker>): (r: Result<F>)
    ensures var ms := Provided(decls, cls, direct);
      && (r.Err? <==> forall m :: m in ms ==> m !in adapters)
      && (r.Err? ==> r.error == TypeError(CouldNotAdapt))
      && (r.Ok? ==> exists i :: 0 <= i < |ms| && ms[i] in adapters && r.value == adapters[ms[i]]
                                && forall j :: 0 <= j < i ==> ms[j] !in adapters)
  {
    var ms := Provided(decls, cls, direct);
    var k := FirstRegistered(adapters, ms);
    if k < |ms| then Ok(adapters[ms[k]]) else Err(TypeError(CouldNotAdapt))
  }

  /**
   * After `iface` is registered with factory `f`, a driver that carries `iface`, and no other marker
   * with a registered adapter, resolves to `f`.
   */
  lemma {:induction false} ResolvesToRegistered<F>(decls: map<ClassName, seq<Marker>>, adapters: map<Marker, F>,
                                                   iface: Marker, f: F, cls: ClassName, direct: seq<Marker>)
    requires iface in Provided(decls, cls, direct)
    requires forall m :: m in Provided(decls, cls, direct) && m != iface ==> m !in adapters
    ensures ResolveIn(decls, adapters[iface := f], cls, direct) == Ok(f)
  {
    var ms := Provided(decls, cls, direct);
    var k := FirstRegistered(adapters[iface := f], ms);
    assert k < |ms| by {
      var i :| 0 <= i < |ms| && ms[i] == iface;
      assert ms[i] in adapters[iface := f];
    }
  }

  /** A driver none of whose markers has a registered adapter cannot be resolved. */
  lemma UnregisteredFails<F>(decls: map<ClassName, seq<Marker>>, adapters: map<Marker, F>, cls: ClassName, direct: seq<Marker>)
    requires forall m :: m in Provided(decls, cls, direct) ==> m !in adapters
    ensures ResolveIn(decls, adapters, cls, direct) == Err(TypeError(CouldNotAdapt))
  {
  }

  /**
   * Listing a class in `class_implements` makes its drivers resolvable through the registered marker,
   * even when the class was never decorated with it.
   */
  lemma ClassImplementsMakesResolvable<F>(decls: map<ClassName, seq<Marker>>, adapters: map<Marker, F>,
                                          iface: Marker, f: F, classes: seq<ClassName>, cls: ClassName, direct: seq<Marker>)
    requires cls in classes
    requires forall m :: m in Provided(decls, cls, direct) && m != iface ==> m !in adapters
    ensures ResolveIn(DeclareAll(decls, classes, iface), adapters[iface := f], cls, direct) == Ok(f)
  {
    var after := DeclareAll(decls, classes, iface);
    DeclareAllEffect(decls, classes, iface, cls);
    assert iface in Declared(after, cls);
    assert Provided(after, cls, direct) == direct + Declared(after, cls);
    forall m | m in Provided(after, cls, direct) && m != iface
      ensures m !in adapters
    {
      assert m in Provided(decls, cls, direct);
    }
    ResolvesToRegistered(after, adapters, iface, f, cls, direct);
  }

  /**
   * Registrations for different markers coexist: after registering `f1` for `i1` and then `f2` for
   * `i2`, a driver carrying only `i1` resolves to `f1` and one carrying only `i2` resolves to `f2`.
   */
  lemma RegistrationsCoexist<F>(decls: map<ClassName, seq<Marker>>, adapters: map<Marker, F>,
                                i1: Marker, f1: F, i2: Marker, f2: F,
                                cls1: ClassName, direct1: seq<Marker>, cls2: ClassName, direct2: seq<Marker>)
    requires i1 != i2
    requires forall m :: m in Provided(decls, cls1, direct1) ==> m == i1
    requires forall m :: m in Provided(decls, cls2, direct2) ==> m == i2
    requires i1 in Provided(decls, cls1, direct1) && i2 in Provided(decls, cls2, direct2)
    ensures ResolveIn(decls, adapters[i1 := f1][i2 := f2], cls1, direct1) == Ok(f1)
    ensures ResolveIn(decls, adapters[i1 := f1][i2 := f2], cls2, direct2) == Ok(f2)
  {
    assert adapters[i1 := f1][i2 := f2] == adapters[i2 := f2][i1 := f1];
    ResolvesToRegistered(decls, adapters[i2 := f2], i1, f1, cls1, direct1);
    ResolvesToRegistered(decls, adapters[i1 := f1], i2, f2, cls2, direct2);
  }

  /** A class whose only marker, given no direct markers, is registered resolves to that marker's factory. */
  lemma SoleMarkerResolves<F>(decls: map<ClassName, seq<Marker>>, adapters: map<Marker, F>, cls: ClassName, iface: Marker)
    requires Declared(decls, cls) == [iface] && iface in adapters
    ensures ResolveIn(decls, adapters, cls, []) == Ok(adapters[iface])
  {
    assert Provided(decls, cls, []) == [iface];
  }

  /** After declaring `i1` on `classes1` and then `i2` on `classes2`, starting from nothing. */
  lemma {:induction false} DeclaredAfterTwo(classes1: seq<ClassName>, i1: Marker, classes2: seq<ClassName>, i2: Marker, c: ClassName)
    requires c in classes1 && c !in classes2
    ensures Declared(DeclareAll(DeclareAll(map[], classes1, i1), classes2, i2), c) == [i1]
  {
    var first := DeclareAll(map[], classes1, i1);
    DeclareAllEffect(map[], classes1, i1, c);
    assert Declared(first, c) == [i1];
    DeclareAllEffect(first, classes2, i2, c);
  }

  /**
   * Two `registerDriver` calls, into an empty registry, for distinct markers and disjoint class lists:
   * each listed class resolves to its own call's factory.
   */
  lemma TwoRegistrationsResolve<F>(i1: Marker, f1: F, classes1: seq<ClassName>,
                                   i2: Marker, f2: F, classes2: seq<ClassName>,
                                   c1: ClassName, c2: ClassName)
    requires i1 != i2
    requires c1 in classes1 && c1 !in classes2
    requires c2 in classes2 && c2 !in classes1
    ensures var decls := DeclareAll(DeclareAll(map[], classes1, i1), classes2, i2);
      && ResolveIn(decls, map[i1 := f1, i2 := f2], c1, []) == Ok(f1)
      && ResolveIn(decls, map[i1 := f1, i2 := f2], c2, []) == Ok(f2)
  {
    var decls := DeclareAll(DeclareAll(map[], classes1, i1), classes2, i2);
    var adapters := map[i1 := f1, i2 := f2];
    DeclaredAfterTwo(classes1, i1, classes2, i2, c1);
    SoleMarkerResolves(decls, adapters, c1, i1);
    assert Declared(decls, c2) == [i2] by {
      DeclareAllEffect(DeclareAll(map[], classes1, i1), classes2, i2, c2);
      DeclareAllEffect(map[], classes1, i1, c2);
    }
    SoleMarkerResolves(decls, adapters, c2, i2);
  }

  /** The process-wide registry, generic in what a factory is. */
  class Registry<F> {
    var declarations: map<ClassName, seq<Marker>>
    var adapters: map<Marker, F>

    /** A registry in which nothing is declared or registered yet. */
    constructor ()
      ensures declarations == map[] && adapters == map[]
    {
      declarations := map[];
      adapters := map[];
    }

    /**
     * `registerDriver(iface, driver, class_implements)`: declare `iface` on each listed class, then
     * register `factory` as the adapter for `iface`, replacing an earlier one.
     */
    method RegisterDriver(iface: Marker, factory: F, classImplements: seq<ClassName>)
      modifies this
      ensures declarations == DeclareAll(old(declarations), classImplements, iface)
      ensures adapters == old(adapters)[iface := factory]
      ensures forall c :: c in classImplements ==> iface in Declared(declarations, c)
      ensures forall c :: c !in classImplements ==> Declared(declarations, c) == Declared(old(declarations), c)
    {
      for i := 0 to |classImplements|
        invariant declarations == DeclareAll(old(declarations), classImplements[..i], iface)
        invariant adapters == old(adapters)
      {
        assert classImplements[..i + 1][..i] == classImplements[..i];
        declarations := Declare(declarations, classImplements[i], iface);
      }
      assert classImplements[..|classImplements|] == classImplements;
      adapters := adapters[iface := factory];
      forall c
        ensures Declared(declarations, c) == if c in classImplements && iface !in Declared(old(declarations), c)
                                             then Declared(old(declarations), c) + [iface] else Declared(old(declarations), c)
      {
        DeclareAllEffect(old(declarations), classImplements, iface, c);
      }
    }

    /** `IDriver(driver)` against the current state of the registry. */
    function Resolve(driver: Driver): (r: Result<F>)
      reads this
      ensures var ms := Provided(declarations, driver.cls, driver.directMarkers);
        && (r.Err? <==> forall m :: m in ms ==> m !in adapters)
        && (r.Err? ==> r.error == TypeError(CouldNotAdapt))
        && (r.Ok? ==> exists i :: 0 <= i < |ms| && ms[i] in adapters && r.value == adapters[ms[i]]
                                  && forall j :: 0 <= j < i ==> ms[j] !in adapters)
    {
      ResolveIn(declarations, adapters, driver.cls, driver.directMarkers)
    }
  }
}
