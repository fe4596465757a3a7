/**
 * The per-object state of `GAPipeline` (gapipe/gapipeline.py): the cache
 * of loaded input products, the extraction of one spectrum per (visit,
 * arm), the arms the loaded products offer, and the log and figure paths.
 *
 * Loading and reading are parameters: `Loader` stands for
 * `repo.load_product`, `Reader` for `PfsSpectrumReader.is_available`, and
 * a loaded product is opaque except for the arms it holds. A spectrum is
 * the list of loaded products it was read from.
 */
module GaPipeline {
  import opened Wrappers
  import opened Values
  import opened Identity
  import Locator
  import Sorting

  /**
   * Where a product type sits in the data model's class tree, as `issubclass`
   * asks: PfsConfig is a design that is also a config; PfsTargetSpectra is
   * recognised by the load step's validation but by nothing here.
   */
  datatype ProductKind = FiberArray | FiberArraySet | DesignKind(isConfig: bool) | OtherKind(isTargetSpectra: bool)

  /** A product type: PfsSingle is a fiber array, PfsMerged a fiber-array set, PfsDesign and PfsConfig designs. */
  datatype Product = Product(name: string, kind: ProductKind)

  /** A loaded product: the arm letters it holds and, opaque, the rest. */
  datatype Data = Data(arms: string, content: int)

  /** One visit of a product's cache: a dictionary by objId for single-object products, the whole file otherwise. */
  datatype Slot = PerObject(objects: map<Option<Value>, Data>) | Whole(data: Data)

  /** `product_cache[product]`: the visits loaded so far. */
  type Entry = map<int, Slot>

  type Cache = map<Product, Entry>

  /**
   * `repo.load_product(product, identity=identity)`, taken to succeed: the
   * FileNotFoundError of a missing file is outside the model.
   */
  type Loader = (Product, IdentityDict) -> Data

  /** The objId of a visit's identity, the key of a single-object product's dictionary. */
  function ObjKey(it: VisitItem): Option<Value> {
    if "objId" in it.identity then it.identity["objId"] else None
  }

  /** Single-object products hold dictionaries by objId, the others whole files. */
  predicate Kinded(p: Product, e: Entry) {
    forall v :: v in e ==> (e[v].PerObject? <==> p.kind == FiberArray)
  }

  // ---------------------------------------------------------------------
  // load_input_products

  /** The cache key a visit item asks for: (visit, objId) for single-object products, the visit alone otherwise. */
  function Wanted(p: Product, it: VisitItem): (int, Option<Value>) {
    (it.visit, if p.kind == FiberArray then ObjKey(it) else None)
  }

  /** The keys an entry holds, in the same form. */
  function Cached(p: Product, e: Entry): set<(int, Option<Value>)> {
    if p.kind == FiberArray then
      set v, o | v in e && e[v].PerObject? && o in e[v].objects :: (v, o)
    else
      set v | v in e :: (v, None)
  }

  function WantedAll(p: Product, items: seq<VisitItem>): set<(int, Option<Value>)> {
    set i | 0 <= i < |items| :: Wanted(p, items[i])
  }

  /**
   * One turn of the loop over the visits: load the product unless the
   * cache has it, and say whether a file was loaded. Any other product
   * type raises NotImplementedError.
   */
  function LoadItem(e: Entry, p: Product, it: VisitItem, load: Loader): (r: Result<(Entry, bool)>)
    requires Kinded(p, e)
    ensures r.Fail? <==> p.kind.OtherKind?
    ensures r.Fail? ==> r.error == NotImplementedError
    ensures r.Ok? ==> Kinded(p, r.value.0)
    ensures r.Ok? && !r.value.1 ==> r.value.0 == e
  {
    match p.kind
    case FiberArray =>
      var objects := if it.visit in e then e[it.visit].objects else map[];
      var k := ObjKey(it);
      if k in objects then Ok((e, false))
      else Ok((e[it.visit := PerObject(objects[k := load(p, it.identity)])], true))
    case FiberArraySet =>
      if it.visit in e then Ok((e, false))
      else Ok((e[it.visit := Whole(load(p, it.identity))], true))
    case DesignKind(_) =>
      if it.visit in e then Ok((e, false))
      else Ok((e[it.visit := Whole(load(p, it.identity))], true))
    case OtherKind(_) => Fail(NotImplementedError)
  }

  /** One turn adds the key the visit asks for, and loads a file exactly when that key was not cached. */
  lemma LoadItemCache(e: Entry, p: Product, it: VisitItem, load: Loader)
    requires Kinded(p, e) && LoadItem(e, p, it, load).Ok?
    ensures Cached(p, LoadItem(e, p, it, load).value.0) == Cached(p, e) + {Wanted(p, it)}
    ensures LoadItem(e, p, it, load).value.1 <==> Wanted(p, it) !in Cached(p, e)
  {
    var e' := LoadItem(e, p, it, load).value.0;
    var k := ObjKey(it);
    if p.kind == FiberArray {
      var objects := if it.visit in e then e[it.visit].objects else map[];
      if k in objects {
        assert (it.visit, k) in Cached(p, e);
      } else {
        assert (it.visit, k) !in Cached(p, e);
        forall x | x in Cached(p, e')
          ensures x in Cached(p, e) + {(it.visit, k)}
        {
          var v, o :| v in e' && e'[v].PerObject? && o in e'[v].objects && x == (v, o);
          if v != it.visit || o != k {
            assert v in e && o in e[v].objects;
          }
        }
        forall x | x in Cached(p, e)
          ensures x in Cached(p, e')
        {
          var v, o :| v in e && e[v].PerObject? && o in e[v].objects && x == (v, o);
          assert v in e' && o in e'[v].objects;
        }
        assert it.visit in e' && k in e'[it.visit].objects;
      }
    }
  }

  /** The loop of `load_input_products`: the new entry and the number `q` of files loaded. */
  function LoadAll(e: Entry, p: Product, items: seq<VisitItem>, load: Loader): (r: Result<(Entry, nat)>)
    requires Kinded(p, e)
    ensures r.Ok? ==> Kinded(p, r.value.0)
    decreases |items|
  {
    if items == [] then Ok((e, 0))
    else
      var prev := LoadAll(e, p, items[..|items| - 1], load);
      if prev.Fail? then prev
      else
        var step := LoadItem(prev.value.0, p, items[|items| - 1], load);
        if step.Fail? then Fail(step.error)
        else Ok((step.value.0, prev.value.1 + if step.value.1 then 1 else 0))
  }

  /** One more visit of the loading loop. */
  lemma LoadAllStep(e0: Entry, p: Product, items: seq<VisitItem>, i: nat, load: Loader, e: Entry, q: nat)
    requires Kinded(p, e0) && i < |items| && LoadAll(e0, p, items[..i], load) == Ok((e, q))
    ensures Kinded(p, e)
    ensures var step := LoadItem(e, p, items[i], load);
      LoadAll(e0, p, items[..i + 1], load) ==
        if step.Fail? then Fail(step.error) else Ok((step.value.0, q + if step.value.1 then 1 else 0))
  {
    assert items[..i + 1][..i] == items[..i];
  }

  lemma WantedAllStep(p: Product, items: seq<VisitItem>)
    requires items != []
    ensures WantedAll(p, items) == WantedAll(p, items[..|items| - 1]) + {Wanted(p, items[|items| - 1])}
  {
    var init := items[..|items| - 1];
    forall x | x in WantedAll(p, items)
      ensures x in WantedAll(p, init) + {Wanted(p, items[|items| - 1])}
    {
      var i :| 0 <= i < |items| && x == Wanted(p, items[i]);
      if i < |init| {
        assert items[i] == init[i];
      }
    }
    forall x | x in WantedAll(p, init)
      ensures x in WantedAll(p, items)
    {
      var i :| 0 <= i < |init| && x == Wanted(p, init[i]);
      assert init[i] == items[i];
    }
  }

  /** The loop fails exactly for an unknown product type with at least one visit. */
  lemma {:induction false} LoadAllFails(e: Entry, p: Product, items: seq<VisitItem>, load: Loader)
    requires Kinded(p, e)
    ensures LoadAll(e, p, items, load).Fail? <==> p.kind.OtherKind? && items != []
    ensures LoadAll(e, p, items, load).Fail? ==> LoadAll(e, p, items, load).error == NotImplementedError
    decreases |items|
  {
    if items != [] {
      LoadAllFails(e, p, items[..|items| - 1], load);
    }
  }

  /** Adding `w` to the wanted keys adds one to the uncached ones exactly when `w` is not cached yet. */
  lemma CountStep<T>(wanted: set<T>, c0: set<T>, w: T)
    ensures w in c0 + wanted ==> (wanted + {w}) - c0 == wanted - c0
    ensures w !in c0 + wanted ==> |(wanted + {w}) - c0| == |wanted - c0| + 1
  {
    if w !in c0 + wanted {
      assert (wanted + {w}) - c0 == (wanted - c0) + {w};
    }
  }

  /** After the loop the entry holds what it held plus every key the visits ask for. */
  lemma {:induction false} LoadAllCached(e: Entry, p: Product, items: seq<VisitItem>, load: Loader)
    requires Kinded(p, e) && LoadAll(e, p, items, load).Ok?
    ensures Cached(p, LoadAll(e, p, items, load).value.0) == Cached(p, e) + WantedAll(p, items)
    decreases |items|
  {
    if items == [] {
      assert WantedAll(p, items) == {};
    } else {
      var init := items[..|items| - 1];
      LoadAllCached(e, p, init, load);
      LoadItemCache(LoadAll(e, p, init, load).value.0, p, items[|items| - 1], load);
      WantedAllStep(p, items);
    }
  }

  /** `q` counts the keys the visits ask for that were not cached before the call. */
  lemma {:induction false} LoadAllCount(e: Entry, p: Product, items: seq<VisitItem>, load: Loader)
    requires Kinded(p, e) && LoadAll(e, p, items, load).Ok?
    ensures LoadAll(e, p, items, load).value.1 == |WantedAll(p, items) - Cached(p, e)|
    decreases |items|
  {
    if items == [] {
      assert WantedAll(p, items) == {};
    } else {
      var init := items[..|items| - 1];
      var x := items[|items| - 1];
      var prev := LoadAll(e, p, init, load).value;
      LoadAllCount(e, p, init, load);
      LoadAllCached(e, p, init, load);
      LoadItemCache(prev.0, p, x, load);
      WantedAllStep(p, items);
      CountStep(WantedAll(p, init), Cached(p, e), Wanted(p, x));
    }
  }

  /** A loop over visits whose keys are all cached loads nothing and leaves the entry as it was. */
  lemma {:induction false} LoadAllCachedNoop(e: Entry, p: Product, items: seq<VisitItem>, load: Loader)
    requires Kinded(p, e) && !p.kind.OtherKind?
    requires WantedAll(p, items) <= Cached(p, e)
    ensures LoadAll(e, p, items, load) == Ok((e, 0))
    decreases |items|
  {
    if items != [] {
      WantedAllStep(p, items);
      LoadAllCachedNoop(e, p, items[..|items| - 1], load);
    }
  }

  /** Loading twice: the second call finds everything cached. */
  lemma LoadTwice(e: Entry, p: Product, items: seq<VisitItem>, load: Loader)
    requires Kinded(p, e) && LoadAll(e, p, items, load).Ok?
    ensures var e' := LoadAll(e, p, items, load).value.0;
      LoadAll(e', p, items, load) == Ok((e', 0))
  {
    if items != [] {
      LoadAllFails(e, p, items, load);
      LoadAllCached(e, p, items, load);
      LoadAllCachedNoop(LoadAll(e, p, items, load).value.0, p, items, load);
    }
  }

  // ---------------------------------------------------------------------
  // Reading one spectrum

  /** `PfsSpectrumReader.is_available`, for a fiber array (set) and for a design. */
  datatype Reader = Reader(available: (Data, char) -> bool, designHas: (Data, char, Option<Value>) -> bool)

  /** A spectrum: the loaded products it was filled from, in reading order. */
  datatype Spectrum = Spectrum(sources: seq<Data>)

  /**
   * `product_cache[t][visit]`, and `[objId]` for a single-object product.
   * No cache at all is a TypeError, a missing key a KeyError.
   */
  function Lookup(c: Option<Cache>, t: Product, visit: int, key: Option<Value>): (r: Result<Data>)
    ensures c.None? ==> r == Fail(TypeError)
  {
    if c.None? then Fail(TypeError)
    else if t !in c.value || visit !in c.value[t] then Fail(KeyError)
    else
      match c.value[t][visit]
      case PerObject(objects) =>
        if t.kind != FiberArray then Fail(TypeError)
        else if key in objects then Ok(objects[key]) else Fail(KeyError)
      case Whole(d) => if t.kind == FiberArray then Fail(TypeError) else Ok(d)
  }

  /**
   * The first loop of `__read_spectrum` from product `i` on: each design is
   * read if it has the object in this arm; one that does not ends the
   * read (None stands for returning `(False, None)`).
   */
  function DesignPass(c: Option<Cache>, products: seq<Product>, rd: Reader, visit: int, arm: char, key: Option<Value>,
                      i: nat, read: seq<Data>): Result<Option<seq<Data>>>
    requires i <= |products|
    decreases |products| - i
  {
    if i == |products| then Ok(Some(read))
    else if !products[i].kind.DesignKind? then DesignPass(c, products, rd, visit, arm, key, i + 1, read)
    else
      match Lookup(c, products[i], visit, key)
      case Fail(e) => Fail(e)
      case Ok(d) =>
        if rd.designHas(d, arm, key) then DesignPass(c, products, rd, visit, arm, key, i + 1, read + [d])
        else Ok(None)
  }

  /**
   * The second loop from product `i` on: each fiber array (set) is read
   * if it has the arm, which sets `found`; designs are passed over; any
   * other type raises NotImplementedError.
   */
  function ArrayPass(c: Option<Cache>, products: seq<Product>, rd: Reader, visit: int, arm: char, key: Option<Value>,
                     i: nat, read: seq<Data>, found: bool): Result<Option<(bool, seq<Data>)>>
    requires i <= |products|
    decreases |products| - i
  {
    if i == |products| then Ok(Some((found, read)))
    else
      match products[i].kind
      case DesignKind(_) => ArrayPass(c, products, rd, visit, arm, key, i + 1, read, found)
      case OtherKind(_) => Fail(NotImplementedError)
      case _ =>
        match Lookup(c, products[i], visit, key)
        case Fail(e) => Fail(e)
        case Ok(d) =>
          if rd.available(d, arm) then ArrayPass(c, products, rd, visit, arm, key, i + 1, read + [d], true)
          else Ok(None)
  }

  /** `__read_spectrum`: `(found, spec)`, or the exception it raises. */
  function ReadSpectrumOf(c: Option<Cache>, products: seq<Product>, rd: Reader, visit: int, arm: char, key: Option<Value>)
    : Result<(bool, Option<Spectrum>)>
  {
    match DesignPass(c, products, rd, visit, arm, key, 0, [])
    case Fail(e) => Fail(e)
    case Ok(None) => Ok((false, None))
    case Ok(Some(read)) =>
      match ArrayPass(c, products, rd, visit, arm, key, 0, read, false)
      case Fail(e) => Fail(e)
      case Ok(None) => Ok((false, None))
      case Ok(Some(res)) => Ok((res.0, Some(Spectrum(res.1))))
  }

  predicate IsArray(t: Product) {
    t.kind == FiberArray || t.kind == FiberArraySet
  }

  /** Every product is loaded for this visit and of a known type. */
  predicate Ready(c: Option<Cache>, products: seq<Product>, visit: int, key: Option<Value>) {
    forall i :: 0 <= i < |products| ==> !products[i].kind.OtherKind? && Lookup(c, products[i], visit, key).Ok?
  }

  /** Product `i` holds the arm (for a design: holds the object in the arm). */
  predicate Holds(c: Option<Cache>, products: seq<Product>, rd: Reader, visit: int, arm: char, key: Option<Value>, i: nat)
    requires i < |products| && Lookup(c, products[i], visit, key).Ok?
  {
    var d := Lookup(c, products[i], visit, key).value;
    if products[i].kind.DesignKind? then rd.designHas(d, arm, key) else rd.available(d, arm)
  }

  lemma {:induction false} DesignPassReady(c: Option<Cache>, products: seq<Product>, rd: Reader, visit: int, arm: char,
                                          key: Option<Value>, i: nat, read: seq<Data>)
    requires i <= |products| && Ready(c, products, visit, key)
    ensures DesignPass(c, products, rd, visit, arm, key, i, read).Ok?
    ensures DesignPass(c, products, rd, visit, arm, key, i, read).value.Some? <==>
      forall j :: i <= j < |products| && products[j].kind.DesignKind? ==> Holds(c, products, rd, visit, arm, key, j)
    decreases |products| - i
  {
    if i < |products| {
      DesignPassReady(c, products, rd, visit, arm, key, i + 1, read);
      if products[i].kind.DesignKind? {
        DesignPassReady(c, products, rd, visit, arm, key, i + 1, read + [Lookup(c, products[i], visit, key).value]);
      }
    }
  }

  lemma {:induction false} ArrayPassReady(c: Option<Cache>, products: seq<Product>, rd: Reader, visit: int, arm: char,
                                         key: Option<Value>, i: nat, read: seq<Data>, found: bool)
    requires i <= |products| && Ready(c, products, visit, key)
    ensures ArrayPass(c, products, rd, visit, arm, key, i, read, found).Ok?
    ensures ArrayPass(c, products, rd, visit, arm, key, i, read, found).value.Some? <==>
      forall j :: i <= j < |products| && IsArray(products[j]) ==> Holds(c, products, rd, visit, arm, key, j)
    ensures ArrayPass(c, products, rd, visit, arm, key, i, read, found).value.Some? ==>
      (ArrayPass(c, products, rd, visit, arm, key, i, read, found).value.value.0 <==>
        found || exists j :: i <= j < |products| && IsArray(products[j]))
    decreases |products| - i
  {
    if i < |products| {
      ArrayPassReady(c, products, rd, visit, arm, key, i + 1, read, found);
      if IsArray(products[i]) {
        ArrayPassReady(c, products, rd, visit, arm, key, i + 1, read + [Lookup(c, products[i], visit, key).value], true);
      }
    }
  }

  /**
   * With every product loaded and known, the read gives `(False, None)`
   * exactly when some product lacks the arm, and otherwise reports a
   * spectrum found exactly when a fiber array (set) is among the products.
   */
  lemma ReadSpectrumMeaning(c: Option<Cache>, products: seq<Product>, rd: Reader, visit: int, arm: char, key: Option<Value>)
    requires Ready(c, products, visit, key)
    ensures var r := ReadSpectrumOf(c, products, rd, visit, arm, key);
      r.Ok? &&
      (r.value.1.None? <==> exists j :: 0 <= j < |products| && !Holds(c, products, rd, visit, arm, key, j)) &&
      (r.value.1.None? ==> !r.value.0) &&
      (r.value.1.Some? ==> (r.value.0 <==> exists j :: 0 <= j < |products| && IsArray(products[j])))
  {
    DesignPassReady(c, products, rd, visit, arm, key, 0, []);
    var dp := DesignPass(c, products, rd, visit, arm, key, 0, []);
    if dp.value.Some? {
      ArrayPassReady(c, products, rd, visit, arm, key, 0, dp.value.value, false);
    }
  }

  lemma {:induction false} ArrayPassFound(c: Option<Cache>, products: seq<Product>, rd: Reader, visit: int, arm: char,
                                         key: Option<Value>, i: nat, read: seq<Data>)
    requires i <= |products|
    requires var r := ArrayPass(c, products, rd, visit, arm, key, i, read, false); r.Ok? && r.value.Some? && r.value.value.0
    ensures exists j :: i <= j < |products| && IsArray(products[j])
    decreases |products| - i
  {
    if IsArray(products[i]) {
    } else {
      ArrayPassFound(c, products, rd, visit, arm, key, i + 1, read);
    }
  }

  /** Whatever else holds, a spectrum reported found was read from at least one fiber array (set). */
  lemma ReadSpectrumFound(c: Option<Cache>, products: seq<Product>, rd: Reader, visit: int, arm: char, key: Option<Value>)
    requires var r := ReadSpectrumOf(c, products, rd, visit, arm, key); r.Ok? && r.value.0
    ensures exists j :: 0 <= j < |products| && IsArray(products[j])
  {
    var dp := DesignPass(c, products, rd, visit, arm, key, 0, []);
    ArrayPassFound(c, products, rd, visit, arm, key, 0, dp.value.value);
  }

  /** `__read_spectrum`: the design loop, then the fiber-array loop, each with an early return. */
  method ReadSpectrum(c: Option<Cache>, products: seq<Product>, rd: Reader, visit: int, arm: char, key: Option<Value>)
    returns (r: Result<(bool, Option<Spectrum>)>)
    ensures r == ReadSpectrumOf(c, products, rd, visit, arm, key)
  {
    var read: seq<Data> := [];
    var found := false;
    var i := 0;
    while i < |products|
      invariant 0 <= i <= |products|
      invariant DesignPass(c, products, rd, visit, arm, key, 0, []) == DesignPass(c, products, rd, visit, arm, key, i, read)
    {
      if products[i].kind.DesignKind? {
        var d := Lookup(c, products[i], visit, key);
        if d.Fail? {
          return Fail(d.error);
        }
        if !rd.designHas(d.value, arm, key) {
          return Ok((false, None));
        }
        read := read + [d.value];
      }
      i := i + 1;
    }
    ghost var designRead := read;
    i := 0;
    while i < |products|
      invariant 0 <= i <= |products|
      invariant ArrayPass(c, products, rd, visit, arm, key, 0, designRead, false) == ArrayPass(c, products, rd, visit, arm, key, i, read, found)
    {
      var t := products[i];
      if t.kind.OtherKind? {
        return Fail(NotImplementedError);
      } else if !t.kind.DesignKind? {
        var d := Lookup(c, t, visit, key);
        if d.Fail? {
          return Fail(d.error);
        }
        if !rd.available(d.value, arm) {
          return Ok((false, None));
        }
        read := read + [d.value];
        found := true;
      }
      i := i + 1;
    }
    r := Ok((found, Some(Spectrum(read))));
  }

  // ---------------------------------------------------------------------
  // read_spectra

  /** What `read_spectra` stores for one (visit, arm): the spectrum when found, None otherwise. */
  function Stored(r: (bool, Option<Spectrum>)): Option<Spectrum> {
    if r.0 then r.1 else None
  }

  /** The spectra of every arm and visit: `spectra[arm][visit]`. */
  type Spectra = map<char, map<int, Option<Spectrum>>>

  /** `__read_spectrum` for the (visit, arm) pairs of one object, with the cache, products and reader fixed. */
  type CellReader = (int, char) -> Result<(bool, Option<Spectrum>)>

  function CellsOf(c: Option<Cache>, products: seq<Product>, rd: Reader, key: Option<Value>): CellReader {
    (visit: int, arm: char) => ReadSpectrumOf(c, products, rd, visit, arm, key)
  }

  /** The number of arms among `arms` in which the spectrum of `visit` is found. */
  function FoundIn(cell: CellReader, visit: int, arms: seq<char>): (n: nat)
    ensures n <= |arms|
  {
    if arms == [] then 0
    else
      var r := cell(visit, arms[|arms| - 1]);
      FoundIn(cell, visit, arms[..|arms| - 1]) + if r.Ok? && r.value.0 then 1 else 0
  }

  /** The number of (visit, arm) pairs whose spectrum is found. */
  function FoundCount(cell: CellReader, items: seq<VisitItem>, arms: seq<char>): (n: nat)
    ensures n <= |items| * |arms|
  {
    if items == [] then 0
    else FoundCount(cell, items[..|items| - 1], arms) + FoundIn(cell, items[|items| - 1].visit, arms)
  }

  // ---------------------------------------------------------------------
  // Arms and paths

  /** The arm letters of one visit's product: observed arms of a single-object product, the set's arms, none for a design. */
  function ArmsAt(c: Option<Cache>, p: Product, visit: int, key: Option<Value>): Result<set<char>> {
    if !IsArray(p) then Ok({})
    else
      var d := Lookup(c, p, visit, key);
      if d.Fail? then Fail(d.error) else Ok(set a | a in d.value.arms)
  }

  /** `get_avail_arms`: the union of the arm letters over the visits. */
  function AvailArms(c: Option<Cache>, p: Product, items: seq<VisitItem>): (r: Result<set<char>>)
    ensures r.Ok? ==> forall i :: 0 <= i < |items| ==> ArmsAt(c, p, items[i].visit, ObjKey(items[i])).Ok?
    ensures r.Ok? ==> forall a :: a in r.value <==>
      exists i :: 0 <= i < |items| && ArmsAt(c, p, items[i].visit, ObjKey(items[i])).Ok? &&
        a in ArmsAt(c, p, items[i].visit, ObjKey(items[i])).value
    ensures r.Fail? ==> exists i :: 0 <= i < |items| && ArmsAt(c, p, items[i].visit, ObjKey(items[i])) == Fail(r.error)
    decreases |items|
  {
    if items == [] then Ok({})
    else
      var n := |items| - 1;
      var prev := AvailArms(c, p, items[..n]);
      var here := ArmsAt(c, p, items[n].visit, ObjKey(items[n]));
      if prev.Fail? then
        var i :| 0 <= i < n && ArmsAt(c, p, items[..n][i].visit, ObjKey(items[..n][i])) == Fail(prev.error);
        assert items[..n][i] == items[i];
        prev
      else if here.Fail? then Fail(here.error)
      else
        assert forall i :: 0 <= i < n ==> items[..n][i] == items[i];
        Ok(prev.value + here.value)
  }

  /** `get_product_logdir` and `get_product_figdir`: the work directory, joined with the subdirectory when one is set. */
  function SubDir(workdir: string, sub: Option<string>): string {
    if sub.Some? then Locator.JoinPath(workdir, sub.value) else workdir
  }

  /** The index of the last `c` in `s`, or -1. */
  function LastIndex(s: string, c: char): (i: int)
    ensures -1 <= i < |s|
    ensures i >= 0 ==> s[i] == c
    ensures forall j :: i < j < |s| ==> s[j] != c
  {
    if s == [] then -1
    else if s[|s| - 1] == c then |s| - 1
    else LastIndex(s[..|s| - 1], c)
  }

  /**
   * `os.path.splitext`: the extension starts at the last dot of the last
   * component, unless only dots precede it in that component.
   */
  function SplitExt(p: string): (r: (string, string))
    ensures r.0 + r.1 == p
    ensures r.1 == [] || (r.1[0] == '.' && '/' !in r.1 && '.' !in r.1[1..])
  {
    var sep := LastIndex(p, '/');
    var dot := LastIndex(p, '.');
    if dot > sep && exists j :: sep < j < dot && p[j] != '.' then
      assert p[..dot] + p[dot..] == p;
      assert p[dot..][1..] == p[dot + 1..];
      assert forall k :: 0 <= k < |p[dot..]| ==> p[dot..][k] == p[dot + k];
      (p[..dot], p[dot..])
    else (p, [])
  }

  /** `get_product_logfile`: the log directory, then the configuration file's name with `.log` for its extension. */
  function LogFile(workdir: string, logdir: Option<string>, filename: string): string {
    Locator.JoinPath(SubDir(workdir, logdir), SplitExt(filename).0 + ".log")
  }

  /** Some character after the last `/` of `s` is not a dot. */
  predicate NamedStem(s: string) {
    exists j :: LastIndex(s, '/') < j < |s| && s[j] != '.'
  }

  /** The last `c` of `a + b` is the last one of `b` when `b` has one, else the last one of `a`. */
  lemma {:induction false} LastIndexConcat(a: string, b: string, c: char)
    ensures LastIndex(a + b, c) == if LastIndex(b, c) >= 0 then |a| + LastIndex(b, c) else LastIndex(a, c)
    decreases |b|
  {
    if b == [] {
      assert a + b == a;
    } else {
      assert (a + b)[..|a + b| - 1] == a + b[..|b| - 1];
      LastIndexConcat(a, b[..|b| - 1], c);
    }
  }

  lemma {:induction false} LastIndexAbsent(s: string, c: char)
    requires c !in s
    ensures LastIndex(s, c) == -1
    decreases |s|
  {
    if s != [] {
      assert s[..|s| - 1] <= s;
      LastIndexAbsent(s[..|s| - 1], c);
    }
  }

  /** `".log"` appended to a name with a stem splits back into that name and `.log`. */
  lemma SplitLog(s: string)
    requires NamedStem(s)
    ensures SplitExt(s + ".log") == (s, ".log")
  {
    LogShape();
    SplitAppended(s, ".log");
  }

  /** An extension: a dot, then no further dot and no slash. */
  predicate ExtShape(ext: string) {
    |ext| >= 1 && ext[0] == '.' &&
    (forall k :: 1 <= k < |ext| ==> ext[k] != '.') && forall k :: 0 <= k < |ext| ==> ext[k] != '/'
  }

  lemma LogShape()
    ensures ExtShape(".log")
  {
    var ext := ".log";
    assert ext[0] == '.' && ext[1] == 'l' && ext[2] == 'o' && ext[3] == 'g';
  }

  /** An extension appended to a name with a stem splits back off. */
  lemma SplitAppended(s: string, ext: string)
    requires NamedStem(s) && ExtShape(ext)
    ensures SplitExt(s + ext) == (s, ext)
  {
    var p := s + ext;
    ExtIndices(s, ext);
    var j :| LastIndex(s, '/') < j < |s| && s[j] != '.';
    assert p[j] == s[j];
    assert p[..|s|] == s;
    assert p[|s|..] == ext;
  }

  /** In `s + ext` the last slash is that of `s` and the last dot starts `ext`. */
  lemma ExtIndices(s: string, ext: string)
    requires ExtShape(ext)
    ensures LastIndex(s + ext, '/') == LastIndex(s, '/')
    ensures LastIndex(s + ext, '.') == |s|
  {
    LastIndexPast(s, ext, '/');
    LastIndexConcat(s, ext, '.');
    var i := LastIndex(ext, '.');
    assert i == 0;
  }

  /** Appending text without `c` keeps the last `c`. */
  lemma LastIndexPast(s: string, t: string, c: char)
    requires forall k :: 0 <= k < |t| ==> t[k] != c
    ensures LastIndex(s + t, c) == LastIndex(s, c)
  {
    LastIndexConcat(s, t, c);
    LastIndexAbsent(t, c);
  }

  /** A path ending in a named component ends in one after `os.path.join` too. */
  lemma JoinNamed(d: string, s: string)
    requires NamedStem(s)
    ensures NamedStem(Locator.JoinPath(d, s))
  {
    var r := Locator.JoinPath(d, s);
    var j :| LastIndex(s, '/') < j < |s| && s[j] != '.';
    if r != s {
      var pre := r[..|r| - |s|];
      assert r == pre + s;
      var k := |pre| + j;
      assert r[k] == s[j];
      LastIndexConcat(pre, s, '/');
    }
  }

  /**
   * The log file splits into the log directory joined with the
   * configuration file's stem, and the extension `.log`.
   */
  lemma LogFileExtension(workdir: string, logdir: Option<string>, filename: string)
    requires NamedStem(SplitExt(filename).0)
    ensures SplitExt(LogFile(workdir, logdir, filename)) ==
      (Locator.JoinPath(SubDir(workdir, logdir), SplitExt(filename).0), ".log")
  {
    var d := SubDir(workdir, logdir);
    var stem := SplitExt(filename).0;
    var joined := Locator.JoinPath(d, stem);
    assert Locator.JoinPath(d, stem + ".log") == joined + ".log";
    JoinNamed(d, stem);
    SplitLog(joined);
  }

  // ---------------------------------------------------------------------
  // The pipeline object

  /** What the pipeline reads from its configuration: the target, its observed visits, the configured arms and subdirectories. */
  datatype Settings = Settings(target: ObjectIdentity, visits: seq<int>, arms: set<char>, logdir: Option<string>, figdir: Option<string>)

  class Pipeline {
    var script: Option<string>
    var config: Option<Settings>
    var trace: Option<string>
    var repo: Option<string>
    var id: Option<string>
    var cache: Option<Cache>

    /** Every cached entry is shaped by its product's kind. */
    ghost predicate Valid()
      reads this
    {
      cache.Some? ==> forall p :: p in cache.value ==> Kinded(p, cache.value[p])
    }

    /** `GAPipeline(...)` followed by `reset()`: nothing is cached. */
    constructor (script: Option<string>, config: Option<Settings>, repo: Option<string>, trace: Option<string>, id: Option<string>)
      ensures Valid() && cache.None?
      ensures this.script == script && this.config == config && this.repo == repo && this.trace == trace && this.id == id
    {
      this.script := script;
      this.config := config;
      this.trace := trace;
      this.repo := repo;
      this.id := id;
      cache := None;
    }

    /** `update`: every argument given as None keeps the current value. */
    method Update(script: Option<string>, config: Option<Settings>, repo: Option<string>, trace: Option<string>, id: Option<string>)
      modifies this
      ensures this.script == (if script.Some? then script else old(this.script))
      ensures this.config == (if config.Some? then config else old(this.config))
      ensures this.repo == (if repo.Some? then repo else old(this.repo))
      ensures this.trace == (if trace.Some? then trace else old(this.trace))
      ensures this.id == (if id.Some? then id else old(this.id))
      ensures cache == old(cache)
    {
      if script.Some? { this.script := script; }
      if config.Some? { this.config := config; }
      if trace.Some? { this.trace := trace; }
      if repo.Some? { this.repo := repo; }
      if id.Some? { this.id := id; }
    }

    /** `reset`: the cache is dropped. */
    method Reset()
      modifies this
      ensures Valid() && cache.None?
      ensures script == old(script) && config == old(config) && repo == old(repo) && trace == old(trace) && id == old(id)
    {
      cache := None;
    }

    /** The cache entry of `p`, empty when there is none. */
    function EntryOf(p: Product): (e: Entry)
      reads this
      requires Valid()
      ensures Kinded(p, e)
    {
      if cache.Some? && p in cache.value then cache.value[p] else map[]
    }

    function CacheOrEmpty(): Cache
      reads this
    {
      if cache.Some? then cache.value else map[]
    }

    /**
     * `load_input_products(p)`: an entry for `p` is created if missing,
     * then the loop over the visits loads what is not cached and counts
     * it; an unknown product type raises at the first visit.
     */
    method LoadInputProducts(p: Product, load: Loader) returns (q: nat, failure: Option<Error>)
      requires Valid()
      modifies this
      ensures Valid()
      ensures script == old(script) && config == old(config) && repo == old(repo) && trace == old(trace) && id == old(id)
      ensures old(config).None? ==> failure == Some(AttributeError) && cache == Some(old(CacheOrEmpty())[p := old(EntryOf(p))])
      ensures old(config).Some? ==>
        var r := LoadAll(old(EntryOf(p)), p, EnumerateVisits(old(config).value.target, old(config).value.visits), load);
        (r.Ok? ==> failure.None? && q == r.value.1 && cache == Some(old(CacheOrEmpty())[p := r.value.0])) &&
        (r.Fail? ==> failure == Some(r.error) && cache == Some(old(CacheOrEmpty())[p := old(EntryOf(p))]))
    {
      var e0 := EntryOf(p);
      var c0 := CacheOrEmpty();
      cache := Some(c0[p := e0]);
      if config.None? {
        return 0, Some(AttributeError);
      }
      var e;
      e, q, failure := LoadLoop(e0, p, EnumerateVisits(config.value.target, config.value.visits), load);
      cache := Some(c0[p := e]);
    }

    /**
     * `read_spectra(products, arms)`: for every visit and every arm the
     * spectrum when found and None otherwise, counting both; an arm
     * missing from the configuration is a KeyError.
     */
    method ReadSpectra(products: seq<Product>, rd: Reader, arms: seq<char>)
      returns (spectra: Spectra, readCount: nat, skippedCount: nat, failure: Option<Error>)
      requires config.Some?
      ensures var s := config.value;
        var cell := CellsOf(cache, products, rd, IntEntry(s.target.objId));
        failure.None? ==>
          readCount + skippedCount == |s.visits| * |arms| &&
          readCount == FoundCount(cell, EnumerateVisits(s.target, s.visits), arms) &&
          spectra.Keys == (set a | a in arms) &&
          (forall a :: a in spectra ==> spectra[a].Keys == (set v | v in s.visits)) &&
          CellsRead(cell, s.arms, spectra)
      ensures var s := config.value;
        failure == GridFailure(CellsOf(cache, products, rd, IntEntry(s.target.objId)), EnumerateVisits(s.target, s.visits), arms, s.arms)
    {
      var s := config.value;
      var items := EnumerateVisits(s.target, s.visits);
      EnumeratedVisits(s.target, s.visits);
      assert Seen(items) == (set v | v in s.visits);
      var key := IntEntry(s.target.objId);
      spectra, readCount, skippedCount, failure := ReadGrid(cache, products, rd, arms, items, key, s.arms, CellsOf(cache, products, rd, key));
    }
  }

  /** The visits of `enumerate_visits` are the observed visits, each with the target's objId. */
  lemma EnumeratedVisits(target: ObjectIdentity, visits: seq<int>)
    ensures var items := EnumerateVisits(target, visits);
      forall v :: (exists i :: 0 <= i < |items| && items[i].visit == v) <==> v in visits
    ensures var items := EnumerateVisits(target, visits);
      forall i :: 0 <= i < |items| ==> ObjKey(items[i]) == IntEntry(target.objId)
  {
    var items := EnumerateVisits(target, visits);
    var vs := VisitsOf(items);
    forall v
      ensures (exists i :: 0 <= i < |items| && items[i].visit == v) <==> v in visits
    {
      if v in visits {
        assert v in multiset(vs);
        var i :| 0 <= i < |vs| && vs[i] == v;
      }
      if exists i :: 0 <= i < |items| && items[i].visit == v {
        var i :| 0 <= i < |items| && items[i].visit == v;
        assert vs[i] == v;
        assert v in multiset(visits);
      }
    }
  }

  /** The loop of `load_input_products` over the visits, on the product's entry. */
  method LoadLoop(e0: Entry, p: Product, items: seq<VisitItem>, load: Loader) returns (e: Entry, q: nat, failure: Option<Error>)
    requires Kinded(p, e0)
    ensures Kinded(p, e)
    ensures LoadAll(e0, p, items, load).Ok? ==> failure.None? && (e, q) == LoadAll(e0, p, items, load).value
    ensures LoadAll(e0, p, items, load).Fail? ==> failure == Some(LoadAll(e0, p, items, load).error) && e == e0
  {
    e, q := e0, 0;
    var i := 0;
    while i < |items|
      invariant 0 <= i <= |items| && Kinded(p, e)
      invariant LoadAll(e0, p, items[..i], load) == Ok((e, q))
    {
      LoadAllStep(e0, p, items, i, load, e, q);
      var it := items[i];
      match p.kind {
        case FiberArray =>
          var objects := if it.visit in e then e[it.visit].objects else map[];
          if ObjKey(it) !in objects {
            e := e[it.visit := PerObject(objects[ObjKey(it) := load(p, it.identity)])];
            q := q + 1;
          }
        case FiberArraySet =>
          if it.visit !in e {
            e := e[it.visit := Whole(load(p, it.identity))];
            q := q + 1;
          }
        case DesignKind(_) =>
          if it.visit !in e {
            e := e[it.visit := Whole(load(p, it.identity))];
            q := q + 1;
          }
        case OtherKind(_) =>
          LoadAllFails(e0, p, items[..i], load);
          assert items[..i] == [];
          LoadFailureSticks(e0, p, items, 1, load);
          return e, q, Some(NotImplementedError);
      }
      i := i + 1;
    }
    assert items[..i] == items;
    failure := None;
  }

  /** The visits of the first items. */
  function Seen(items: seq<VisitItem>): (vs: set<int>)
    ensures forall v :: v in vs <==> exists i :: 0 <= i < |items| && items[i].visit == v
  {
    set i | 0 <= i < |items| :: items[i].visit
  }

  /** Every stored cell holds what `__read_spectrum` gives for its visit and arm, and its arm is configured. */
  ghost predicate CellsRead(cell: CellReader, configured: set<char>, spectra: Spectra) {
    forall a, v :: a in spectra && v in spectra[a] ==>
      a in configured && cell(v, a).Ok? && spectra[a][v] == Stored(cell(v, a).value)
  }

  /** What one more visit adds to the counts and to the visits seen. */
  lemma GridStep(cell: CellReader, items: seq<VisitItem>, i: nat, arms: seq<char>)
    requires i < |items|
    ensures FoundCount(cell, items[..i + 1], arms) == FoundCount(cell, items[..i], arms) + FoundIn(cell, items[i].visit, arms)
    ensures Seen(items[..i + 1]) == Seen(items[..i]) + {items[i].visit}
    ensures (i + 1) * |arms| == i * |arms| + |arms|
  {
    FoundCountStep(cell, items, i, arms);
    SeenStep(items, i);
    assert (i + 1) * |arms| == i * |arms| + |arms|;
  }

  lemma FoundCountStep(cell: CellReader, items: seq<VisitItem>, i: nat, arms: seq<char>)
    requires i < |items|
    ensures FoundCount(cell, items[..i + 1], arms) == FoundCount(cell, items[..i], arms) + FoundIn(cell, items[i].visit, arms)
  {
    assert items[..i + 1][..i] == items[..i];
  }

  lemma SeenStep(items: seq<VisitItem>, i: nat)
    requires i < |items|
    ensures Seen(items[..i + 1]) == Seen(items[..i]) + {items[i].visit}
  {
    assert items[..i + 1] == items[..i] + [items[i]];
  }

  /**
   * The error `read_spectra` raises at (visit, arm): KeyError for an arm
   * the configuration lacks, otherwise the error of `__read_spectrum`.
   */
  ghost predicate Raised(cell: CellReader, visit: int, a: char, configured: set<char>, e: Error) {
    if a !in configured then e == KeyError else cell(visit, a) == Fail(e)
  }

  /** The exception `read_spectra` raises for one visit: that of its first arm, in order, that raises. */
  function RowFailure(cell: CellReader, visit: int, arms: seq<char>, configured: set<char>): Option<Error> {
    RowFailureFrom(cell, visit, arms, 0, configured)
  }

  /** The same from arm `j` on. */
  function RowFailureFrom(cell: CellReader, visit: int, arms: seq<char>, j: nat, configured: set<char>): Option<Error>
    requires j <= |arms|
    decreases |arms| - j
  {
    if j == |arms| then None
    else if arms[j] !in configured then Some(KeyError)
    else
      match cell(visit, arms[j])
      case Fail(e) => Some(e)
      case Ok(_) => RowFailureFrom(cell, visit, arms, j + 1, configured)
  }

  /** The exception `read_spectra` raises: that of its first visit, in order, that raises. */
  function GridFailure(cell: CellReader, items: seq<VisitItem>, arms: seq<char>, configured: set<char>): Option<Error> {
    if items == [] then None
    else
      var f := RowFailure(cell, items[0].visit, arms, configured);
      if f.Some? then f else GridFailure(cell, items[1..], arms, configured)
  }

  /**
   * A visit's row raises exactly when some arm raises; the error is that
   * of the first such arm.
   */
  lemma {:induction false} RowFailureMeaning(cell: CellReader, visit: int, arms: seq<char>, configured: set<char>)
    ensures RowFailure(cell, visit, arms, configured).None? <==>
      forall j :: 0 <= j < |arms| ==> arms[j] in configured && cell(visit, arms[j]).Ok?
    ensures RowFailure(cell, visit, arms, configured).Some? ==>
      exists j :: 0 <= j < |arms| && Raised(cell, visit, arms[j], configured, RowFailure(cell, visit, arms, configured).value) &&
        forall k :: 0 <= k < j ==> arms[k] in configured && cell(visit, arms[k]).Ok?
  {
    RowFailureFromMeaning(cell, visit, arms, 0, configured);
  }

  lemma {:induction false} RowFailureFromMeaning(cell: CellReader, visit: int, arms: seq<char>, j: nat, configured: set<char>)
    requires j <= |arms|
    ensures RowFailureFrom(cell, visit, arms, j, configured).None? <==>
      forall k :: j <= k < |arms| ==> arms[k] in configured && cell(visit, arms[k]).Ok?
    ensures RowFailureFrom(cell, visit, arms, j, configured).Some? ==>
      exists i :: j <= i < |arms| && Raised(cell, visit, arms[i], configured, RowFailureFrom(cell, visit, arms, j, configured).value) &&
        forall k :: j <= k < i ==> arms[k] in configured && cell(visit, arms[k]).Ok?
    decreases |arms| - j
  {
    if j < |arms| {
      RowFailureFromMeaning(cell, visit, arms, j + 1, configured);
      var f := RowFailureFrom(cell, visit, arms, j, configured);
      if arms[j] !in configured || cell(visit, arms[j]).Fail? {
        assert Raised(cell, visit, arms[j], configured, f.value);
      }
    }
  }

  /**
   * `read_spectra` raises exactly when some visit's row raises; the error
   * is that of the first such visit.
   */
  lemma {:induction false} GridFailureMeaning(cell: CellReader, items: seq<VisitItem>, arms: seq<char>, configured: set<char>)
    ensures GridFailure(cell, items, arms, configured).None? <==>
      forall i :: 0 <= i < |items| ==> RowFailure(cell, items[i].visit, arms, configured).None?
    ensures GridFailure(cell, items, arms, configured).Some? ==>
      exists i :: 0 <= i < |items| &&
        GridFailure(cell, items, arms, configured) == RowFailure(cell, items[i].visit, arms, configured) &&
        forall k :: 0 <= k < i ==> RowFailure(cell, items[k].visit, arms, configured).None?
    decreases |items|
  {
    if items != [] {
      GridFailureMeaning(cell, items[1..], arms, configured);
      var f := GridFailure(cell, items, arms, configured);
      if RowFailure(cell, items[0].visit, arms, configured).None? && f.Some? {
        var i :| 0 <= i < |items[1..]| &&
          f == RowFailure(cell, items[1..][i].visit, arms, configured) &&
          forall k :: 0 <= k < i ==> RowFailure(cell, items[1..][k].visit, arms, configured).None?;
        assert f == RowFailure(cell, items[i + 1].visit, arms, configured);
      }
    }
  }

  /** When no visit before `i` raises, `read_spectra` raises what visit `i` raises, or nothing once all are read. */
  lemma {:induction false} FirstGridFailure(cell: CellReader, items: seq<VisitItem>, i: nat, arms: seq<char>, configured: set<char>)
    requires i <= |items|
    requires forall k :: 0 <= k < i ==> RowFailure(cell, items[k].visit, arms, configured).None?
    requires i < |items| ==> RowFailure(cell, items[i].visit, arms, configured).Some?
    ensures GridFailure(cell, items, arms, configured) == if i == |items| then None else RowFailure(cell, items[i].visit, arms, configured)
    decreases i
  {
    if i > 0 {
      FirstGridFailure(cell, items[1..], i - 1, arms, configured);
    }
  }

  /** The cells of one visit's row hold what `__read_spectrum` gives for their arm, and every arm is configured. */
  ghost predicate RowRead(cell: CellReader, visit: int, configured: set<char>, row: map<char, Option<Spectrum>>) {
    forall a :: a in row ==> a in configured && cell(visit, a).Ok? && row[a] == Stored(cell(visit, a).value)
  }

  /** `spectra[arm][visit] = ...` for every arm of one visit's row. */
  function StoreRow(spectra: Spectra, row: map<char, Option<Spectrum>>, visit: int): (r: Spectra)
    requires spectra.Keys == row.Keys
    ensures r.Keys == spectra.Keys
    ensures forall a :: a in r ==> r[a].Keys == spectra[a].Keys + {visit}
  {
    map a | a in spectra :: spectra[a][visit := row[a]]
  }

  lemma StoreRowRead(cell: CellReader, configured: set<char>, spectra: Spectra, row: map<char, Option<Spectrum>>, visit: int)
    requires spectra.Keys == row.Keys && CellsRead(cell, configured, spectra)
    requires RowRead(cell, visit, configured, row)
    ensures CellsRead(cell, configured, StoreRow(spectra, row, visit))
  {
  }

  /** What the loop over the visits of `read_spectra` has built after the first `i` visits. */
  ghost predicate GridAt(cell: CellReader, items: seq<VisitItem>, i: nat, arms: seq<char>, configured: set<char>,
                         spectra: Spectra, readCount: nat, skippedCount: nat)
    requires i <= |items|
  {
    readCount + skippedCount == i * |arms| &&
    readCount == FoundCount(cell, items[..i], arms) &&
    spectra.Keys == (set a | a in arms) &&
    (forall a :: a in spectra ==> spectra[a].Keys == Seen(items[..i])) &&
    CellsRead(cell, configured, spectra) &&
    forall k :: 0 <= k < i ==> RowFailure(cell, items[k].visit, arms, configured).None?
  }

  /**
   * The two loops of `read_spectra` over the visits and the arms: every
   * cell's stored spectrum and the read and skipped counts, or the first
   * exception.
   */
  method ReadGrid(c: Option<Cache>, products: seq<Product>, rd: Reader, arms: seq<char>, items: seq<VisitItem>,
                  key: Option<Value>, configured: set<char>, ghost cell: CellReader)
    returns (spectra: Spectra, readCount: nat, skippedCount: nat, failure: Option<Error>)
    requires forall v, a {:trigger ReadSpectrumOf(c, products, rd, v, a, key)} :: cell(v, a) == ReadSpectrumOf(c, products, rd, v, a, key)
    ensures failure.None? ==>
      readCount + skippedCount == |items| * |arms| &&
      readCount == FoundCount(cell, items, arms) &&
      spectra.Keys == (set a | a in arms) &&
      (forall a :: a in spectra ==> spectra[a].Keys == Seen(items)) &&
      CellsRead(cell, configured, spectra)
    ensures failure == GridFailure(cell, items, arms, configured)
  {
    spectra := map a | a in arms :: map[];
    readCount, skippedCount := 0, 0;
    var i := 0;
    while i < |items|
      invariant 0 <= i <= |items|
      invariant GridAt(cell, items, i, arms, configured, spectra, readCount, skippedCount)
    {
      var f;
      spectra, readCount, skippedCount, f := ReadVisit(c, products, rd, arms, items, i, key, configured, cell, spectra, readCount, skippedCount);
      if f.Some? {
        return spectra, readCount, skippedCount, f;
      }
      i := i + 1;
    }
    assert items[..i] == items;
    FirstGridFailure(cell, items, i, arms, configured);
    failure := None;
  }

  /** One pass of the loop over the visits: the row of visit `i` stored and counted, or the exception it raises. */
  method ReadVisit(c: Option<Cache>, products: seq<Product>, rd: Reader, arms: seq<char>, items: seq<VisitItem>, i: nat,
                   key: Option<Value>, configured: set<char>, ghost cell: CellReader,
                   spectra: Spectra, readCount: nat, skippedCount: nat)
    returns (spectra': Spectra, readCount': nat, skippedCount': nat, failure: Option<Error>)
    requires forall v, a {:trigger ReadSpectrumOf(c, products, rd, v, a, key)} :: cell(v, a) == ReadSpectrumOf(c, products, rd, v, a, key)
    requires i < |items| && GridAt(cell, items, i, arms, configured, spectra, readCount, skippedCount)
    ensures failure.None? ==> GridAt(cell, items, i + 1, arms, configured, spectra', readCount', skippedCount')
    ensures failure.Some? ==> failure == GridFailure(cell, items, arms, configured)
  {
    var visit := items[i].visit;
    var row, found, f := ReadRow(c, products, rd, arms, visit, key, configured, cell);
    if f.Some? {
      FirstGridFailure(cell, items, i, arms, configured);
      return spectra, readCount, skippedCount, f;
    }
    GridStep(cell, items, i, arms);
    StoreRowRead(cell, configured, spectra, row, visit);
    spectra' := StoreRow(spectra, row, visit);
    readCount' := readCount + found;
    skippedCount' := skippedCount + (|arms| - found);
    failure := None;
  }

  /**
   * The inner loop of `read_spectra` for one visit: the stored value of
   * every arm and the number found, or the first exception.
   */
  method ReadRow(c: Option<Cache>, products: seq<Product>, rd: Reader, arms: seq<char>, visit: int, key: Option<Value>,
                 configured: set<char>, ghost cell: CellReader)
    returns (row: map<char, Option<Spectrum>>, found: nat, failure: Option<Error>)
    requires forall v, a {:trigger ReadSpectrumOf(c, products, rd, v, a, key)} :: cell(v, a) == ReadSpectrumOf(c, products, rd, v, a, key)
    ensures failure.None? ==>
      found == FoundIn(cell, visit, arms) &&
      row.Keys == (set a | a in arms) &&
      RowRead(cell, visit, configured, row)
    ensures failure == RowFailure(cell, visit, arms, configured)
  {
    row, found := map[], 0;
    var j := 0;
    while j < |arms|
      invariant 0 <= j <= |arms|
      invariant found == FoundIn(cell, visit, arms[..j])
      invariant row.Keys == (set a | a in arms[..j])
      invariant RowRead(cell, visit, configured, row)
      invariant RowFailure(cell, visit, arms, configured) == RowFailureFrom(cell, visit, arms, j, configured)
    {
      var arm := arms[j];
      if arm !in configured {
        return row, found, Some(KeyError);
      }
      var r := ReadSpectrum(c, products, rd, visit, arm, key);
      if r.Fail? {
        return row, found, Some(r.error);
      }
      assert r == cell(visit, arm);
      RowStep(cell, visit, arms, j);
      row := row[arm := Stored(r.value)];
      found := found + if r.value.0 then 1 else 0;
      j := j + 1;
    }
    assert arms[..j] == arms;
    failure := None;
  }

  /** Reading one more arm of the row: its arm joins the keys and its find joins the count. */
  lemma RowStep(cell: CellReader, visit: int, arms: seq<char>, j: nat)
    requires j < |arms|
    ensures forall a :: a in arms[..j + 1] <==> a in arms[..j] || a == arms[j]
    ensures FoundIn(cell, visit, arms[..j + 1]) ==
      FoundIn(cell, visit, arms[..j]) + if cell(visit, arms[j]).Ok? && cell(visit, arms[j]).value.0 then 1 else 0
  {
    assert arms[..j + 1][..j] == arms[..j] && arms[..j + 1] == arms[..j] + [arms[j]];
  }

  lemma {:induction false} LoadFailureSticks(e: Entry, p: Product, items: seq<VisitItem>, n: nat, load: Loader)
    requires Kinded(p, e) && n <= |items| && LoadAll(e, p, items[..n], load).Fail?
    ensures LoadAll(e, p, items, load) == LoadAll(e, p, items[..n], load)
    decreases |items| - n
  {
    if n < |items| {
      assert items[..n + 1][..n] == items[..n];
      LoadFailureSticks(e, p, items, n + 1, load);
    } else {
      assert items[..n] == items;
    }
  }
}
