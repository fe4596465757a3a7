/**
 * The configuration base class (config/config.py): loading from a
 * dictionary onto the members an object already has, the deep merge of
 * two dictionaries, and the wrapping of configuration dictionaries into
 * configuration classes.
 *
 * Python dictionaries keep insertion order and unique keys; a dictionary
 * is a sequence of (key, value) entries and a store `r[k] = v` replaces
 * the entry with key `k` in place or appends one.
 */
module Configs {
  import opened Wrappers

  /**
   * A configuration value: None, a scalar (kept as its text), a
   * dictionary, a list, or an instance of a configuration class with its
   * class name and members.
   */
  datatype Node =
    | Null
    | Scalar(text: string)
    | Dict(entries: seq<(string, Node)>)
    | List(items: seq<Node>)
    | Obj(cls: string, attrs: map<string, Node>)

  type Entries = seq<(string, Node)>

  function KeysOf(es: Entries): (ks: seq<string>)
    ensures |ks| == |es| && forall i :: 0 <= i < |es| ==> ks[i] == es[i].0
  {
    if es == [] then [] else [es[0].0] + KeysOf(es[1..])
  }

  /** The position of the entry with key `k` (the first, the only one in a dictionary). */
  function IndexOf(es: Entries, k: string): (i: nat)
    requires k in KeysOf(es)
    ensures i < |es| && es[i].0 == k && k !in KeysOf(es[..i])
  {
    if es[0].0 == k then 0
    else
      KeyInTail(es, k);
      var j := IndexOf(es[1..], k);
      IndexAfterHead(es, k, j);
      j + 1
  }

  /** A key that is not the first entry's is among the keys of the rest. */
  lemma KeyInTail(es: Entries, k: string)
    requires k in KeysOf(es) && es[0].0 != k
    ensures k in KeysOf(es[1..])
  {
    assert KeysOf(es) == [es[0].0] + KeysOf(es[1..]);
  }

  /** The first position of `k` in the rest, moved past the first entry. */
  lemma IndexAfterHead(es: Entries, k: string, j: nat)
    requires es != [] && es[0].0 != k
    requires j < |es[1..]| && es[1..][j].0 == k && k !in KeysOf(es[1..][..j])
    ensures j + 1 < |es| && es[j + 1].0 == k && k !in KeysOf(es[..j + 1])
  {
    assert es[..j + 1] == [es[0]] + es[1..][..j];
    assert KeysOf(es[..j + 1]) == [es[0].0] + KeysOf(es[1..][..j]);
  }

  /** `d[k]`. */
  function Get(es: Entries, k: string): Node
    requires k in KeysOf(es)
  {
    es[IndexOf(es, k)].1
  }

  /** `d[k] = v`: the entry for `k` is replaced where it stands, or added at the end. */
  function Put(es: Entries, k: string, v: Node): (r: Entries)
    ensures k in KeysOf(es) ==> KeysOf(r) == KeysOf(es)
    ensures k !in KeysOf(es) ==> KeysOf(r) == KeysOf(es) + [k]
  {
    if es == [] then [(k, v)]
    else if es[0].0 == k then
      assert KeysOf([(k, v)] + es[1..]) == [k] + KeysOf(es[1..]);
      assert KeysOf(es) == [k] + KeysOf(es[1..]);
      [(k, v)] + es[1..]
    else
      var rest := Put(es[1..], k, v);
      assert KeysOf(es) == [es[0].0] + KeysOf(es[1..]);
      assert KeysOf([es[0]] + rest) == [es[0].0] + KeysOf(rest);
      [es[0]] + rest
  }

  /** After a store the key holds the stored value. */
  lemma {:induction false} PutGet(es: Entries, k: string, v: Node)
    ensures k in KeysOf(Put(es, k, v)) && Get(Put(es, k, v), k) == v
  {
    if es != [] && es[0].0 != k {
      assert KeysOf(es) == [es[0].0] + KeysOf(es[1..]);
      PutGet(es[1..], k, v);
      assert KeysOf(Put(es, k, v)) == [es[0].0] + KeysOf(Put(es[1..], k, v));
    }
  }

  /** A store leaves every other key's value as it was. */
  lemma {:induction false} PutKeepsOthers(es: Entries, k: string, v: Node, j: string)
    requires j in KeysOf(es) && j != k
    ensures j in KeysOf(Put(es, k, v)) && Get(Put(es, k, v), j) == Get(es, j)
  {
    assert KeysOf(es) == [es[0].0] + KeysOf(es[1..]);
    if es[0].0 != k && es[0].0 != j {
      PutKeepsOthers(es[1..], k, v, j);
      assert KeysOf(Put(es, k, v)) == [es[0].0] + KeysOf(Put(es[1..], k, v));
    }
  }

  // ---------------------------------------------------------------------
  // The store loop shared by the dictionary builders

  /**
   * `r = {}; for k in kk: r[k] = f(k)`, stopping at the first key whose
   * value raises.
   */
  function StoreAll(f: string -> Result<Node>, kk: seq<string>): Result<Entries> {
    if kk == [] then Ok([])
    else
      var k := kk[|kk| - 1];
      match StoreAll(f, kk[..|kk| - 1])
      case Fail(e) => Fail(e)
      case Ok(r) =>
        match f(k)
        case Fail(e) => Fail(e)
        case Ok(v) => Ok(Put(r, k, v))
  }

  /** The loop fails iff one of the keys fails, and otherwise holds each key of `kk` once, with its value. */
  lemma {:induction false} StoreAllSpec(f: string -> Result<Node>, kk: seq<string>)
    ensures StoreAll(f, kk).Fail? <==> exists k :: k in kk && f(k).Fail?
    ensures StoreAll(f, kk).Ok? ==>
      var r := StoreAll(f, kk).value;
      (forall k :: k in KeysOf(r) <==> k in kk) && (forall k :: k in kk ==> Get(r, k) == f(k).value)
  {
    if kk != [] {
      var k, init := kk[|kk| - 1], kk[..|kk| - 1];
      assert kk == init + [k];
      StoreAllSpec(f, init);
      if StoreAll(f, init).Ok? && f(k).Ok? {
        var r := StoreAll(f, init).value;
        assert StoreAll(f, kk).value == Put(r, k, f(k).value);
        PutGet(r, k, f(k).value);
        forall j | j in KeysOf(r) && j != k
          ensures j in KeysOf(Put(r, k, f(k).value)) && Get(Put(r, k, f(k).value), j) == Get(r, j)
        {
          PutKeepsOthers(r, k, f(k).value, j);
        }
      }
    }
  }

  /** Once the loop has failed on a prefix of the keys, the keys after it do not matter. */
  lemma {:induction false} StoreAllFailureSticks(f: string -> Result<Node>, kk: seq<string>, m: nat)
    requires m <= |kk| && StoreAll(f, kk[..m]).Fail?
    ensures StoreAll(f, kk) == StoreAll(f, kk[..m])
    decreases |kk|
  {
    if m == |kk| {
      assert kk[..m] == kk;
    } else {
      var init := kk[..|kk| - 1];
      assert init[..m] == kk[..m];
      StoreAllFailureSticks(f, init, m);
    }
  }

  /** One more turn of the loop stores the next key's value. */
  lemma StoreAllStep(f: string -> Result<Node>, kk: seq<string>, n: nat)
    requires n < |kk| && StoreAll(f, kk[..n]).Ok? && f(kk[n]).Ok?
    ensures StoreAll(f, kk[..n + 1]) == Ok(Put(StoreAll(f, kk[..n]).value, kk[n], f(kk[n]).value))
  {
    assert kk[..n + 1][..n] == kk[..n];
  }

  /** One turn of the storing loop: a failure is the loop's result, a value is stored. */
  lemma StoreAllNext(f: string -> Result<Node>, kk: seq<string>, n: nat, acc: Entries, v: Result<Node>)
    requires n < |kk| && StoreAll(f, kk[..n]) == Ok(acc) && f(kk[n]) == v
    ensures v.Fail? ==> StoreAll(f, kk) == Fail(v.error)
    ensures v.Ok? ==> StoreAll(f, kk[..n + 1]) == Ok(Put(acc, kk[n], v.value))
  {
    if v.Fail? {
      StoreAllStopsAt(f, kk, n);
    } else {
      StoreAllStep(f, kk, n);
    }
  }

  /** A key that raises ends the loop with its error. */
  lemma StoreAllStopsAt(f: string -> Result<Node>, kk: seq<string>, n: nat)
    requires n < |kk| && StoreAll(f, kk[..n]).Ok? && f(kk[n]).Fail?
    ensures StoreAll(f, kk) == Fail(f(kk[n]).error)
  {
    var p := kk[..n + 1];
    assert p[..|p| - 1] == kk[..n] && p[|p| - 1] == kk[n];
    assert StoreAll(f, p) == Fail(f(kk[n]).error);
    StoreAllFailureSticks(f, kk, n + 1);
  }

  // ---------------------------------------------------------------------
  // __merge_dict

  /**
   * What `__merge_dict(a, b)` stores under one key `k` of `a` or `b`, or the
   * error it raises there: two dictionaries merge recursively, two other
   * values collide, a value on one side only is taken as it is. (The loop
   * never asks for a key of neither.)
   */
  function MergeKey(a: Entries, b: Entries, ignore: bool, k: string): Result<Node>
    decreases Dict(a), 0
  {
    if k in KeysOf(a) && k in KeysOf(b) then
      var i, j := IndexOf(a, k), IndexOf(b, k);
      if a[i].1.Dict? && b[j].1.Dict? then
        match MergeDicts(a[i].1.entries, b[j].1.entries, ignore)
        case Ok(r) => Ok(Dict(r))
        case Fail(e) => Fail(e)
      else if ignore then Ok(a[i].1)
      else Fail(ValueError)
    else if k in KeysOf(a) then Ok(Get(a, k))
    else if k in KeysOf(b) then Ok(Get(b, k))
    else Ok(Null)
  }

  function MergeKeyOf(a: Entries, b: Entries, ignore: bool): string -> Result<Node>
    decreases Dict(a), 1
  {
    k => MergeKey(a, b, ignore, k)
  }

  /** `__merge_dict(a, b, ignore_collisions)`: the loop over the keys of `a`, then those of `b`. */
  function MergeDicts(a: Entries, b: Entries, ignore: bool): Result<Entries>
    decreases Dict(a), 2
  {
    StoreAll(MergeKeyOf(a, b, ignore), KeysOf(a) + KeysOf(b))
  }

  /** `a` and `b` share a key whose values are not both dictionaries, here or in a nested pair of dictionaries. */
  predicate Collides(a: Entries, b: Entries)
    decreases Dict(a)
  {
    exists k :: k in KeysOf(a) && k in KeysOf(b) &&
      var i, j := IndexOf(a, k), IndexOf(b, k);
      (a[i].1.Dict? && b[j].1.Dict? ==> Collides(a[i].1.entries, b[j].1.entries))
  }

  /** The merge result holds exactly the keys of both inputs. */
  lemma MergeKeys(a: Entries, b: Entries, ignore: bool)
    requires MergeDicts(a, b, ignore).Ok?
    ensures forall k :: k in KeysOf(MergeDicts(a, b, ignore).value) <==> k in KeysOf(a) || k in KeysOf(b)
  {
    forall k | true
      ensures k in KeysOf(MergeDicts(a, b, ignore).value) <==> k in KeysOf(a) || k in KeysOf(b)
    {
      MergeAt(a, b, ignore, k);
    }
  }

  /**
   * Each key of a successful merge holds the recursive merge of two
   * dictionaries, the first input's value when a collision is ignored, or
   * the value of the one input that has it.
   */
  lemma MergeEntry(a: Entries, b: Entries, ignore: bool, k: string)
    requires MergeDicts(a, b, ignore).Ok? && (k in KeysOf(a) || k in KeysOf(b))
    ensures var r := MergeDicts(a, b, ignore).value;
      k in KeysOf(r) &&
      (k in KeysOf(a) && k !in KeysOf(b) ==> Get(r, k) == Get(a, k)) &&
      (k in KeysOf(b) && k !in KeysOf(a) ==> Get(r, k) == Get(b, k)) &&
      (k in KeysOf(a) && k in KeysOf(b) && Get(a, k).Dict? && Get(b, k).Dict? ==>
        Get(r, k).Dict? && MergeDicts(Get(a, k).entries, Get(b, k).entries, ignore) == Ok(Get(r, k).entries)) &&
      (k in KeysOf(a) && k in KeysOf(b) && !(Get(a, k).Dict? && Get(b, k).Dict?) ==>
        ignore && Get(r, k) == Get(a, k))
  {
    MergeAt(a, b, ignore, k);
  }

  /** One key of the merge result: present iff a key of `a` or `b`, and holding what `MergeKey` gives it. */
  lemma MergeAt(a: Entries, b: Entries, ignore: bool, k: string)
    requires MergeDicts(a, b, ignore).Ok?
    ensures var r := MergeDicts(a, b, ignore).value;
      (k in KeysOf(r) <==> k in KeysOf(a) || k in KeysOf(b)) &&
      (k in KeysOf(r) ==> MergeKey(a, b, ignore, k) == Ok(Get(r, k)))
  {
    var f, kk := MergeKeyOf(a, b, ignore), KeysOf(a) + KeysOf(b);
    StoreAllSpec(f, kk);
    assert f(k) == MergeKey(a, b, ignore, k);
  }

  /** Without `ignore_collisions` the merge raises ValueError exactly when the inputs collide somewhere. */
  lemma {:induction false} MergeFailsOnCollision(a: Entries, b: Entries)
    ensures MergeDicts(a, b, false).Fail? <==> Collides(a, b)
    ensures MergeDicts(a, b, false).Fail? ==> MergeDicts(a, b, false).error == ValueError
    decreases Dict(a)
  {
    var f, kk := MergeKeyOf(a, b, false), KeysOf(a) + KeysOf(b);
    StoreAllSpec(f, kk);
    forall k | k in kk
      ensures f(k) == MergeKey(a, b, false, k)
      ensures f(k).Fail? <==> (k in KeysOf(a) && k in KeysOf(b) &&
        var i, j := IndexOf(a, k), IndexOf(b, k);
        (a[i].1.Dict? && b[j].1.Dict? ==> Collides(a[i].1.entries, b[j].1.entries)))
      ensures f(k).Fail? ==> f(k).error == ValueError
    {
      if k in KeysOf(a) && k in KeysOf(b) {
        var i, j := IndexOf(a, k), IndexOf(b, k);
        if a[i].1.Dict? && b[j].1.Dict? {
          MergeFailsOnCollision(a[i].1.entries, b[j].1.entries);
        }
      }
    }
    if MergeDicts(a, b, false).Fail? {
      StoreAllError(f, kk);
    }
  }

  /** The loop's error is the error of one of its keys. */
  lemma {:induction false} StoreAllError(f: string -> Result<Node>, kk: seq<string>)
    requires StoreAll(f, kk).Fail?
    ensures exists k :: k in kk && f(k) == Fail(StoreAll(f, kk).error)
  {
    var k, init := kk[|kk| - 1], kk[..|kk| - 1];
    assert kk == init + [k];
    if StoreAll(f, init).Fail? {
      StoreAllError(f, init);
    }
  }

  /** With `ignore_collisions` the merge never raises. */
  lemma {:induction false} MergeIgnoringNeverFails(a: Entries, b: Entries)
    ensures MergeDicts(a, b, true).Ok?
    decreases Dict(a)
  {
    var f, kk := MergeKeyOf(a, b, true), KeysOf(a) + KeysOf(b);
    StoreAllSpec(f, kk);
    forall k | k in kk
      ensures f(k).Ok?
    {
      assert f(k) == MergeKey(a, b, true, k);
      if k in KeysOf(a) && k in KeysOf(b) {
        var i, j := IndexOf(a, k), IndexOf(b, k);
        if a[i].1.Dict? && b[j].1.Dict? {
          MergeIgnoringNeverFails(a[i].1.entries, b[j].1.entries);
        }
      }
    }
  }

  /**
   * `Config.__merge_dict(a, b, ignore_collisions)`: the loop over the keys
   * of `a` and then of `b`, storing each key's merged value into a fresh
   * dictionary; neither input is changed.
   */
  method MergeDict(a: Entries, b: Entries, ignore: bool) returns (r: Result<Entries>)
    ensures r == MergeDicts(a, b, ignore)
    decreases Dict(a), 2
  {
    var f, kk := MergeKeyOf(a, b, ignore), KeysOf(a) + KeysOf(b);
    r := Ok([]);
    var n := 0;
    while n < |kk| && r.Ok?
      invariant 0 <= n <= |kk|
      invariant r.Ok? ==> StoreAll(f, kk[..n]) == r
      invariant r.Fail? ==> StoreAll(f, kk) == r
    {
      r := MergeStep(a, b, ignore, kk, n, r.value);
      n := n + 1;
    }
    if r.Ok? {
      assert kk[..n] == kk;
    }
  }

  /** One turn of the merge loop: the key at `n` stored with its merged value, or the loop ends with its error. */
  method MergeStep(a: Entries, b: Entries, ignore: bool, kk: seq<string>, n: nat, acc: Entries) returns (r: Result<Entries>)
    requires n < |kk| && StoreAll(MergeKeyOf(a, b, ignore), kk[..n]) == Ok(acc)
    ensures r.Ok? ==> StoreAll(MergeKeyOf(a, b, ignore), kk[..n + 1]) == r
    ensures r.Fail? ==> StoreAll(MergeKeyOf(a, b, ignore), kk) == r
    decreases Dict(a), 1
  {
    var v := MergeValue(a, b, ignore, kk[n]);
    MergeKeyAt(a, b, ignore, kk[n]);
    StoreAllNext(MergeKeyOf(a, b, ignore), kk, n, acc, v);
    r := if v.Fail? then Fail(v.error) else Ok(Put(acc, kk[n], v.value));
  }

  /** The loop body of the merge is `MergeKey` for the key at hand. */
  lemma MergeKeyAt(a: Entries, b: Entries, ignore: bool, k: string)
    ensures MergeKeyOf(a, b, ignore)(k) == MergeKey(a, b, ignore, k)
  {
  }

  /** The body of the merge loop for one key. */
  method MergeValue(a: Entries, b: Entries, ignore: bool, k: string) returns (v: Result<Node>)
    ensures v == MergeKey(a, b, ignore, k)
    decreases Dict(a), 0
  {
    if k in KeysOf(a) && k in KeysOf(b) && Get(a, k).Dict? && Get(b, k).Dict? {
      var sub := MergeDict(a[IndexOf(a, k)].1.entries, Get(b, k).entries, ignore);
      if sub.Fail? {
        return Fail(sub.error);
      }
      v := Ok(Dict(sub.value));
    } else if k in KeysOf(a) && k in KeysOf(b) {
      if ignore {
        v := Ok(Get(a, k));
      } else {
        v := Fail(ValueError);
      }
    } else if k in KeysOf(a) {
      v := Ok(Get(a, k));
    } else if k in KeysOf(b) {
      v := Ok(Get(b, k));
    } else {
      v := Ok(Null);
    }
  }

  // ---------------------------------------------------------------------
  // Loading a configuration from a dictionary

  /**
   * What the model knows of the configuration classes: the members a
   * fresh instance of a class has, whether its constructor takes a
   * `config` keyword, and the `type_map` its `_load_impl` passes (empty
   * for the base `_load_impl`, which passes none).
   */
  datatype Schema = Schema(
    defaults: string -> map<string, Node>,
    acceptsConfig: string -> bool,
    typeMaps: string -> map<string, string>)

  /** The members after a load, and the error that ended it, if any; members set before the error keep their new values. */
  datatype Loaded = Loaded(attrs: map<string, Node>, error: Option<Error>)

  /** `Config.load(source)` on an instance of class `cls`. */
  function LoadSource(s: Schema, cls: string, attrs: map<string, Node>, source: Node): (r: Loaded)
    ensures source.Null? ==> r == Loaded(attrs, None)
    ensures !source.Null? && !source.Dict? ==> r == Loaded(attrs, Some(NotImplementedError))
    ensures r.attrs.Keys == attrs.Keys
    decreases source, 2, 0
  {
    if source.Null? then Loaded(attrs, None)
    else if source.Dict? then LoadImpl(s, cls, attrs, source)
    else Loaded(attrs, Some(NotImplementedError))
  }

  /**
   * `_load_impl(config)`, i.e. `_load_config_from_dict(config, type_map)`
   * with the class's own type map: None loads nothing, a dictionary is
   * loaded key by key.
   */
  function LoadImpl(s: Schema, cls: string, attrs: map<string, Node>, config: Node): (r: Loaded)
    ensures config.Null? ==> r == Loaded(attrs, None)
    ensures r.attrs.Keys == attrs.Keys
    decreases config, 1, 0
  {
    if config.Null? then Loaded(attrs, None)
    else if config.Dict? then LoadEntries(s, s.typeMaps(cls), attrs, config.entries, 0)
    else Loaded(attrs, Some(TypeError))
  }

  /** The loop `for k in config` from the `i`-th key on, stopping at the first key that raises. */
  function LoadEntries(s: Schema, typeMap: map<string, string>, attrs: map<string, Node>, es: Entries, i: nat): (r: Loaded)
    requires i <= |es|
    ensures r.attrs.Keys == attrs.Keys
    ensures (exists j :: i <= j < |es| && es[j].0 !in attrs) ==> r.error.Some?
    decreases Dict(es), 0, |es| - i
  {
    if i == |es| then Loaded(attrs, None)
    else
      var l := LoadMember(s, typeMap, attrs, es[i].0, es[i].1);
      if l.error.Some? then l
      else LoadEntries(s, typeMap, l.attrs, es, i + 1)
  }

  /**
   * One key `k` of the dictionary with value `v`: an unknown member raises
   * ValueError; a configuration member loads `v` itself; a member named in
   * the type map becomes instances of the mapped class; a dictionary
   * member is merged with a dictionary value; any other member is set.
   */
  function LoadMember(s: Schema, typeMap: map<string, string>, attrs: map<string, Node>, k: string, v: Node): (r: Loaded)
    ensures r.attrs.Keys == attrs.Keys
    ensures k !in attrs ==> r == Loaded(attrs, Some(ValueError))
    ensures forall j :: j in attrs && j != k ==> r.attrs[j] == attrs[j]
    decreases v, 5, 0
  {
    if k !in attrs then Loaded(attrs, Some(ValueError))
    else
      var c := attrs[k];
      if c.Obj? then
        var sub := LoadImpl(s, c.cls, c.attrs, v);
        Loaded(attrs[k := Obj(c.cls, sub.attrs)], sub.error)
      else if k in typeMap then
        match MapConfigClass(s, typeMap[k], v)
        case Ok(x) => Loaded(attrs[k := x], None)
        case Fail(e) => Loaded(attrs, Some(e))
      else if c.Dict? && v.Dict? then
        match MergeDicts(c.entries, v.entries, false)
        case Ok(m) => Loaded(attrs[k := Dict(m)], None)
        case Fail(e) => Loaded(attrs, Some(e))
      else Loaded(attrs[k := v], None)
  }

  /**
   * `map_config_class(type, config)`: a dictionary becomes a dictionary of
   * instances under the same keys, a list a list of instances, anything
   * else one instance.
   */
  function MapConfigClass(s: Schema, cls: string, config: Node): (r: Result<Node>)
    ensures !config.Dict? && !config.List? ==> r == Instantiate(s, cls, config)
    ensures config.Dict? && r.Ok? ==> r.value.Dict? && KeysOf(r.value.entries) == KeysOf(config.entries)
    ensures config.Dict? && r.Ok? ==> forall i :: 0 <= i < |config.entries| ==>
      Instantiate(s, cls, config.entries[i].1) == Ok(r.value.entries[i].1)
    ensures config.List? && r.Ok? ==> r.value.List? && |r.value.items| == |config.items|
    ensures config.List? && r.Ok? ==> forall i :: 0 <= i < |config.items| ==>
      Instantiate(s, cls, config.items[i]) == Ok(r.value.items[i])
    decreases config, 4, 0
  {
    if config.Dict? then
      match InstantiateEntries(s, cls, config.entries, 0)
      case Ok(es) => Ok(Dict(es))
      case Fail(e) => Fail(e)
    else if config.List? then
      match InstantiateItems(s, cls, config.items, 0)
      case Ok(xs) => Ok(List(xs))
      case Fail(e) => Fail(e)
    else Instantiate(s, cls, config)
  }

  /** `{ k: type(config=c) for k, c in config.items() }` from the `i`-th entry on. */
  function InstantiateEntries(s: Schema, cls: string, es: Entries, i: nat): (r: Result<Entries>)
    requires i <= |es|
    ensures r.Ok? ==> KeysOf(r.value) == KeysOf(es[i..])
    ensures r.Ok? ==> forall j :: i <= j < |es| ==> Instantiate(s, cls, es[j].1) == Ok(r.value[j - i].1)
    decreases Dict(es), 0, |es| - i
  {
    if i == |es| then Ok([])
    else
      match Instantiate(s, cls, es[i].1)
      case Fail(e) => Fail(e)
      case Ok(x) =>
        match InstantiateEntries(s, cls, es, i + 1)
        case Fail(e) => Fail(e)
        case Ok(rest) =>
          KeysCons(es, i, x, rest);
          Ok([(es[i].0, x)] + rest)
  }

  /** Putting the `i`-th key in front of the keys after it gives the keys from `i` on. */
  lemma KeysCons(es: Entries, i: nat, x: Node, rest: Entries)
    requires i < |es| && KeysOf(rest) == KeysOf(es[i + 1..])
    ensures KeysOf([(es[i].0, x)] + rest) == KeysOf(es[i..])
  {
    var l, r := KeysOf([(es[i].0, x)] + rest), KeysOf(es[i..]);
    assert |l| == |r|;
    forall j | 0 <= j < |l|
      ensures l[j] == r[j]
    {
      if j > 0 {
        assert l[j] == KeysOf(rest)[j - 1];
      }
    }
  }

  /** `[ type(config=c) for c in config ]` from the `i`-th item on. */
  function InstantiateItems(s: Schema, cls: string, xs: seq<Node>, i: nat): (r: Result<seq<Node>>)
    requires i <= |xs|
    ensures r.Ok? ==> |r.value| == |xs| - i
    ensures r.Ok? ==> forall j :: i <= j < |xs| ==> Instantiate(s, cls, xs[j]) == Ok(r.value[j - i])
    decreases List(xs), 0, |xs| - i
  {
    if i == |xs| then Ok([])
    else
      match Instantiate(s, cls, xs[i])
      case Fail(e) => Fail(e)
      case Ok(x) =>
        match InstantiateItems(s, cls, xs, i + 1)
        case Fail(e) => Fail(e)
        case Ok(rest) => Ok([x] + rest)
  }

  /**
   * `type(config=c)`: a constructor without a `config` keyword raises
   * TypeError; otherwise a fresh instance with the class's members loads
   * `c`, and an error in the load is the constructor's error.
   */
  function Instantiate(s: Schema, cls: string, c: Node): (r: Result<Node>)
    ensures !s.acceptsConfig(cls) ==> r == Fail(TypeError)
    ensures r.Ok? ==> r.value.Obj? && r.value.cls == cls && r.value.attrs.Keys == s.defaults(cls).Keys
    decreases c, 3, 0
  {
    if !s.acceptsConfig(cls) then Fail(TypeError)
    else
      var l := LoadSource(s, cls, s.defaults(cls), c);
      if l.error.Some? then Fail(l.error.value) else Ok(Obj(cls, l.attrs))
  }

  /** A dictionary member given a dictionary value is merged with it, and an overlap that is not dictionary on both sides raises ValueError. */
  lemma MergedMember(s: Schema, typeMap: map<string, string>, attrs: map<string, Node>, k: string, v: Node)
    requires k in attrs && attrs[k].Dict? && k !in typeMap && v.Dict?
    ensures var r := LoadMember(s, typeMap, attrs, k, v);
      (r.error.Some? <==> Collides(attrs[k].entries, v.entries)) &&
      (r.error.Some? ==> r == Loaded(attrs, Some(ValueError))) &&
      (r.error.None? ==> r.attrs[k] == Dict(MergeDicts(attrs[k].entries, v.entries, false).value))
  {
    MergeFailsOnCollision(attrs[k].entries, v.entries);
  }

  /**
   * A configuration object: its class and its members. Nested
   * configuration members are held as values.
   */
  class Config {
    const cls: string
    var attrs: map<string, Node>

    constructor (cls: string, attrs: map<string, Node>)
      ensures this.cls == cls && this.attrs == attrs
    {
      this.cls := cls;
      this.attrs := attrs;
    }

    /**
     * `_load_config_from_dict(config, type_map)`: each key in turn, its
     * member updated before the next; at the first key that raises the
     * loop stops, and the members already set keep their new values.
     */
    method LoadFromDict(s: Schema, config: Entries, typeMap: map<string, string>) returns (err: Option<Error>)
      modifies this
      ensures Loaded(attrs, err) == LoadEntries(s, typeMap, old(attrs), config, 0)
      ensures attrs.Keys == old(attrs).Keys
    {
      err := None;
      var i := 0;
      while i < |config|
        invariant i <= |config|
        invariant LoadEntries(s, typeMap, attrs, config, i) == LoadEntries(s, typeMap, old(attrs), config, 0)
      {
        var l := LoadMember(s, typeMap, attrs, config[i].0, config[i].1);
        attrs := l.attrs;
        if l.error.Some? {
          return l.error;
        }
        i := i + 1;
      }
    }

    /** `load(source)`: None is ignored, a dictionary goes to the class's `_load_impl`, anything else raises NotImplementedError. */
    method Load(s: Schema, source: Node) returns (err: Option<Error>)
      modifies this
      ensures Loaded(attrs, err) == LoadSource(s, cls, old(attrs), source)
    {
      if source.Null? {
        return None;
      } else if source.Dict? {
        err := LoadFromDict(s, source.entries, s.typeMaps(cls));
      } else {
        return Some(NotImplementedError);
      }
    }
  }
}
