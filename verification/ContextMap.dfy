/**
 The lazily deserialised context (CooperationContextMap.ts, CooperationContext.ts): JSON text shared between contexts,
 elements cached in place, and the plain map from names to values it stands for.
 */
module ContextMap {
  import opened Options

  /** Mapped keys are singletons with an identity; unmapped keys are compared by name. */
  datatype Key = Mapped(identity: nat, name: string) | Unmapped(name: string)

  datatype Element = Typed(key: Key, data: string) | Opaque(key: Key, json: string)

  datatype Lookup = Found(element: Element) | Missing | Throws

  /**
   What the keys of this service do: the one key used for a name, its reviver (None where it throws), and the element's
   own `plus` with another element of its key.
   */
  datatype Codec = Codec(keyOf: string -> Key, revive: (Key, string) -> Option<Element>,
                         combine: (Element, Element) -> Element)

  ghost predicate CodecWellFormed(codec: Codec) {
    && (forall n :: codec.keyOf(n).name == n)
    && (forall k, json :: codec.revive(k, json).Some? ==> codec.revive(k, json).value.key == k)
    && (forall a: Element, b: Element :: a.key == b.key ==> codec.combine(a, b).key == b.key)
  }

  function Revived(codec: Codec, key: Key, json: string): Option<Element> {
    if key.Unmapped? then Some(Opaque(key, json)) else codec.revive(key, json)
  }

  // ---------------------------------------------------------------- the plain map

  /** What a context holds under a name: text nobody has replaced, or an element that was put there. */
  datatype Value = Json(text: string) | Live(element: Element)

  type Plain = map<string, Value>

  function PlainGet(codec: Codec, m: Plain, key: Key): Lookup {
    if key.name !in m then Missing
    else
      match m[key.name]
      case Live(element) => Found(element)
      case Json(text) =>
        var revived := Revived(codec, key, text);
        if revived.Some? then Found(revived.value) else Throws
  }

  /** None where the lookup throws. */
  function PlainMinus(codec: Codec, m: Plain, key: Key): Option<Plain> {
    if PlainGet(codec, m, key).Throws? then None else Some(m - {key.name})
  }

  function PlainPlus(codec: Codec, m: Plain, element: Element): Option<Plain> {
    match PlainGet(codec, m, element.key)
    case Throws => None
    case Missing => Some(m[element.key.name := Live(element)])
    case Found(mine) => Some(m[element.key.name := Live(codec.combine(mine, element))])
  }

  /** A lookup throws only where there is text its key cannot revive; an element that was put there is found as it is. */
  lemma LookupLaws(codec: Codec, m: Plain, key: Key)
    ensures PlainGet(codec, m, key).Missing? <==> key.name !in m
    ensures PlainGet(codec, m, key).Throws?
            <==> key.name in m && m[key.name].Json? && key.Mapped? && codec.revive(key, m[key.name].text).None?
    ensures key.name in m && m[key.name].Live? ==> PlainGet(codec, m, key) == Found(m[key.name].element)
    ensures key.name in m && m[key.name].Json? && key.Unmapped?
            ==> PlainGet(codec, m, key) == Found(Opaque(key, m[key.name].text))
    ensures key.name in m && m[key.name].Json? && key.Mapped? && codec.revive(key, m[key.name].text).Some?
            ==> PlainGet(codec, m, key) == Found(codec.revive(key, m[key.name].text).value)
  {}

  /**
   After minus the key is gone, and after plus it is found: as the new element, or as what the element found there makes of
   the new one.  Under every other name nothing changes; where the lookup throws, so do both.
   */
  lemma UpdateLaws(codec: Codec, m: Plain, element: Element, key: Key)
    requires CodecWellFormed(codec) && element.key == codec.keyOf(element.key.name)
    requires forall n :: n in m && m[n].Live? ==> m[n].element.key == codec.keyOf(n)
    ensures var plus, minus, found :=
              PlainPlus(codec, m, element), PlainMinus(codec, m, element.key), PlainGet(codec, m, element.key);
            && (plus.None? <==> found.Throws?) && (minus.None? <==> found.Throws?)
            && (minus.Some? ==> PlainGet(codec, minus.value, element.key) == Missing)
            && (plus.Some? ==> PlainGet(codec, plus.value, element.key)
                               == Found(if found.Found? then codec.combine(found.element, element) else element))
            && (plus.Some? && key.name != element.key.name
                ==> PlainGet(codec, plus.value, key) == PlainGet(codec, minus.value, key) == PlainGet(codec, m, key))
  {}

  /** Where the later of two elements wins, plus followed by get gives the element that was put there. */
  lemma RightBiasedPlus(codec: Codec, m: Plain, element: Element)
    requires CodecWellFormed(codec) && element.key == codec.keyOf(element.key.name)
    requires forall n :: n in m && m[n].Live? ==> m[n].element.key == codec.keyOf(n)
    requires forall a: Element, b: Element :: codec.combine(a, b) == b
    ensures PlainPlus(codec, m, element).Some?
            ==> PlainGet(codec, PlainPlus(codec, m, element).value, element.key) == Found(element)
  {}

  /** How fold shows a value: text as an opaque element, whether or not somebody has looked at it. */
  function Shown(name: string, value: Value): Element {
    match value
    case Json(text) => Opaque(Unmapped(name), text)
    case Live(element) => element
  }

  lemma Overwritten(m: Plain, name: string, value: Value)
    ensures (m - {name})[name := value] == m[name := value]
  {}

  // ---------------------------------------------------------------- the two mutable maps

  class SerializedMap {
    var entries: map<string, string>

    constructor (entries: map<string, string>)
      ensures this.entries == entries
    {
      this.entries := entries;
    }
  }

  class KeyedElementMap {
    var entries: map<Key, Element>

    constructor (entries: map<Key, Element>)
      ensures this.entries == entries
    {
      this.entries := entries;
    }

    method Set(key: Key, element: Element)
      modifies this
      ensures entries == old(entries)[key := element]
    {
      entries := entries[key := element];
    }

    method Delete(key: Key)
      modifies this
      ensures entries == old(entries) - {key}
    {
      entries := entries - {key};
    }

    method Copy() returns (copy: KeyedElementMap)
      ensures fresh(copy) && copy.entries == entries
    {
      copy := new KeyedElementMap(entries);
    }
  }

  // ---------------------------------------------------------------- the context

  class CooperationContextMap {
    const codec: Codec
    const serializedMap: SerializedMap
    const deserializedMap: KeyedElementMap

    /** Elements sit under the key of their name; one that also exists as text is what that text revives to. */
    ghost predicate Valid()
      reads serializedMap, deserializedMap
    {
      && CodecWellFormed(codec)
      && forall k :: k in deserializedMap.entries ==>
           && k == codec.keyOf(k.name) && deserializedMap.entries[k].key == k
           && (k.name in serializedMap.entries
               ==> Revived(codec, k, serializedMap.entries[k.name]) == Some(deserializedMap.entries[k]))
    }

    ghost function Contents(): Plain
      reads serializedMap, deserializedMap
      requires Valid()
    {
      map n | n in serializedMap.entries.Keys + (set k | k in deserializedMap.entries :: k.name) ::
        if n in serializedMap.entries then Json(serializedMap.entries[n])
        else Live(deserializedMap.entries[codec.keyOf(n)])
    }

    constructor (codec: Codec, serializedMap: SerializedMap, deserializedMap: KeyedElementMap)
      ensures this.codec == codec && this.serializedMap == serializedMap && this.deserializedMap == deserializedMap
    {
      this.codec, this.serializedMap, this.deserializedMap := codec, serializedMap, deserializedMap;
    }

    lemma ContainsIff(name: string)
      requires Valid()
      ensures name in Contents() <==> name in serializedMap.entries || codec.keyOf(name) in deserializedMap.entries
    {
      if name in Contents() && name !in serializedMap.entries {
        var k :| k in deserializedMap.entries && k.name == name;
        assert k == codec.keyOf(name);
      }
    }

    /** A lookup caches what it revives, and nobody can tell. */
    method Get(key: Key) returns (lookup: Lookup)
      requires Valid() && key == codec.keyOf(key.name)
      modifies deserializedMap
      ensures Valid() && Contents() == old(Contents()) && lookup == PlainGet(codec, old(Contents()), key)
      ensures lookup.Found? ==> lookup.element.key == key && key in deserializedMap.entries
                                && deserializedMap.entries[key] == lookup.element
    {
      ContainsIff(key.name);
      if key in deserializedMap.entries {
        return Found(deserializedMap.entries[key]);
      }
      if key.name !in serializedMap.entries {
        return Missing;
      }
      var revived := Revived(codec, key, serializedMap.entries[key.name]);
      if revived.None? {
        return Throws;
      }
      deserializedMap.Set(key, revived.value);
      assert Contents().Keys == old(Contents()).Keys;
      return Found(revived.value);
    }

    /** Without the key: this very context if it is not there, else a context on maps of its own. */
    method Minus(key: Key) returns (result: Option<CooperationContextMap>)
      requires Valid() && key == codec.keyOf(key.name)
      modifies deserializedMap
      ensures Valid() && Contents() == old(Contents())
      ensures result.None? <==> PlainMinus(codec, old(Contents()), key).None?
      ensures result.Some? ==> result.value.Valid() && result.value.codec == codec
      ensures result.Some? ==> Some(result.value.Contents()) == PlainMinus(codec, old(Contents()), key)
      ensures result.Some? && key.name !in old(Contents()) ==> result.value == this
      ensures result.Some? && key.name in old(Contents())
              ==> fresh(result.value) && fresh(result.value.deserializedMap) && fresh(result.value.serializedMap)
    {
      var lookup := Get(key);
      match lookup {
        case Throws => return None;
        case Missing =>
          assert Contents() - {key.name} == Contents();
          return Some(this);
        case Found(_) =>
      }
      var newSerialized := new SerializedMap(serializedMap.entries - {key.name});
      var newDeserialized := deserializedMap.Copy();
      newDeserialized.Delete(key);
      var without := new CooperationContextMap(codec, newSerialized, newDeserialized);
      WithoutKey(without, key);
      return Some(without);
    }

    lemma WithoutKey(without: CooperationContextMap, key: Key)
      requires Valid() && key == codec.keyOf(key.name) && without.codec == codec
      requires without.serializedMap.entries == serializedMap.entries - {key.name}
      requires without.deserializedMap.entries == deserializedMap.entries - {key}
      ensures without.Valid() && without.Contents() == Contents() - {key.name}
    {
      forall n ensures n in without.Contents() <==> n in Contents() && n != key.name {
        ContainsIff(n);
        without.ContainsIff(n);
      }
    }

    /** A context with one more element under a key it does not hold; the text stays shared. */
    method PlusNew(element: Element) returns (result: CooperationContextMap)
      requires Valid() && element.key == codec.keyOf(element.key.name) && element.key.name !in Contents()
      ensures result.Valid() && result.codec == codec && fresh(result) && fresh(result.deserializedMap)
      ensures result.serializedMap == serializedMap
      ensures result.Contents() == Contents()[element.key.name := Live(element)]
    {
      ContainsIff(element.key.name);
      var newDeserialized := deserializedMap.Copy();
      newDeserialized.Set(element.key, element);
      result := new CooperationContextMap(codec, serializedMap, newDeserialized);
      WithElement(result, element);
    }

    lemma WithElement(with: CooperationContextMap, element: Element)
      requires Valid() && element.key == codec.keyOf(element.key.name) && element.key.name !in serializedMap.entries
      requires with.codec == codec && with.serializedMap == serializedMap
      requires with.deserializedMap.entries == deserializedMap.entries[element.key := element]
      ensures with.Valid() && with.Contents() == Contents()[element.key.name := Live(element)]
    {
      forall n ensures n in with.Contents() <==> n in Contents() || n == element.key.name {
        ContainsIff(n);
        with.ContainsIff(n);
      }
    }

    /** minus, then plus: the element takes the place of the one that was looked up. */
    method Replace(element: Element) returns (result: CooperationContextMap)
      requires Valid() && element.key == codec.keyOf(element.key.name)
      requires PlainGet(codec, Contents(), element.key).Found?
      modifies deserializedMap
      ensures Valid() && Contents() == old(Contents())
      ensures result.Valid() && result.codec == codec && fresh(result) && fresh(result.deserializedMap)
      ensures fresh(result.serializedMap)
      ensures result.Contents() == old(Contents())[element.key.name := Live(element)]
    {
      ghost var before := Contents();
      var without := Minus(element.key);
      var rest := without.value;
      assert rest.Contents() == before - {element.key.name};
      result := rest.PlusNew(element);
      Overwritten(before, element.key.name, Live(element));
    }

    /** plus of a single element: under a key already there, the two elements decide what becomes of them. */
    method Plus(element: Element) returns (result: Option<CooperationContextMap>)
      requires Valid() && element.key == codec.keyOf(element.key.name)
      modifies deserializedMap
      ensures Valid() && Contents() == old(Contents())
      ensures result.None? <==> PlainPlus(codec, old(Contents()), element).None?
      ensures result.Some? ==>
                && result.value.Valid() && result.value.codec == codec
                && fresh(result.value) && fresh(result.value.deserializedMap)
                && (result.value.serializedMap == serializedMap || fresh(result.value.serializedMap))
                && Some(result.value.Contents()) == PlainPlus(codec, old(Contents()), element)
    {
      var lookup := Get(element.key);
      match lookup {
        case Throws => return None;
        case Missing =>
          var added := PlusNew(element);
          return Some(added);
        case Found(mine) =>
          var replaced := Replace(codec.combine(mine, element));
          return Some(replaced);
      }
    }

    /** byName: text first, then cached elements whose name is not there yet. */
    method ElementsByName() returns (byName: map<string, Element>)
      requires Valid()
      ensures byName.Keys == Contents().Keys && forall n :: n in byName ==> byName[n] == Shown(n, Contents()[n])
    {
      byName := map[];
      var texts := serializedMap.entries.Keys;
      while texts != {}
        invariant texts <= serializedMap.entries.Keys && byName.Keys == serializedMap.entries.Keys - texts
        invariant forall n :: n in byName ==> byName[n] == Opaque(Unmapped(n), serializedMap.entries[n])
      {
        var name :| name in texts;
        byName := byName[name := Opaque(Unmapped(name), serializedMap.entries[name])];
        texts := texts - {name};
      }
      var keys := deserializedMap.entries.Keys;
      while keys != {}
        invariant keys <= deserializedMap.entries.Keys
        invariant forall n :: n in byName <==> (n in serializedMap.entries
                                                || (codec.keyOf(n) in deserializedMap.entries && codec.keyOf(n) !in keys))
        invariant forall n :: n in byName ==>
                    byName[n] == if n in serializedMap.entries then Opaque(Unmapped(n), serializedMap.entries[n])
                                 else deserializedMap.entries[codec.keyOf(n)]
      {
        var key :| key in keys;
        if key.name !in byName {
          byName := byName[key.name := deserializedMap.entries[key]];
        }
        keys := keys - {key};
      }
      forall n ensures n in byName <==> n in Contents() {
        ContainsIff(n);
      }
    }

    /** fold sees one element per name, in the order of the names: a function of the contents alone. */
    method Fold<R>(initial: R, operation: (R, Element) -> R) returns (result: R)
      requires Valid()
      ensures forall names :: Lists(names, Contents().Keys) ==> result == Reduced(initial, operation, Contents(), names)
    {
      var byName := ElementsByName();
      var sorted := Sort(byName.Keys);
      result := initial;
      for k := 0 to |sorted|
        invariant Reduced(result, operation, Contents(), sorted[k..]) == Reduced(initial, operation, Contents(), sorted)
      {
        assert sorted[k] in byName && sorted[k..][1..] == sorted[k + 1..];
        result := operation(result, byName[sorted[k]]);
      }
      forall names | Lists(names, Contents().Keys) ensures names == sorted {
        OneListOnly(names, sorted, Contents().Keys);
      }
    }
  }

  // ---------------------------------------------------------------- the order of names

  predicate Less(a: string, b: string) {
    if b == "" then false
    else if a == "" then true
    else if a[0] != b[0] then a[0] < b[0]
    else Less(a[1..], b[1..])
  }

  lemma {:induction false} LessIsTotal(a: string, b: string)
    ensures Less(a, b) || Less(b, a) || a == b
    ensures !(Less(a, b) && Less(b, a)) && !Less(a, a)
  {
    if a != "" {
      if b != "" && a[0] == b[0] {
        LessIsTotal(a[1..], b[1..]);
      } else {
        LessIsTotal(a[1..], a[1..]);
      }
    }
  }

  lemma {:induction false} LessIsTransitive(a: string, b: string, c: string)
    requires Less(a, b) && Less(b, c)
    ensures Less(a, c)
  {
    if a != "" && a[0] == b[0] && b[0] == c[0] {
      LessIsTransitive(a[1..], b[1..], c[1..]);
    }
  }

  ghost predicate Ascending(names: seq<string>) {
    forall i, j :: 0 <= i < j < |names| ==> Less(names[i], names[j])
  }

  /** The names of the set, each once, in ascending order. */
  ghost predicate Lists(names: seq<string>, keys: set<string>) {
    Ascending(names) && forall n :: n in names <==> n in keys
  }

  function Inserted(names: seq<string>, name: string): seq<string> {
    if names == [] || Less(name, names[0]) then [name] + names
    else [names[0]] + Inserted(names[1..], name)
  }

  lemma {:induction false} InsertedIsAscending(names: seq<string>, name: string)
    requires Ascending(names) && name !in names
    ensures Ascending(Inserted(names, name)) && forall n :: n in Inserted(names, name) <==> n in names || n == name
  {
    if names != [] {
      LessIsTotal(name, names[0]);
      if Less(name, names[0]) {
        forall j | 0 <= j < |names| ensures Less(name, names[j]) {
          if j > 0 { LessIsTransitive(name, names[0], names[j]); }
        }
      } else {
        InsertedIsAscending(names[1..], name);
        var rest := Inserted(names[1..], name);
        forall j | 0 <= j < |rest| ensures Less(names[0], rest[j]) {
          assert rest[j] in rest;
        }
        assert names == [names[0]] + names[1..];
      }
    }
  }

  method Sort(keys: set<string>) returns (names: seq<string>)
    ensures Lists(names, keys)
  {
    names := [];
    var rest := keys;
    while rest != {}
      invariant rest <= keys && Lists(names, keys - rest)
    {
      var name :| name in rest;
      InsertedIsAscending(names, name);
      names := Inserted(names, name);
      rest := rest - {name};
    }
  }

  /** There is only one such list: what fold computes depends on the contents alone. */
  lemma {:induction false} OneListOnly(a: seq<string>, b: seq<string>, keys: set<string>)
    requires Lists(a, keys) && Lists(b, keys)
    ensures a == b
    decreases |a|
  {
    EmptyIff(a, keys);
    EmptyIff(b, keys);
    if a != [] {
      SameHead(a, b, keys);
      var rest := keys - {a[0]};
      TailLists(a, keys);
      TailLists(b, keys);
      OneListOnly(a[1..], b[1..], rest);
      assert a == [a[0]] + a[1..] && b == [b[0]] + b[1..];
    }
  }

  lemma EmptyIff(a: seq<string>, keys: set<string>)
    requires Lists(a, keys)
    ensures a == [] <==> keys == {}
  {
    if a != [] {
      assert a[0] in keys;
    }
  }

  lemma SameHead(a: seq<string>, b: seq<string>, keys: set<string>)
    requires Lists(a, keys) && Lists(b, keys) && a != [] && b != []
    ensures a[0] == b[0]
  {
    assert a[0] in b && b[0] in a;
    LessIsTotal(a[0], b[0]);
  }

  lemma TailLists(a: seq<string>, keys: set<string>)
    requires Lists(a, keys) && a != []
    ensures Lists(a[1..], keys - {a[0]})
  {
    forall n ensures n in a[1..] <==> n in keys && n != a[0] {
      LessIsTotal(a[0], a[0]);
      if n in keys && n != a[0] {
        var i :| 0 <= i < |a| && a[i] == n;
        assert a[1..][i - 1] == n;
      }
    }
  }

  function Reduced<R>(initial: R, operation: (R, Element) -> R, m: Plain, names: seq<string>): R {
    if names == [] then initial
    else if names[0] !in m then Reduced(initial, operation, m, names[1..])
    else Reduced(operation(initial, Shown(names[0], m[names[0]])), operation, m, names[1..])
  }

  /** One name after the other, in the order listed; a name that is not there is passed over. */
  lemma {:induction false} ReducedInTurn<R>(initial: R, operation: (R, Element) -> R, m: Plain, names: seq<string>,
                                            name: string)
    ensures Reduced(initial, operation, m, []) == initial
    ensures var before := Reduced(initial, operation, m, names);
            Reduced(initial, operation, m, names + [name])
            == if name in m then operation(before, Shown(name, m[name])) else before
    decreases |names|
  {
    if names == [] {
      assert names + [name] == [name];
    } else {
      assert (names + [name])[1..] == names[1..] + [name];
      ReducedInTurn(if names[0] in m then operation(initial, Shown(names[0], m[names[0]])) else initial, operation, m,
                    names[1..], name);
    }
  }

  /** What fold is shown: what was put there as it is, and text under its name as it is, revived or not. */
  lemma ShownLaws(name: string, text: string, element: Element)
    ensures Shown(name, Live(element)) == element
    ensures Shown(name, Json(text)).key == Unmapped(name) && Shown(name, Json(text)).Opaque?
            && Shown(name, Json(text)).json == text
  {}

  // ---------------------------------------------------------------- any sequence of operations

  /** An operation on one of the contexts made so far; a result of minus or plus is the next context. */
  datatype Op = Get(on: nat, key: Key) | Minus(on: nat, key: Key) | Plus(on: nat, element: Element)

  function KeyOf(op: Op): Key {
    if op.Plus? then op.element.key else op.key
  }

  datatype Made = Made(contexts: seq<Plain>, lookups: seq<Lookup>)

  function Grown(contexts: seq<Plain>, result: Option<Plain>): seq<Plain> {
    if result.Some? then contexts + [result.value] else contexts
  }

  /** What the operation does to plain, immutable maps. */
  function PlainStep(codec: Codec, made: Made, op: Op): Made {
    if op.on >= |made.contexts| then made
    else
      var m := made.contexts[op.on];
      match op
      case Get(_, key) => Made(made.contexts, made.lookups + [PlainGet(codec, m, key)])
      case Minus(_, key) => Made(Grown(made.contexts, PlainMinus(codec, m, key)), made.lookups)
      case Plus(_, element) => Made(Grown(made.contexts, PlainPlus(codec, m, element)), made.lookups)
  }

  function PlainRun(codec: Codec, first: Plain, ops: seq<Op>): Made {
    if ops == [] then Made([first], [])
    else PlainStep(codec, PlainRun(codec, first, ops[..|ops| - 1]), ops[|ops| - 1])
  }

  /** Operations on plain maps leave what was made and found before as it is, and start with one context and nothing found. */
  lemma {:induction false} EarlierStays(codec: Codec, first: Plain, ops: seq<Op>, k: nat)
    requires k <= |ops|
    ensures PlainRun(codec, first, ops[..k]).contexts <= PlainRun(codec, first, ops).contexts
    ensures PlainRun(codec, first, ops[..k]).lookups <= PlainRun(codec, first, ops).lookups
    ensures [first] <= PlainRun(codec, first, ops).contexts
    decreases |ops|
  {
    if k < |ops| {
      var before := ops[..|ops| - 1];
      assert before[..k] == ops[..k];
      EarlierStays(codec, first, before, k);
    } else if ops != [] {
      assert ops[..k] == ops;
      EarlierStays(codec, first, ops[..|ops| - 1], 0);
    }
  }

  /**
   At any point: a lookup finds what the context it is made on holds; what plus or minus makes is a context of its own, on
   which the next lookup is made.
   */
  lemma NextOperations(codec: Codec, first: Plain, ops: seq<Op>, on: nat, key: Key, element: Element)
    requires on < |PlainRun(codec, first, ops).contexts|
    ensures var Made(contexts, lookups) := PlainRun(codec, first, ops);
            var plus, minus := PlainPlus(codec, contexts[on], element), PlainMinus(codec, contexts[on], key);
            && PlainRun(codec, first, ops + [Get(on, key)]) == Made(contexts, lookups + [PlainGet(codec, contexts[on], key)])
            && PlainRun(codec, first, ops + [Plus(on, element)])
               == Made(if plus.Some? then contexts + [plus.value] else contexts, lookups)
            && PlainRun(codec, first, ops + [Minus(on, key)])
               == Made(if minus.Some? then contexts + [minus.value] else contexts, lookups)
  {
    var get, plus, minus := ops + [Get(on, key)], ops + [Plus(on, element)], ops + [Minus(on, key)];
    assert get[..|ops|] == plus[..|ops|] == minus[..|ops|] == ops;
  }

  /** The contexts stand for these plain maps, and no two of them write to one cache. */
  ghost predicate StandFor(codec: Codec, contexts: seq<CooperationContextMap>, maps: seq<Plain>)
    reads set c | c in contexts :: c.serializedMap
    reads set c | c in contexts :: c.deserializedMap
  {
    && |contexts| == |maps|
    && (forall i :: 0 <= i < |contexts| ==>
          contexts[i].codec == codec && contexts[i].Valid() && contexts[i].Contents() == maps[i])
    && forall i, j :: 0 <= i < j < |contexts| && contexts[i] != contexts[j]
                      ==> contexts[i].deserializedMap != contexts[j].deserializedMap
  }

  /** No other context writes where this one does. */
  lemma OthersCacheElsewhere(codec: Codec, contexts: seq<CooperationContextMap>, maps: seq<Plain>, on: nat)
    requires StandFor(codec, contexts, maps) && on < |contexts|
    ensures forall c :: c in contexts && c != contexts[on] ==> c.deserializedMap != contexts[on].deserializedMap
  {
    forall c | c in contexts && c != contexts[on] ensures c.deserializedMap != contexts[on].deserializedMap {
      var k :| 0 <= k < |contexts| && contexts[k] == c;
      assert k < on || on < k;
    }
  }

  lemma OneMore(codec: Codec, contexts: seq<CooperationContextMap>, maps: seq<Plain>, c: CooperationContextMap)
    requires StandFor(codec, contexts, maps) && c.Valid() && c.codec == codec
    requires c in contexts || forall d :: d in contexts ==> d.deserializedMap != c.deserializedMap
    ensures StandFor(codec, contexts + [c], maps + [c.Contents()])
  {
    var all := contexts + [c];
    forall i, j | 0 <= i < j < |all| && all[i] != all[j] ensures all[i].deserializedMap != all[j].deserializedMap {
      assert all[i] in contexts;
      if j == |contexts| && c in contexts {
        var k :| 0 <= k < |contexts| && contexts[k] == c;
        assert i < k || k < i;
      }
    }
  }

  method MinusOn(codec: Codec, contexts: seq<CooperationContextMap>, on: nat, key: Key, ghost maps: seq<Plain>)
    returns (result: Option<CooperationContextMap>)
    requires StandFor(codec, contexts, maps) && on < |contexts| && key == codec.keyOf(key.name)
    modifies set c | c in contexts :: c.deserializedMap
    ensures StandFor(codec, contexts, maps)
    ensures result.None? <==> PlainMinus(codec, maps[on], key).None?
    ensures result.Some? ==> result.value.codec == codec && result.value.Valid()
                             && Some(result.value.Contents()) == PlainMinus(codec, maps[on], key)
    ensures result.Some? ==> result.value in contexts || (fresh(result.value) && fresh(result.value.deserializedMap))
  {
    hide PlainMinus;
    var context := contexts[on];
    OthersCacheElsewhere(codec, contexts, maps, on);
    result := context.Minus(key);
  }

  method StepMinus(codec: Codec, contexts: seq<CooperationContextMap>, on: nat, key: Key, ghost maps: seq<Plain>)
    returns (after: seq<CooperationContextMap>)
    requires StandFor(codec, contexts, maps) && on < |contexts| && key == codec.keyOf(key.name)
    modifies set c | c in contexts :: c.deserializedMap
    ensures StandFor(codec, after, Grown(maps, PlainMinus(codec, maps[on], key)))
    ensures forall c :: c in after ==> c in contexts || (fresh(c) && fresh(c.deserializedMap))
  {
    var result := MinusOn(codec, contexts, on, key, maps);
    if result.None? {
      return contexts;
    }
    OneMore(codec, contexts, maps, result.value);
    after := contexts + [result.value];
  }

  method StepPlus(codec: Codec, contexts: seq<CooperationContextMap>, on: nat, element: Element, ghost maps: seq<Plain>)
    returns (after: seq<CooperationContextMap>)
    requires StandFor(codec, contexts, maps) && on < |contexts| && element.key == codec.keyOf(element.key.name)
    modifies set c | c in contexts :: c.deserializedMap
    ensures StandFor(codec, after, Grown(maps, PlainPlus(codec, maps[on], element)))
    ensures forall c :: c in after ==> c in contexts || (fresh(c) && fresh(c.deserializedMap))
  {
    var context := contexts[on];
    OthersCacheElsewhere(codec, contexts, maps, on);
    var result := context.Plus(element);
    assert StandFor(codec, contexts, maps);
    after := contexts;
    if result.Some? {
      OneMore(codec, contexts, maps, result.value);
      after := contexts + [result.value];
    }
  }

  method StepGet(codec: Codec, contexts: seq<CooperationContextMap>, on: nat, key: Key, ghost maps: seq<Plain>)
    returns (lookup: Lookup)
    requires StandFor(codec, contexts, maps) && on < |contexts| && key == codec.keyOf(key.name)
    modifies set c | c in contexts :: c.deserializedMap
    ensures StandFor(codec, contexts, maps) && lookup == PlainGet(codec, maps[on], key)
  {
    var context := contexts[on];
    OthersCacheElsewhere(codec, contexts, maps, on);
    lookup := context.Get(key);
  }

  method Step(codec: Codec, contexts: seq<CooperationContextMap>, op: Op, ghost made: Made)
    returns (after: seq<CooperationContextMap>, lookups: seq<Lookup>)
    requires StandFor(codec, contexts, made.contexts) && KeyOf(op) == codec.keyOf(KeyOf(op).name)
    modifies set c | c in contexts :: c.deserializedMap
    ensures StandFor(codec, after, PlainStep(codec, made, op).contexts)
    ensures made.lookups + lookups == PlainStep(codec, made, op).lookups
    ensures forall c :: c in after ==> c in contexts || (fresh(c) && fresh(c.deserializedMap))
  {
    after, lookups := contexts, [];
    if op.on < |contexts| {
      match op {
        case Get(on, key) =>
          var lookup := StepGet(codec, contexts, on, key, made.contexts);
          lookups := [lookup];
        case Minus(on, key) => after := StepMinus(codec, contexts, on, key, made.contexts);
        case Plus(on, element) => after := StepPlus(codec, contexts, on, element, made.contexts);
      }
    }
  }

  /**
   Any sequence of get, minus and plus, on any of the contexts made so far: every lookup and every context is what plain
   immutable maps would give.  Caching in place is invisible, and contexts that share their text never affect each other.
   */
  method Run(codec: Codec, text: map<string, string>, ops: seq<Op>)
    returns (contexts: seq<CooperationContextMap>, lookups: seq<Lookup>)
    requires CodecWellFormed(codec) && forall op :: op in ops ==> KeyOf(op) == codec.keyOf(KeyOf(op).name)
    ensures StandFor(codec, contexts, PlainRun(codec, map n | n in text :: Json(text[n]), ops).contexts)
    ensures lookups == PlainRun(codec, map n | n in text :: Json(text[n]), ops).lookups
  {
    var serialized := new SerializedMap(text);
    var deserialized := new KeyedElementMap(map[]);
    var initial := new CooperationContextMap(codec, serialized, deserialized);
    contexts, lookups := [initial], [];
    ghost var start: Plain := map n | n in text :: Json(text[n]);
    assert initial.Contents() == start;
    for k := 0 to |ops|
      invariant StandFor(codec, contexts, PlainRun(codec, start, ops[..k]).contexts)
      invariant lookups == PlainRun(codec, start, ops[..k]).lookups
      invariant forall c :: c in contexts ==> fresh(c) && fresh(c.deserializedMap)
    {
      assert ops[..k + 1][..k] == ops[..k];
      var more;
      contexts, more := Step(codec, contexts, ops[k], PlainRun(codec, start, ops[..k]));
      lookups := lookups + more;
    }
    assert ops[..|ops|] == ops;
  }
}
