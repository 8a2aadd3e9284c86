/**
 * Reconstruction of auto-properties from their accessor methods
 * (Generator.TryGetAutoProperty and Generator.GetAutoPropertyMethods).
 *
 * The source fills a Dictionary<IMethodSymbol, IPropertySymbol> in input
 * order and turns it into an ILookup keyed by property. A dictionary that is
 * only ever added to enumerates in insertion order, so it is modelled as its
 * sequence of entries; ToLookup keeps its groupings in the order their key is
 * first seen and each grouping's elements in entry order.
 */
module AutoProperties {
  import opened Wrappers
  import opened Symbols

  /** The property an accessor belongs to, when the member is one. */
  function TryGetAutoProperty(m: Method): (r: Option<Property>)
    ensures r.Some? <==> IsPropertyMethod(m) && m.associatedSymbol.Some?
    ensures r.Some? ==> r == m.associatedSymbol
  {
    if !(m.kind == PropertyGet || m.kind == PropertySet) then None
    else match m.associatedSymbol
      case Some(property) => Some(property)
      case None => None
  }

  /** One entry of the method-to-property dictionary. */
  datatype Entry = Entry(accessor: Method, property: Property)

  /** The dictionary's entries after the loop over `ms`: each accessor with its property, in input order. */
  function AccessorEntries(ms: seq<Method>): seq<Entry>
  {
    if ms == [] then []
    else
      var last := ms[|ms| - 1];
      AccessorEntries(ms[..|ms| - 1])
        + match TryGetAutoProperty(last) case Some(p) => [Entry(last, p)] case None => []
  }

  /** Fills the dictionary from the accessors in `ms` and turns it into a lookup by property. */
  method GetAutoPropertyMethods(ms: seq<Method>) returns (lookup: seq<Group>)
    ensures lookup == AutoPropertyLookup(ms)
  {
    var dictionary: seq<Entry> := [];
    for i := 0 to |ms|
      invariant dictionary == AccessorEntries(ms[..i])
    {
      assert ms[..i + 1][..i] == ms[..i];
      var property := TryGetAutoProperty(ms[i]);
      if property.None? {
        continue;
      }
      dictionary := dictionary + [Entry(ms[i], property.value)];
    }
    assert ms[..|ms|] == ms;
    lookup := ToLookup(dictionary);
  }

  /** One grouping of the lookup: a property and the accessors that belong to it. */
  datatype Group = Group(key: Property, methods: seq<Method>)

  function Keys(gs: seq<Group>): (r: seq<Property>)
    ensures |r| == |gs| && forall k :: 0 <= k < |gs| ==> r[k] == gs[k].key
  {
    seq(|gs|, k requires 0 <= k < |gs| => gs[k].key)
  }

  /** Adds one entry to a lookup: to the grouping of its property, or as a new last grouping. */
  function Insert(gs: seq<Group>, e: Entry): (r: seq<Group>)
    ensures |gs| <= |r| <= |gs| + 1 && r != []
  {
    if gs == [] then [Group(e.property, [e.accessor])]
    else if gs[0].key == e.property then [Group(gs[0].key, gs[0].methods + [e.accessor])] + gs[1..]
    else [gs[0]] + Insert(gs[1..], e)
  }

  /** Enumerable.ToLookup over the dictionary's entries, keyed by property. */
  function ToLookup(es: seq<Entry>): seq<Group>
  {
    if es == [] then [] else Insert(ToLookup(es[..|es| - 1]), es[|es| - 1])
  }

  /** The lookup has at most one grouping per entry, and none exactly when there are no entries. */
  lemma {:induction false} ToLookupSize(es: seq<Entry>)
    ensures |ToLookup(es)| <= |es|
    ensures ToLookup(es) == [] <==> es == []
  {
    if es != [] {
      ToLookupSize(es[..|es| - 1]);
    }
  }

  /** The properties of the entries, in order. */
  function Properties(es: seq<Entry>): (r: seq<Property>)
    ensures |r| == |es| && forall k :: 0 <= k < |es| ==> r[k] == es[k].property
  {
    seq(|es|, k requires 0 <= k < |es| => es[k].property)
  }

  /** The distinct elements of `xs` in the order they are first seen. */
  function Distinct(xs: seq<Property>): seq<Property>
  {
    if xs == [] then []
    else
      var d := Distinct(xs[..|xs| - 1]);
      if xs[|xs| - 1] in d then d else d + [xs[|xs| - 1]]
  }

  /** The accessors of the entries for property `p`, in order. */
  function MethodsOf(es: seq<Entry>, p: Property): seq<Method>
  {
    if es == [] then []
    else MethodsOf(es[..|es| - 1], p) + if es[|es| - 1].property == p then [es[|es| - 1].accessor] else []
  }

  lemma {:induction false} DistinctElements(xs: seq<Property>)
    ensures forall p :: p in Distinct(xs) <==> p in xs
    ensures forall i, j :: 0 <= i < j < |Distinct(xs)| ==> Distinct(xs)[i] != Distinct(xs)[j]
  {
    if xs != [] {
      var init := xs[..|xs| - 1];
      DistinctElements(init);
      assert xs == init + [xs[|xs| - 1]];
    }
  }

  /** One insertion keeps the keys, or adds the entry's property as the last one when it is new. */
  lemma {:induction false} InsertKeys(gs: seq<Group>, e: Entry)
    ensures Keys(Insert(gs, e)) == if e.property in Keys(gs) then Keys(gs) else Keys(gs) + [e.property]
  {
    if gs != [] && gs[0].key != e.property {
      InsertKeys(gs[1..], e);
      assert Keys(gs) == [gs[0].key] + Keys(gs[1..]);
      assert Keys(Insert(gs, e)) == [gs[0].key] + Keys(Insert(gs[1..], e));
    } else if gs != [] {
      assert Keys(gs)[0] == e.property;
      assert Keys(Insert(gs, e)) == Keys(gs);
    }
  }

  /** One insertion appends the accessor to the grouping of its property and leaves the others alone. */
  lemma {:induction false} InsertMethods(gs: seq<Group>, e: Entry)
    requires forall i, j :: 0 <= i < j < |gs| ==> gs[i].key != gs[j].key
    ensures |Insert(gs, e)| >= |gs|
    ensures forall k :: 0 <= k < |gs| ==>
      Insert(gs, e)[k].methods == gs[k].methods + if gs[k].key == e.property then [e.accessor] else []
  {
    if gs != [] && gs[0].key != e.property {
      var rest := gs[1..];
      assert forall i, j :: 0 <= i < j < |rest| ==> rest[i].key != rest[j].key by {
        forall i, j | 0 <= i < j < |rest|
          ensures rest[i].key != rest[j].key
        {
          assert rest[i] == gs[i + 1] && rest[j] == gs[j + 1];
        }
      }
      InsertMethods(rest, e);
      var r := Insert(gs, e);
      assert r == [gs[0]] + Insert(rest, e);
      forall k | 0 <= k < |gs|
        ensures r[k].methods == gs[k].methods + if gs[k].key == e.property then [e.accessor] else []
      {
        if k > 0 {
          assert r[k] == Insert(rest, e)[k - 1] && rest[k - 1] == gs[k];
        }
      }
    } else if gs != [] {
      var r := Insert(gs, e);
      forall k | 0 <= k < |gs|
        ensures r[k].methods == gs[k].methods + if gs[k].key == e.property then [e.accessor] else []
      {
        if k > 0 {
          assert gs[k].key != gs[0].key;
          assert r[k] == gs[1..][k - 1] == gs[k];
        }
      }
    }
  }

  /** An insertion for a new property opens a last grouping holding just the accessor. */
  lemma {:induction false} InsertNewGroup(gs: seq<Group>, e: Entry)
    requires e.property !in Keys(gs)
    ensures |Insert(gs, e)| == |gs| + 1 && Insert(gs, e)[|gs|].methods == [e.accessor]
  {
    if gs != [] {
      assert gs[0].key == Keys(gs)[0];
      var rest := gs[1..];
      assert e.property !in Keys(rest) by {
        forall k | 0 <= k < |rest|
          ensures Keys(rest)[k] != e.property
        {
          assert Keys(rest)[k] == Keys(gs)[k + 1];
        }
      }
      InsertNewGroup(rest, e);
      assert Insert(gs, e) == [gs[0]] + Insert(rest, e);
    }
  }

  /** The lookup has one grouping per distinct property, in the order the properties are first seen. */
  lemma {:induction false} ToLookupKeys(es: seq<Entry>)
    ensures Keys(ToLookup(es)) == Distinct(Properties(es))
    decreases |es|, 0
  {
    if es != [] {
      var init := es[..|es| - 1];
      var e := es[|es| - 1];
      ToLookupKeys(init);
      var gs := ToLookup(init);
      InsertKeys(gs, e);
      var ps, pi := Properties(es), Properties(init);
      assert ps[..|ps| - 1] == pi && ps[|ps| - 1] == e.property;
      assert Distinct(ps) == if e.property in Distinct(pi) then Distinct(pi) else Distinct(pi) + [e.property];
    }
  }

  /** The groupings of a lookup have pairwise distinct properties. */
  lemma KeysDistinct(es: seq<Entry>)
    ensures forall i, j :: 0 <= i < j < |ToLookup(es)| ==> ToLookup(es)[i].key != ToLookup(es)[j].key
    decreases |es|, 1
  {
    var gs := ToLookup(es);
    ToLookupKeys(es);
    DistinctElements(Properties(es));
    forall i, j | 0 <= i < j < |gs|
      ensures gs[i].key != gs[j].key
    {
      assert Keys(gs)[i] == gs[i].key && Keys(gs)[j] == gs[j].key;
    }
  }

  /** Each grouping holds exactly the entries' accessors of its property, in entry order. */
  lemma {:induction false} ToLookupGroups(es: seq<Entry>)
    ensures forall k :: 0 <= k < |ToLookup(es)| ==> ToLookup(es)[k].methods == MethodsOf(es, ToLookup(es)[k].key)
  {
    if es != [] {
      var init := es[..|es| - 1];
      var e := es[|es| - 1];
      ToLookupGroups(init);
      var gs := ToLookup(init);
      KeysDistinct(init);
      ToLookupKeys(init);
      forall p | p !in Keys(gs)
        ensures MethodsOf(init, p) == []
      {
        MethodsOfAbsent(init, p);
      }
      assert es == init + [e];
      InsertGroups(gs, init, e);
    }
  }

  /** Inserting entry `e` into groupings that match the entries `es` gives groupings that match `es + [e]`. */
  lemma InsertGroups(gs: seq<Group>, es: seq<Entry>, e: Entry)
    requires forall i, j :: 0 <= i < j < |gs| ==> gs[i].key != gs[j].key
    requires forall k :: 0 <= k < |gs| ==> gs[k].methods == MethodsOf(es, gs[k].key)
    requires forall p :: p !in Keys(gs) ==> MethodsOf(es, p) == []
    ensures forall k :: 0 <= k < |Insert(gs, e)| ==> Insert(gs, e)[k].methods == MethodsOf(es + [e], Insert(gs, e)[k].key)
  {
    var r := Insert(gs, e);
    InsertKeys(gs, e);
    InsertMethods(gs, e);
    if e.property !in Keys(gs) {
      InsertNewGroup(gs, e);
    }
    forall k | 0 <= k < |r|
      ensures r[k].methods == MethodsOf(es + [e], r[k].key)
    {
      var p := r[k].key;
      assert (es + [e])[..|es|] == es;
      assert MethodsOf(es + [e], p) == MethodsOf(es, p) + if e.property == p then [e.accessor] else [];
      if k < |gs| {
        assert p == gs[k].key by { assert Keys(r)[k] == Keys(gs)[k]; }
        assert r[k].methods == gs[k].methods + if p == e.property then [e.accessor] else [];
        assert gs[k].methods == MethodsOf(es, p);
      } else {
        assert e.property !in Keys(gs);
        assert p == e.property by { assert Keys(r)[k] == e.property; }
        assert r[k].methods == [e.accessor];
        assert MethodsOf(es, p) == [];
      }
    }
  }

  /** A property no entry carries has no accessors. */
  lemma {:induction false} MethodsOfAbsent(es: seq<Entry>, p: Property)
    requires p !in Distinct(Properties(es))
    ensures MethodsOf(es, p) == []
  {
    DistinctElements(Properties(es));
    if es != [] {
      var init := es[..|es| - 1];
      assert Properties(init) == Properties(es)[..|es| - 1];
      assert p != es[|es| - 1].property by { assert Properties(es)[|es| - 1] == es[|es| - 1].property; }
      assert forall q :: q in Properties(init) ==> q in Properties(es);
      DistinctElements(Properties(init));
      MethodsOfAbsent(init, p);
    }
  }

  /** An accessor of property `p` is among the entries' accessors of `p` exactly when it occurs in the input. */
  lemma {:induction false} MethodsOfAccessorEntries(ms: seq<Method>, p: Property, m: Method)
    ensures m in MethodsOf(AccessorEntries(ms), p) <==> m in ms && TryGetAutoProperty(m) == Some(p)
  {
    if ms != [] {
      var init := ms[..|ms| - 1];
      var last := ms[|ms| - 1];
      MethodsOfAccessorEntries(init, p, m);
      var es := AccessorEntries(ms);
      var ei := AccessorEntries(init);
      assert ms == init + [last];
      assert m in ms <==> m in init || m == last;
      match TryGetAutoProperty(last)
      case Some(q) =>
        assert es == ei + [Entry(last, q)];
        assert es[..|es| - 1] == ei;
        assert MethodsOf(es, p) == MethodsOf(ei, p) + if q == p then [last] else [];
      case None =>
        assert es == ei;
    }
  }

  /**
   * The dictionary holds at most one entry per input member, and every entry
   * pairs an input accessor with the property TryGetAutoProperty gives it.
   */
  lemma {:induction false} AccessorEntriesSound(ms: seq<Method>)
    ensures |AccessorEntries(ms)| <= |ms|
    ensures forall e :: e in AccessorEntries(ms) ==> e.accessor in ms && TryGetAutoProperty(e.accessor) == Some(e.property)
  {
    if ms != [] {
      var init := ms[..|ms| - 1];
      AccessorEntriesSound(init);
      assert ms == init + [ms[|ms| - 1]];
    }
  }

  /** Properties as the entries carry them: each is the property of some input accessor, and conversely. */
  lemma {:induction false} AccessorEntryProperties(ms: seq<Method>, p: Property)
    ensures p in Properties(AccessorEntries(ms)) <==> exists i :: 0 <= i < |ms| && TryGetAutoProperty(ms[i]) == Some(p)
  {
    if ms != [] {
      var init := ms[..|ms| - 1];
      var last := ms[|ms| - 1];
      AccessorEntryProperties(init, p);
      var es := AccessorEntries(ms);
      var ei := AccessorEntries(init);
      match TryGetAutoProperty(last)
      case Some(q) =>
        assert es == ei + [Entry(last, q)];
        assert Properties(es) == Properties(ei) + [q];
      case None =>
        assert es == ei;
      if exists i :: 0 <= i < |ms| && TryGetAutoProperty(ms[i]) == Some(p) {
        var i :| 0 <= i < |ms| && TryGetAutoProperty(ms[i]) == Some(p);
        if i < |ms| - 1 {
          assert init[i] == ms[i];
        }
      }
      if exists i :: 0 <= i < |init| && TryGetAutoProperty(init[i]) == Some(p) {
        var i :| 0 <= i < |init| && TryGetAutoProperty(init[i]) == Some(p);
        assert ms[i] == init[i];
      }
    }
  }

  /** The lookup GetAutoPropertyMethods returns for a member list. */
  function AutoPropertyLookup(ms: seq<Method>): seq<Group>
  {
    ToLookup(AccessorEntries(ms))
  }

  /** The groupings' properties are pairwise distinct. */
  lemma LookupKeysDistinct(ms: seq<Method>)
    ensures forall i, j :: 0 <= i < j < |AutoPropertyLookup(ms)| ==> AutoPropertyLookup(ms)[i].key != AutoPropertyLookup(ms)[j].key
  {
    var es := AccessorEntries(ms);
    KeysDistinct(es);
  }

  /** A property has a grouping exactly when some member of the list is an accessor of it. */
  lemma LookupKeys(ms: seq<Method>, p: Property)
    ensures p in Keys(AutoPropertyLookup(ms)) <==> exists i :: 0 <= i < |ms| && TryGetAutoProperty(ms[i]) == Some(p)
  {
    var es := AccessorEntries(ms);
    ToLookupKeys(es);
    DistinctElements(Properties(es));
    AccessorEntryProperties(ms, p);
  }

  /**
   * A grouping holds exactly the accessors of its property, in input order:
   * a member is in it if and only if it occurs in the list and is an
   * accessor of that property.
   */
  lemma LookupGroupContents(ms: seq<Method>, k: nat)
    requires k < |AutoPropertyLookup(ms)|
    ensures AutoPropertyLookup(ms)[k].methods == MethodsOf(AccessorEntries(ms), AutoPropertyLookup(ms)[k].key)
    ensures forall m :: m in AutoPropertyLookup(ms)[k].methods <==> m in ms && TryGetAutoProperty(m) == Some(AutoPropertyLookup(ms)[k].key)
  {
    var es := AccessorEntries(ms);
    var g := ToLookup(es)[k];
    ToLookupGroups(es);
    forall m
      ensures m in g.methods <==> m in ms && TryGetAutoProperty(m) == Some(g.key)
    {
      MethodsOfAccessorEntries(ms, g.key, m);
    }
  }

  /** Every accessor that has a property lands in exactly one grouping: the one of its property. */
  lemma AccessorInExactlyOneGroup(ms: seq<Method>, i: nat)
    requires i < |ms| && TryGetAutoProperty(ms[i]).Some?
    ensures exists k :: 0 <= k < |AutoPropertyLookup(ms)| && AutoPropertyLookup(ms)[k].key == ms[i].associatedSymbol.value
                       && ms[i] in AutoPropertyLookup(ms)[k].methods
    ensures forall k, k' :: 0 <= k < |AutoPropertyLookup(ms)| && 0 <= k' < |AutoPropertyLookup(ms)|
                       && ms[i] in AutoPropertyLookup(ms)[k].methods && ms[i] in AutoPropertyLookup(ms)[k'].methods
                       ==> k == k'
  {
    var gs := AutoPropertyLookup(ms);
    var p := ms[i].associatedSymbol.value;
    LookupKeys(ms, p);
    LookupKeysDistinct(ms);
    var k :| 0 <= k < |gs| && Keys(gs)[k] == p;
    LookupGroupContents(ms, k);
    forall k1, k2 | 0 <= k1 < |gs| && 0 <= k2 < |gs| && ms[i] in gs[k1].methods && ms[i] in gs[k2].methods
      ensures k1 == k2
    {
      LookupGroupContents(ms, k1);
      LookupGroupContents(ms, k2);
    }
  }

  /** An ordinary method, or an accessor without a property, lands in no grouping. */
  lemma NonAccessorInNoGroup(ms: seq<Method>, m: Method)
    requires TryGetAutoProperty(m).None?
    ensures forall k :: 0 <= k < |AutoPropertyLookup(ms)| ==> m !in AutoPropertyLookup(ms)[k].methods
  {
    forall k | 0 <= k < |AutoPropertyLookup(ms)|
      ensures m !in AutoPropertyLookup(ms)[k].methods
    {
      LookupGroupContents(ms, k);
    }
  }

  /**
   * Accessors of two different property symbols get two groupings, in input
   * order, even when the properties share their name and type, as two
   * indexers `string this[int i]` and `string this[string key]` do.
   */
  lemma DistinctSymbolsSeparate(a: Method, b: Method, p: Property, q: Property)
    requires TryGetAutoProperty(a) == Some(p) && TryGetAutoProperty(b) == Some(q) && p != q
    ensures AutoPropertyLookup([a, b]) == [Group(p, [a]), Group(q, [b])]
  {
    var ea, eb := Entry(a, p), Entry(b, q);
    assert [a][..0] == [];
    assert AccessorEntries([a]) == [ea];
    assert [a, b][..1] == [a];
    assert AccessorEntries([a, b]) == [ea] + [eb];
    var es := [ea] + [eb];
    assert es[..1] == [ea] && es[1] == eb;
    assert [ea][..0] == [];
    var first := ToLookup([ea]);
    assert first == Insert(ToLookup([]), ea);
    assert Insert([], ea) == [Group(p, [a])];
    assert ToLookup(es) == Insert(first, eb);
    assert Insert(first, eb) == [Group(p, [a])] + Insert([], eb);
  }

  /** The two getters of same-typed indexers stay in two groupings. */
  lemma IndexersStaySeparate(g1: Method, g2: Method)
    requires g1.kind == PropertyGet && g1.associatedSymbol == Some(Property("this[]", "string", 1))
    requires g2.kind == PropertyGet && g2.associatedSymbol == Some(Property("this[]", "string", 2))
    ensures |AutoPropertyLookup([g1, g2])| == 2
  {
    DistinctSymbolsSeparate(g1, g2, Property("this[]", "string", 1), Property("this[]", "string", 2));
  }
}
