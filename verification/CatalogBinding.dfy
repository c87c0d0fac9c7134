/** The catalog digest that a run is bound to. */
module CatalogBinding {
  import opened Sorting
  import opened Wrappers
  import opened CapabilityCatalog
  import opened CatalogNormalization

  type DescriptorOrder = (Descriptor, Descriptor) -> bool

  ghost predicate TotalDescriptorOrder(leq: DescriptorOrder) {
    TotalPreorder(leq) && forall a, b | leq(a, b) && leq(b, a) :: a == b
  }

  /** Keep what differs from its predecessor. */
  function DropRepeats(ds: seq<Descriptor>): seq<Descriptor> {
    if |ds| <= 1 then ds
    else
      var front := DropRepeats(ds[..|ds| - 1]);
      if ds[|ds| - 1] == ds[|ds| - 2] then front else front + [ds[|ds| - 1]]
  }

  function CanonicalSet(ds: seq<Descriptor>, leq: DescriptorOrder): seq<Descriptor> {
    DropRepeats(Sort(ds, leq))
  }

  predicate StrictlyInOrder(ds: seq<Descriptor>, leq: DescriptorOrder) {
    forall i, j | 0 <= i < j < |ds| :: leq(ds[i], ds[j]) && ds[i] != ds[j]
  }

  lemma SortKeepsMembers(ds: seq<Descriptor>, leq: DescriptorOrder)
    requires TotalDescriptorOrder(leq)
    ensures Ordered(Sort(ds, leq), leq)
    ensures forall x :: x in Sort(ds, leq) <==> x in ds
  {
    SortOrders(ds, leq);
    SortMembers(ds, leq);
    forall x
      ensures x in Sort(ds, leq) <==> x in ds
    {
      assert x in multiset(Sort(ds, leq)) <==> x in multiset(ds);
    }
  }

  lemma {:induction false} DropRepeatsFacts(ds: seq<Descriptor>, leq: DescriptorOrder)
    requires TotalDescriptorOrder(leq) && Ordered(ds, leq)
    ensures StrictlyInOrder(DropRepeats(ds), leq)
    ensures forall x :: x in DropRepeats(ds) <==> x in ds
    ensures ds != [] ==> DropRepeats(ds) != [] && DropRepeats(ds)[|DropRepeats(ds)| - 1] == ds[|ds| - 1]
  {
    if |ds| > 1 {
      var n := |ds| - 1;
      var front := DropRepeats(ds[..n]);
      DropRepeatsFacts(ds[..n], leq);
      assert ds == ds[..n] + [ds[n]];
      if ds[n] != ds[n - 1] {
        forall i | 0 <= i < |front|
          ensures leq(front[i], ds[n]) && front[i] != ds[n]
        {
          assert front[i] in ds[..n];
          assert i < |front| - 1 ==> leq(front[i], front[|front| - 1]);
          assert leq(front[i], ds[n - 1]) && leq(ds[n - 1], ds[n]);
        }
      }
    }
  }

  lemma FirstIsMember(a: seq<Descriptor>)
    ensures a != [] ==> a[0] in a
  {
  }

  lemma {:induction false} StrictIsUnique(a: seq<Descriptor>, b: seq<Descriptor>, leq: DescriptorOrder)
    requires TotalDescriptorOrder(leq) && StrictlyInOrder(a, leq) && StrictlyInOrder(b, leq)
    requires forall x :: x in a <==> x in b
    ensures a == b
  {
    if a == [] || b == [] {
      FirstIsMember(a);
      FirstIsMember(b);
    } else {
      assert a[0] in b && b[0] in a;
      assert a[0] == b[0];
      forall x
        ensures x in a[1..] <==> x in b[1..]
      {
        TailMember(a, x, leq);
        TailMember(b, x, leq);
      }
      StrictIsUnique(a[1..], b[1..], leq);
    }
  }

  lemma TailMember(a: seq<Descriptor>, x: Descriptor, leq: DescriptorOrder)
    requires a != [] && StrictlyInOrder(a, leq)
    ensures x in a[1..] <==> x in a && x != a[0]
  {
  }

  /** The canonical list depends on the set of descriptors and on nothing else. */
  lemma CanonicalSetIsASet(x: seq<Descriptor>, y: seq<Descriptor>, leq: DescriptorOrder)
    requires TotalDescriptorOrder(leq)
    ensures CanonicalSet(x, leq) == CanonicalSet(y, leq) <==> forall d :: d in x <==> d in y
  {
    SortKeepsMembers(x, leq);
    SortKeepsMembers(y, leq);
    DropRepeatsFacts(Sort(x, leq), leq);
    DropRepeatsFacts(Sort(y, leq), leq);
    if forall d :: d in x <==> d in y {
      StrictIsUnique(CanonicalSet(x, leq), CanonicalSet(y, leq), leq);
    }
  }

  // The digest, as the value that is hashed; the hash is taken to be injective.

  datatype Digest = Digest(supplied: bool, availability: Availability, diagnostics: Diagnostics, budgetExceeded: bool,
                           skills: seq<Descriptor>, tools: seq<Descriptor>)

  /** A catalog that was not supplied is normalised to an unknown, empty one. */
  function Effective(items: Option<seq<Item>>, keys: Order, compact: Compactor): Catalog {
    if items.None? then Catalog(Unknown, [], [], Diagnostics(0, 0, 0, 0), false) else Normalized(items.value, keys, compact)
  }

  function CatalogDigest(items: Option<seq<Item>>, keys: Order, compact: Compactor, leq: DescriptorOrder): Digest {
    var c := Effective(items, keys, compact);
    var skills, tools := CanonicalSet(c.skills, leq), CanonicalSet(c.tools, leq);
    var n := |skills| + |tools|;
    var truncated := if c.diagnostics.truncated < n then c.diagnostics.truncated else n;
    Digest(items.Some?, c.availability, if c.availability.Unknown? then c.diagnostics else Diagnostics(n, n, truncated, 0),
           c.budgetExceeded, skills, tools)
  }

  /** A run bound to a catalog accepts every permutation of it that the catalog's own limits allow, and an absent
      catalog only when none was supplied. */
  lemma BindingIgnoresOrder(x: seq<Item>, y: seq<Item>, keys: Order, compact: Compactor, leq: DescriptorOrder)
    requires TotalOrder(keys) && multiset(x) == multiset(y)
    requires |x| <= MAX_ITEMS && TotalCost(Headers(x)) <= MAX_CODE_POINTS && DistinctKeys(Headers(x))
    ensures CatalogDigest(Some(x), keys, compact, leq) == CatalogDigest(Some(y), keys, compact, leq)
    ensures CatalogDigest(Some(x), keys, compact, leq) != CatalogDigest(None, keys, compact, leq)
  {
    hide Normalized, Headers, TotalCost, TotalOrder, DistinctKeys, CanonicalSet;
    OrderDoesNotMatter(x, y, keys, compact);
  }

  lemma {:induction false} StrictSize(a: seq<Descriptor>, leq: DescriptorOrder)
    requires StrictlyInOrder(a, leq)
    ensures |set d | d in a| == |a|
  {
    if a != [] {
      var n := |a| - 1;
      StrictSize(a[..n], leq);
      assert (set d | d in a) == (set d | d in a[..n]) + {a[n]};
      assert a[n] !in a[..n];
    }
  }

  lemma CanonicalSize(ds: seq<Descriptor>, leq: DescriptorOrder)
    requires TotalDescriptorOrder(leq)
    ensures |CanonicalSet(ds, leq)| == |set d | d in ds|
  {
    SortKeepsMembers(ds, leq);
    DropRepeatsFacts(Sort(ds, leq), leq);
    StrictSize(CanonicalSet(ds, leq), leq);
    assert (set d | d in ds) == (set d | d in CanonicalSet(ds, leq));
  }

  /** How many different capabilities a catalog offers. */
  function Distinct(c: Catalog): nat { |set d | d in c.skills| + |set d | d in c.tools| }

  /** The number of shortened descriptions, of which a digest counts no more than there are different capabilities. */
  function Shortened(c: Catalog): nat {
    if c.diagnostics.truncated < Distinct(c) then c.diagnostics.truncated else Distinct(c)
  }

  lemma DistinctIsCounted(c: Catalog, leq: DescriptorOrder)
    requires TotalDescriptorOrder(leq)
    ensures |CanonicalSet(c.skills, leq)| + |CanonicalSet(c.tools, leq)| == Distinct(c)
  {
    CanonicalSize(c.skills, leq);
    CanonicalSize(c.tools, leq);
    hide CanonicalSet, TotalDescriptorOrder;
  }

  ghost predicate SameCapabilities(c: Catalog, d: Catalog) {
    (forall s :: s in c.skills <==> s in d.skills) && forall s :: s in c.tools <==> s in d.tools
  }

  lemma SetsAgree(c: Catalog, d: Catalog, leq: DescriptorOrder)
    requires TotalDescriptorOrder(leq)
    ensures SameCapabilities(c, d)
            <==> CanonicalSet(c.skills, leq) == CanonicalSet(d.skills, leq) && CanonicalSet(c.tools, leq) == CanonicalSet(d.tools, leq)
  {
    CanonicalSetIsASet(c.skills, d.skills, leq);
    CanonicalSetIsASet(c.tools, d.tools, leq);
  }

  lemma SameSize(c: Catalog, d: Catalog)
    requires SameCapabilities(c, d)
    ensures Distinct(c) == Distinct(d)
  {
    assert (set s | s in c.skills) == (set s | s in d.skills) && (set s | s in c.tools) == (set s | s in d.tools);
  }

  /** What a digest reveals of any two catalogs: whether they were supplied, how usable they are, whether a budget was exceeded, and
      which capabilities they offer; of usable ones the number of shortened descriptions, of others all counts. */
  lemma DigestsAgree(x: Option<seq<Item>>, y: Option<seq<Item>>, keys: Order, compact: Compactor, leq: DescriptorOrder)
    requires TotalDescriptorOrder(leq)
    ensures var c, d := Effective(x, keys, compact), Effective(y, keys, compact);
            CatalogDigest(x, keys, compact, leq) == CatalogDigest(y, keys, compact, leq) <==>
              && x.Some? == y.Some? && c.availability == d.availability && c.budgetExceeded == d.budgetExceeded
              && SameCapabilities(c, d)
              && (if c.availability.Unknown? then c.diagnostics == d.diagnostics else Shortened(c) == Shortened(d))
  {
    var c, d := Effective(x, keys, compact), Effective(y, keys, compact);
    SetsAgree(c, d, leq);
    DistinctIsCounted(c, leq);
    DistinctIsCounted(d, leq);
    if SameCapabilities(c, d) {
      SameSize(c, d);
    }
    hide Effective, CanonicalSet, TotalDescriptorOrder, Distinct, SameCapabilities;
  }

  /** Two catalogs that are fully usable have the same digest exactly when they offer the same capabilities and show the
      same number of shortened descriptions. */
  lemma UsableDigests(x: seq<Item>, y: seq<Item>, keys: Order, compact: Compactor, leq: DescriptorOrder)
    requires TotalDescriptorOrder(leq)
    requires Normalized(x, keys, compact).availability.KnownNonempty? && Normalized(y, keys, compact).availability.KnownNonempty?
    ensures var c, d := Normalized(x, keys, compact), Normalized(y, keys, compact);
            CatalogDigest(Some(x), keys, compact, leq) == CatalogDigest(Some(y), keys, compact, leq)
            <==> SameCapabilities(c, d) && Shortened(c) == Shortened(d)
  {
    DigestsAgree(Some(x), Some(y), keys, compact, leq);
    UsableIsWithin(x, keys, compact);
    UsableIsWithin(y, keys, compact);
    hide Normalized, CatalogDigest, SameCapabilities, Shortened, TotalDescriptorOrder;
  }

  lemma UsableIsWithin(items: seq<Item>, keys: Order, compact: Compactor)
    ensures Normalized(items, keys, compact).availability.KnownNonempty? ==> !Normalized(items, keys, compact).budgetExceeded
  {
    hide Lists, Greedy, Admit, DescribeAll;
    CatalogAccounts(items, keys, compact);
  }
}
