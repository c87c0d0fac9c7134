/** The normalisation loops, their accounting, and that the order of the catalog does not matter. */
module CatalogNormalization {
  import opened Sorting
  import opened Wrappers
  import opened CapabilityCatalog

  // The loops.

  /** One header's description and the budget after it. */
  method DescribeOne(h: Header, budget: nat, compact: Compactor) returns (d: Described, left: nat)
    ensures d == Describe(h, budget, compact) && left == LeftAfter(h, budget)
  {
    d, left := Described(Descriptor(h.kind, h.name, None), false, 0), budget;
    if h.description.Some? && h.description.value != "" {
      var text := h.description.value;
      var limit := if budget < MAX_DESCRIPTION then budget else MAX_DESCRIPTION;
      var cost := BoundedCodePointLength(text, limit);
      if cost > limit {
        left := if budget < cost then 0 else budget - cost;
        d := d.(truncated := true);
      } else {
        left := budget - cost;
        var c := compact(text);
        if c.description != "" {
          d := d.(descriptor := d.descriptor.(description := Some(c.description)));
        }
        d := d.(truncated := c.truncated || c.description == "", kept := cost);
      }
    }
  }

  /** What the whole admission yields, given what was collected and what the remaining items yield. */
  ghost predicate Continues(all: Admission, headers: seq<Header>, now: Admission) {
    all.headers == headers + now.headers && all.left == now.left && all.rest == now.rest
  }

  lemma AdmitStep(all: Admission, headers: seq<Header>, items: seq<Item>, budget: nat)
    requires items != [] && Continues(all, headers, Admit(items, budget))
    ensures items[0].Invalid? ==> Continues(all, headers, Admit(items[1..], budget))
    ensures items[0].Usable? && Cost(items[0].header) <= budget ==>
              Continues(all, headers + [items[0].header], Admit(items[1..], budget - Cost(items[0].header)))
    ensures items[0].Usable? && Cost(items[0].header) > budget ==> all == Admission(headers, budget, |items|)
  {
  }

  method CollectHeaders(items: seq<Item>) returns (headers: seq<Header>, left: nat, dropped: nat, exceeded: bool)
    ensures var a := Admit(Examined(items), MAX_CODE_POINTS);
            && headers == a.headers && left == a.left
            && exceeded == (a.rest > 0) && |headers| + dropped == if exceeded then |items| else |Examined(items)|
  {
    hide Admit, Cost;
    headers, left, dropped, exceeded := [], MAX_CODE_POINTS, 0, false;
    var seen := Examined(items);
    ghost var all := Admit(seen, MAX_CODE_POINTS);
    assert seen[0..] == seen;
    for index := 0 to |seen|
      invariant |headers| + dropped == index && Continues(all, headers, Admit(seen[index..], left))
    {
      assert seen[index] == items[index] && seen[index..][1..] == seen[index + 1..];
      AdmitStep(all, headers, seen[index..], left);
      var item := items[index];
      if item.Invalid? {
        dropped := dropped + 1;
      } else {
        if Cost(item.header) > left {
          dropped := dropped + (|items| - index);
          exceeded := true;
          return;
        }
        left := left - Cost(item.header);
        headers := headers + [item.header];
      }
    }
    NothingLeft(seen[|seen|..], left);
  }

  lemma NothingLeft(items: seq<Item>, budget: nat)
    requires items == []
    ensures Admit(items, budget) == Admission([], budget, 0)
  {
  }

  /** The outputs of the second loop for a list of described headers. */
  datatype Output = Output(skills: seq<Descriptor>, tools: seq<Descriptor>, truncated: nat)

  function Collect(o: Output, ds: seq<Described>): Output {
    Output(o.skills + Descriptors(ds, Skill), o.tools + Descriptors(ds, McpTool), o.truncated + Truncations(ds))
  }

  function Push(o: Output, d: Described): Output {
    var t := if d.truncated then o.truncated + 1 else o.truncated;
    if d.descriptor.kind == Skill then Output(o.skills + [d.descriptor], o.tools, t)
    else Output(o.skills, o.tools + [d.descriptor], t)
  }

  lemma CollectStep(o: Output, d: Described, ds: seq<Described>)
    ensures Collect(o, [d] + ds) == Collect(Push(o, d), ds)
  {
    assert ([d] + ds)[1..] == ds;
  }

  method DescribeHeaders(hs: seq<Header>, left: nat, compact: Compactor) returns (o: Output)
    ensures o == Collect(Output([], [], 0), DescribeAll(hs, left, compact))
  {
    hide Collect, Push, Describe, LeftAfter;
    var budget := left;
    o := Output([], [], 0);
    assert hs[0..] == hs;
    for i := 0 to |hs|
      invariant Collect(Output([], [], 0), DescribeAll(hs, left, compact)) == Collect(o, DescribeAll(hs[i..], budget, compact))
    {
      assert hs[i..][1..] == hs[i + 1..];
      var d, rest := DescribeOne(hs[i], budget, compact);
      CollectStep(o, d, DescribeAll(hs[i + 1..], rest, compact));
      o, budget := Push(o, d), rest;
    }
    CollectNothing(o);
  }

  lemma CollectNothing(o: Output)
    ensures Collect(o, []) == o
  {
  }

  method NormalizeCapabilityCatalog(items: seq<Item>, leq: Order, compact: Compactor) returns (r: Catalog)
    ensures r == Normalized(items, leq, compact)
  {
    hide Admit, Sort, DescribeAll, Descriptors, Truncations;
    var headers, left, dropped, exceeded := CollectHeaders(items);
    if !exceeded && |items| > MAX_ITEMS {
      dropped := dropped + (|items| - MAX_ITEMS);
      exceeded := true;
    }
    var sorted := Arranged(headers, leq);
    SortMembers(headers, ByKey(leq));
    DescribesEach(sorted, left, compact);
    var o := DescribeHeaders(sorted, left, compact);
    var availability := if |items| == 0 then KnownEmpty else if dropped > 0 then Unknown else KnownNonempty;
    r := Catalog(availability, o.skills, o.tools, Diagnostics(|items|, |sorted|, o.truncated, dropped), exceeded);
  }

  lemma {:induction false} DescribesEach(hs: seq<Header>, budget: nat, compact: Compactor)
    ensures |DescribeAll(hs, budget, compact)| == |hs|
  {
    if hs != [] {
      DescribesEach(hs[1..], LeftAfter(hs[0], budget), compact);
    }
  }

  // Accounting.

  lemma {:induction false} InsertCost(h: Header, hs: seq<Header>, leq: (Header, Header) -> bool)
    ensures TotalCost(Insert(h, hs, leq)) == Cost(h) + TotalCost(hs)
  {
    if hs == [] || leq(h, hs[0]) {
      assert ([h] + hs)[1..] == hs;
    } else {
      InsertCost(h, hs[1..], leq);
      assert ([hs[0]] + Insert(h, hs[1..], leq))[1..] == Insert(h, hs[1..], leq);
    }
  }

  lemma {:induction false} SortCost(hs: seq<Header>, leq: (Header, Header) -> bool)
    ensures TotalCost(Sort(hs, leq)) == TotalCost(hs)
  {
    if hs != [] {
      SortCost(hs[1..], leq);
      InsertCost(hs[0], Sort(hs[1..], leq), leq);
    }
  }

  /** Kept descriptions are paid for, each within its own bound. */
  lemma {:induction false} KeptIsPaid(hs: seq<Header>, budget: nat, compact: Compactor)
    ensures Kept(DescribeAll(hs, budget, compact)) <= budget
    ensures forall i | 0 <= i < |DescribeAll(hs, budget, compact)| ::
              DescribeAll(hs, budget, compact)[i].kept <= MAX_DESCRIPTION
  {
    if hs != [] {
      KeptIsPaid(hs[1..], LeftAfter(hs[0], budget), compact);
    }
  }

  /** What is left of the budget after a header, and what the header is described as: whole when its text fits both bounds, and
      otherwise without text; a text over the bound of one description costs one code point more than that, and one over the
      rest of the budget takes all of it. */
  ghost predicate DescribedAt(h: Header, left: nat, d: Described, after: nat, compact: Compactor) {
    var text := if h.description.Some? then h.description.value else "";
    && d.descriptor.kind == h.kind && d.descriptor.name == h.name
    && (text == "" ==> d.descriptor.description == None && !d.truncated && d.kept == 0 && after == left)
    && (text != "" && |text| <= 64000 && |text| <= left ==>
          && d.kept == |text| && after == left - |text|
          && d.descriptor.description == (if compact(text).description == "" then None else Some(compact(text).description))
          && (d.truncated <==> compact(text).truncated || compact(text).description == ""))
    && (text != "" && (|text| > 64000 || |text| > left) ==>
          && d.descriptor.description == None && d.truncated && d.kept == 0
          && after == if left > 64000 then left - 64001 else 0)
  }

  /** The headers are described one after the other, each with what those before it left. */
  ghost predicate DescribedWith(hs: seq<Header>, ds: seq<Described>, left: seq<nat>, compact: Compactor) {
    && |ds| == |hs| && |left| == |hs| + 1
    && forall i | 0 <= i < |hs| :: DescribedAt(hs[i], left[i], ds[i], left[i + 1], compact)
  }

  lemma DescribeIs(h: Header, budget: nat, compact: Compactor)
    ensures DescribedAt(h, budget, Describe(h, budget, compact), LeftAfter(h, budget), compact)
  {
  }

  lemma DescribedOneMore(h: Header, d: Described, n: nat, hs: seq<Header>, ds: seq<Described>, left: seq<nat>, compact: Compactor)
    requires DescribedWith(hs, ds, left, compact) && DescribedAt(h, n, d, left[0], compact)
    ensures DescribedWith([h] + hs, [d] + ds, [n] + left, compact)
  {
    hide DescribedAt;
  }

  lemma {:induction false} DescribedInOrder(hs: seq<Header>, budget: nat, compact: Compactor) returns (left: seq<nat>)
    ensures DescribedWith(hs, DescribeAll(hs, budget, compact), left, compact) && left[0] == budget
  {
    if hs == [] {
      left := [budget];
    } else {
      hide DescribedAt, Describe, LeftAfter, DescribedWith;
      left := DescribedInOrder(hs[1..], LeftAfter(hs[0], budget), compact);
      DescribeIs(hs[0], budget, compact);
      DescribedOneMore(hs[0], Describe(hs[0], budget, compact), budget, hs[1..],
                       DescribeAll(hs[1..], LeftAfter(hs[0], budget), compact), left, compact);
      assert [hs[0]] + hs[1..] == hs;
      left := [budget] + left;
    }
  }

  /** Each shortened header counts once. */
  lemma {:induction false} TruncationsAdd(a: seq<Described>, d: Described, b: seq<Described>)
    ensures Truncations(a + [d] + b) == Truncations(a) + Truncations(b) + if d.truncated then 1 else 0
  {
    var ds := a + [d] + b;
    if a == [] {
      assert ds[0] == d && ds[1..] == b;
    } else {
      assert ds[0] == a[0] && ds[1..] == a[1..] + [d] + b;
      TruncationsAdd(a[1..], d, b);
    }
  }

  function Length(h: Header): nat {
    if h.description.Some? then |h.description.value| else 0
  }

  function TotalLength(hs: seq<Header>): nat {
    if hs == [] then 0 else Length(hs[0]) + TotalLength(hs[1..])
  }

  /** A header with its compacted description, as if there were no budget. */
  function Unlimited(h: Header, compact: Compactor): Descriptor {
    var text := if h.description.Some? then h.description.value else "";
    var c := if text == "" then "" else compact(text).description;
    Descriptor(h.kind, h.name, if c == "" then None else Some(c))
  }

  /** While descriptions fit, each accepted item carries its own compacted description. */
  lemma {:induction false} AmpleBudgetKeepsAll(hs: seq<Header>, budget: nat, compact: Compactor)
    requires TotalLength(hs) <= budget && forall i | 0 <= i < |hs| :: Length(hs[i]) <= MAX_DESCRIPTION
    ensures |DescribeAll(hs, budget, compact)| == |hs|
    ensures forall i | 0 <= i < |hs| ::
              var d := DescribeAll(hs, budget, compact)[i];
              d.descriptor == Unlimited(hs[i], compact) && d.kept == Length(hs[i])
  {
    if hs != [] {
      AmpleBudgetKeepsAll(hs[1..], LeftAfter(hs[0], budget), compact);
    }
  }

  lemma {:induction false} KindsPartition(ds: seq<Described>)
    ensures |Descriptors(ds, Skill)| + |Descriptors(ds, McpTool)| == |ds|
  {
    if ds != [] {
      KindsPartition(ds[1..]);
    }
  }

  /** The names of the headers of one kind, in order. */
  function NamesOf(hs: seq<Header>, kind: Kind): seq<string> {
    if hs == [] then [] else (if hs[0].kind == kind then [hs[0].name] else []) + NamesOf(hs[1..], kind)
  }

  /** The descriptors list exactly these names, each as the given kind. */
  predicate Lists(ds: seq<Descriptor>, kind: Kind, names: seq<string>) {
    |ds| == |names| && forall i | 0 <= i < |ds| :: ds[i].kind == kind && ds[i].name == names[i]
  }

  lemma DescribeKeepsName(h: Header, budget: nat, compact: Compactor)
    ensures var d := Describe(h, budget, compact).descriptor; d.kind == h.kind && d.name == h.name
  {
  }

  lemma ListsOneMore(d: Descriptor, ds: seq<Descriptor>, names: seq<string>)
    requires Lists(ds, d.kind, names)
    ensures Lists([d] + ds, d.kind, [d.name] + names)
  {
  }

  lemma DescriptorsOneMore(hs: seq<Header>, budget: nat, compact: Compactor, kind: Kind)
    requires hs != []
    ensures var rest := Descriptors(DescribeAll(hs[1..], LeftAfter(hs[0], budget), compact), kind);
            var d := Describe(hs[0], budget, compact).descriptor;
            Descriptors(DescribeAll(hs, budget, compact), kind) == if d.kind == kind then [d] + rest else rest
  {
    var d, rest := Describe(hs[0], budget, compact), DescribeAll(hs[1..], LeftAfter(hs[0], budget), compact);
    assert ([d] + rest)[1..] == rest;
  }

  lemma {:induction false} DescriptorsListNames(hs: seq<Header>, budget: nat, compact: Compactor, kind: Kind)
    ensures Lists(Descriptors(DescribeAll(hs, budget, compact), kind), kind, NamesOf(hs, kind))
  {
    if hs != [] {
      hide Describe, LeftAfter, DescribeAll, Descriptors, Lists;
      DescribeKeepsName(hs[0], budget, compact);
      DescriptorsOneMore(hs, budget, compact, kind);
      DescriptorsListNames(hs[1..], LeftAfter(hs[0], budget), compact, kind);
      var rest := Descriptors(DescribeAll(hs[1..], LeftAfter(hs[0], budget), compact), kind);
      if hs[0].kind == kind {
        ListsOneMore(Describe(hs[0], budget, compact).descriptor, rest, NamesOf(hs[1..], kind));
      }
    }
  }

  /** Admission takes every usable item up to the first whose identity does not fit what the ones before it left. */
  ghost predicate Greedy(items: seq<Item>, a: Admission) {
    && a.rest <= |items| && a.headers == Headers(items[..|items| - a.rest])
    && (a.rest > 0 ==> items[|items| - a.rest].Usable? && Cost(items[|items| - a.rest].header) > a.left)
  }

  lemma HeadersOneMore(items: seq<Item>, n: nat)
    requires n < |items|
    ensures Headers(items[..n + 1]) == (if items[0].Usable? then [items[0].header] else []) + Headers(items[1..][..n])
  {
    assert items[..n + 1][1..] == items[1..][..n];
  }

  /** Looking at one item more. */
  lemma AdmitOne(items: seq<Item>, budget: nat)
    requires items != []
    ensures items[0].Invalid? ==> Admit(items, budget) == Admit(items[1..], budget)
    ensures items[0].Usable? && Cost(items[0].header) <= budget ==>
              var r := Admit(items[1..], budget - Cost(items[0].header));
              Admit(items, budget) == Admission([items[0].header] + r.headers, r.left, r.rest)
    ensures items[0].Usable? && Cost(items[0].header) > budget ==> Admit(items, budget) == Admission([], budget, |items|)
  {
  }

  lemma GreedyOneMore(items: seq<Item>, r: Admission)
    requires items != [] && Greedy(items[1..], r)
    ensures Greedy(items, r.(headers := (if items[0].Usable? then [items[0].header] else []) + r.headers))
  {
    HeadersOneMore(items, |items| - 1 - r.rest);
  }

  lemma {:induction false} AdmissionIsGreedy(items: seq<Item>, budget: nat)
    ensures Greedy(items, Admit(items, budget))
  {
    if items == [] {
      NothingLeft(items, budget);
    } else if items[0].Usable? && Cost(items[0].header) > budget {
      AdmitOne(items, budget);
      NoHeaders(items[..0]);
    } else {
      hide Greedy, Admit, Cost;
      AdmitOne(items, budget);
      var left := if items[0].Invalid? then budget else budget - Cost(items[0].header);
      AdmissionIsGreedy(items[1..], left);
      var r := Admit(items[1..], left);
      GreedyOneMore(items, r);
      assert [] + r.headers == r.headers;
    }
  }

  lemma NoHeaders(items: seq<Item>)
    requires items == []
    ensures Headers(items) == []
  {
  }

  /** For every catalog: each element is accepted or dropped, shortened ones are accepted, identities together with kept
      raw descriptions stay within the budget, the accepted items are the usable ones before the first that does not
      fit, and the two lists name exactly them, by kind, in the order of the arrangement. */
  lemma CatalogAccounts(items: seq<Item>, leq: Order, compact: Compactor)
    ensures var c, a := Normalized(items, leq, compact), Admit(Examined(items), MAX_CODE_POINTS);
            && c.diagnostics.received == c.diagnostics.accepted + c.diagnostics.dropped
            && c.diagnostics.truncated <= c.diagnostics.accepted == |c.skills| + |c.tools|
            && TotalCost(a.headers) + Kept(DescribeAll(Arranged(a.headers, leq), a.left, compact)) <= MAX_CODE_POINTS
            && (c.availability.KnownNonempty? ==> |a.headers| == |items| && !c.budgetExceeded)
            && Greedy(Examined(items), a) && multiset(Arranged(a.headers, leq)) == multiset(a.headers)
            && Lists(c.skills, Skill, NamesOf(Arranged(a.headers, leq), Skill))
            && Lists(c.tools, McpTool, NamesOf(Arranged(a.headers, leq), McpTool))
  {
    hide Lists, Greedy, NamesOf;
    var a := Admit(Examined(items), MAX_CODE_POINTS);
    var sorted := Arranged(a.headers, leq);
    SortMembers(a.headers, ByKey(leq));
    AdmissionIsGreedy(Examined(items), MAX_CODE_POINTS);
    DescribesEach(sorted, a.left, compact);
    KeptIsPaid(sorted, a.left, compact);
    KindsPartition(DescribeAll(sorted, a.left, compact));
    DescriptorsListNames(sorted, a.left, compact, Skill);
    DescriptorsListNames(sorted, a.left, compact, McpTool);
    hide Admit, DescribeAll, Sort;
  }

  // Order.

  /** No identity occurs twice. */
  predicate DistinctKeys(hs: seq<Header>) {
    forall i, j | 0 <= i < j < |hs| :: KeyOf(hs[i]) != KeyOf(hs[j])
  }

  lemma ByKeyIsTotal(leq: Order)
    requires TotalOrder(leq)
    ensures TotalPreorder(ByKey(leq))
  {
    var byKey := ByKey(leq);
    forall a, b
      ensures byKey(a, b) || byKey(b, a)
    {
      assert leq(KeyOf(a), KeyOf(b)) || leq(KeyOf(b), KeyOf(a));
    }
    forall a, b, c | byKey(a, b) && byKey(b, c)
      ensures byKey(a, c)
    {
      assert leq(KeyOf(a), KeyOf(b)) && leq(KeyOf(b), KeyOf(c));
    }
  }

  lemma KeysSeparate(hs: seq<Header>, leq: Order)
    requires TotalOrder(leq) && DistinctKeys(hs)
    ensures TotalPreorder(ByKey(leq)) && Separates(ByKey(leq), hs)
  {
    ByKeyIsTotal(leq);
    forall x, y | x in hs && y in hs && ByKey(leq)(x, y) && ByKey(leq)(y, x)
      ensures x == y
    {
      var i :| 0 <= i < |hs| && hs[i] == x;
      var j :| 0 <= j < |hs| && hs[j] == y;
      assert KeyOf(x) == KeyOf(y);
      assert !(i < j) && !(j < i);
    }
  }

  function Headers(items: seq<Item>): seq<Header> {
    if items == [] then [] else (if items[0].Usable? then [items[0].header] else []) + Headers(items[1..])
  }

  lemma {:induction false} HeaderCount(items: seq<Item>, h: Header)
    ensures multiset(Headers(items))[h] == multiset(items)[Usable(h)]
  {
    if items != [] {
      HeaderCount(items[1..], h);
      assert items == [items[0]] + items[1..];
    }
  }

  /** When all identities fit, all usable items are admitted. */
  lemma {:induction false} AdmitsAll(items: seq<Item>, budget: nat)
    requires TotalCost(Headers(items)) <= budget
    ensures Admit(items, budget) == Admission(Headers(items), budget - TotalCost(Headers(items)), 0)
  {
    if items != [] {
      var rest := Headers(items[1..]);
      if items[0].Usable? {
        assert ([items[0].header] + rest)[1..] == rest;
        AdmitsAll(items[1..], budget - Cost(items[0].header));
      } else {
        assert [] + rest == rest;
        AdmitsAll(items[1..], budget);
      }
    }
  }

  lemma {:induction false} HeadersOfUsable(items: seq<Item>)
    ensures |Headers(items)| <= |items|
    ensures |Headers(items)| == |items| <==> forall i | 0 <= i < |items| :: items[i].Usable?
  {
    if items != [] {
      HeadersOfUsable(items[1..]);
      assert forall i | 0 < i < |items| :: items[i] == items[1..][i - 1];
    }
  }

  /** A catalog is known empty only when nothing was given, and known not to be only when every item of at most 32000 was usable and
      all identities fit 512000 code points; the budget is exceeded exactly when there are more items, or the identities do
      not fit. */
  lemma AvailabilityMeans(items: seq<Item>, leq: Order, compact: Compactor)
    ensures var c, identities := Normalized(items, leq, compact), TotalCost(Headers(Examined(items)));
            && (c.availability == KnownEmpty <==> items == [])
            && (c.availability == KnownNonempty <==>
                  && 0 < |items| <= 32000 && identities <= 512000
                  && forall i | 0 <= i < |items| :: items[i].Usable?)
            && (c.budgetExceeded <==> |items| > 32000 || identities > 512000)
  {
    var seen := Examined(items);
    var a := Admit(seen, MAX_CODE_POINTS);
    AdmissionIsGreedy(seen, MAX_CODE_POINTS);
    assert seen[..|seen|] == seen;
    HeadersOfUsable(seen);
    if TotalCost(Headers(seen)) <= MAX_CODE_POINTS {
      AdmitsAll(seen, MAX_CODE_POINTS);
    }
    hide Admit, Headers, TotalCost, DescribeAll, Descriptors, Truncations, Sort;
  }

  /** Within the item bound and the identity budget, with no identity twice, every permutation of a catalog normalises
      to the same result. */
  lemma OrderDoesNotMatter(x: seq<Item>, y: seq<Item>, leq: Order, compact: Compactor)
    requires TotalOrder(leq) && multiset(x) == multiset(y)
    requires |x| <= MAX_ITEMS && TotalCost(Headers(x)) <= MAX_CODE_POINTS && DistinctKeys(Headers(x))
    ensures Normalized(x, leq, compact) == Normalized(y, leq, compact)
  {
    hide Admit, DescribeAll, Sort, Headers, TotalCost, TotalOrder, DistinctKeys, Descriptors, Truncations, TotalPreorder, Separates;
    var a, b := Headers(x), Headers(y);
    PermutedHeaders(x, y);
    KeysSeparate(a, leq);
    SortOfPermutation(a, b, ByKey(leq));
    SortCost(a, ByKey(leq));
    SortCost(b, ByKey(leq));
    AdmitsAll(x, MAX_CODE_POINTS);
    AdmitsAll(y, MAX_CODE_POINTS);
  }

  lemma PermutedHeaders(x: seq<Item>, y: seq<Item>)
    requires multiset(x) == multiset(y)
    ensures |x| == |y| && |Headers(x)| == |Headers(y)| && multiset(Headers(x)) == multiset(Headers(y))
  {
    hide Headers;
    var a, b := Headers(x), Headers(y);
    forall h: Header
      ensures multiset(a)[h] == multiset(b)[h]
    {
      HeaderCount(x, h);
      HeaderCount(y, h);
    }
    assert multiset(a) == multiset(b);
    assert |x| == |multiset(x)| == |multiset(y)| == |y|;
    assert |a| == |multiset(a)| && |b| == |multiset(b)|;
  }
}
