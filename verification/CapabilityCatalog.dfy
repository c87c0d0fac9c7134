/** Normalising a capability catalog under one budget of code points. */
module CapabilityCatalog {
  import opened Sorting
  import opened Wrappers

  const MAX_CODE_POINTS := 512_000
  const MAX_DESCRIPTION := 64_000
  const MAX_ITEMS := 32_000

  datatype Kind = Skill | McpTool

  /** A header that passed validation, with its name normalised, and the raw description. */
  datatype Header = Header(kind: Kind, name: string, description: Option<string>)

  /** An array element: unusable, or with a header. */
  datatype Item = Invalid | Usable(header: Header)

  /** An accepted capability. */
  datatype Descriptor = Descriptor(kind: Kind, name: string, description: Option<string>)

  datatype Diagnostics = Diagnostics(received: nat, accepted: nat, truncated: nat, dropped: nat)

  datatype Availability = KnownEmpty | KnownNonempty | Unknown

  datatype Catalog = Catalog(availability: Availability, skills: seq<Descriptor>, tools: seq<Descriptor>,
                             diagnostics: Diagnostics, budgetExceeded: bool)

  /** The compacted text of a description and whether it was shortened. */
  datatype Compacted = Compacted(description: string, truncated: bool)

  type Compactor = string -> Compacted

  datatype Key = Key(kind: Kind, name: string)

  type Order = (Key, Key) -> bool

  /** A total order of `kind:name` texts. */
  ghost predicate TotalOrder(leq: Order) {
    TotalPreorder(leq) && forall a, b | leq(a, b) && leq(b, a) :: a == b
  }

  function KeyOf(h: Header): Key { Key(h.kind, h.name) }

  // Lengths; a text is a sequence of code points.

  /** The length, or one more than the limit as soon as that is exceeded. */
  method BoundedCodePointLength(value: string, limit: int) returns (length: nat)
    ensures length == if limit < 0 then 0 else if |value| <= limit then |value| else limit + 1
  {
    if limit < 0 {
      return 0;
    }
    length := 0;
    for i := 0 to |value|
      invariant length == i <= limit
    {
      length := length + 1;
      if length > limit {
        return;
      }
    }
  }

  // Admission of identities.

  function KindText(kind: Kind): string {
    match kind case Skill => "skill" case McpTool => "mcp_tool"
  }

  /** An identity costs its name and its kind. */
  function Cost(h: Header): nat {
    |h.name| + |KindText(h.kind)|
  }

  function TotalCost(hs: seq<Header>): nat {
    if hs == [] then 0 else Cost(hs[0]) + TotalCost(hs[1..])
  }

  /** The usable items, up to the first whose identity no longer fits; `rest` counts the items from there on. */
  datatype Admission = Admission(headers: seq<Header>, left: nat, rest: nat)

  function Admit(items: seq<Item>, budget: nat): (r: Admission)
    ensures r.left + TotalCost(r.headers) == budget
    ensures |r.headers| + r.rest <= |items|
  {
    if items == [] then Admission([], budget, 0)
    else if items[0].Invalid? then Admit(items[1..], budget)
    else
      var h := items[0].header;
      if Cost(h) > budget then Admission([], budget, |items|)
      else
        var r := Admit(items[1..], budget - Cost(h));
        assert ([h] + r.headers)[1..] == r.headers;
        Admission([h] + r.headers, r.left, r.rest)
  }

  // Stable order of headers by kind and name.

  function ByKey(leq: Order): (Header, Header) -> bool {
    (x, y) => leq(KeyOf(x), KeyOf(y))
  }

  function Arranged(hs: seq<Header>, leq: Order): seq<Header> { Sort(hs, ByKey(leq)) }

  // Descriptions share what the identities left.

  /** An accepted capability with the length of the raw description that was kept. */
  datatype Described = Described(descriptor: Descriptor, truncated: bool, kept: nat)

  function Charge(text: string, budget: nat): nat {
    var limit := if budget < MAX_DESCRIPTION then budget else MAX_DESCRIPTION;
    if |text| <= limit then |text| else limit + 1
  }

  function Describe(h: Header, budget: nat, compact: Compactor): Described {
    if h.description.None? || h.description.value == "" then Described(Descriptor(h.kind, h.name, None), false, 0)
    else
      var text := h.description.value;
      if |text| > budget || |text| > MAX_DESCRIPTION then Described(Descriptor(h.kind, h.name, None), true, 0)
      else
        var c := compact(text);
        Described(Descriptor(h.kind, h.name, if c.description == "" then None else Some(c.description)),
                  c.truncated || c.description == "", |text|)
  }

  function LeftAfter(h: Header, budget: nat): nat {
    if h.description.None? || h.description.value == "" then budget
    else
      var cost := Charge(h.description.value, budget);
      if cost > budget then 0 else budget - cost
  }

  function DescribeAll(hs: seq<Header>, budget: nat, compact: Compactor): seq<Described> {
    if hs == [] then []
    else [Describe(hs[0], budget, compact)] + DescribeAll(hs[1..], LeftAfter(hs[0], budget), compact)
  }

  function Descriptors(ds: seq<Described>, kind: Kind): seq<Descriptor> {
    if ds == [] then []
    else (if ds[0].descriptor.kind == kind then [ds[0].descriptor] else []) + Descriptors(ds[1..], kind)
  }

  function Truncations(ds: seq<Described>): (n: nat)
    ensures n <= |ds|
  {
    if ds == [] then 0 else (if ds[0].truncated then 1 else 0) + Truncations(ds[1..])
  }

  function Kept(ds: seq<Described>): nat {
    if ds == [] then 0 else ds[0].kept + Kept(ds[1..])
  }

  /** The items that are looked at. */
  function Examined(items: seq<Item>): seq<Item> {
    if |items| <= MAX_ITEMS then items else items[..MAX_ITEMS]
  }

  function Normalized(items: seq<Item>, leq: Order, compact: Compactor): Catalog {
    var a := Admit(Examined(items), MAX_CODE_POINTS);
    var ds := DescribeAll(Arranged(a.headers, leq), a.left, compact);
    var exceeded := a.rest > 0 || |items| > MAX_ITEMS;
    var dropped := |items| - |a.headers|;
    Catalog(if items == [] then KnownEmpty else if dropped > 0 then Unknown else KnownNonempty,
            Descriptors(ds, Skill), Descriptors(ds, McpTool),
            Diagnostics(|items|, |ds|, Truncations(ds), dropped), exceeded)
  }
}
