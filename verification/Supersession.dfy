/** The coloured walk over supersession references, decided exactly. */
module Supersession {
  import opened Wrappers

  type Id = string

  datatype Reference = Reference(id: Id, supersededBy: Option<Id>)

  type Graph = map<Id, Option<Id>>

  /** A later line for the same identifier wins. */
  function Replacements(entries: seq<Reference>): Graph {
    if entries == [] then map[]
    else var e := entries[|entries| - 1]; Replacements(entries[..|entries| - 1])[e.id := e.supersededBy]
  }

  // What the walk decides, stated without colours.

  /** The chain from x reaches null within n steps and stays inside the graph. */
  predicate Reaches(g: Graph, x: Id, n: nat)
    decreases n
  {
    x in g && (g[x].None? || (n > 0 && Reaches(g, g[x].value, n - 1)))
  }

  ghost predicate Grounded(g: Graph, x: Id) {
    exists n: nat :: Reaches(g, x, n)
  }

  /** The identifier k steps along the chain. */
  function At(g: Graph, x: Id, k: nat): Option<Id> {
    if k == 0 then Some(x)
    else var before := At(g, x, k - 1); if before.Some? && before.value in g then g[before.value] else None
  }

  /** The chain from x leaves the graph at identifier u. */
  ghost predicate LeavesAt(g: Graph, x: Id, u: Id) {
    u !in g && exists k: nat :: At(g, x, k) == Some(u)
  }

  /** The chain from x comes back to an identifier. */
  ghost predicate Cyclic(g: Graph, x: Id) {
    exists i: nat, j: nat :: Loops(g, x, i, j)
  }

  ghost predicate Loops(g: Graph, x: Id, i: nat, j: nat) {
    i < j && At(g, x, i).Some? && At(g, x, i) == At(g, x, j)
  }

  lemma {:induction false} AtShift(g: Graph, x: Id, k: nat)
    requires x in g && g[x].Some?
    ensures At(g, x, k + 1) == At(g, g[x].value, k)
  {
    if k > 0 {
      AtShift(g, x, k - 1);
    }
  }

  lemma {:induction false} AtPrefix(g: Graph, x: Id, i: nat, j: nat)
    requires i <= j && At(g, x, j).Some?
    ensures At(g, x, i).Some? && (i < j ==> At(g, x, i).value in g)
    decreases j - i
  {
    if i < j {
      AtPrefix(g, x, i, j - 1);
      if i == j - 1 {
        assert At(g, x, i).value in g;
      }
    }
  }

  lemma LoopStep(g: Graph, x: Id, i: nat, j: nat)
    requires Loops(g, x, i, j)
    ensures x in g && g[x].Some? && Cyclic(g, g[x].value)
  {
    AtPrefix(g, x, 0, j);
    AtPrefix(g, x, 1, j);
    assert At(g, x, 1) == (if x in g then g[x] else None);
    if i > 0 {
      AtShift(g, x, i - 1);
      AtShift(g, x, j - 1);
      assert Loops(g, g[x].value, i - 1, j - 1);
    } else {
      AtShift(g, x, j - 1);
      AtShift(g, x, j);
      assert At(g, x, j + 1) == At(g, x, 1);
      assert Loops(g, g[x].value, 0, j);
    }
  }

  lemma {:induction false} CyclicNeverReaches(g: Graph, x: Id, n: nat)
    requires Cyclic(g, x)
    ensures !Reaches(g, x, n)
    decreases n
  {
    var i: nat, j: nat :| Loops(g, x, i, j);
    LoopStep(g, x, i, j);
    if n > 0 {
      CyclicNeverReaches(g, g[x].value, n - 1);
    }
  }

  lemma {:induction false} LeavingNeverReaches(g: Graph, x: Id, k: nat, n: nat)
    requires At(g, x, k).Some? && At(g, x, k).value !in g
    ensures !Reaches(g, x, n)
    decreases k
  {
    if k > 0 {
      AtPrefix(g, x, 0, k);
      AtPrefix(g, x, 1, k);
      assert At(g, x, 1) == g[x];
      AtShift(g, x, k - 1);
      if n > 0 {
        LeavingNeverReaches(g, g[x].value, k - 1, n - 1);
      }
    }
  }

  /** The three fates of a chain exclude each other. */
  lemma FatesExclude(g: Graph, x: Id)
    ensures Cyclic(g, x) ==> !Grounded(g, x)
    ensures (exists u :: LeavesAt(g, x, u)) ==> !Grounded(g, x) && !Cyclic(g, x)
  {
    if Cyclic(g, x) {
      forall n: nat
        ensures !Reaches(g, x, n)
      {
        CyclicNeverReaches(g, x, n);
      }
    }
    if exists u :: LeavesAt(g, x, u) {
      var u :| LeavesAt(g, x, u);
      var k: nat :| At(g, x, k) == Some(u);
      forall n: nat
        ensures !Reaches(g, x, n)
      {
        LeavingNeverReaches(g, x, k, n);
      }
      forall i: nat, j: nat
        ensures !Loops(g, x, i, j)
      {
        LoopMissesExit(g, x, i, j, k);
      }
    }
  }

  lemma {:induction false} LoopMissesExit(g: Graph, x: Id, i: nat, j: nat, k: nat)
    requires At(g, x, k).Some? && At(g, x, k).value !in g
    ensures !Loops(g, x, i, j)
    decreases k
  {
    if Loops(g, x, i, j) {
      LoopStep(g, x, i, j);
      if k > 0 {
        AtShift(g, x, k - 1);
        var y := g[x].value;
        var a: nat, b: nat :| Loops(g, y, a, b);
        LoopMissesExit(g, y, a, b, k - 1);
      }
    }
  }

  // The walk.

  datatype Verdict = Accepted | UnknownEntry(id: Id) | SupersessionCycle

  datatype Colour = Visiting | Complete

  ghost predicate AllGrounded(g: Graph, ids: seq<Id>) {
    forall i | 0 <= i < |ids| :: Grounded(g, ids[i])
  }

  function Ids(entries: seq<Reference>): seq<Id> {
    seq(|entries|, i requires 0 <= i < |entries| => entries[i].id)
  }

  /** The verdict is settled by the first entry, in archive order, whose chain does not reach null. */
  ghost predicate Decides(v: Verdict, g: Graph, ids: seq<Id>) {
    match v
    case Accepted => AllGrounded(g, ids)
    case UnknownEntry(u) => exists i | 0 <= i < |ids| :: AllGrounded(g, ids[..i]) && LeavesAt(g, ids[i], u)
    case SupersessionCycle => exists i | 0 <= i < |ids| :: AllGrounded(g, ids[..i]) && Cyclic(g, ids[i])
  }

  ghost predicate ColoursSound(g: Graph, colours: map<Id, Colour>, path: seq<Id>) {
    && (forall x | x in colours && colours[x].Complete? :: Grounded(g, x))
    && (forall x | x in colours && colours[x].Visiting? :: x in path)
    && (forall i | 0 <= i < |path| :: path[i] in colours && colours[path[i]].Visiting?)
  }

  /** The path is the beginning of the chain from x, with no identifier twice. */
  ghost predicate IsPath(g: Graph, x: Id, path: seq<Id>) {
    && (forall i | 0 <= i < |path| :: path[i] in g && At(g, x, i) == Some(path[i]))
    && (forall i, j | 0 <= i < j < |path| :: path[i] != path[j])
  }

  lemma {:induction false} DistinctIsShort(path: seq<Id>, keys: set<Id>)
    requires forall i | 0 <= i < |path| :: path[i] in keys
    requires forall i, j | 0 <= i < j < |path| :: path[i] != path[j]
    ensures |path| <= |keys|
  {
    if path != [] {
      var last := path[|path| - 1];
      DistinctIsShort(path[..|path| - 1], keys - {last});
    }
  }

  lemma {:induction false} GroundPath(g: Graph, x: Id, path: seq<Id>, k: nat)
    requires IsPath(g, x, path) && k <= |path|
    requires At(g, x, |path|).None? || Grounded(g, At(g, x, |path|).value)
    ensures forall i | |path| - k <= i < |path| :: Grounded(g, path[i])
    decreases k
  {
    if k > 0 {
      GroundPath(g, x, path, k - 1);
      var i := |path| - k;
      var y := path[i];
      assert At(g, x, i + 1) == g[y];
      if g[y].None? {
        assert Reaches(g, y, 0);
      } else {
        assert i + 1 < |path| ==> At(g, x, i + 1) == Some(path[i + 1]);
        var n: nat :| Reaches(g, g[y].value, n);
        assert Reaches(g, y, n + 1);
      }
    }
  }

  /** Coming back to an identifier of the path closes a loop. */
  lemma PathCloses(g: Graph, x: Id, colours: map<Id, Colour>, path: seq<Id>)
    requires IsPath(g, x, path) && ColoursSound(g, colours, path) && At(g, x, |path|).Some?
    requires var c := At(g, x, |path|).value; c in colours && colours[c].Visiting?
    ensures Cyclic(g, x)
  {
    var i :| 0 <= i < |path| && path[i] == At(g, x, |path|).value;
    assert Loops(g, x, i, |path|);
  }

  lemma PathGrows(g: Graph, x: Id, colours: map<Id, Colour>, path: seq<Id>)
    requires IsPath(g, x, path) && ColoursSound(g, colours, path) && At(g, x, |path|).Some?
    requires At(g, x, |path|).value in g && At(g, x, |path|).value !in colours
    ensures var c := At(g, x, |path|).value;
            && IsPath(g, x, path + [c]) && ColoursSound(g, colours[c := Visiting], path + [c])
            && At(g, x, |path| + 1) == g[c] && |path| < |g.Keys|
  {
    hide Grounded;
    DistinctIsShort(path + [At(g, x, |path|).value], g.Keys);
  }

  /** One chain: extends the completed colours by it, or finds why it never ends. */
  method Follow(g: Graph, x: Id, before: map<Id, Colour>) returns (v: Verdict, colours: map<Id, Colour>)
    requires ColoursSound(g, before, [])
    ensures v.Accepted? ==> ColoursSound(g, colours, []) && Grounded(g, x)
    ensures v.UnknownEntry? ==> LeavesAt(g, x, v.id)
    ensures v.SupersessionCycle? ==> Cyclic(g, x)
  {
    colours := before;
    var path: seq<Id> := [];
    var current := Some(x);
    while current.Some?
      invariant IsPath(g, x, path) && ColoursSound(g, colours, path)
      invariant current == At(g, x, |path|)
      decreases |g.Keys| - |path|, current.Some?
    {
      hide IsPath, ColoursSound, Cyclic, Grounded;
      var c := current.value;
      if c !in g {
        return UnknownEntry(c), colours;
      }
      if c in colours && colours[c].Visiting? {
        PathCloses(g, x, colours, path);
        return SupersessionCycle, colours;
      }
      if c in colours && colours[c].Complete? {
        break;
      }
      PathGrows(g, x, colours, path);
      colours := colours[c := Visiting];
      path := path + [c];
      current := g[c];
    }
    GroundPath(g, x, path, |path|);
    v := Accepted;
    for i := 0 to |path|
      invariant forall y | y in colours && colours[y].Complete? :: Grounded(g, y)
      invariant forall y | y in colours && colours[y].Visiting? :: y in path[i..]
    {
      colours := colours[path[i] := Complete];
    }
    assert path != [] ==> path[0] == x;
  }

  /** The walk accepts exactly the archives in which every chain stays inside and reaches null, and otherwise names
      the fate of the first chain that does not. */
  method ValidateSupersession(entries: seq<Reference>) returns (v: Verdict)
    ensures Decides(v, Replacements(entries), Ids(entries))
    ensures v.Accepted? <==> AllGrounded(Replacements(entries), Ids(entries))
  {
    var g: Graph := map[];
    for i := 0 to |entries|
      invariant g == Replacements(entries[..i])
    {
      assert entries[..i + 1][..i] == entries[..i];
      g := g[entries[i].id := entries[i].supersededBy];
    }
    assert entries[..|entries|] == entries;
    ghost var ids := Ids(entries);
    var colours: map<Id, Colour> := map[];
    for i := 0 to |entries|
      invariant ColoursSound(g, colours, []) && AllGrounded(g, ids[..i])
    {
      var x := entries[i].id;
      if !(x in colours && colours[x].Complete?) {
        v, colours := Follow(g, x, colours);
        if !v.Accepted? {
          assert ids[i] == x;
          FatesExclude(g, x);
          return;
        }
      }
    }
    assert ids[..|ids|] == ids;
    v := Accepted;
  }
}
