/** The recursive metadata sanitiser of notifications and the row a notification is stored as. */
module NotificationMetadata {
  import opened Json
  import opened ObjectGraph

  const TYPE_MAX := 50
  const TITLE_MAX := 120
  const METADATA_STRING_MAX := 500
  const METADATA_TOTAL_MAX := 5000
  const BODY_MAX := 2000
  const CIRCULAR := "[Circular]"

  /** The sanitiser with a call stack of `depth` container levels; None is its overflow. `seen` is
      shared by the whole traversal. */
  function Sanitize(h: Heap, v: Value, seen: set<nat>, depth: nat): (r: Option<(Tree, set<nat>)>)
    decreases depth, 0
  {
    match v
    case Text(s) => Some((TText(Cut(s, METADATA_STRING_MAX)), seen))
    case Other(code) => Some((TOther(code), seen))
    case Ref(id) =>
      var node := Look(h, id);
      if node.ObjNode? && id in seen then Some((TText(CIRCULAR), seen))
      else if depth == 0 then None
      else
        match SanitizeAll(h, node.items, if node.ObjNode? then seen + {id} else seen, depth - 1)
        case None => None
        case Some((items, after)) => Some((if node.ArrNode? then TArr(items) else TObj(node.keys, items), after))
  }

  /** From left to right. */
  function SanitizeAll(h: Heap, vs: seq<Value>, seen: set<nat>, depth: nat): (r: Option<(seq<Tree>, set<nat>)>)
    ensures r.Some? ==> |r.value.0| == |vs|
    decreases depth, |vs|
  {
    if vs == [] then Some(([], seen))
    else
      match Sanitize(h, vs[0], seen, depth)
      case None => None
      case Some((first, between)) =>
        match SanitizeAll(h, vs[1..], between, depth)
        case None => None
        case Some((rest, after)) => Some(([first] + rest, after))
  }

  /** Walks the graph as the code does: `seen` is filled in place, the output objects field by field. */
  class Sanitizer {
    var seen: set<nat>

    constructor ()
      ensures seen == {}
    {
      seen := {};
    }

    method SanitizeValue(h: Heap, v: Value, ghost depth: nat) returns (t: Tree)
      requires Sanitize(h, v, seen, depth).Some?
      modifies this
      ensures Sanitize(h, v, old(seen), depth) == Some((t, seen))
      decreases depth, 0
    {
      match v {
        case Text(s) => t := TText(if |s| > METADATA_STRING_MAX then s[..METADATA_STRING_MAX] else s);
        case Other(code) => t := TOther(code);
        case Ref(id) =>
          var node := Look(h, id);
          if node.ArrNode? {
            var items := SanitizeItems(h, node.items, depth - 1);
            return TArr(items);
          }
          if id in seen {
            return TText(CIRCULAR);
          }
          seen := seen + {id};
          var items := SanitizeItems(h, node.items, depth - 1);
          t := TObj(node.keys, items);
      }
    }

    method SanitizeItems(h: Heap, vs: seq<Value>, ghost depth: nat) returns (out: seq<Tree>)
      requires SanitizeAll(h, vs, seen, depth).Some?
      modifies this
      ensures SanitizeAll(h, vs, old(seen), depth) == Some((out, seen))
      decreases depth, |vs| + 1
    {
      out := [];
      assert vs[0..] == vs;
      ghost var goal := SanitizeAll(h, vs, seen, depth).value;
      for i := 0 to |vs|
        invariant SanitizeAll(h, vs[i..], seen, depth).Some?
        invariant out + SanitizeAll(h, vs[i..], seen, depth).value.0 == goal.0
        invariant SanitizeAll(h, vs[i..], seen, depth).value.1 == goal.1
      {
        assert vs[i..][1..] == vs[i + 1..];
        ghost var was := out;
        var t := SanitizeValue(h, vs[i], depth);
        out := out + [t];
        assert was + ([t] + SanitizeAll(h, vs[i + 1..], seen, depth).value.0) == goal.0;
      }
      assert vs[|vs|..] == [] && out + [] == out;
    }
  }

  // ----- termination -----

  lemma {:induction false} SeenGrows(h: Heap, v: Value, seen: set<nat>, depth: nat)
    ensures var r := Sanitize(h, v, seen, depth);
            r.Some? ==> seen <= r.value.1 && (v.Ref? && Look(h, v.id).ObjNode? ==> v.id in r.value.1)
    decreases depth, 0
  {
    if v.Ref? && depth > 0 {
      SeenGrowsAll(h, Look(h, v.id).items, if Look(h, v.id).ObjNode? then seen + {v.id} else seen, depth - 1);
    }
  }

  lemma {:induction false} SeenGrowsAll(h: Heap, vs: seq<Value>, seen: set<nat>, depth: nat)
    ensures var r := SanitizeAll(h, vs, seen, depth); r.Some? ==> seen <= r.value.1
    decreases depth, |vs|
  {
    if vs != [] {
      SeenGrows(h, vs[0], seen, depth);
      var r := Sanitize(h, vs[0], seen, depth);
      if r.Some? {
        SeenGrowsAll(h, vs[1..], r.value.1, depth);
      }
    }
  }

  /** An array on an array-only cycle overflows every stack. */
  lemma {:induction false} CycleOverflows(h: Heap, c: seq<nat>, seen: set<nat>, depth: nat)
    requires ArrayCycle(h, c)
    ensures Sanitize(h, Ref(c[0]), seen, depth).None?
    decreases depth
  {
    assert c[0] in c;
    if depth > 0 {
      var turned := c[1..] + [c[1]];
      TurnedCycle(h, c);
      var less: nat := depth - 1;
      forall later
        ensures Sanitize(h, Ref(c[1]), later, less).None?
      {
        CycleOverflows(h, turned, later, less);
      }
      assert Edge(h, c[0], c[0 + 1]);
      OneFailsAll(h, Look(h, c[0]).items, Ref(c[1]), seen, less);
    }
  }

  lemma TurnedCycle(h: Heap, c: seq<nat>)
    requires ArrayCycle(h, c)
    ensures ArrayCycle(h, c[1..] + [c[1]]) && (c[1..] + [c[1]])[0] == c[1]
  {
    var t := c[1..] + [c[1]];
    assert forall a | a in t :: a in c;
    forall i | 0 <= i < |t| - 1
      ensures Edge(h, t[i], t[i + 1])
    {
      if i == |c| - 2 {
        assert t[i] == c[0] && Edge(h, c[0], c[0 + 1]);
      } else {
        assert t[i] == c[i + 1] && t[i + 1] == c[i + 1 + 1];
      }
    }
  }

  lemma {:induction false} OneFailsAll(h: Heap, vs: seq<Value>, w: Value, seen: set<nat>, depth: nat)
    requires w in vs && forall later :: Sanitize(h, w, later, depth).None?
    ensures SanitizeAll(h, vs, seen, depth).None?
    decreases |vs|
  {
    var r := Sanitize(h, vs[0], seen, depth);
    if r.Some? {
      OneFailsAll(h, vs[1..], w, r.value.1, depth);
    }
  }

  /** w was sanitised at some point of the traversal that ended with `seen`. */
  ghost predicate Visited(h: Heap, w: Value, seen: set<nat>) {
    exists before, depth :: Finishes(h, w, before, depth, seen)
  }

  predicate Finishes(h: Heap, w: Value, before: set<nat>, depth: nat, seen: set<nat>) {
    Sanitize(h, w, before, depth).Some? && Sanitize(h, w, before, depth).value.1 <= seen
  }

  ghost predicate ChildrenVisited(h: Heap, id: nat, seen: set<nat>) {
    forall w | w in Look(h, id).items :: Visited(h, w, seen)
  }

  /** A traversal that ends has visited every child of every object it marked. */
  lemma {:induction false} MarkedAreExplored(h: Heap, v: Value, seen: set<nat>, depth: nat, end: set<nat>)
    requires Finishes(h, v, seen, depth, end)
    ensures forall o | o in Sanitize(h, v, seen, depth).value.1 && o !in seen :: ChildrenVisited(h, o, end)
    ensures v.Ref? && Look(h, v.id).ArrNode? ==> ChildrenVisited(h, v.id, end)
    decreases depth, 0
  {
    if v.Ref? && depth > 0 && !(Look(h, v.id).ObjNode? && v.id in seen) {
      var node := Look(h, v.id);
      AllAreExplored(h, node.items, if node.ObjNode? then seen + {v.id} else seen, depth - 1, end);
    }
  }

  lemma {:induction false} AllAreExplored(h: Heap, vs: seq<Value>, seen: set<nat>, depth: nat, end: set<nat>)
    requires SanitizeAll(h, vs, seen, depth).Some? && SanitizeAll(h, vs, seen, depth).value.1 <= end
    ensures forall o | o in SanitizeAll(h, vs, seen, depth).value.1 && o !in seen :: ChildrenVisited(h, o, end)
    ensures forall w | w in vs :: Visited(h, w, end)
    decreases depth, |vs|
  {
    if vs != [] {
      var between := Sanitize(h, vs[0], seen, depth).value.1;
      SeenGrowsAll(h, vs[1..], between, depth);
      assert Finishes(h, vs[0], seen, depth, end);
      MarkedAreExplored(h, vs[0], seen, depth, end);
      AllAreExplored(h, vs[1..], between, depth, end);
    }
  }

  lemma {:induction false} WalkIsVisited(h: Heap, v: Value, depth: nat, p: seq<nat>)
    requires Sanitize(h, v, {}, depth).Some? && v.Ref? && Walk(h, p) && p[0] == v.id
    ensures Visited(h, Ref(p[|p| - 1]), Sanitize(h, v, {}, depth).value.1)
    decreases |p|
  {
    var end := Sanitize(h, v, {}, depth).value.1;
    if |p| == 1 {
      assert Finishes(h, v, {}, depth, end);
    } else {
      var a, b := p[|p| - 2], p[|p| - 1];
      WalkIsVisited(h, v, depth, p[..|p| - 1]);
      var before, d :| Finishes(h, Ref(a), before, d, end);
      assert Edge(h, p[|p| - 2], p[|p| - 2 + 1]);
      if Look(h, a).ArrNode? {
        MarkedAreExplored(h, Ref(a), before, d, end);
      } else {
        SeenGrows(h, Ref(a), before, d);
        assert Finishes(h, v, {}, depth, end);
        MarkedAreExplored(h, v, {}, depth, end);
      }
      assert ChildrenVisited(h, a, end);
    }
  }

  /** What can be reached, among the listed addresses. */
  ghost function Region(h: Heap, v: Value): set<nat> {
    set id | id in h.Keys && Reaches(h, v, id)
  }

  ghost function Arrays(h: Heap, region: set<nat>): set<nat> {
    set id | id in region && Look(h, id).ArrNode?
  }

  ghost function Unseen(h: Heap, region: set<nat>, seen: set<nat>): set<nat> {
    set id | id in region && Look(h, id).ObjNode? && id !in seen
  }

  predicate Closed(h: Heap, region: set<nat>) {
    forall a, b | a in region && Edge(h, a, b) :: b in region || b !in h
  }

  ghost function Rank(h: Heap, v: Value, rank: map<nat, nat>): nat {
    if v.Ref? && v.id in rank then rank[v.id] + 1 else 0
  }

  /** (n + 1) * (m + 2) */
  function Levels(n: nat, m: nat): nat {
    if n == 0 then m + 2 else Levels(n - 1, m) + m + 2
  }

  lemma {:induction false} LevelsGrow(n: nat, k: nat, m: nat)
    requires n <= k
    ensures Levels(n, m) <= Levels(k, m)
  {
    if n < k {
      LevelsGrow(n, k - 1, m);
    }
  }

  /** A stack that is deep enough: unseen objects first, array rank second. */
  ghost function Needed(h: Heap, region: set<nat>, seen: set<nat>, rank: nat): nat {
    Levels(|Unseen(h, region, seen)|, |Arrays(h, region)|) + rank
  }

  ghost predicate Ready(h: Heap, region: set<nat>, rank: map<nat, nat>) {
    Closed(h, region) && region <= h.Keys && Ranked(h, Arrays(h, region), rank)
  }

  lemma NodeNeedsMore(h: Heap, region: set<nat>, rank: map<nat, nat>, v: Value, seen: set<nat>)
    requires Ready(h, region, rank) && v.Ref? && v.id in region && !(Look(h, v.id).ObjNode? && v.id in seen)
    ensures var inner := if Look(h, v.id).ObjNode? then seen + {v.id} else seen;
            Needed(h, region, seen, Rank(h, v, rank)) > Needed(h, region, inner, Below(h, region, rank, v.id))
  {
    if Look(h, v.id).ObjNode? {
      var inner := seen + {v.id};
      OneMoreSeen(h, region, v.id, seen);
      assert v.id !in Arrays(h, region) && v.id !in rank;
    }
  }

  lemma OneMoreSeen(h: Heap, region: set<nat>, id: nat, seen: set<nat>)
    requires id in region && Look(h, id).ObjNode? && id !in seen
    ensures |Unseen(h, region, seen)| == |Unseen(h, region, seen + {id})| + 1
  {
    assert Unseen(h, region, seen + {id}) == Unseen(h, region, seen) - {id};
  }

  /** A bound on the ranks of a node's children. */
  ghost function Below(h: Heap, region: set<nat>, rank: map<nat, nat>, id: nat): nat {
    if id in rank then rank[id] else |Arrays(h, region)|
  }

  lemma ChildrenBelow(h: Heap, region: set<nat>, rank: map<nat, nat>, id: nat, w: Value)
    requires Ready(h, region, rank) && id in region && w in Look(h, id).items
    ensures w.Ref? ==> w.id in region || w.id !in h
    ensures Rank(h, w, rank) <= Below(h, region, rank, id)
  {
    if w.Ref? {
      assert Edge(h, id, w.id);
    }
  }

  lemma {:induction false} Terminates(h: Heap, region: set<nat>, rank: map<nat, nat>, v: Value, seen: set<nat>,
                                      depth: nat)
    requires Ready(h, region, rank) && (v.Ref? ==> v.id in region || v.id !in h)
    requires depth >= Needed(h, region, seen, Rank(h, v, rank))
    ensures Sanitize(h, v, seen, depth).Some?
    decreases depth, 0
  {
    if v.Ref? && v.id in h && !(Look(h, v.id).ObjNode? && v.id in seen) {
      var node := Look(h, v.id);
      var inner := if node.ObjNode? then seen + {v.id} else seen;
      NodeNeedsMore(h, region, rank, v, seen);
      forall w | w in node.items
        ensures (w.Ref? ==> w.id in region || w.id !in h) && Rank(h, w, rank) <= Below(h, region, rank, v.id)
      {
        ChildrenBelow(h, region, rank, v.id, w);
      }
      AllTerminate(h, region, rank, node.items, inner, depth - 1, Below(h, region, rank, v.id));
    }
  }

  lemma {:induction false} AllTerminate(h: Heap, region: set<nat>, rank: map<nat, nat>, vs: seq<Value>,
                                        seen: set<nat>, depth: nat, bound: nat)
    requires Ready(h, region, rank)
    requires forall w | w in vs :: (w.Ref? ==> w.id in region || w.id !in h) && Rank(h, w, rank) <= bound
    requires depth >= Needed(h, region, seen, bound)
    ensures SanitizeAll(h, vs, seen, depth).Some?
    decreases depth, |vs|
  {
    if vs != [] {
      assert vs[0] in vs;
      Terminates(h, region, rank, vs[0], seen, depth);
      SeenGrows(h, vs[0], seen, depth);
      var between := Sanitize(h, vs[0], seen, depth).value.1;
      MoreSeenNeedsLess(h, region, seen, between, bound);
      AllTerminate(h, region, rank, vs[1..], between, depth, bound);
    }
  }

  lemma {:induction false} SubsetSize(a: set<nat>, b: set<nat>)
    requires a <= b
    ensures |a| <= |b|
  {
    if a != {} {
      var x :| x in a;
      SubsetSize(a - {x}, b - {x});
    }
  }

  lemma MoreSeenNeedsLess(h: Heap, region: set<nat>, seen: set<nat>, more: set<nat>, rank: nat)
    requires seen <= more
    ensures Needed(h, region, more, rank) <= Needed(h, region, seen, rank)
  {
    SubsetSize(Unseen(h, region, more), Unseen(h, region, seen));
    LevelsGrow(|Unseen(h, region, more)|, |Unseen(h, region, seen)|, |Arrays(h, region)|);
  }

  lemma RegionIsReady(h: Heap, v: Value) returns (rank: map<nat, nat>)
    requires !ReachesArrayCycle(h, v)
    ensures Ready(h, Region(h, v), rank)
  {
    var region := Region(h, v);
    forall a, b | a in region && Edge(h, a, b)
      ensures b in region || b !in h
    {
      ReachesFurther(h, v, a, b);
    }
    forall c | ArrayCycle(h, c)
      ensures exists a :: a in c && a !in Arrays(h, region)
    {
      assert c[0] in c;
    }
    rank := RankExists(h, Arrays(h, region));
  }

  /** Recursion ends exactly when no cycle made of arrays alone can be reached; cycles through an
      object do no harm. */
  lemma SanitizerEndsExactlyWithoutArrayCycle(h: Heap, v: Value)
    ensures (exists depth :: Sanitize(h, v, {}, depth).Some?) <==> !ReachesArrayCycle(h, v)
  {
    if ReachesArrayCycle(h, v) {
      var c :| ArrayCycle(h, c) && Reaches(h, v, c[0]);
      var p :| Walk(h, p) && p[0] == v.id && p[|p| - 1] == c[0];
      forall depth | Sanitize(h, v, {}, depth).Some?
        ensures false
      {
        WalkIsVisited(h, v, depth, p);
        var before, d :| Finishes(h, Ref(c[0]), before, d, Sanitize(h, v, {}, depth).value.1);
        CycleOverflows(h, c, before, d);
      }
    } else {
      var rank := RegionIsReady(h, v);
      var depth := Needed(h, Region(h, v), {}, Rank(h, v, rank));
      if v.Ref? {
        ReachesItself(h, v.id);
      }
      Terminates(h, Region(h, v), rank, v, {}, depth);
    }
  }

  // ----- what comes out -----

  /** What becomes of one value, given what becomes of those inside it: a text keeps its first 500
      characters, an object met before is replaced, an array or a new object keeps its length and keys. */
  lemma SanitizedReads(h: Heap, v: Value, seen: set<nat>, depth: nat)
    ensures v.Text? ==> Sanitize(h, v, seen, depth) == Some((TText(if |v.s| <= 500 then v.s else v.s[..500]), seen))
    ensures v.Other? ==> Sanitize(h, v, seen, depth) == Some((TOther(v.code), seen))
    ensures v.Ref? && Look(h, v.id).ObjNode? && v.id in seen ==>
              Sanitize(h, v, seen, depth) == Some((TText("[Circular]"), seen))
    ensures v.Ref? && Look(h, v.id).ArrNode? && Sanitize(h, v, seen, depth).Some? ==>
              var (t, after) := Sanitize(h, v, seen, depth).value;
              t.TArr? && depth > 0 && SanitizeAll(h, Look(h, v.id).items, seen, depth - 1) == Some((t.items, after))
    ensures v.Ref? && Look(h, v.id).ObjNode? && v.id !in seen && Sanitize(h, v, seen, depth).Some? ==>
              var (t, after) := Sanitize(h, v, seen, depth).value;
              && t.TObj? && depth > 0 && t.keys == Look(h, v.id).keys
              && SanitizeAll(h, Look(h, v.id).items, seen + {v.id}, depth - 1) == Some((t.items, after))
  {
  }

  predicate ShortStrings(t: Tree)
    decreases t
  {
    match t
    case TText(s) => |s| <= METADATA_STRING_MAX
    case TOther(_) => true
    case TArr(items) => AllShort(items)
    case TObj(_, items) => AllShort(items)
  }

  predicate AllShort(ts: seq<Tree>)
    decreases ts
  {
    forall i | 0 <= i < |ts| :: ShortStrings(ts[i])
  }

  lemma {:induction false} StringsAreShort(h: Heap, v: Value, seen: set<nat>, depth: nat)
    ensures var r := Sanitize(h, v, seen, depth); r.Some? ==> ShortStrings(r.value.0)
    decreases depth, 0
  {
    if v.Ref? && depth > 0 {
      var inner := if Look(h, v.id).ObjNode? then seen + {v.id} else seen;
      AllStringsAreShort(h, Look(h, v.id).items, inner, depth - 1);
      var r, below := Sanitize(h, v, seen, depth), SanitizeAll(h, Look(h, v.id).items, inner, depth - 1);
      if below.Some? {
        assert r.value.0.TText? || r.value.0.items == below.value.0;
      }
    }
  }

  lemma {:induction false} AllStringsAreShort(h: Heap, vs: seq<Value>, seen: set<nat>, depth: nat)
    ensures var r := SanitizeAll(h, vs, seen, depth);
            r.Some? ==> AllShort(r.value.0)
    decreases depth, |vs|
  {
    if vs != [] {
      StringsAreShort(h, vs[0], seen, depth);
      var r := Sanitize(h, vs[0], seen, depth);
      if r.Some? {
        AllStringsAreShort(h, vs[1..], r.value.1, depth);
      }
    }
  }

  /** Plain truncation mapped over the tree a value denotes. */
  function Truncated(t: Tree): Tree {
    match t
    case TText(s) => TText(Cut(s, METADATA_STRING_MAX))
    case TOther(code) => t
    case TArr(items) => TArr(seq(|items|, i requires 0 <= i < |items| => Truncated(items[i])))
    case TObj(keys, items) => TObj(keys, seq(|items|, i requires 0 <= i < |items| => Truncated(items[i])))
  }

  function TruncatedAll(ts: seq<Tree>): seq<Tree> {
    seq(|ts|, i requires 0 <= i < |ts| => Truncated(ts[i]))
  }

  /** The objects met when a value is unfolded along the tree it denotes, in order. */
  function Objects(h: Heap, v: Value, t: Tree): seq<nat>
    requires Denotes(h, v, t)
    decreases t, 0
  {
    match t
    case TArr(items) => ObjectsAll(h, Look(h, v.id).items, items)
    case TObj(_, items) => [v.id] + ObjectsAll(h, Look(h, v.id).items, items)
    case _ => []
  }

  predicate DenotesAll(h: Heap, vs: seq<Value>, ts: seq<Tree>) {
    |vs| == |ts| && forall i | 0 <= i < |ts| :: Denotes(h, vs[i], ts[i])
  }

  function ObjectsAll(h: Heap, vs: seq<Value>, ts: seq<Tree>): seq<nat>
    requires DenotesAll(h, vs, ts)
    decreases ts, 0
  {
    if ts == [] then [] else Objects(h, vs[0], ts[0]) + ObjectsAll(h, vs[1..], ts[1..])
  }

  predicate NoRepeats(xs: seq<nat>) {
    forall i, j | 0 <= i < j < |xs| :: xs[i] != xs[j]
  }

  /** No object is met twice, nor one met earlier. */
  predicate Unshared(xs: seq<nat>, seen: set<nat>) {
    NoRepeats(xs) && forall x | x in xs :: x !in seen
  }

  function Plus(seen: set<nat>, xs: seq<nat>): set<nat> {
    seen + set x | x in xs
  }

  lemma UnsharedAppend(xs: seq<nat>, ys: seq<nat>, seen: set<nat>)
    ensures Unshared(xs + ys, seen) <==> Unshared(xs, seen) && Unshared(ys, Plus(seen, xs))
    ensures Plus(seen, xs + ys) == Plus(Plus(seen, xs), ys)
  {
    var zs := xs + ys;
    if Unshared(zs, seen) {
      assert forall i | 0 <= i < |xs| :: zs[i] == xs[i];
      assert forall i | 0 <= i < |ys| :: zs[|xs| + i] == ys[i];
      forall y | y in ys
        ensures y !in Plus(seen, xs)
      {
        var j :| 0 <= j < |ys| && ys[j] == y;
        assert zs[|xs| + j] == y;
      }
    } else if Unshared(xs, seen) && NoRepeats(ys) {
      if i, j :| 0 <= i < j < |zs| && zs[i] == zs[j] {
        assert i < |xs| <= j;
        assert ys[j - |xs|] in ys && xs[i] in xs;
      }
    }
  }

  function Height(t: Tree): nat
    decreases t, 0
  {
    match t
    case TArr(items) => 1 + HeightAll(items)
    case TObj(_, items) => 1 + HeightAll(items)
    case _ => 0
  }

  function HeightAll(ts: seq<Tree>): nat
    decreases ts, 0
  {
    if ts == [] then 0
    else if Height(ts[0]) > HeightAll(ts[1..]) then Height(ts[0])
    else HeightAll(ts[1..])
  }

  /** On a value that denotes a finite tree the sanitiser ends within the tree's height, and it is
      plain truncation exactly when no object is shared. */
  lemma {:induction false} SanitizeTree(h: Heap, v: Value, t: Tree, seen: set<nat>, depth: nat)
    requires Denotes(h, v, t)
    ensures var r := Sanitize(h, v, seen, depth);
            && (depth >= Height(t) ==> r.Some?)
            && (r.Some? ==>
              && (r.value.0 == Truncated(t) <==> Unshared(Objects(h, v, t), seen))
              && (Unshared(Objects(h, v, t), seen) ==> r.value.1 == Plus(seen, Objects(h, v, t))))
    decreases depth, 0, t
  {
    if v.Ref? && depth > 0 && !(Look(h, v.id).ObjNode? && v.id in seen) {
      var node := Look(h, v.id);
      var inner := if node.ObjNode? then seen + {v.id} else seen;
      SanitizeTrees(h, node.items, t.items, inner, depth - 1);
      assert Truncated(t) == if node.ArrNode? then TArr(TruncatedAll(t.items))
                             else TObj(node.keys, TruncatedAll(t.items));
      if node.ObjNode? {
        assert Plus(seen, [v.id]) == inner;
        UnsharedAppend([v.id], ObjectsAll(h, node.items, t.items), seen);
      }
    }
  }

  lemma {:induction false} SanitizeTrees(h: Heap, vs: seq<Value>, ts: seq<Tree>, seen: set<nat>, depth: nat)
    requires DenotesAll(h, vs, ts)
    ensures var r := SanitizeAll(h, vs, seen, depth);
            && (depth >= HeightAll(ts) ==> r.Some?)
            && (r.Some? ==>
              && (r.value.0 == TruncatedAll(ts) <==> Unshared(ObjectsAll(h, vs, ts), seen))
              && (Unshared(ObjectsAll(h, vs, ts), seen) ==> r.value.1 == Plus(seen, ObjectsAll(h, vs, ts))))
    decreases depth, |ts|
  {
    if ts != [] {
      var first := Sanitize(h, vs[0], seen, depth);
      SanitizeTree(h, vs[0], ts[0], seen, depth);
      assert HeightAll(ts) >= Height(ts[0]) && HeightAll(ts) >= HeightAll(ts[1..]);
      if first.Some? {
        SanitizeTrees(h, vs[1..], ts[1..], first.value.1, depth);
        var rest := SanitizeAll(h, vs[1..], first.value.1, depth);
        if rest.Some? {
          Combined(first.value.0, Truncated(ts[0]), rest.value.0, TruncatedAll(ts[1..]),
                   Objects(h, vs[0], ts[0]), ObjectsAll(h, vs[1..], ts[1..]), seen, first.value.1, rest.value.1);
          assert TruncatedAll(ts) == [Truncated(ts[0])] + TruncatedAll(ts[1..]);
        }
      }
    }
  }

  /** Both statements for a first value and the rest give them for the whole list. */
  lemma Combined(x: Tree, y: Tree, xs: seq<Tree>, ys: seq<Tree>, a: seq<nat>, b: seq<nat>,
                 seen: set<nat>, between: set<nat>, after: set<nat>)
    requires (x == y <==> Unshared(a, seen)) && (Unshared(a, seen) ==> between == Plus(seen, a))
    requires (xs == ys <==> Unshared(b, between)) && (Unshared(b, between) ==> after == Plus(between, b))
    ensures [x] + xs == [y] + ys <==> Unshared(a + b, seen)
    ensures Unshared(a + b, seen) ==> after == Plus(seen, a + b)
  {
    UnsharedAppend(a, b, seen);
    ConsEqual(x, xs, y, ys);
  }

  lemma ConsEqual(x: Tree, xs: seq<Tree>, y: Tree, ys: seq<Tree>)
    ensures [x] + xs == [y] + ys <==> x == y && xs == ys
  {
    if [x] + xs == [y] + ys {
      assert x == ([x] + xs)[0] && y == ([y] + ys)[0];
      assert xs == ([x] + xs)[1..] && ys == ([y] + ys)[1..];
    }
  }

  /** The whole sanitiser on metadata that denotes a tree: plain truncation exactly when no object
      occurs twice. */
  lemma PlainTruncationExactlyWithoutSharing(h: Heap, v: Value, t: Tree, depth: nat)
    requires Denotes(h, v, t) && depth >= Height(t)
    ensures Sanitize(h, v, {}, depth).Some?
    ensures Sanitize(h, v, {}, depth).value.0 == Truncated(t) <==> NoRepeats(Objects(h, v, t))
  {
    SanitizeTree(h, v, t, {}, depth);
  }

  // ----- the stored row -----

  datatype Notification = Notification(typ: string, title: string, body: string, metadata: Tree)

  const TRUNCATED := TObj(["_truncated"], [TOther(1)])

  /** jsonLength is the length of a tree's JSON text, None when printing it throws. */
  method CreateNotification(h: Heap, typ: string, title: string, body: string, metadata: Value,
                            jsonLength: Tree -> Option<nat>, ghost depth: nat) returns (n: Notification)
    requires Sanitize(h, metadata, {}, depth).Some?
    ensures n.typ == if |typ| <= 50 then typ else typ[..50]
    ensures n.title == if |title| <= 120 then title else title[..120]
    ensures n.body == if |body| <= 2000 then body else body[..2000]
    ensures ShortStrings(n.metadata)
    ensures var clean := Sanitize(h, metadata, {}, depth).value.0;
            n.metadata == if jsonLength(clean).Some? && jsonLength(clean).value <= 5000 then clean
                          else TObj(["_truncated"], [TOther(1)])
    ensures jsonLength(TRUNCATED).Some? && jsonLength(TRUNCATED).value <= 5000 ==>
              jsonLength(n.metadata).Some? && jsonLength(n.metadata).value <= 5000
  {
    var sanitizer := new Sanitizer();
    var finalMetadata := sanitizer.SanitizeValue(h, metadata, depth);
    StringsAreShort(h, metadata, {}, depth);
    var length := jsonLength(finalMetadata);
    if length.None? || length.value > METADATA_TOTAL_MAX {
      finalMetadata := TRUNCATED;
    }
    n := Notification(Cut(typ, TYPE_MAX), Cut(title, TITLE_MAX), Cut(body, BODY_MAX), finalMetadata);
  }
}
