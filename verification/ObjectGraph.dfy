/** JavaScript object graphs, possibly shared and cyclic, and the trees the sanitisers build from them. */
module ObjectGraph {

  /** A value of the graph; `Other` stands for numbers, booleans, null and the like. */
  datatype Value = Text(s: string) | Ref(id: nat) | Other(code: int)

  /** items[i] is the value under keys[i]. */
  datatype Node = ArrNode(items: seq<Value>) | ObjNode(keys: seq<string>, items: seq<Value>)

  type Heap = map<nat, Node>

  datatype Tree =
    | TText(s: string) | TOther(code: int)
    | TArr(items: seq<Tree>) | TObj(keys: seq<string>, items: seq<Tree>)

  /** An address the heap does not list holds an empty object. */
  function Look(h: Heap, id: nat): Node {
    if id in h then h[id] else ObjNode([], [])
  }

  function Cut(s: string, max: nat): (r: string)
    ensures r <= s && |r| == if |s| < max then |s| else max
  {
    if |s| > max then s[..max] else s
  }

  /** v is a copy of the tree t, shared parts allowed. */
  predicate Denotes(h: Heap, v: Value, t: Tree)
    decreases t
  {
    match t
    case TText(s) => v == Text(s)
    case TOther(code) => v == Other(code)
    case TArr(items) =>
      && v.Ref? && Look(h, v.id).ArrNode? && |Look(h, v.id).items| == |items|
      && forall i | 0 <= i < |items| :: Denotes(h, Look(h, v.id).items[i], items[i])
    case TObj(keys, items) =>
      && v.Ref? && Look(h, v.id).ObjNode? && Look(h, v.id).keys == keys && |Look(h, v.id).items| == |items|
      && forall i | 0 <= i < |items| :: Denotes(h, Look(h, v.id).items[i], items[i])
  }

  // ----- walks and cycles -----

  predicate Edge(h: Heap, a: nat, b: nat) {
    Ref(b) in Look(h, a).items
  }

  predicate Walk(h: Heap, p: seq<nat>) {
    |p| > 0 && forall i | 0 <= i < |p| - 1 :: Edge(h, p[i], p[i + 1])
  }

  /** A closed walk through arrays only. */
  predicate ArrayCycle(h: Heap, c: seq<nat>) {
    |c| >= 2 && Walk(h, c) && c[0] == c[|c| - 1] && forall a | a in c :: Look(h, a).ArrNode?
  }

  ghost predicate Reaches(h: Heap, v: Value, id: nat) {
    v.Ref? && exists p :: Walk(h, p) && p[0] == v.id && p[|p| - 1] == id
  }

  ghost predicate ReachesArrayCycle(h: Heap, v: Value) {
    exists c :: ArrayCycle(h, c) && Reaches(h, v, c[0])
  }

  lemma ReachesItself(h: Heap, id: nat)
    ensures Reaches(h, Ref(id), id)
  {
    assert Walk(h, [id]);
  }

  lemma ReachesFurther(h: Heap, v: Value, a: nat, b: nat)
    requires Reaches(h, v, a) && Edge(h, a, b)
    ensures Reaches(h, v, b)
  {
    var p :| Walk(h, p) && p[0] == v.id && p[|p| - 1] == a;
    var q := p + [b];
    forall i | 0 <= i < |q| - 1
      ensures Edge(h, q[i], q[i + 1])
    {
      if i == |p| - 1 {
        assert q[i] == a && q[i + 1] == b;
      }
    }
    assert Walk(h, q);
  }

  // ----- arrays without a cycle can be ranked -----

  ghost predicate NoCycleIn(h: Heap, arrays: set<nat>) {
    (forall a | a in arrays :: Look(h, a).ArrNode?)
    && forall c | ArrayCycle(h, c) :: exists a :: a in c && a !in arrays
  }

  predicate Source(h: Heap, arrays: set<nat>, x: nat) {
    x in arrays && forall a | a in arrays :: !Edge(h, a, x)
  }

  predicate Ranked(h: Heap, arrays: set<nat>, rank: map<nat, nat>) {
    && rank.Keys == arrays
    && (forall a | a in arrays :: rank[a] < |arrays|)
    && forall a, b | a in arrays && b in arrays && Edge(h, a, b) :: rank[b] < rank[a]
  }

  lemma {:induction false} Pigeonhole(p: seq<nat>, holes: set<nat>) returns (i: nat, j: nat)
    requires |p| > |holes| && forall x | x in p :: x in holes
    ensures i < j < |p| && p[i] == p[j]
    decreases |p|
  {
    var first := p[0];
    if first in p[1..] {
      j :| 0 <= j < |p[1..]| && p[1..][j] == first;
      i, j := 0, j + 1;
    } else {
      assert first in p;
      i, j := Pigeonhole(p[1..], holes - {first});
      i, j := i + 1, j + 1;
    }
  }

  /** Walking backwards from x either meets an array nothing points at or goes on for n steps. */
  lemma {:induction false} WalkBack(h: Heap, arrays: set<nat>, x: nat, n: nat) returns (source: nat, p: seq<nat>)
    requires x in arrays
    ensures Source(h, arrays, source) || (|p| == n + 1 && Walk(h, p) && forall a | a in p :: a in arrays)
    decreases n
  {
    source, p := x, [x];
    if n > 0 {
      source, p := WalkBack(h, arrays, x, n - 1);
      if !Source(h, arrays, source) {
        source := p[0];
        assert p[0] in p;
        if !Source(h, arrays, source) {
          var a :| a in arrays && Edge(h, a, source);
          p := [a] + p;
        }
      }
    }
  }

  /** A walk with more steps than there are arrays runs into itself. */
  lemma LongWalkHasCycle(h: Heap, arrays: set<nat>, p: seq<nat>) returns (c: seq<nat>)
    requires Walk(h, p) && |p| > |arrays| && forall a | a in p :: a in arrays && Look(h, a).ArrNode?
    ensures ArrayCycle(h, c) && forall a | a in c :: a in arrays
  {
    var i, j := Pigeonhole(p, arrays);
    c := p[i..j + 1];
    forall k | 0 <= k < |c| - 1
      ensures Edge(h, c[k], c[k + 1])
    {
      assert Edge(h, p[i + k], p[i + k + 1]);
    }
    assert forall a | a in c :: a in p;
  }

  lemma {:induction false} RankExists(h: Heap, arrays: set<nat>) returns (rank: map<nat, nat>)
    requires NoCycleIn(h, arrays)
    ensures Ranked(h, arrays, rank)
    decreases |arrays|
  {
    rank := map[];
    if arrays != {} {
      var x :| x in arrays;
      var source, p := WalkBack(h, arrays, x, |arrays|);
      if !Source(h, arrays, source) {
        var c := LongWalkHasCycle(h, arrays, p);
        assert false;
      }
      var rest := RankExists(h, arrays - {source});
      rank := rest[source := |arrays| - 1];
    }
  }
}
