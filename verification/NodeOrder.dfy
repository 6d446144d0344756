/** The order the capacity walk visits the nodes in: by name, whatever order the cache lists them in. */
module NodeOrder {
  import opened Kube

  /** Go's string order. */
  predicate Precedes(a: string, b: string) {
    if b == "" then false
    else if a == "" then true
    else if a[0] != b[0] then a[0] < b[0]
    else Precedes(a[1..], b[1..])
  }

  lemma {:induction false} PrecedesIsTotal(a: string, b: string)
    ensures a != b ==> Precedes(a, b) || Precedes(b, a)
    ensures !(Precedes(a, b) && Precedes(b, a))
    decreases a
  {
    if a != "" && b != "" && a[0] == b[0] {
      PrecedesIsTotal(a[1..], b[1..]);
      assert a == [a[0]] + a[1..] && b == [b[0]] + b[1..];
    }
  }

  lemma {:induction false} PrecedesIsTransitive(a: string, b: string, c: string)
    requires Precedes(a, b) && Precedes(b, c)
    ensures Precedes(a, c)
    decreases a
  {
    if a != "" && b != "" && c != "" && a[0] == b[0] == c[0] {
      PrecedesIsTransitive(a[1..], b[1..], c[1..]);
    }
  }

  /** No later node precedes an earlier one. */
  predicate Sorted(nodes: seq<Node>) {
    forall i, j :: 0 <= i < j < |nodes| ==> !Precedes(nodes[j].name, nodes[i].name)
  }

  function Insert(nodes: seq<Node>, n: Node): seq<Node> {
    if nodes == [] then [n]
    else if Precedes(n.name, nodes[|nodes| - 1].name) then Insert(nodes[..|nodes| - 1], n) + [nodes[|nodes| - 1]]
    else nodes + [n]
  }

  function SortedByName(nodes: seq<Node>): seq<Node> {
    if nodes == [] then [] else Insert(SortedByName(nodes[..|nodes| - 1]), nodes[|nodes| - 1])
  }

  lemma {:induction false} InsertKeeps(nodes: seq<Node>, n: Node)
    ensures multiset(Insert(nodes, n)) == multiset(nodes) + multiset{n}
  {
    if nodes != [] {
      var last := |nodes| - 1;
      InsertKeeps(nodes[..last], n);
      assert nodes == nodes[..last] + [nodes[last]];
    }
  }

  lemma InsertedAre(nodes: seq<Node>, n: Node, k: nat)
    requires k < |Insert(nodes, n)|
    ensures Insert(nodes, n)[k] == n || Insert(nodes, n)[k] in nodes
  {
    InsertKeeps(nodes, n);
    assert Insert(nodes, n)[k] in multiset(Insert(nodes, n));
  }

  lemma {:induction false} InsertSorts(nodes: seq<Node>, n: Node)
    requires Sorted(nodes)
    ensures Sorted(Insert(nodes, n))
  {
    if nodes != [] {
      var last := |nodes| - 1;
      if Precedes(n.name, nodes[last].name) {
        InsertSorts(nodes[..last], n);
        PrecedesIsTotal(n.name, nodes[last].name);
        forall k | 0 <= k < |Insert(nodes[..last], n)|
          ensures !Precedes(nodes[last].name, Insert(nodes[..last], n)[k].name)
        {
          InsertedAre(nodes[..last], n, k);
        }
      } else {
        forall k | 0 <= k < last
          ensures !Precedes(n.name, nodes[k].name)
        {
          NotBeforeEarlier(n.name, nodes[last].name, nodes[k].name);
        }
      }
    }
  }

  lemma NotBeforeEarlier(a: string, b: string, c: string)
    requires !Precedes(a, b) && !Precedes(b, c)
    ensures !Precedes(a, c)
  {
    PrecedesIsTotal(a, b);
    if Precedes(a, c) && a != b {
      PrecedesIsTransitive(b, a, c);
    }
  }

  lemma {:induction false} SortedByNameSorts(nodes: seq<Node>)
    ensures Sorted(SortedByName(nodes))
    ensures multiset(SortedByName(nodes)) == multiset(nodes)
  {
    if nodes != [] {
      var last := |nodes| - 1;
      SortedByNameSorts(nodes[..last]);
      InsertSorts(SortedByName(nodes[..last]), nodes[last]);
      InsertKeeps(SortedByName(nodes[..last]), nodes[last]);
      assert nodes == nodes[..last] + [nodes[last]];
    }
  }

  predicate NamesDiffer(nodes: seq<Node>) {
    forall a, b :: a in nodes && b in nodes && a.name == b.name ==> a == b
  }

  lemma WithoutLast(xs: seq<Node>)
    requires xs != []
    ensures var m := |xs| - 1;
            && xs == xs[..m] + [xs[m]]
            && multiset(xs[..m]) == multiset(xs) - multiset{xs[m]}
            && (Sorted(xs) ==> Sorted(xs[..m]))
            && (NamesDiffer(xs) ==> NamesDiffer(xs[..m]))
  {
    var m := |xs| - 1;
    assert xs == xs[..m] + [xs[m]];
    assert forall n :: n in xs[..m] ==> n in xs;
  }

  lemma SameLength(xs: seq<Node>, ys: seq<Node>)
    requires multiset(xs) == multiset(ys)
    ensures |xs| == |ys|
  {
    assert |multiset(xs)| == |xs| && |multiset(ys)| == |ys|;
  }

  /** With one node a name there is only one sorted order. */
  lemma {:induction false} SortedOrderIsUnique(xs: seq<Node>, ys: seq<Node>)
    requires Sorted(xs) && Sorted(ys) && multiset(xs) == multiset(ys) && NamesDiffer(xs)
    ensures xs == ys
  {
    SameLength(xs, ys);
    if xs != [] {
      WithoutLast(xs);
      WithoutLast(ys);
      SameLast(xs, ys);
      SortedOrderIsUnique(xs[..|xs| - 1], ys[..|ys| - 1]);
    }
  }

  lemma SameLast(xs: seq<Node>, ys: seq<Node>)
    requires Sorted(xs) && Sorted(ys) && multiset(xs) == multiset(ys) && NamesDiffer(xs) && xs != [] && ys != []
    ensures xs[|xs| - 1] == ys[|ys| - 1]
  {
    var x, y := xs[|xs| - 1], ys[|ys| - 1];
    assert x in multiset(ys) && y in multiset(xs);
    var i :| 0 <= i < |ys| && ys[i] == x;
    var j :| 0 <= j < |xs| && xs[j] == y;
    PrecedesIsTotal(x.name, y.name);
  }
}
