/** The elements handed to the graph renderer. */
module Graph {
  import opened Wrappers

  /** The renderer class an element is tagged with (`classes`). */
  datatype Class = Wf | Pos | Dependency | Unclassed

  /** `caption` is the `label` field of the element data handed to the renderer. */
  datatype Data =
      /** Word-form node; `lengthEm` is the width hint in `em`. */
    | WordNode(id: string, caption: string, form: string, parent: Option<string>, lengthEm: nat)
    | PosNode(id: string, caption: string, lengthEm: nat)
      /** Group node of a multiword token. */
    | GroupNode(id: string, caption: string)
    | DepEdge(id: string, source: string, target: string, caption: string, ctrl: seq<real>)
    | PosEdge(id: string, source: string, target: string)

  datatype Element = Element(data: Data, classes: Class) {
    function Id(): string {
      data.id
    }

    predicate IsNode() {
      data.WordNode? || data.PosNode? || data.GroupNode?
    }

    predicate HasClass(c: Class) {
      classes == c
    }
  }

  /** No two elements share an id. */
  predicate DistinctElementIds(es: seq<Element>) {
    forall i, j :: 0 <= i < j < |es| ==> es[i].Id() != es[j].Id()
  }

  lemma DistinctConcat(a: seq<Element>, b: seq<Element>)
    requires DistinctElementIds(a) && DistinctElementIds(b)
    requires forall x, y :: x in a && y in b ==> x.Id() != y.Id()
    ensures DistinctElementIds(a + b)
  {
    var c := a + b;
    forall i, j | 0 <= i < j < |c| ensures c[i].Id() != c[j].Id() {
      if j < |a| {
        assert c[i] == a[i] && c[j] == a[j];
      } else if i >= |a| {
        assert c[i] == b[i - |a|] && c[j] == b[j - |a|];
      } else {
        assert c[i] in a && c[j] in b;
      }
    }
  }

  /** The blocks of a list, concatenated in order. */
  function Flatten<X>(xss: seq<seq<X>>): seq<X> {
    if |xss| == 0 then [] else xss[0] + Flatten(xss[1..])
  }

  lemma FlattenCons<X>(xs: seq<X>, xss: seq<seq<X>>)
    ensures Flatten([xs] + xss) == xs + Flatten(xss)
  {
    assert ([xs] + xss)[1..] == xss;
  }

  lemma {:induction false} FlattenMember<X>(xss: seq<seq<X>>, i: nat, x: X)
    requires i < |xss| && x in xss[i]
    ensures x in Flatten(xss)
  {
    if i > 0 {
      assert xss[1..][i - 1] == xss[i];
      FlattenMember(xss[1..], i - 1, x);
    }
  }

  /** Which block an element of the flattened list came from. */
  lemma {:induction false} FlattenFind<X>(xss: seq<seq<X>>, x: X) returns (i: nat)
    requires x in Flatten(xss)
    ensures i < |xss| && x in xss[i]
  {
    if x in xss[0] {
      i := 0;
    } else {
      var k := FlattenFind(xss[1..], x);
      i := k + 1;
      assert xss[1..][k] == xss[i];
    }
  }

  /** `f` applied to each element. */
  function Map<X, Y>(xs: seq<X>, f: X -> Y): (r: seq<Y>)
    ensures |r| == |xs|
  {
    if |xs| == 0 then [] else [f(xs[0])] + Map(xs[1..], f)
  }

  lemma {:induction false} MapAt<X, Y>(xs: seq<X>, f: X -> Y, i: nat)
    requires i < |xs|
    ensures Map(xs, f)[i] == f(xs[i])
  {
    if i > 0 {
      assert xs[1..][i - 1] == xs[i];
      MapAt(xs[1..], f, i - 1);
    }
  }

  /** `f` applied to each element together with its position, counted from `n`. */
  function MapIndexed<X, Y>(xs: seq<X>, n: nat, f: (X, nat) -> Y): (r: seq<Y>)
    ensures |r| == |xs|
  {
    if |xs| == 0 then [] else [f(xs[0], n)] + MapIndexed(xs[1..], n + 1, f)
  }

  lemma {:induction false} MapIndexedAt<X, Y>(xs: seq<X>, n: nat, f: (X, nat) -> Y, i: nat)
    requires i < |xs|
    ensures MapIndexed(xs, n, f)[i] == f(xs[i], n + i)
  {
    if i > 0 {
      assert xs[1..][i - 1] == xs[i];
      MapIndexedAt(xs[1..], n + 1, f, i - 1);
    }
  }

  lemma ConcatMember<X>(a: seq<X>, b: seq<X>, x: X)
    ensures x in a ==> x in a + b
    ensures x in b ==> x in a + b
  {
  }
}
