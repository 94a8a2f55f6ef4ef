/**
 Drawing elements of one board and the list operations the board applies to
 them: append, remove-by-id and rewrite-the-last-element.

 An element's `data` is a JSON object whose fields may be present or absent;
 the drag handler writes `width` and `height` into whatever element is last,
 so the model keeps every field optional rather than one record per kind.
 */
module Elements {
  import opened Wrappers

  type Id = string

  /** Pointer position reported by the stage. */
  datatype Point = Point(x: int, y: int)

  /** A JavaScript number produced by `point.x - data.x`: NaN when `data.x` is absent. */
  datatype Num = Finite(n: int) | NaN

  /** The `type` field of an element. */
  datatype Kind = LineKind | RectangleKind | CircleKind | TextKind

  datatype Data = Data(
    x: Option<int>,
    y: Option<int>,
    width: Option<Num>,
    height: Option<Num>,
    points: Option<seq<int>>,
    text: Option<string>,
    fontSize: Option<int>,
    stroke: Option<string>,
    strokeWidth: Option<int>,
    fill: Option<string>)

  datatype Element = Element(id: Id, kind: Kind, data: Data)

  const Black: string := "#000000"
  const DefaultStrokeWidth: int := 2
  const DefaultFontSize: int := 16

  /** The committed freehand stroke built on pointer-up with the pen. */
  function LineElement(id: Id, points: seq<int>): (e: Element)
    ensures e.id == id && e.kind == LineKind && e.data.points == Some(points)
    ensures e.data.x.None? && e.data.y.None? && e.data.width.None? && e.data.height.None?
  {
    Element(id, LineKind,
      Data(None, None, None, None, Some(points), None, None,
           Some(Black), Some(DefaultStrokeWidth), None))
  }

  /** The zero-sized rectangle or circle added locally on pointer-down. */
  function ShapeCandidate(id: Id, kind: Kind, pos: Point): (e: Element)
    ensures e.id == id && e.kind == kind
    ensures e.data.x == Some(pos.x) && e.data.y == Some(pos.y)
    ensures e.data.width == Some(Finite(0)) && e.data.height == Some(Finite(0))
  {
    Element(id, kind,
      Data(Some(pos.x), Some(pos.y), Some(Finite(0)), Some(Finite(0)), None, None, None,
           Some(Black), Some(DefaultStrokeWidth), None))
  }

  /** The text element committed on pointer-down with the text tool. */
  function TextElement(id: Id, pos: Point, text: string): (e: Element)
    ensures e.id == id && e.kind == TextKind
    ensures e.data.x == Some(pos.x) && e.data.y == Some(pos.y)
    ensures e.data.text == Some(text) && e.data.fontSize == Some(DefaultFontSize)
  {
    Element(id, TextKind,
      Data(Some(pos.x), Some(pos.y), None, None, None, Some(text), Some(DefaultFontSize),
           None, None, Some(Black)))
  }

  /** JavaScript `a - b` where `b` may be undefined. */
  function Minus(a: int, b: Option<int>): (r: Num)
    ensures r.Finite? <==> b.Some?
    ensures b.Some? ==> r.n + b.value == a
  {
    match b
    case Some(v) => Finite(a - v)
    case None => NaN
  }

  /** The drag update: width and height measured from the element's own origin to `p`. */
  function Resize(e: Element, p: Point): (r: Element)
    ensures r.id == e.id && r.kind == e.kind
    ensures r.data.x == e.data.x && r.data.y == e.data.y
    ensures r.data.width == Some(Minus(p.x, e.data.x))
    ensures r.data.height == Some(Minus(p.y, e.data.y))
    ensures r.data.(width := e.data.width, height := e.data.height) == e.data
  {
    e.(data := e.data.(width := Some(Minus(p.x, e.data.x)), height := Some(Minus(p.y, e.data.y))))
  }

  /**
   `width !== 0 || height !== 0`: only a box measuring the number zero both
   ways fails; an absent (`undefined`) or NaN measure counts as non-zero.
   */
  function HasExtent(e: Element): (b: bool)
    ensures e.data.width.None? || e.data.height.None? ==> b
    ensures e.data.width == Some(NaN) || e.data.height == Some(NaN) ==> b
    ensures (exists n :: n != 0 && e.data.width == Some(Finite(n))) ==> b
    ensures (exists n :: n != 0 && e.data.height == Some(Finite(n))) ==> b
    ensures e.data.width == Some(Finite(0)) && e.data.height == Some(Finite(0)) ==> !b
  {
    e.data.width != Some(Finite(0)) || e.data.height != Some(Finite(0))
  }

  /** Append without looking at ids, as both the local commit and the insert handler do. */
  function Append(els: seq<Element>, e: Element): (r: seq<Element>)
    ensures |r| == |els| + 1
    ensures r[..|els|] == els && r[|els|] == e
    ensures multiset(r) == multiset(els) + multiset{e}
  {
    els + [e]
  }

  /** Rewrite the size of whatever element is last; the empty list is left alone. */
  function ResizeLast(els: seq<Element>, p: Point): (r: seq<Element>)
    ensures |r| == |els|
    ensures forall i :: 0 <= i < |els| - 1 ==> r[i] == els[i]
    ensures |els| > 0 ==> r[|els| - 1] == Resize(els[|els| - 1], p)
  {
    if |els| == 0 then els else els[..|els| - 1] + [Resize(els[|els| - 1], p)]
  }

  /** Keep exactly the elements whose id differs from `id`, in their order. */
  function RemoveId(els: seq<Element>, id: Id): (r: seq<Element>)
    ensures |r| <= |els|
    ensures forall i :: 0 <= i < |r| ==> r[i].id != id
    ensures forall i :: 0 <= i < |els| && els[i].id != id ==> els[i] in r
    ensures forall i :: 0 <= i < |r| ==> r[i] in els
  {
    if |els| == 0 then []
    else if els[0].id == id then RemoveId(els[1..], id)
    else [els[0]] + RemoveId(els[1..], id)
  }

  /** Every element with another id keeps its multiplicity; every element with that id is gone. */
  lemma {:induction false} RemoveIdMultiset(els: seq<Element>, id: Id, e: Element)
    ensures multiset(RemoveId(els, id))[e] == if e.id == id then 0 else multiset(els)[e]
    decreases |els|
  {
    if |els| > 0 {
      assert els == [els[0]] + els[1..];
      RemoveIdMultiset(els[1..], id, e);
    }
  }

  /** How many elements carry the id `id`. */
  function CountId(els: seq<Element>, id: Id): (n: nat)
    ensures n <= |els|
    ensures n == 0 <==> forall i :: 0 <= i < |els| ==> els[i].id != id
  {
    if |els| == 0 then 0
    else (if els[0].id == id then 1 else 0) + CountId(els[1..], id)
  }

  lemma {:induction false} CountIdAppend(a: seq<Element>, b: seq<Element>, id: Id)
    ensures CountId(a + b, id) == CountId(a, id) + CountId(b, id)
    decreases |a|
  {
    if |a| == 0 {
      assert a + b == b;
    } else {
      assert (a + b)[1..] == a[1..] + b;
      CountIdAppend(a[1..], b, id);
    }
  }

  /** Removal distributes over concatenation, which is what "order is kept" means. */
  lemma {:induction false} RemoveIdAppend(a: seq<Element>, b: seq<Element>, id: Id)
    ensures RemoveId(a + b, id) == RemoveId(a, id) + RemoveId(b, id)
    decreases |a|
  {
    if |a| == 0 {
      assert a + b == b;
    } else {
      assert (a + b)[0] == a[0];
      assert (a + b)[1..] == a[1..] + b;
      RemoveIdAppend(a[1..], b, id);
    }
  }

  /** Removing an id nobody carries is a no-op. */
  lemma {:induction false} RemoveIdAbsent(els: seq<Element>, id: Id)
    requires forall i :: 0 <= i < |els| ==> els[i].id != id
    ensures RemoveId(els, id) == els
    decreases |els|
  {
    if |els| > 0 {
      RemoveIdAbsent(els[1..], id);
      assert els == [els[0]] + els[1..];
    }
  }

  lemma RemoveIdIdempotent(els: seq<Element>, id: Id)
    ensures RemoveId(RemoveId(els, id), id) == RemoveId(els, id)
  {
    RemoveIdAbsent(RemoveId(els, id), id);
  }

  /** Two removals give the same list in either order. */
  lemma {:induction false} RemoveIdCommute(els: seq<Element>, a: Id, b: Id)
    ensures RemoveId(RemoveId(els, a), b) == RemoveId(RemoveId(els, b), a)
    decreases |els|
  {
    if |els| > 0 {
      RemoveIdCommute(els[1..], a, b);
      var t := els[1..];
      if els[0].id != a && els[0].id != b {
        calc {
          RemoveId(RemoveId(els, a), b);
          RemoveId([els[0]] + RemoveId(t, a), b);
          { RemoveIdAppend([els[0]], RemoveId(t, a), b); }
          [els[0]] + RemoveId(RemoveId(t, a), b);
        }
        calc {
          RemoveId(RemoveId(els, b), a);
          RemoveId([els[0]] + RemoveId(t, b), a);
          { RemoveIdAppend([els[0]], RemoveId(t, b), a); }
          [els[0]] + RemoveId(RemoveId(t, b), a);
        }
      } else if els[0].id == a && els[0].id != b {
        calc {
          RemoveId(RemoveId(els, b), a);
          RemoveId([els[0]] + RemoveId(t, b), a);
          { RemoveIdAppend([els[0]], RemoveId(t, b), a); }
          RemoveId(RemoveId(t, b), a);
        }
      } else if els[0].id != a && els[0].id == b {
        calc {
          RemoveId(RemoveId(els, a), b);
          RemoveId([els[0]] + RemoveId(t, a), b);
          { RemoveIdAppend([els[0]], RemoveId(t, a), b); }
          RemoveId(RemoveId(t, a), b);
        }
      }
    }
  }

  /** Two successive drags amount to the last one, because the origin is never touched. */
  lemma ResizeLastTwice(els: seq<Element>, p: Point, q: Point)
    ensures ResizeLast(ResizeLast(els, p), q) == ResizeLast(els, q)
  {
    if |els| > 0 {
      var n := |els| - 1;
      var once := ResizeLast(els, p);
      assert once[..n] == els[..n];
      assert Resize(once[n], q) == Resize(els[n], q);
    }
  }

  lemma ResizeLastAppend(els: seq<Element>, e: Element, p: Point)
    ensures ResizeLast(els + [e], p) == els + [Resize(e, p)]
  {
    assert (els + [e])[..|els|] == els;
  }

  /** A drag ends with a non-empty box exactly when it ends away from the origin. */
  lemma ResizedCandidateExtent(id: Id, kind: Kind, origin: Point, p: Point)
    ensures HasExtent(Resize(ShapeCandidate(id, kind, origin), p)) <==> p != origin
  {
  }
}
