/**
 Sequences of events applied in order, and what whole gestures do: a pen
 stroke, a rectangle or circle drag, a text placement, an eraser gesture;
 plus the replication and presence facts that concern more than one event.
 */
module Traces {
  import opened Wrappers
  import opened Elements
  import P = Presence
  import opened Session

  /** Compose two transitions: the second starts where the first ended. */
  function Then(first: Transition, second: Transition): Transition
  {
    Transition(second.next, first.effects + second.effects)
  }

  /** Apply events in order with a given step function, collecting the effects in order. */
  function Fold(step: (State, Event) -> Transition, s: State, evs: seq<Event>): (r: Transition)
    decreases |evs|
  {
    if |evs| == 0 then Transition(s, [])
    else Then(step(s, evs[0]), Fold(step, step(s, evs[0]).next, evs[1..]))
  }

  /** Apply events in order, collecting the effects in order. */
  function Run(s: State, evs: seq<Event>): (r: Transition)
    ensures evs == [] ==> r == Transition(s, [])
  {
    Fold(Step, s, evs)
  }

  /** One `MouseMove` per pointer position. */
  function Moves(ps: seq<Point>): (r: seq<Event>)
    ensures |r| == |ps|
    ensures forall i :: 0 <= i < |ps| ==> r[i] == MouseMove(ps[i])
  {
    if |ps| == 0 then [] else [MouseMove(ps[0])] + Moves(ps[1..])
  }

  /** Pointer positions as the flat `[x0, y0, x1, y1, ...]` list the pen accumulates. */
  function FlatPoints(ps: seq<Point>): (r: seq<int>)
    ensures |r| == 2 * |ps|
    ensures forall i :: 0 <= i < |ps| ==> r[2 * i] == ps[i].x && r[2 * i + 1] == ps[i].y
  {
    if |ps| == 0 then [] else [ps[0].x, ps[0].y] + FlatPoints(ps[1..])
  }

  lemma FoldCons(step: (State, Event) -> Transition, s: State, ev: Event, rest: seq<Event>)
    ensures Fold(step, s, [ev] + rest) == Then(step(s, ev), Fold(step, step(s, ev).next, rest))
  {
    assert ([ev] + rest)[0] == ev;
    assert ([ev] + rest)[1..] == rest;
  }

  lemma RunCons(s: State, ev: Event, rest: seq<Event>)
    ensures Run(s, [ev] + rest) == Then(Step(s, ev), Run(Step(s, ev).next, rest))
  {
    FoldCons(Step, s, ev, rest);
  }

  lemma RunOne(s: State, e: Event)
    ensures Run(s, [e]) == Step(s, e)
  {
    assert [e] + [] == [e];
    RunCons(s, e, []);
    assert Step(s, e).effects + [] == Step(s, e).effects;
  }

  lemma RunTwo(s: State, e1: Event, e2: Event)
    ensures Run(s, [e1, e2]) == Then(Step(s, e1), Step(Step(s, e1).next, e2))
  {
    assert [e1, e2] == [e1] + [e2];
    RunCons(s, e1, [e2]);
    RunOne(Step(s, e1).next, e2);
  }

  lemma {:induction false} FoldAppend(step: (State, Event) -> Transition, s: State, a: seq<Event>, b: seq<Event>)
    ensures Fold(step, s, a + b) == Then(Fold(step, s, a), Fold(step, Fold(step, s, a).next, b))
    decreases |a|
  {
    if |a| == 0 {
      assert a + b == b;
    } else {
      var t := step(s, a[0]);
      assert a + b == [a[0]] + (a[1..] + b);
      FoldCons(step, s, a[0], a[1..] + b);
      FoldAppend(step, t.next, a[1..], b);
      assert a == [a[0]] + a[1..];
      FoldCons(step, s, a[0], a[1..]);
    }
  }

  /** Running a concatenation is running the parts one after the other. */
  lemma RunAppend(s: State, a: seq<Event>, b: seq<Event>)
    ensures Run(s, a + b) == Then(Run(s, a), Run(Run(s, a).next, b))
  {
    FoldAppend(Step, s, a, b);
  }

  lemma MovesCons(p: Point, ps: seq<Point>)
    ensures Moves([p] + ps) == [MouseMove(p)] + Moves(ps)
    ensures FlatPoints([p] + ps) == [p.x, p.y] + FlatPoints(ps)
  {
    assert ([p] + ps)[1..] == ps;
  }

  /** While nothing is being drawn, any run of moves changes nothing and sends nothing. */
  lemma {:induction false} IdleMoves(s: State, ps: seq<Point>)
    requires !s.isDrawing
    ensures Run(s, Moves(ps)) == Transition(s, [])
    decreases |ps|
  {
    if |ps| > 0 {
      MovesCons(ps[0], ps[1..]);
      assert ps == [ps[0]] + ps[1..];
      RunCons(s, MouseMove(ps[0]), Moves(ps[1..]));
      IdleMoves(s, ps[1..]);
    }
  }

  /** While the pen is down, moves only extend the path, two coordinates each. */
  lemma {:induction false} PenMoves(s: State, ps: seq<Point>)
    requires s.isDrawing && s.tool == Pen
    ensures Run(s, Moves(ps)) == Transition(s.(currentPath := s.currentPath + FlatPoints(ps)), [])
    decreases |ps|
  {
    if |ps| == 0 {
      assert s.currentPath + FlatPoints(ps) == s.currentPath;
    } else {
      var t := s.(currentPath := s.currentPath + [ps[0].x, ps[0].y]);
      assert ps == [ps[0]] + ps[1..];
      MovesCons(ps[0], ps[1..]);
      RunCons(s, MouseMove(ps[0]), Moves(ps[1..]));
      PenMoves(t, ps[1..]);
      assert t.currentPath + FlatPoints(ps[1..]) == s.currentPath + FlatPoints(ps);
    }
  }

  /** While a shape is being dragged, moves only resize the last element, to the last position. */
  lemma {:induction false} ShapeMoves(s: State, ps: seq<Point>)
    requires s.isDrawing && IsShape(s.tool)
    ensures Run(s, Moves(ps)) ==
      Transition(s.(elements := if ps == [] then s.elements else ResizeLast(s.elements, ps[|ps| - 1])), [])
    decreases |ps|
  {
    if |ps| > 0 {
      var t := s.(elements := ResizeLast(s.elements, ps[0]));
      assert ps == [ps[0]] + ps[1..];
      MovesCons(ps[0], ps[1..]);
      RunCons(s, MouseMove(ps[0]), Moves(ps[1..]));
      ShapeMoves(t, ps[1..]);
      if |ps| > 1 {
        ResizeLastTwice(s.elements, ps[0], ps[|ps| - 1]);
      }
    }
  }

  /** The events of one gesture: pointer down, the moves, pointer up. */
  function Gesture(down: Point, downId: Id, promptResult: Option<string>, ps: seq<Point>, upId: Id): seq<Event>
  {
    [MouseDown(down, downId, promptResult)] + Moves(ps) + [MouseUp(upId)]
  }

  lemma GestureRun(s: State, down: Point, downId: Id, promptResult: Option<string>, ps: seq<Point>, upId: Id)
    ensures
      var t1 := Step(s, MouseDown(down, downId, promptResult));
      var t2 := Run(t1.next, Moves(ps));
      var t3 := Step(t2.next, MouseUp(upId));
      Run(s, Gesture(down, downId, promptResult, ps, upId)) == Then(t1, Then(t2, t3))
  {
    var evs := Gesture(down, downId, promptResult, ps, upId);
    var t1 := Step(s, MouseDown(down, downId, promptResult));
    assert evs == [MouseDown(down, downId, promptResult)] + (Moves(ps) + [MouseUp(upId)]);
    RunCons(s, MouseDown(down, downId, promptResult), Moves(ps) + [MouseUp(upId)]);
    RunAppend(t1.next, Moves(ps), [MouseUp(upId)]);
    var t2 := Run(t1.next, Moves(ps));
    RunOne(t2.next, MouseUp(upId));
  }

  /**
   A pen gesture commits exactly one line whose points are the down position
   followed by every move, saves it once, and leaves the pen idle with an
   empty path; a click without movement still commits a two-coordinate line.
   */
  lemma PenGesture(s: State, down: Point, downId: Id, promptResult: Option<string>, ps: seq<Point>, upId: Id)
    requires s.tool == Pen
    ensures
      var line := LineElement(upId, FlatPoints([down] + ps));
      Run(s, Gesture(down, downId, promptResult, ps, upId)) ==
        Transition(s.(isDrawing := false, currentPath := [], elements := s.elements + [line]), [Save(line)])
    ensures |FlatPoints([down] + ps)| == 2 * (1 + |ps|)
  {
    GestureRun(s, down, downId, promptResult, ps, upId);
    var t1 := s.(isDrawing := true, currentPath := [down.x, down.y]);
    PenMoves(t1, ps);
    MovesCons(down, ps);
  }

  /**
   A rectangle or circle gesture leaves exactly one new element: the
   candidate created on pointer down, sized to the last position. It is saved
   once when it has non-zero width or height and never otherwise.
   */
  lemma ShapeGesture(s: State, down: Point, downId: Id, promptResult: Option<string>, ps: seq<Point>, upId: Id)
    requires IsShape(s.tool)
    ensures
      var c := ShapeCandidate(downId, ShapeKind(s.tool), down);
      var final := if ps == [] then c else Resize(c, ps[|ps| - 1]);
      Run(s, Gesture(down, downId, promptResult, ps, upId)) ==
        Transition(s.(isDrawing := false, elements := s.elements + [final]),
                   if HasExtent(final) then [Save(final)] else [])
  {
    GestureRun(s, down, downId, promptResult, ps, upId);
    var c := ShapeCandidate(downId, ShapeKind(s.tool), down);
    var final := if ps == [] then c else Resize(c, ps[|ps| - 1]);
    var t1 := s.(isDrawing := true, elements := s.elements + [c]);
    ShapeDown(s, down, downId, promptResult);
    ShapeMoves(t1, ps);
    if ps != [] {
      ResizeLastAppend(s.elements, c, ps[|ps| - 1]);
    }
    ShapeUp(t1.(elements := s.elements + [final]), upId);
  }

  lemma ShapeDown(s: State, down: Point, downId: Id, promptResult: Option<string>)
    requires IsShape(s.tool)
    ensures Step(s, MouseDown(down, downId, promptResult)) ==
      Transition(s.(isDrawing := true, elements := s.elements + [ShapeCandidate(downId, ShapeKind(s.tool), down)]), [])
  {
  }

  lemma ShapeUp(s: State, upId: Id)
    requires IsShape(s.tool) && s.isDrawing && |s.elements| > 0
    ensures var last := s.elements[|s.elements| - 1];
      Step(s, MouseUp(upId)) == Transition(s.(isDrawing := false), if HasExtent(last) then [Save(last)] else [])
  {
  }

  /** A shape gesture sends nothing exactly when it ends where it started (or never moved). */
  lemma ShapeGestureDegenerate(s: State, down: Point, downId: Id, promptResult: Option<string>, ps: seq<Point>, upId: Id)
    requires IsShape(s.tool)
    ensures Run(s, Gesture(down, downId, promptResult, ps, upId)).effects == []
        <==> (ps == [] || ps[|ps| - 1] == down)
    ensures |Run(s, Gesture(down, downId, promptResult, ps, upId)).next.elements| == |s.elements| + 1
  {
    ShapeGesture(s, down, downId, promptResult, ps, upId);
    if ps != [] {
      ResizedCandidateExtent(downId, ShapeKind(s.tool), down, ps[|ps| - 1]);
    }
  }

  /**
   A text click with a non-empty prompt answer commits and saves one text
   element; a cancelled or empty answer changes no element and sends nothing;
   the pointer-up that follows sends nothing either way.
   */
  lemma TextClick(s: State, down: Point, downId: Id, promptResult: Option<string>, upId: Id)
    requires s.tool == Text
    ensures
      var r := Run(s, Gesture(down, downId, promptResult, [], upId));
      if Truthy(promptResult) then
        var e := TextElement(downId, down, promptResult.value);
        r == Transition(s.(isDrawing := false, elements := s.elements + [e]), [Save(e)])
      else r == Transition(s.(isDrawing := false), [])
  {
    GestureRun(s, down, downId, promptResult, [], upId);
  }

  /** With the eraser and no drawing in progress, a whole pointer gesture is inert. */
  lemma EraserGesture(s: State, down: Point, downId: Id, promptResult: Option<string>, ps: seq<Point>, upId: Id)
    requires s.tool == Eraser && !s.isDrawing
    ensures Run(s, Gesture(down, downId, promptResult, ps, upId)) == Transition(s, [])
  {
    GestureRun(s, down, downId, promptResult, ps, upId);
    IdleMoves(s, ps);
  }

  /** A pen stroke through (0,0), (5,0) and (5,5). */
  lemma StrokeExample(s: State, upId: Id)
    requires s.tool == Pen
    ensures
      var line := LineElement(upId, [0, 0, 5, 0, 5, 5]);
      Run(s, Gesture(Point(0, 0), "unused", None, [Point(5, 0), Point(5, 5)], upId)) ==
        Transition(s.(isDrawing := false, currentPath := [], elements := s.elements + [line]), [Save(line)])
  {
    var ps := [Point(5, 0), Point(5, 5)];
    PenGesture(s, Point(0, 0), "unused", None, ps, upId);
    assert FlatPoints([Point(0, 0)] + ps) == [0, 0, 5, 0, 5, 5];
  }

  predicate EvenPath(s: State)
  {
    |s.currentPath| % 2 == 0
  }

  /** Every path the pen ever holds has an even number of coordinates. */
  lemma {:induction false} RunKeepsEvenPath(s: State, evs: seq<Event>)
    requires EvenPath(s)
    ensures EvenPath(Run(s, evs).next)
    decreases |evs|
  {
    if |evs| > 0 {
      var t := Step(s, evs[0]);
      assert EvenPath(t.next);
      RunKeepsEvenPath(t.next, evs[1..]);
    }
  }

  lemma InitialPathEven(evs: seq<Event>)
    ensures EvenPath(Run(Initial, evs).next)
  {
    RunKeepsEvenPath(Initial, evs);
  }

  /** Only presence events change the presence list. */
  lemma {:induction false} DrawingLeavesPresence(s: State, evs: seq<Event>)
    requires forall i :: 0 <= i < |evs| ==> !IsPresenceEvent(evs[i])
    ensures Run(s, evs).next.activeUsers == s.activeUsers
    decreases |evs|
  {
    if |evs| > 0 {
      StepFacts(s, evs[0]);
      DrawingLeavesPresence(Step(s, evs[0]).next, evs[1..]);
    }
  }

  /** Replicated and presence events never cause a request to the store. */
  lemma {:induction false} RemoteRunSendsNothing(s: State, evs: seq<Event>)
    requires forall i :: 0 <= i < |evs| ==> IsRemote(evs[i])
    ensures Run(s, evs).effects == []
    decreases |evs|
  {
    if |evs| > 0 {
      StepFacts(s, evs[0]);
      RemoteRunSendsNothing(Step(s, evs[0]).next, evs[1..]);
    }
  }

  /** A sync snapshot overrides whatever joins and leaves came before it. */
  lemma SyncIsAuthoritative(s: State, evs: seq<Event>, snapshot: seq<seq<P.Presence>>)
    ensures Run(s, evs + [PresenceSync(snapshot)]).next.activeUsers == P.Flatten(snapshot)
  {
    RunAppend(s, evs, [PresenceSync(snapshot)]);
    RunOne(Run(s, evs).next, PresenceSync(snapshot));
  }

  /**
   Whatever came before, a successful load leaves exactly the returned rows
   (none for a `null` result), and a failed one leaves the session as it was.
   */
  lemma LoadIsAuthoritative(s: State, evs: seq<Event>, result: LoadResult)
    ensures var before := Run(s, evs).next;
      var after := Run(s, evs + [Loaded(result)]);
      && after.effects == Run(s, evs).effects
      && after.next == before.(elements := after.next.elements)
      && (result.Success? && result.data.Some? ==> after.next.elements == result.data.value)
      && (result.Success? && result.data.None? ==> after.next.elements == [])
      && (result.Failure? ==> after.next == before)
  {
    RunAppend(s, evs, [Loaded(result)]);
    RunOne(Run(s, evs).next, Loaded(result));
  }

  /**
   An eraser click only asks the store to delete; the element disappears
   locally once the store's delete notification comes back, and with any
   other tool the click does nothing.
   */
  lemma EraseRoundTrip(s: State, id: Id)
    ensures s.tool == Eraser ==> Run(s, [ElementClick(id)]) == Transition(s, [DeleteById(id)])
    ensures s.tool == Eraser ==>
      Run(s, [ElementClick(id), Deleted(id)]) == Transition(s.(elements := RemoveId(s.elements, id)), [DeleteById(id)])
    ensures s.tool != Eraser ==> Run(s, [ElementClick(id)]) == Transition(s, [])
  {
    RunOne(s, ElementClick(id));
    RunTwo(s, ElementClick(id), Deleted(id));
  }

  /** One delete notification per id, in order. */
  function Deletes(ids: seq<Id>): (r: seq<Event>)
    ensures |r| == |ids|
    ensures forall i :: 0 <= i < |ids| ==> r[i] == Deleted(ids[i])
  {
    if |ids| == 0 then [] else [Deleted(ids[0])] + Deletes(ids[1..])
  }

  /** Delete notifications that cover every id held empty the list and send nothing. */
  lemma {:induction false} DeletesEmpty(s: State, ids: seq<Id>)
    requires forall i :: 0 <= i < |s.elements| ==> s.elements[i].id in ids
    ensures Run(s, Deletes(ids)) == Transition(s.(elements := []), [])
    decreases |ids|
  {
    if |ids| == 0 {
      assert s.elements == [];
    } else {
      var t := s.(elements := RemoveId(s.elements, ids[0]));
      assert Deletes(ids) == [Deleted(ids[0])] + Deletes(ids[1..]);
      RunCons(s, Deleted(ids[0]), Deletes(ids[1..]));
      assert Step(s, Deleted(ids[0])) == Transition(t, []);
      forall i | 0 <= i < |t.elements|
        ensures t.elements[i].id in ids[1..]
      {
        assert t.elements[i] in s.elements;
        assert ids == [ids[0]] + ids[1..];
      }
      DeletesEmpty(t, ids[1..]);
    }
  }

  /**
   A confirmed clear sends one clear request and leaves the local list alone;
   the list empties once a delete notification has arrived for every id it
   holds, in whatever order they come.
   */
  lemma ClearRoundTrip(s: State, ids: seq<Id>)
    requires forall i :: 0 <= i < |s.elements| ==> s.elements[i].id in ids
    ensures Run(s, [ClearClick(true)]) == Transition(s, [ClearBoard])
    ensures Run(s, [ClearClick(true)] + Deletes(ids)) == Transition(s.(elements := []), [ClearBoard])
  {
    RunOne(s, ClearClick(true));
    RunCons(s, ClearClick(true), Deletes(ids));
    DeletesEmpty(s, ids);
  }

  /** Joins of U1 and U2 followed by a snapshot holding only U1 leave exactly U1. */
  lemma PresenceConvergenceExample(s: State, u1: P.Presence, u2: P.Presence)
    ensures Run(s, [PresenceJoin([u1]), PresenceJoin([u2]), PresenceSync([[u1]])]).next.activeUsers == [u1]
  {
    assert [PresenceJoin([u1]), PresenceJoin([u2]), PresenceSync([[u1]])]
        == [PresenceJoin([u1]), PresenceJoin([u2])] + [PresenceSync([[u1]])];
    SyncIsAuthoritative(s, [PresenceJoin([u1]), PresenceJoin([u2])], [[u1]]);
    assert P.Flatten([[u1]]) == [u1];
  }

  /**
   The insert handler does not look at ids: a locally committed stroke whose
   own insert notification comes back is held twice.
   */
  lemma EchoDuplicates(s: State, ps: seq<Point>, down: Point, upId: Id)
    requires s.tool == Pen && CountId(s.elements, upId) == 0
    ensures
      var line := LineElement(upId, FlatPoints([down] + ps));
      var evs := Gesture(down, "unused", None, ps, upId) + [Inserted(line)];
      CountId(Run(s, evs).next.elements, upId) == 2
  {
    var line := LineElement(upId, FlatPoints([down] + ps));
    var g := Gesture(down, "unused", None, ps, upId);
    PenGesture(s, down, "unused", None, ps, upId);
    RunAppend(s, g, [Inserted(line)]);
    var mid := Run(s, g).next;
    RunOne(mid, Inserted(line));
    CountIdAppend(s.elements, [line], upId);
    CountIdAppend(s.elements + [line], [line], upId);
  }

  /** A delete notification removes every copy, the echoed duplicate included. */
  lemma DeleteRemovesDuplicates(s: State, e: Element)
    ensures CountId(Run(s, [Inserted(e), Inserted(e), Deleted(e.id)]).next.elements, e.id) == 0
  {
    var s2 := s.(elements := s.elements + [e] + [e]);
    assert [Inserted(e), Inserted(e), Deleted(e.id)] == [Inserted(e), Inserted(e)] + [Deleted(e.id)];
    RunAppend(s, [Inserted(e), Inserted(e)], [Deleted(e.id)]);
    RunTwo(s, Inserted(e), Inserted(e));
    assert Run(s, [Inserted(e), Inserted(e)]).next == s2;
    RunOne(s2, Deleted(e.id));
  }

  /** Repeated or reordered delete notifications end in the same element list. */
  lemma DeletesCommuteAndRepeat(s: State, a: Id, b: Id)
    ensures Run(s, [Deleted(a), Deleted(b)]) == Run(s, [Deleted(b), Deleted(a)])
    ensures Run(s, [Deleted(a), Deleted(a)]) == Run(s, [Deleted(a)])
  {
    var sa := s.(elements := RemoveId(s.elements, a));
    var sb := s.(elements := RemoveId(s.elements, b));
    assert Step(s, Deleted(a)) == Transition(sa, []);
    assert Step(s, Deleted(b)) == Transition(sb, []);
    assert Step(sa, Deleted(b)) == Transition(sa.(elements := RemoveId(sa.elements, b)), []);
    assert Step(sb, Deleted(a)) == Transition(sb.(elements := RemoveId(sb.elements, a)), []);
    assert Step(sa, Deleted(a)) == Transition(sa.(elements := RemoveId(sa.elements, a)), []);
    RunTwo(s, Deleted(a), Deleted(b));
    RunTwo(s, Deleted(b), Deleted(a));
    RunTwo(s, Deleted(a), Deleted(a));
    RunOne(s, Deleted(a));
    RemoveIdCommute(s.elements, a, b);
    RemoveIdIdempotent(s.elements, a);
  }

  /** Two insert notifications in either order hold the same elements, counted with multiplicity. */
  lemma InsertsCommuteAsMultiset(s: State, a: Element, b: Element)
    ensures multiset(Run(s, [Inserted(a), Inserted(b)]).next.elements)
         == multiset(Run(s, [Inserted(b), Inserted(a)]).next.elements)
    ensures Run(s, [Inserted(a), Inserted(a)]).next.elements == s.elements + [a, a]
  {
    InsertTwo(s, a, b);
    InsertTwo(s, b, a);
    InsertTwo(s, a, a);
  }

  lemma InsertTwo(s: State, a: Element, b: Element)
    ensures Run(s, [Inserted(a), Inserted(b)]).next.elements == s.elements + [a, b]
  {
    var s1 := s.(elements := s.elements + [a]);
    assert Step(s, Inserted(a)) == Transition(s1, []);
    assert Step(s1, Inserted(b)) == Transition(s1.(elements := s1.elements + [b]), []);
    RunTwo(s, Inserted(a), Inserted(b));
    assert s1.elements + [b] == s.elements + [a, b];
  }

  /** An event that sends nothing and leaves its own result alone may be delivered twice harmlessly. */
  lemma RepeatHarmless(s: State, ev: Event, s1: State)
    requires Step(s, ev) == Transition(s1, [])
    requires Step(s1, ev) == Transition(s1, [])
    ensures Run(s, [ev, ev]) == Run(s, [ev])
  {
    RunTwo(s, ev, ev);
    RunOne(s, ev);
  }

  /** The same leave delivered twice is the same as once. */
  lemma LeaveTwice(s: State, left: seq<P.Presence>)
    ensures Run(s, [PresenceLeave(left), PresenceLeave(left)]) == Run(s, [PresenceLeave(left)])
  {
    var s1 := s.(activeUsers := P.Leave(s.activeUsers, left));
    LeaveStep(s, left);
    LeaveStep(s1, left);
    P.LeaveIdempotent(s.activeUsers, left);
    assert s1.(activeUsers := P.Leave(s1.activeUsers, left)) == s1;
    RepeatHarmless(s, PresenceLeave(left), s1);
  }

  lemma LeaveStep(s: State, left: seq<P.Presence>)
    ensures Step(s, PresenceLeave(left)) == Transition(s.(activeUsers := P.Leave(s.activeUsers, left)), [])
  {
  }
}
