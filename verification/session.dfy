/**
 The per-board whiteboard session: the selected tool, the drawing flag, the
 pen's flat coordinate path, the local element list and the presence list,
 driven by pointer, toolbar, replication and presence events. Every step is
 pure and returns the next state together with the requests it sends to the
 durable store.
 */
module Session {
  import opened Wrappers
  import opened Elements
  import P = Presence

  datatype Tool = Pen | Rectangle | Circle | Text | Eraser

  predicate IsShape(t: Tool)
  {
    t == Rectangle || t == Circle
  }

  /** The element `type` a shape tool draws. */
  function ShapeKind(t: Tool): Kind
    requires IsShape(t)
  {
    if t == Rectangle then RectangleKind else CircleKind
  }

  datatype State = State(
    tool: Tool,
    isDrawing: bool,
    currentPath: seq<int>,
    elements: seq<Element>,
    activeUsers: seq<P.Presence>)

  /** The state a session opens with. */
  const Initial: State := State(Pen, false, [], [], [])

  /** Requests to the durable element store. */
  datatype Effect = Save(element: Element) | DeleteById(id: Id) | ClearBoard

  /** Outcome of the initial element query: rows (possibly `null`) or an error. */
  datatype LoadResult = Success(data: Option<seq<Element>>) | Failure

  datatype Event =
    | SetTool(tool: Tool)
    | MouseDown(pos: Point, freshId: Id, promptResult: Option<string>)
    | MouseMove(pos: Point)
    | MouseUp(freshId: Id)
    | ElementClick(id: Id)
    | ClearClick(confirmed: bool)
    | Inserted(element: Element)
    | Deleted(id: Id)
    | PresenceSync(state: seq<seq<P.Presence>>)
    | PresenceJoin(joined: seq<P.Presence>)
    | PresenceLeave(left: seq<P.Presence>)
    | Loaded(result: LoadResult)

  /** Events delivered by the channel or the store rather than by the local user. */
  predicate IsRemote(ev: Event)
  {
    ev.Inserted? || ev.Deleted? || ev.PresenceSync? || ev.PresenceJoin? || ev.PresenceLeave? || ev.Loaded?
  }

  predicate IsPresenceEvent(ev: Event)
  {
    ev.PresenceSync? || ev.PresenceJoin? || ev.PresenceLeave?
  }

  datatype Transition = Transition(next: State, effects: seq<Effect>)

  /** A prompt result JavaScript treats as true: not cancelled and not empty. */
  function Truthy(text: Option<string>): (b: bool)
    ensures b <==> text != None && text != Some("")
  {
    text.Some? && |text.value| > 0
  }

  function MouseDownStep(s: State, pos: Point, freshId: Id, promptResult: Option<string>): (r: Transition)
    ensures s.tool == Eraser ==> r == Transition(s, [])
    ensures s.tool != Eraser ==> r.next.isDrawing
    ensures r.next.tool == s.tool && r.next.activeUsers == s.activeUsers
    ensures s.tool == Pen ==>
      r.next.currentPath == [pos.x, pos.y] && r.next.elements == s.elements && r.effects == []
    ensures IsShape(s.tool) ==>
      && r.next.elements == s.elements + [ShapeCandidate(freshId, ShapeKind(s.tool), pos)]
      && r.next.currentPath == s.currentPath
      && r.effects == []
    ensures s.tool == Text && Truthy(promptResult) ==>
      var e := TextElement(freshId, pos, promptResult.value);
      r.next.elements == s.elements + [e] && r.effects == [Save(e)]
    ensures s.tool == Text && !Truthy(promptResult) ==>
      r.next.elements == s.elements && r.effects == []
    ensures s.tool == Text ==> r.next.currentPath == s.currentPath
  {
    if s.tool == Eraser then Transition(s, [])
    else
      var drawing := s.(isDrawing := true);
      match s.tool
      case Pen => Transition(drawing.(currentPath := [pos.x, pos.y]), [])
      case Rectangle =>
        Transition(drawing.(elements := Append(s.elements, ShapeCandidate(freshId, RectangleKind, pos))), [])
      case Circle =>
        Transition(drawing.(elements := Append(s.elements, ShapeCandidate(freshId, CircleKind, pos))), [])
      case Text =>
        if Truthy(promptResult) then
          var e := TextElement(freshId, pos, promptResult.value);
          Transition(drawing.(elements := Append(s.elements, e)), [Save(e)])
        else Transition(drawing, [])
  }

  function MouseMoveStep(s: State, pos: Point): (r: Transition)
    ensures !s.isDrawing ==> r == Transition(s, [])
    ensures r.effects == []
    ensures r.next.tool == s.tool && r.next.isDrawing == s.isDrawing && r.next.activeUsers == s.activeUsers
    ensures s.isDrawing && s.tool == Pen ==>
      r.next.currentPath == s.currentPath + [pos.x, pos.y] && r.next.elements == s.elements
    ensures s.isDrawing && IsShape(s.tool) ==>
      r.next.elements == ResizeLast(s.elements, pos) && r.next.currentPath == s.currentPath
    ensures !(s.tool == Pen || IsShape(s.tool)) ==> r.next == s
  {
    if !s.isDrawing then Transition(s, [])
    else if s.tool == Pen then Transition(s.(currentPath := s.currentPath + [pos.x, pos.y]), [])
    else if IsShape(s.tool) then Transition(s.(elements := ResizeLast(s.elements, pos)), [])
    else Transition(s, [])
  }

  function MouseUpStep(s: State, freshId: Id): (r: Transition)
    ensures !s.isDrawing ==> r == Transition(s, [])
    ensures r.next.isDrawing == false
    ensures r.next.tool == s.tool && r.next.activeUsers == s.activeUsers
    ensures s.isDrawing && s.tool == Pen && |s.currentPath| > 0 ==>
      var line := LineElement(freshId, s.currentPath);
      && r.next.elements == s.elements + [line]
      && r.next.currentPath == []
      && r.effects == [Save(line)]
    ensures s.isDrawing && IsShape(s.tool) ==>
      && r.next.elements == s.elements
      && r.next.currentPath == s.currentPath
      && (r.effects == (if |s.elements| > 0 && HasExtent(s.elements[|s.elements| - 1])
                        then [Save(s.elements[|s.elements| - 1])] else []))
    ensures s.tool == Text || s.tool == Eraser || (s.tool == Pen && |s.currentPath| == 0) ==>
      r.next == s.(isDrawing := false) && r.effects == []
  {
    if !s.isDrawing then Transition(s, [])
    else
      var idle := s.(isDrawing := false);
      if s.tool == Pen && |s.currentPath| > 0 then
        var line := LineElement(freshId, s.currentPath);
        Transition(idle.(elements := Append(s.elements, line), currentPath := []), [Save(line)])
      else if IsShape(s.tool) then
        if |s.elements| == 0 then Transition(idle, [])
        else
          var e := s.elements[|s.elements| - 1];
          Transition(idle, if HasExtent(e) then [Save(e)] else [])
      else Transition(idle, [])
  }

  /** A click on a rendered element asks the store to delete it only when the eraser is selected. */
  function ElementClickStep(s: State, id: Id): (r: Transition)
    ensures r.next == s
    ensures r.effects == (if s.tool == Eraser then [DeleteById(id)] else [])
  {
    Transition(s, if s.tool == Eraser then [DeleteById(id)] else [])
  }

  /** The clear-board button asks the store to drop every element once the user confirms. */
  function ClearClickStep(s: State, confirmed: bool): (r: Transition)
    ensures r.next == s
    ensures r.effects == (if confirmed then [ClearBoard] else [])
  {
    Transition(s, if confirmed then [ClearBoard] else [])
  }

  function InsertStep(s: State, e: Element): (r: Transition)
    ensures r.effects == []
    ensures r.next == s.(elements := r.next.elements)
    ensures |r.next.elements| == |s.elements| + 1
    ensures r.next.elements[..|s.elements|] == s.elements && r.next.elements[|s.elements|] == e
  {
    Transition(s.(elements := Append(s.elements, e)), [])
  }

  function DeleteStep(s: State, id: Id): (r: Transition)
    ensures r.effects == []
    ensures r.next == s.(elements := r.next.elements)
    ensures forall i :: 0 <= i < |r.next.elements| ==> r.next.elements[i].id != id
    ensures forall i :: 0 <= i < |s.elements| && s.elements[i].id != id ==> s.elements[i] in r.next.elements
    ensures |r.next.elements| <= |s.elements|
    ensures CountId(s.elements, id) == 0 ==> r.next == s
    ensures r.next.elements == RemoveId(s.elements, id)
  {
    var kept := RemoveId(s.elements, id);
    assert CountId(s.elements, id) == 0 ==> kept == s.elements by {
      if CountId(s.elements, id) == 0 { RemoveIdAbsent(s.elements, id); }
    }
    Transition(s.(elements := kept), [])
  }

  /** A failed query is logged and leaves the elements as they were; rows replace them wholesale. */
  function LoadStep(s: State, result: LoadResult): (r: Transition)
    ensures r.effects == []
    ensures r.next == s.(elements := r.next.elements)
    ensures result.Failure? ==> r.next == s
    ensures result.Success? && result.data.Some? ==> r.next.elements == result.data.value
    ensures result.Success? && result.data.None? ==> r.next.elements == []
  {
    match result
    case Success(Some(rows)) => Transition(s.(elements := rows), [])
    case Success(None) => Transition(s.(elements := []), [])
    case Failure => Transition(s, [])
  }

  /** Presence events touch only the presence list. */
  function PresenceStep(s: State, ev: Event): (r: Transition)
    requires IsPresenceEvent(ev)
    ensures r.effects == []
    ensures r.next == s.(activeUsers := r.next.activeUsers)
    ensures ev.PresenceSync? ==> r.next.activeUsers == P.Flatten(ev.state)
    ensures ev.PresenceJoin? ==> r.next.activeUsers == s.activeUsers + ev.joined
    ensures ev.PresenceLeave? ==>
      forall i :: 0 <= i < |r.next.activeUsers| ==> !P.Matches(ev.left, r.next.activeUsers[i].userId)
    ensures ev.PresenceLeave? ==> r.next.activeUsers == P.Leave(s.activeUsers, ev.left)
  {
    match ev
    case PresenceSync(state) => Transition(s.(activeUsers := P.Sync(s.activeUsers, state)), [])
    case PresenceJoin(joined) => Transition(s.(activeUsers := P.Join(s.activeUsers, joined)), [])
    case PresenceLeave(left) => Transition(s.(activeUsers := P.Leave(s.activeUsers, left)), [])
  }

  /** One event, dispatched to its handler; only the toolbar changes the tool. */
  function Step(s: State, ev: Event): (r: Transition)
    ensures ev.SetTool? ==> r == Transition(s.(tool := ev.tool), [])
    ensures !ev.SetTool? ==> r.next.tool == s.tool
  {
    match ev
    case SetTool(t) => Transition(s.(tool := t), [])
    case MouseDown(pos, freshId, promptResult) => MouseDownStep(s, pos, freshId, promptResult)
    case MouseMove(pos) => MouseMoveStep(s, pos)
    case MouseUp(freshId) => MouseUpStep(s, freshId)
    case ElementClick(id) => ElementClickStep(s, id)
    case ClearClick(confirmed) => ClearClickStep(s, confirmed)
    case Inserted(e) => InsertStep(s, e)
    case Deleted(id) => DeleteStep(s, id)
    case PresenceSync(_) => PresenceStep(s, ev)
    case PresenceJoin(_) => PresenceStep(s, ev)
    case PresenceLeave(_) => PresenceStep(s, ev)
    case Loaded(result) => LoadStep(s, result)
  }

  /**
   Every event sends at most one request; replicated and presence events send
   none; presence events and the rest never touch each other's fields; every
   saved element is already in the local list (the optimistic local apply).
   */
  lemma StepFacts(s: State, ev: Event)
    ensures var r := Step(s, ev);
      && |r.effects| <= 1
      && (IsRemote(ev) ==> r.effects == [])
      && (IsPresenceEvent(ev) ==> r.next == s.(activeUsers := r.next.activeUsers))
      && (!IsPresenceEvent(ev) ==> r.next.activeUsers == s.activeUsers)
      && (ev.SetTool? ==> r == Transition(s.(tool := ev.tool), []))
      && (forall e :: Save(e) in r.effects ==> e in r.next.elements)
  {
    match ev
    case SetTool(_) =>
    case MouseDown(pos, freshId, promptResult) =>
    case MouseMove(pos) =>
    case MouseUp(freshId) =>
    case ElementClick(_) =>
    case ClearClick(_) =>
    case Inserted(_) =>
    case Deleted(_) =>
    case PresenceSync(_) =>
    case PresenceJoin(_) =>
    case PresenceLeave(_) =>
    case Loaded(_) =>
  }
}
