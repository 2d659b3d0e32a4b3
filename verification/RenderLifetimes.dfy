/** Render lifetimes of the shell registry as a machine over the JavaScript stack. A step is
    a stretch of code between two calls out of the registry (abort listeners, cleanups,
    factories, fault reports). At every such call the callee may re-enter the registry; a
    pending render settles only when the stack is empty. */
module RenderLifetimes {
  datatype Stage = Rendering | Settled

  // `cleanup` says that the settled render returned a cleanup function; `runs` counts its
  // calls and is read by nothing.
  datatype Lifetime = Lifetime(
    plugin: string, cell: string, aborted: bool, stage: Stage, cleanup: bool, runs: nat)

  datatype Phase = Aborting | Cleaning | Faulting

  // What the caller of `dispose` does when it returns.
  datatype Then =
    | Retire(rest: seq<nat>)
    | Unregister(plugin: string)
    | Begin(plugin: string, cell: string)
    | Fail
    | Return

  datatype Frame =
    | Dispose(id: nat, phase: Phase, next: Then)
    | Factory(id: nat)
    | Report

  datatype State = State(closed: bool, cells: map<string, nat>, lts: seq<Lifetime>, stack: seq<Frame>)

  // Public calls first, then what the environment's code does. `order` is the order in
  // which the Map yields its values, `pick` the entry an unregister loop visits next (None
  // when it is done).
  datatype Event =
    | Render(plugin: string, cell: string)
    | RetireAll(order: seq<nat>)
    | Close(order: seq<nat>)
    | UnregisterPlugin(plugin: string, pick: Pick)
    | Listeners(pick: Pick)
    | Cleanup(threw: bool, pick: Pick)
    | Faulted(pick: Pick)
    | FactoryReturns
    | FactoryThrows
    | Settle(id: nat, ok: bool, fn: bool)

  datatype Pick = Visit(cell: string) | Done

  // ---------------------------------------------------------------------------
  // Steps.

  function Top(s: State): Frame
    requires s.stack != []
  {
    s.stack[|s.stack| - 1]
  }

  function Pop(s: State): State
    requires s.stack != []
  {
    s.(stack := s.stack[..|s.stack| - 1])
  }

  /** Calls `dispose(id)`: the signal is aborted first. */
  function CallDispose(s: State, id: nat, next: Then): State
    requires id < |s.lts|
  {
    s.(lts := s.lts[id := s.lts[id].(aborted := true)], stack := s.stack + [Dispose(id, Aborting, next)])
  }

  /** A new lifetime takes the cell, whatever is in it, and its factory is called. */
  function StartRender(s: State, plugin: string, cell: string): State {
    var id := |s.lts|;
    s.(cells := s.cells[cell := id],
       lts := s.lts + [Lifetime(plugin, cell, false, Rendering, false, 0)],
       stack := s.stack + [Factory(id)])
  }

  /** The unregister loop visits any entry of its plugin, and ends when there is none: what
      is entered while it runs comes after its place in the Map. */
  predicate CanVisit(s: State, plugin: string, pick: Pick) {
    match pick
    case Visit(cell) => cell in s.cells && IsOwn(s, plugin, cell)
    case Done => forall cell :: cell in s.cells ==> !IsOwn(s, plugin, cell)
  }

  predicate IsOwn(s: State, plugin: string, cell: string)
    requires cell in s.cells
  {
    s.cells[cell] < |s.lts| && s.lts[s.cells[cell]].plugin == plugin
  }

  predicate CanProceed(s: State, next: Then, pick: Pick) {
    match next
    case Unregister(plugin) => CanVisit(s, plugin, pick)
    case Retire(rest) => rest == [] || rest[0] < |s.lts|
    case _ => true
  }

  /** Continues the caller of a finished `dispose`. */
  function Proceed(s: State, next: Then, pick: Pick): State
    requires CanProceed(s, next, pick)
  {
    match next
    case Retire(rest) => if rest == [] then s else CallDispose(s, rest[0], Retire(rest[1..]))
    case Unregister(plugin) =>
      if pick.Done? then s
      else CallDispose(s.(cells := s.cells - {pick.cell}), s.cells[pick.cell], Unregister(plugin))
    case Begin(plugin, cell) => StartRender(s, plugin, cell)
    case Fail => s.(stack := s.stack + [Report])
    case Return => s
  }

  predicate Stale(s: State, id: nat)
    requires id < |s.lts|
  {
    s.closed || s.lts[id].aborted || !InCell(s, id)
  }

  predicate InCell(s: State, id: nat) {
    id < |s.lts| && s.lts[id].cell in s.cells && s.cells[s.lts[id].cell] == id
  }

  /** The end of a render that failed, at once or when it settled. */
  function RenderFails(s: State, id: nat): State
    requires id < |s.lts|
  {
    if Stale(s, id) then CallDispose(s, id, Return)
    else CallDispose(s.(cells := s.cells - {s.lts[id].cell}), id, Fail)
  }

  /** `order` lists each lifetime in the map once. */
  predicate Lists(order: seq<nat>, cells: map<string, nat>) {
    && (forall i, j :: 0 <= i < j < |order| ==> order[i] != order[j])
    && (forall id :: id in order ==> id in cells.Values)
    && (forall cell :: cell in cells ==> cells[cell] in order)
  }

  predicate Enabled(s: State, e: Event) {
    match e
    case Render(_, cell) => !s.closed && (cell in s.cells ==> s.cells[cell] < |s.lts|)
    case RetireAll(order) => Lists(order, s.cells) && (order != [] ==> order[0] < |s.lts|)
    case Close(order) => !s.closed && Lists(order, s.cells) && (order != [] ==> order[0] < |s.lts|)
    case UnregisterPlugin(plugin, pick) => !s.closed && CanVisit(s, plugin, pick)
    case Listeners(pick) =>
      s.stack != [] &&
      (match Top(s)
       case Dispose(id, Aborting, next) => id < |s.lts| && CanProceed(Pop(s), next, pick)
       case _ => false)
    case Cleanup(_, pick) =>
      s.stack != [] &&
      (match Top(s)
       case Dispose(id, Cleaning, next) => CanProceed(Pop(s), next, pick)
       case _ => false)
    case Faulted(pick) =>
      s.stack != [] &&
      (match Top(s)
       case Dispose(id, Faulting, next) => CanProceed(Pop(s), next, pick)
       case Report => true
       case _ => false)
    case FactoryReturns => s.stack != [] && Top(s).Factory?
    case FactoryThrows => s.stack != [] && Top(s).Factory? && Top(s).id < |s.lts|
    case Settle(id, _, _) => s.stack == [] && id < |s.lts| && s.lts[id].stage == Rendering
  }

  function Step(s: State, e: Event): State
    requires Enabled(s, e)
  {
    match e
    case Render(plugin, cell) =>
      if cell in s.cells then
        CallDispose(s.(cells := s.cells - {cell}), s.cells[cell], Begin(plugin, cell))
      else StartRender(s, plugin, cell)
    case RetireAll(order) => Proceed(s.(cells := map[]), Retire(order), Done)
    case Close(order) => Proceed(s.(closed := true, cells := map[]), Retire(order), Done)
    case UnregisterPlugin(plugin, pick) => Proceed(s, Unregister(plugin), pick)
    case Listeners(pick) =>
      var f := Top(s);
      var l := s.lts[f.id];
      if l.cleanup then
        Pop(s).(lts := s.lts[f.id := l.(runs := l.runs + 1)],
                stack := Pop(s).stack + [f.(phase := Cleaning)])
      else Proceed(Pop(s), f.next, pick)
    case Cleanup(threw, pick) =>
      if threw then Pop(s).(stack := Pop(s).stack + [Top(s).(phase := Faulting)])
      else Proceed(Pop(s), Top(s).next, pick)
    case Faulted(pick) =>
      if Top(s).Report? then Pop(s) else Proceed(Pop(s), Top(s).next, pick)
    case FactoryReturns => Pop(s)
    case FactoryThrows =>
      var id := Top(s).id;
      RenderFails(Pop(s).(lts := s.lts[id := s.lts[id].(stage := Settled)]), id)
    case Settle(id, ok, fn) =>
      var settled := s.(lts := s.lts[id := s.lts[id].(stage := Settled, cleanup := ok && fn)]);
      if !ok then RenderFails(settled, id)
      else if Stale(settled, id) then CallDispose(settled, id, Return)
      else settled
  }

  // ---------------------------------------------------------------------------
  // The invariant.

  function RestOf(next: Then): multiset<nat> {
    if next.Retire? then multiset(next.rest) else multiset{}
  }

  /** Lifetimes a frame has set out to dispose and not yet cleaned up. */
  function FrameWaiting(f: Frame): multiset<nat> {
    match f
    case Dispose(id, phase, next) => (if phase == Aborting then multiset{id} else multiset{}) + RestOf(next)
    case _ => multiset{}
  }

  function Waiting(stack: seq<Frame>): multiset<nat> {
    if stack == [] then multiset{}
    else Waiting(stack[..|stack| - 1]) + FrameWaiting(stack[|stack| - 1])
  }

  predicate LifetimeFits(s: State, waiting: multiset<nat>, id: nat)
    requires id < |s.lts|
  {
    var l := s.lts[id];
    && l.runs <= 1
    && (l.runs == 1 ==> l.cleanup)
    && (l.cleanup ==> l.stage == Settled && waiting[id] <= 1)
    && (l.cleanup && l.runs == 0 ==> waiting[id] == 1 || (InCell(s, id) && !s.closed))
    && (InCell(s, id) && !s.closed ==> l.runs == 0 && !l.aborted && waiting[id] == 0)
    && (waiting[id] > 0 ==> l.runs == 0)
  }

  /** A closed registry's map holds no lifetime with a cleanup. */
  predicate NoLeftovers(s: State) {
    forall cell :: cell in s.cells && s.cells[cell] < |s.lts| ==> !s.lts[s.cells[cell]].cleanup
  }

  predicate NextFits(s: State, next: Then) {
    match next
    case Begin(_, cell) =>
      cell in s.cells ==>
        var inner := s.cells[cell];
        inner < |s.lts| && !s.lts[inner].cleanup && (s.lts[inner].stage == Rendering || s.closed)
    case Unregister(_) => s.closed ==> NoLeftovers(s)
    case _ => true
  }

  predicate FrameFits(s: State, f: Frame) {
    match f
    case Dispose(id, _, next) => id < |s.lts| && NextFits(s, next)
    case Factory(id) => id < |s.lts| && !s.lts[id].cleanup
    case Report => true
  }

  predicate Holds(s: State, waiting: multiset<nat>) {
    && (forall id :: id in waiting ==> id < |s.lts|)
    && (forall id :: 0 <= id < |s.lts| ==> LifetimeFits(s, waiting, id))
    && (forall cell :: cell in s.cells ==> s.cells[cell] < |s.lts| && s.lts[s.cells[cell]].cell == cell)
    && (forall f :: f in s.stack ==> FrameFits(s, f))
  }

  predicate Inv(s: State) {
    Holds(s, Waiting(s.stack))
  }

  const FRESH: State := State(false, map[], [], [])

  /** The one call that can break the discipline: `retireAll` on a closed registry whose map
      still holds a settled render that returned a cleanup. */
  predicate Clean(s: State, e: Event) {
    e.RetireAll? && s.closed ==> NoLeftovers(s)
  }

  // ---------------------------------------------------------------------------
  // Every step keeps the invariant.

  lemma WaitingPush(stack: seq<Frame>, f: Frame)
    ensures Waiting(stack + [f]) == Waiting(stack) + FrameWaiting(f)
  {
    assert (stack + [f])[..|stack|] == stack;
  }

  /** A frame may be pushed when what it sets out to dispose is accounted for. */
  lemma PushKeeps(s: State, f: Frame)
    requires Holds(s, Waiting(s.stack) + FrameWaiting(f)) && FrameFits(s, f)
    ensures Inv(s.(stack := s.stack + [f]))
  {
    hide Waiting;
    var s' := s.(stack := s.stack + [f]);
    var waiting := Waiting(s.stack) + FrameWaiting(f);
    WaitingPush(s.stack, f);
    forall x | 0 <= x < |s'.lts| ensures LifetimeFits(s', waiting, x) {
      assert LifetimeFits(s, waiting, x);
    }
    forall g | g in s'.stack ensures FrameFits(s', g) {
      assert g == f || FrameFits(s, g);
    }
  }

  lemma AbortKeeps(s: State, waiting: multiset<nat>, id: nat)
    requires Holds(s, waiting) && id in waiting
    ensures Holds(s.(lts := s.lts[id := s.lts[id].(aborted := true)]), waiting)
  {
    var s' := s.(lts := s.lts[id := s.lts[id].(aborted := true)]);
    forall x | 0 <= x < |s'.lts| ensures LifetimeFits(s', waiting, x) {
      assert LifetimeFits(s, waiting, x);
      assert InCell(s', x) == InCell(s, x);
    }
    forall f | f in s'.stack ensures FrameFits(s', f) {
      assert FrameFits(s, f);
    }
  }

  lemma CallDisposeKeeps(s: State, id: nat, next: Then)
    requires id < |s.lts| && NextFits(s, next)
    requires Holds(s, Waiting(s.stack) + (multiset{id} + RestOf(next)))
    ensures Inv(CallDispose(s, id, next))
  {
    hide Waiting, LifetimeFits, FrameFits;
    AbortKeeps(s, Waiting(s.stack) + (multiset{id} + RestOf(next)), id);
    var s' := s.(lts := s.lts[id := s.lts[id].(aborted := true)]);
    DisposeFits(s', id, next);
    PushKeeps(s', Dispose(id, Aborting, next));
  }

  lemma DisposeFits(s: State, id: nat, next: Then)
    requires id < |s.lts| && NextFits(s, next)
    ensures forall phase :: FrameFits(s, Dispose(id, phase, next))
  {
  }

  /** Taking an entry out of the map in order to dispose it. */
  lemma TakeOut(s: State, waiting: multiset<nat>, cell: string)
    requires Holds(s, waiting) && cell in s.cells
    requires s.closed ==> !s.lts[s.cells[cell]].cleanup
    ensures Holds(s.(cells := s.cells - {cell}), waiting + multiset{s.cells[cell]})
  {
    var id := s.cells[cell];
    var s' := s.(cells := s.cells - {cell});
    var waiting' := waiting + multiset{id};
    forall x | 0 <= x < |s'.lts| ensures LifetimeFits(s', waiting', x) {
      assert LifetimeFits(s, waiting, x);
      assert x != id ==> InCell(s', x) == InCell(s, x);
    }
    forall f | f in s'.stack ensures FrameFits(s', f) {
      assert FrameFits(s, f);
    }
  }

  lemma StartRenderKeeps(s: State, plugin: string, cell: string)
    requires Inv(s) && NextFits(s, Begin(plugin, cell))
    ensures Inv(StartRender(s, plugin, cell))
  {
    hide Waiting;
    var id := |s.lts|;
    var s' := s.(cells := s.cells[cell := id],
                 lts := s.lts + [Lifetime(plugin, cell, false, Rendering, false, 0)]);
    var waiting := Waiting(s.stack);
    forall x | 0 <= x < |s'.lts| ensures LifetimeFits(s', waiting, x) {
      if x < id {
        assert LifetimeFits(s, waiting, x);
        assert s.lts[x].cell != cell ==> InCell(s', x) == InCell(s, x);
      }
    }
    forall f | f in s'.stack ensures FrameFits(s', f) {
      assert FrameFits(s, f);
    }
    assert waiting + multiset{} == waiting;
    PushKeeps(s', Factory(id));
  }

  lemma ProceedKeeps(s: State, next: Then, pick: Pick)
    requires Holds(s, Waiting(s.stack) + RestOf(next)) && NextFits(s, next) && CanProceed(s, next, pick)
    ensures Inv(Proceed(s, next, pick))
  {
    hide Waiting, Holds, FrameFits;
    var waiting := Waiting(s.stack);
    assert waiting + multiset{} == waiting;
    match next
    case Retire(rest) =>
      if rest != [] {
        assert rest == [rest[0]] + rest[1..];
        assert multiset(rest) == multiset{rest[0]} + multiset(rest[1..]);
        CallDisposeKeeps(s, rest[0], Retire(rest[1..]));
      }
    case Unregister(plugin) =>
      if pick.Visit? {
        TakeOut(s, waiting, pick.cell);
        assert multiset{s.cells[pick.cell]} + multiset{} == multiset{s.cells[pick.cell]};
        CallDisposeKeeps(s.(cells := s.cells - {pick.cell}), s.cells[pick.cell], next);
      }
    case Begin(plugin, cell) =>
      StartRenderKeeps(s, plugin, cell);
    case Fail =>
      ReportFits(s);
      PushKeeps(s, Report);
    case Return =>
  }

  lemma ReportFits(s: State)
    ensures FrameFits(s, Report)
  {
  }

  lemma PopKeeps(s: State)
    requires Inv(s) && s.stack != []
    ensures Holds(Pop(s), Waiting(Pop(s).stack) + FrameWaiting(Top(s)))
    ensures FrameFits(Pop(s), Top(s))
  {
    var p := Pop(s);
    forall x | 0 <= x < |p.lts| ensures LifetimeFits(p, Waiting(s.stack), x) {
      assert LifetimeFits(s, Waiting(s.stack), x);
      assert InCell(p, x) == InCell(s, x);
    }
    assert FrameFits(s, Top(s));
    forall f | f in p.stack ensures FrameFits(p, f) {
      assert FrameFits(s, f);
    }
  }

  /** A lifetime without a cleanup needs no accounting. */
  lemma DropPlain(s: State, waiting: multiset<nat>, id: nat)
    requires Holds(s, waiting + multiset{id}) && id < |s.lts| && !s.lts[id].cleanup
    ensures Holds(s, waiting)
  {
    forall x | x in waiting ensures x < |s.lts| {
      assert x in waiting + multiset{id};
    }
    forall x | 0 <= x < |s.lts| ensures LifetimeFits(s, waiting, x) {
      assert LifetimeFits(s, waiting + multiset{id}, x);
    }
  }

  lemma AddPlain(s: State, waiting: multiset<nat>, id: nat)
    requires Holds(s, waiting) && id < |s.lts| && !s.lts[id].cleanup && (InCell(s, id) ==> s.closed)
    ensures Holds(s, waiting + multiset{id})
  {
    forall x | 0 <= x < |s.lts| ensures LifetimeFits(s, waiting + multiset{id}, x) {
      assert LifetimeFits(s, waiting, x);
    }
  }

  /** Running a cleanup that is accounted for runs it for the first time. */
  lemma RunCleanup(s: State, waiting: multiset<nat>, id: nat)
    requires Holds(s, waiting + multiset{id}) && id < |s.lts| && s.lts[id].cleanup
    ensures s.lts[id].runs == 0
    ensures Holds(s.(lts := s.lts[id := s.lts[id].(runs := s.lts[id].runs + 1)]), waiting)
  {
    var s' := s.(lts := s.lts[id := s.lts[id].(runs := s.lts[id].runs + 1)]);
    assert LifetimeFits(s, waiting + multiset{id}, id);
    forall x | x in waiting ensures x < |s.lts| {
      assert x in waiting + multiset{id};
    }
    forall x | 0 <= x < |s'.lts| ensures LifetimeFits(s', waiting, x) {
      assert LifetimeFits(s, waiting + multiset{id}, x);
      assert InCell(s', x) == InCell(s, x);
    }
    forall f | f in s'.stack ensures FrameFits(s', f) {
      assert FrameFits(s, f);
    }
  }

  /** A render that ends without a cleanup. */
  lemma SettlePlain(s: State, waiting: multiset<nat>, id: nat)
    requires Holds(s, waiting) && id < |s.lts| && !s.lts[id].cleanup
    requires InCell(s, id) ==> s.closed || s.stack == []
    ensures Holds(s.(lts := s.lts[id := s.lts[id].(stage := Settled)]), waiting)
  {
    var s' := s.(lts := s.lts[id := s.lts[id].(stage := Settled)]);
    forall x | 0 <= x < |s'.lts| ensures LifetimeFits(s', waiting, x) {
      assert LifetimeFits(s, waiting, x);
      assert InCell(s', x) == InCell(s, x);
    }
    forall f | f in s'.stack ensures FrameFits(s', f) {
      assert FrameFits(s, f);
    }
  }

  lemma RenderFailsKeeps(s: State, id: nat)
    requires Inv(s) && id < |s.lts| && !s.lts[id].cleanup
    ensures Inv(RenderFails(s.(lts := s.lts[id := s.lts[id].(stage := Settled)]), id))
  {
    hide Waiting;
    var waiting := Waiting(s.stack);
    var settled := s.(lts := s.lts[id := s.lts[id].(stage := Settled)]);
    assert InCell(settled, id) == InCell(s, id);
    assert LifetimeFits(s, waiting, id);
    if Stale(settled, id) {
      SettlePlain(s, waiting, id);
      AddPlain(settled, waiting, id);
      assert multiset{id} + multiset{} == multiset{id};
      CallDisposeKeeps(settled, id, Return);
    } else {
      var cell := s.lts[id].cell;
      var out := s.(cells := s.cells - {cell});
      TakeOut(s, waiting, cell);
      SettlePlain(out, waiting + multiset{id}, id);
      var out' := out.(lts := s.lts[id := s.lts[id].(stage := Settled)]);
      assert multiset{id} + multiset{} == multiset{id};
      CallDisposeKeeps(out', id, Fail);
    }
  }

  lemma ListenersKeeps(s: State, pick: Pick)
    requires Inv(s) && Enabled(s, Listeners(pick))
    ensures Inv(Step(s, Listeners(pick)))
  {
    hide Waiting, LifetimeFits, Holds, FrameFits, Proceed;
    var f := Top(s);
    var p := Pop(s);
    PopKeeps(s);
    DisposeParts(p, f);
    var below := Waiting(p.stack) + RestOf(f.next);
    assert Waiting(p.stack) + FrameWaiting(f) == below + multiset{f.id};
    if s.lts[f.id].cleanup {
      RunCleanup(p, below, f.id);
      var ran := p.(lts := p.lts[f.id := p.lts[f.id].(runs := p.lts[f.id].runs + 1)]);
      assert FrameWaiting(f.(phase := Cleaning)) == RestOf(f.next);
      DisposeFits(ran, f.id, f.next);
      PushKeeps(ran, f.(phase := Cleaning));
    } else {
      DropPlain(p, below, f.id);
      ProceedKeeps(p, f.next, pick);
    }
  }

  lemma DisposeParts(s: State, f: Frame)
    requires f.Dispose? && FrameFits(s, f)
    ensures f.id < |s.lts| && NextFits(s, f.next)
    ensures forall runs :: NextFits(s.(lts := s.lts[f.id := s.lts[f.id].(runs := runs)]), f.next)
  {
  }

  lemma DisposedKeeps(s: State, threw: bool, pick: Pick)
    requires Inv(s) && s.stack != [] && Top(s).Dispose? && Top(s).phase != Aborting
    requires CanProceed(Pop(s), Top(s).next, pick)
    ensures Inv(Proceed(Pop(s), Top(s).next, pick))
    ensures Inv(Pop(s).(stack := Pop(s).stack + [Top(s).(phase := Faulting)]))
  {
    hide Waiting, LifetimeFits;
    PopKeeps(s);
    assert FrameWaiting(Top(s)) == RestOf(Top(s).next);
    ProceedKeeps(Pop(s), Top(s).next, pick);
    PushKeeps(Pop(s), Top(s).(phase := Faulting));
  }

  /** `retireAll` takes every entry out and sets out to dispose each of them once. */
  lemma TakeAllOut(s: State, waiting: multiset<nat>, order: seq<nat>)
    requires Holds(s, waiting) && Lists(order, s.cells) && (s.closed ==> NoLeftovers(s))
    ensures forall closed :: (s.closed ==> closed) ==>
      Holds(s.(cells := map[], closed := closed), waiting + multiset(order))
  {
    forall closed | s.closed ==> closed
      ensures Holds(s.(cells := map[], closed := closed), waiting + multiset(order))
    {
      var s' := s.(cells := map[], closed := closed);
      forall x | 0 <= x < |s'.lts| ensures LifetimeFits(s', waiting + multiset(order), x) {
        assert LifetimeFits(s, waiting, x);
        OrderCounts(order, s.cells, x);
        if x in order {
          var cell :| cell in s.cells && s.cells[cell] == x;
          assert InCell(s, x);
        }
      }
      forall x | x in waiting + multiset(order) ensures x < |s'.lts| {
        OrderCounts(order, s.cells, x);
      }
      forall f | f in s'.stack ensures FrameFits(s', f) {
        assert FrameFits(s, f);
      }
    }
  }

  lemma OrderCounts(order: seq<nat>, cells: map<string, nat>, id: nat)
    requires Lists(order, cells)
    ensures multiset(order)[id] == (if id in cells.Values then 1 else 0)
    ensures id in order <==> id in cells.Values
  {
    assert id in cells.Values ==> exists cell :: cell in cells && cells[cell] == id;
    DistinctCounts(order, id);
  }

  lemma {:induction false} DistinctCounts(order: seq<nat>, id: nat)
    requires forall i, j :: 0 <= i < j < |order| ==> order[i] != order[j]
    ensures multiset(order)[id] == (if id in order then 1 else 0)
  {
    if order != [] {
      var n := |order| - 1;
      DistinctCounts(order[..n], id);
      assert order == order[..n] + [order[n]];
      assert id in order <==> id in order[..n] || id == order[n];
    }
  }

  lemma RetireKeeps(s: State, order: seq<nat>, closing: bool)
    requires Inv(s) && Lists(order, s.cells) && (s.closed ==> NoLeftovers(s))
    requires order != [] ==> order[0] < |s.lts|
    ensures Inv(Proceed(s.(cells := map[], closed := s.closed || closing), Retire(order), Done))
  {
    hide Waiting, LifetimeFits, FrameFits;
    TakeAllOut(s, Waiting(s.stack), order);
    ProceedKeeps(s.(cells := map[], closed := s.closed || closing), Retire(order), Done);
  }

  lemma SettleKeeps(s: State, id: nat, ok: bool, fn: bool)
    requires Inv(s) && Enabled(s, Settle(id, ok, fn))
    ensures Inv(Step(s, Settle(id, ok, fn)))
  {
    assert LifetimeFits(s, multiset{}, id);
    if !ok {
      RenderFailsKeeps(s, id);
    } else {
      var s' := s.(lts := s.lts[id := s.lts[id].(stage := Settled, cleanup := fn)]);
      var waiting := if Stale(s', id) then multiset{id} else multiset{};
      forall x | 0 <= x < |s'.lts| ensures LifetimeFits(s', waiting, x) {
        assert LifetimeFits(s, multiset{}, x);
        assert InCell(s', x) == InCell(s, x);
      }
      if Stale(s', id) {
        assert Waiting(s'.stack) + (multiset{id} + RestOf(Return)) == multiset{id};
        CallDisposeKeeps(s', id, Return);
      }
    }
  }

  /** Every step of every interleaving keeps the invariant, but for `retireAll` on a closed
      registry that still holds a leftover. */
  lemma StepKeeps(s: State, e: Event)
    requires Inv(s) && Enabled(s, e) && Clean(s, e)
    ensures Inv(Step(s, e))
  {
    hide Waiting, LifetimeFits, FrameFits, Holds, NoLeftovers, Proceed, Pop, RenderFails, StartRender;
    match e
    case Render(plugin, cell) => RenderKeeps(s, plugin, cell);
    case RetireAll(order) => RetireKeeps(s, order, false);
    case Close(order) => RetireKeeps(s, order, true);
    case UnregisterPlugin(plugin, pick) => UnregisterKeeps(s, plugin, pick);
    case Listeners(pick) => ListenersKeeps(s, pick);
    case Cleanup(threw, pick) => DisposedKeeps(s, threw, pick);
    case Faulted(pick) =>
      if Top(s).Report? {
        ReturnKeeps(s);
      } else {
        DisposedKeeps(s, false, pick);
      }
    case FactoryReturns => ReturnKeeps(s);
    case FactoryThrows => ThrowKeeps(s);
    case Settle(id, ok, fn) => SettleKeeps(s, id, ok, fn);
  }

  lemma RenderKeeps(s: State, plugin: string, cell: string)
    requires Inv(s) && !s.closed && Enabled(s, Render(plugin, cell))
    ensures Inv(Step(s, Render(plugin, cell)))
  {
    hide Waiting, LifetimeFits;
    var next := Begin(plugin, cell);
    if cell in s.cells {
      var id := s.cells[cell];
      TakeOut(s, Waiting(s.stack), cell);
      assert multiset{id} + RestOf(next) == multiset{id};
      CallDisposeKeeps(s.(cells := s.cells - {cell}), id, next);
    } else {
      StartRenderKeeps(s, plugin, cell);
    }
  }

  lemma UnregisterKeeps(s: State, plugin: string, pick: Pick)
    requires Inv(s) && !s.closed && CanVisit(s, plugin, pick)
    ensures Inv(Proceed(s, Unregister(plugin), pick))
  {
    hide Waiting, LifetimeFits;
    assert Waiting(s.stack) + multiset{} == Waiting(s.stack);
    ProceedKeeps(s, Unregister(plugin), pick);
  }

  lemma ReturnKeeps(s: State)
    requires Inv(s) && s.stack != [] && !Top(s).Dispose?
    ensures Inv(Pop(s))
  {
    PopKeeps(s);
    assert Waiting(Pop(s).stack) + multiset{} == Waiting(Pop(s).stack);
  }

  lemma ThrowKeeps(s: State)
    requires Inv(s) && s.stack != [] && Top(s).Factory? && Top(s).id < |s.lts|
    ensures Inv(Step(s, FactoryThrows))
  {
    hide Waiting, LifetimeFits;
    PopKeeps(s);
    ReturnKeeps(s);
    RenderFailsKeeps(Pop(s), Top(s).id);
  }

  // ---------------------------------------------------------------------------
  // Whole runs.

  predicate Possible(s: State, es: seq<Event>)
    decreases |es|
  {
    es == [] || (Enabled(s, es[0]) && Possible(Step(s, es[0]), es[1..]))
  }

  function After(s: State, es: seq<Event>): State
    requires Possible(s, es)
    decreases |es|
  {
    if es == [] then s else After(Step(s, es[0]), es[1..])
  }

  /** No `retireAll` hits a closed registry with a leftover. */
  predicate CleanRun(s: State, es: seq<Event>)
    requires Possible(s, es)
    decreases |es|
  {
    es == [] || (Clean(s, es[0]) && CleanRun(Step(s, es[0]), es[1..]))
  }

  lemma {:induction false} RunKeeps(s: State, es: seq<Event>)
    requires Inv(s) && Possible(s, es) && CleanRun(s, es)
    ensures Inv(After(s, es))
    decreases |es|
  {
    hide Inv, Enabled, Step, Clean;
    if es != [] {
      StepKeeps(s, es[0]);
      RunKeeps(Step(s, es[0]), es[1..]);
    }
  }

  lemma FreshHolds()
    ensures Inv(FRESH)
  {
  }

  /** Exactly-once cleanup, for any interleaving of renders, retirements, unregistrations,
      closing and re-entrant callbacks, of any length: no cleanup runs twice; a cell owns at
      most one lifetime; between events the cleanups that have not run are exactly those of
      the lifetimes still in the open registry's map; and once a closed registry has no
      code on the stack, every cleanup it was ever given has run exactly once. */
  lemma ExactlyOnce(es: seq<Event>)
    requires Possible(FRESH, es) && CleanRun(FRESH, es)
    ensures var t := After(FRESH, es);
      && (forall id :: 0 <= id < |t.lts| ==> t.lts[id].runs <= 1)
      && (forall a, b :: a in t.cells && b in t.cells && t.cells[a] == t.cells[b] ==> a == b)
      && (t.stack == [] ==>
            forall id :: 0 <= id < |t.lts| && t.lts[id].cleanup ==>
              (t.lts[id].runs == 0 <==> InCell(t, id) && !t.closed))
      && (t.stack == [] && t.closed ==>
            forall id :: 0 <= id < |t.lts| && t.lts[id].cleanup ==> t.lts[id].runs == 1)
  {
    FreshHolds();
    RunKeeps(FRESH, es);
    var t := After(FRESH, es);
    forall id | 0 <= id < |t.lts|
      ensures t.lts[id].runs <= 1
      ensures t.stack == [] && t.lts[id].cleanup ==>
        (t.lts[id].runs == 0 <==> InCell(t, id) && !t.closed)
    {
      assert LifetimeFits(t, Waiting(t.stack), id);
    }
    forall a, b | a in t.cells && b in t.cells && t.cells[a] == t.cells[b] ensures a == b {
      assert t.lts[t.cells[a]].cell == a;
    }
  }

  /** A caller that never calls `retireAll` after closing makes only clean runs. */
  lemma {:induction false} NoRetireAfterCloseIsClean(s: State, es: seq<Event>)
    requires Possible(s, es)
    requires forall i, k :: 0 <= i < k < |es| && es[i].Close? ==> !es[k].RetireAll?
    requires s.closed ==> forall k :: 0 <= k < |es| ==> !es[k].RetireAll?
    ensures CleanRun(s, es)
    decreases |es|
  {
    if es != [] {
      var t := Step(s, es[0]);
      OnlyCloseCloses(s, es[0]);
      forall k | 0 <= k < |es[1..]| && t.closed ensures !es[1..][k].RetireAll? {
        assert es[1..][k] == es[k + 1];
      }
      NoRetireAfterCloseIsClean(t, es[1..]);
    }
  }

  lemma OnlyCloseCloses(s: State, e: Event)
    requires Enabled(s, e)
    ensures Step(s, e).closed == (s.closed || e.Close?)
  {
  }

  /** For the next call this is exact: `retireAll` keeps the discipline if and only if it is
      not aimed at a closed registry with a leftover. */
  lemma RetireAllKeepsIff(s: State, order: seq<nat>)
    requires Inv(s) && Enabled(s, RetireAll(order))
    ensures Inv(Step(s, RetireAll(order))) <==> Clean(s, RetireAll(order))
  {
    if Clean(s, RetireAll(order)) {
      StepKeeps(s, RetireAll(order));
    } else {
      var cell :| cell in s.cells && s.lts[s.cells[cell]].cleanup;
      var id := s.cells[cell];
      var t := Step(s, RetireAll(order));
      assert LifetimeFits(s, Waiting(s.stack), id) && InCell(s, id);
      assert id in order && order == [order[0]] + order[1..];
      var f := Dispose(order[0], Aborting, Retire(order[1..]));
      WaitingPush(s.stack, f);
      assert FrameWaiting(f) == multiset(order);
      assert id in multiset(order);
      assert !LifetimeFits(t, Waiting(t.stack), id);
    }
  }

  lemma {:induction false} AfterConcat(s: State, a: seq<Event>, b: seq<Event>)
    requires Possible(s, a) && Possible(After(s, a), b)
    ensures Possible(s, a + b) && After(s, a + b) == After(After(s, a), b)
    decreases |a|
  {
    hide Enabled, Step;
    if a == [] {
      assert a + b == b;
    } else {
      assert (a + b)[0] == a[0] && (a + b)[1..] == a[1..] + b;
      AfterConcat(Step(s, a[0]), a[1..], b);
    }
  }

  /** `es` can happen from `s` and leads to `t`. */
  predicate Leads(s: State, es: seq<Event>, t: State) {
    Possible(s, es) && After(s, es) == t
  }

  lemma LeadsNowhere(s: State)
    ensures Leads(s, [], s)
  {
  }

  lemma Extend(s: State, es: seq<Event>, t: State, e: Event)
    requires Leads(s, es, t) && Enabled(t, e)
    ensures Leads(s, es + [e], Step(t, e))
  {
    hide Enabled, Step;
    assert [e][1..] == [];
    assert Possible(Step(t, e), []);
    AfterConcat(s, es, [e]);
  }

  // Undisturbed continuations: nobody re-enters and nothing throws.

  predicate KnownFrame(f: Frame, n: nat) {
    f.Dispose? ==> f.id < n && RestKnown(f.next, n)
  }

  predicate Known(s: State) {
    forall i :: 0 <= i < |s.stack| ==> KnownFrame(s.stack[i], |s.lts|)
  }

  // Which entry an unregister loop visits next, if any.
  ghost function QuietPick(s: State, next: Then): (pick: Pick)
    ensures next.Unregister? ==> CanVisit(s, next.plugin, pick)
  {
    if next.Unregister? && exists cell :: cell in s.cells && IsOwn(s, next.plugin, cell) then
      var cell :| cell in s.cells && IsOwn(s, next.plugin, cell);
      Visit(cell)
    else Done
  }

  ghost function Quiet(s: State): Event
    requires s.stack != []
  {
    match Top(s)
    case Dispose(_, Aborting, next) => Listeners(QuietPick(Pop(s), next))
    case Dispose(_, Cleaning, next) => Cleanup(false, QuietPick(Pop(s), next))
    case Dispose(_, Faulting, next) => Faulted(QuietPick(Pop(s), next))
    case Factory(_) => FactoryReturns
    case Report => Faulted(Done)
  }

  // An upper bound on the events that finish a frame.
  function FrameWeight(f: Frame): nat {
    match f
    case Dispose(_, phase, next) => (if phase == Aborting then 2 else 1) + ThenWeight(next)
    case _ => 1
  }

  function Weight(stack: seq<Frame>): nat {
    if stack == [] then 0 else Weight(stack[..|stack| - 1]) + FrameWeight(stack[|stack| - 1])
  }

  // And on those that finish a stack, with every entry that a loop may still visit.
  function Load(s: State): nat {
    Weight(s.stack) + 3 * |s.cells|
  }

  /** No cleanup is lost: what a lifetime has run and still waits for only grows. */
  predicate Owed(s: State, t: State) {
    |s.lts| <= |t.lts| &&
    forall x :: 0 <= x < |s.lts| && s.lts[x].cleanup ==>
      && t.lts[x].cleanup
      && t.lts[x].runs + Waiting(t.stack)[x] >= s.lts[x].runs + Waiting(s.stack)[x]
  }

  lemma Pushed(s: State, t: State, f: Frame)
    requires Known(s) && KnownFrame(f, |t.lts|) && |s.lts| <= |t.lts| && t.stack == s.stack + [f]
    ensures Known(t) && Weight(t.stack) == Weight(s.stack) + FrameWeight(f)
    ensures Waiting(t.stack) == Waiting(s.stack) + FrameWaiting(f)
  {
    hide FrameWeight, FrameWaiting;
    assert t.stack[..|s.stack|] == s.stack;
    assert forall i :: 0 <= i < |s.stack| ==> t.stack[i] == s.stack[i];
  }

  predicate RestKnown(next: Then, n: nat) {
    next.Retire? ==> forall i :: 0 <= i < |next.rest| ==> next.rest[i] < n
  }

  function ThenWeight(next: Then): nat {
    if next.Retire? then 2 * |next.rest| else if next.Begin? then 4 else 1
  }

  predicate SameCleanups(s: State, t: State) {
    |s.lts| <= |t.lts| &&
    forall x :: 0 <= x < |s.lts| ==> t.lts[x].cleanup == s.lts[x].cleanup && t.lts[x].runs == s.lts[x].runs
  }

  lemma QuietRetire(s: State, rest: seq<nat>)
    requires Known(s) && RestKnown(Retire(rest), |s.lts|)
    ensures CanProceed(s, Retire(rest), Done)
    ensures var t := Proceed(s, Retire(rest), Done);
      && Known(t) && Load(t) <= Load(s) + 2 * |rest|
      && Waiting(t.stack) == Waiting(s.stack) + RestOf(Retire(rest)) && SameCleanups(s, t)
  {
    hide Known, Weight, Waiting;
    if rest != [] {
      Pushed(s, CallDispose(s, rest[0], Retire(rest[1..])), Dispose(rest[0], Aborting, Retire(rest[1..])));
      assert rest == [rest[0]] + rest[1..];
    }
  }

  lemma QuietVisit(s: State, plugin: string, cell: string)
    requires Known(s) && cell in s.cells && IsOwn(s, plugin, cell)
    ensures var t := Proceed(s, Unregister(plugin), Visit(cell));
      && Known(t) && Load(t) <= Load(s)
      && Waiting(s.stack) <= Waiting(t.stack) && SameCleanups(s, t)
  {
    hide Known, Weight, Waiting;
    var f := Dispose(s.cells[cell], Aborting, Unregister(plugin));
    Pushed(s, Proceed(s, Unregister(plugin), Visit(cell)), f);
    FewerCells(s.cells, cell);
  }

  lemma FewerCells(cells: map<string, nat>, cell: string)
    requires cell in cells
    ensures |cells - {cell}| == |cells| - 1
  {
    assert (cells - {cell}).Keys == cells.Keys - {cell};
  }

  lemma MoreCells(cells: map<string, nat>, cell: string, id: nat)
    ensures |cells[cell := id]| <= |cells| + 1
  {
    assert cells[cell := id].Keys == cells.Keys + {cell};
  }

  /** Going on after a `dispose`: its caller's work moves to the stack, and nothing is lost. */
  lemma QuietProceed(s: State, next: Then, pick: Pick)
    requires Known(s) && RestKnown(next, |s.lts|) && (next.Unregister? ==> CanVisit(s, next.plugin, pick))
    ensures CanProceed(s, next, pick)
    ensures var t := Proceed(s, next, pick);
      && Known(t) && Load(t) <= Load(s) + ThenWeight(next)
      && Waiting(s.stack) + RestOf(next) <= Waiting(t.stack) && SameCleanups(s, t)
  {
    hide Known, Weight, Waiting, CallDispose;
    match next
    case Retire(rest) => QuietRetire(s, rest);
    case Begin(plugin, cell) =>
      Pushed(s, StartRender(s, plugin, cell), Factory(|s.lts|));
      MoreCells(s.cells, cell, |s.lts|);
    case Fail => Pushed(s, s.(stack := s.stack + [Report]), Report);
    case Unregister(plugin) =>
      if pick.Visit? {
        QuietVisit(s, plugin, pick.cell);
      }
    case Return =>
  }

  ghost predicate QuietProgress(s: State) {
    s.stack != [] && Enabled(s, Quiet(s)) &&
    var t := Step(s, Quiet(s));
    Known(t) && Load(t) < Load(s) && Owed(s, t)
  }

  lemma QuietCleanup(s: State)
    requires s.stack != [] && Known(s) && Top(s).Dispose?
    requires Top(s).phase == Aborting && s.lts[Top(s).id].cleanup
    ensures QuietProgress(s)
  {
    hide Proceed, CanProceed, Known, Weight, Waiting, QuietPick;
    var f, p := Top(s), Pop(s);
    PoppedIsKnown(s);
    Pushed(p, s, f);
    var ran := p.(lts := p.lts[f.id := p.lts[f.id].(runs := p.lts[f.id].runs + 1)],
                  stack := p.stack + [f.(phase := Cleaning)]);
    Pushed(p, ran, f.(phase := Cleaning));
    QuietProceed(p, f.next, QuietPick(p, f.next));
  }

  lemma QuietStep(s: State)
    requires s.stack != [] && Known(s)
    ensures QuietProgress(s)
  {
    hide Proceed, CanProceed, Known, Weight, Waiting, QuietPick;
    var f, p := Top(s), Pop(s);
    PoppedIsKnown(s);
    Pushed(p, s, f);
    if f.Dispose? && f.phase == Aborting && s.lts[f.id].cleanup {
      QuietCleanup(s);
    } else if f.Dispose? {
      QuietProceed(p, f.next, QuietPick(p, f.next));
    }
  }

  lemma PoppedIsKnown(s: State)
    requires s.stack != [] && Known(s)
    ensures Known(Pop(s)) && KnownFrame(Top(s), |s.lts|) && s.stack == Pop(s).stack + [Top(s)]
  {
  }

  /** Left undisturbed, any stack unwinds, and every cleanup that it owes runs. */
  lemma {:induction false} Unwind(s: State) returns (es: seq<Event>)
    requires Known(s)
    ensures Possible(s, es) && After(s, es).stack == [] && Owed(s, After(s, es))
    decreases Load(s)
  {
    hide Known, Enabled, Step, Owed, Load;
    if s.stack == [] {
      es := [];
      OwedIsReflexive(s);
    } else {
      QuietStep(s);
      var e := Quiet(s);
      var more := Unwind(Step(s, e));
      es := [e] + more;
      assert es[1..] == more;
      OwedIsTransitive(s, Step(s, e), After(s, es));
    }
  }

  lemma OwedIsReflexive(s: State)
    ensures Owed(s, s)
  {
  }

  lemma OwedIsTransitive(s: State, t: State, u: State)
    requires Owed(s, t) && Owed(t, u)
    ensures Owed(s, u)
  {
  }

  lemma InvIsKnown(s: State)
    requires Inv(s)
    ensures Known(s)
  {
    forall i | 0 <= i < |s.stack| ensures KnownFrame(s.stack[i], |s.lts|) {
      assert FrameFits(s, s.stack[i]);
      WaitingHolds(s.stack, i);
      var f := s.stack[i];
      if f.Dispose? && f.next.Retire? {
        forall j | 0 <= j < |f.next.rest| ensures f.next.rest[j] < |s.lts| {
          assert f.next.rest[j] in multiset(f.next.rest) && f.next.rest[j] in Waiting(s.stack);
        }
      }
    }
  }

  lemma {:induction false} WaitingHolds(stack: seq<Frame>, i: nat)
    requires i < |stack|
    ensures FrameWaiting(stack[i]) <= Waiting(stack)
  {
    if i < |stack| - 1 {
      WaitingHolds(stack[..|stack| - 1], i);
    }
  }

  lemma LeftoverHasRun(s: State, id: nat)
    requires Inv(s) && s.closed && id < |s.lts| && s.lts[id].cleanup && InCell(s, id)
    ensures s.lts[id].runs + Waiting(s.stack)[id] == 1
  {
    hide Waiting;
    assert LifetimeFits(s, Waiting(s.stack), id);
  }

  lemma NothingWaits()
    ensures Waiting([]) == multiset{}
  {
  }

  // The leftover is called once more than it has been.
  lemma LeftoverOwesTwice(s: State, order: seq<nat>) returns (id: nat)
    requires Inv(s) && Enabled(s, RetireAll(order)) && !Clean(s, RetireAll(order))
    ensures var t := Step(s, RetireAll(order));
      && Known(t) && id < |s.lts| <= |t.lts| && t.lts[id].cleanup
      && t.lts[id].runs + Waiting(t.stack)[id] >= 2
  {
    hide Known, KnownFrame, Proceed, Load, Waiting, FrameFits, CanVisit;
    var cell :| cell in s.cells && s.lts[s.cells[cell]].cleanup;
    id := s.cells[cell];
    LeftoverHasRun(s, id);
    InvIsKnown(s);
    BareIsKnown(s);
    ListedIsKnown(s, order);
    QuietProceed(s.(cells := map[]), Retire(order), Done);
    assert id in order && RestOf(Retire(order))[id] >= 1;
    assert Waiting(Step(s, RetireAll(order)).stack)[id] >= Waiting(s.stack)[id] + 1;
  }

  /** And when it breaks the accounting, from whatever stack it is called, a cleanup runs a
      second time as soon as the stack unwinds undisturbed. */
  lemma LeftoverRunsTwice(s: State, order: seq<nat>) returns (es: seq<Event>, id: nat)
    requires Inv(s) && Enabled(s, RetireAll(order)) && !Clean(s, RetireAll(order))
    ensures Possible(s, [RetireAll(order)] + es) && After(s, [RetireAll(order)] + es).stack == []
    ensures id < |s.lts| && id < |After(s, [RetireAll(order)] + es).lts|
    ensures After(s, [RetireAll(order)] + es).lts[id].runs >= 2
  {
    hide Known, Enabled, Step, Waiting, Inv;
    id := LeftoverOwesTwice(s, order);
    var e := RetireAll(order);
    es := Unwind(Step(s, e));
    assert ([e] + es)[1..] == es;
    NothingWaits();
  }

  // What one undisturbed `unregister` does.

  predicate IsOwned(s: State, plugin: string, id: nat) {
    InCell(s, id) && s.lts[id].plugin == plugin
  }

  /** Exactly the plugin's lifetimes are out of the map, aborted, and cleaned up once; all
      else is as it was. */
  ghost predicate Unregistered(s: State, plugin: string, t: State) {
    && t.closed == s.closed && t.stack == s.stack && |t.lts| == |s.lts|
    && (forall cell :: cell in t.cells <==> cell in s.cells && !IsOwn(s, plugin, cell))
    && (forall cell :: cell in t.cells ==> t.cells[cell] == s.cells[cell])
    && (forall id :: 0 <= id < |s.lts| ==>
          t.lts[id] == if IsOwned(s, plugin, id) then Finished(s.lts[id]) else s.lts[id])
  }

  /** A lifetime that has been disposed. */
  function Finished(l: Lifetime): Lifetime {
    l.(aborted := true, runs := l.runs + if l.cleanup then 1 else 0)
  }

  predicate CellsKnown(s: State) {
    forall cell :: cell in s.cells ==> s.cells[cell] < |s.lts| && s.lts[s.cells[cell]].cell == cell
  }

  /** The state after the disposal of one entry. */
  function WithoutEntry(s: State, cell: string): State
    requires cell in s.cells && s.cells[cell] < |s.lts|
  {
    s.(cells := s.cells - {cell}, lts := s.lts[s.cells[cell] := Finished(s.lts[s.cells[cell]])])
  }

  /** One undisturbed turn of the loop, up to the choice of the next entry. */
  lemma UnregisterTurn(s: State, plugin: string, cell: string, pick: Pick) returns (es: seq<Event>)
    requires cell in s.cells && IsOwn(s, plugin, cell) && CanVisit(WithoutEntry(s, cell), plugin, pick)
    ensures Leads(Proceed(s, Unregister(plugin), Visit(cell)), es,
                  Proceed(WithoutEntry(s, cell), Unregister(plugin), pick))
  {
    hide Leads, Proceed, CanVisit;
    var id := s.cells[cell];
    var t := Visiting(s, plugin, cell);
    TurnStarts(s, plugin, cell, pick);
    LeadsNowhere(t);
    Extend(t, [], t, Listeners(pick));
    es := [] + [Listeners(pick)];
    if s.lts[id].cleanup {
      Extend(t, es, Step(t, Listeners(pick)), Cleanup(false, pick));
      es := es + [Cleanup(false, pick)];
    }
  }

  // `dispose` has been called for this entry.
  function Visiting(s: State, plugin: string, cell: string): State
    requires cell in s.cells && IsOwn(s, plugin, cell)
  {
    CallDispose(s.(cells := s.cells - {cell}), s.cells[cell], Unregister(plugin))
  }

  lemma TurnStarts(s: State, plugin: string, cell: string, pick: Pick)
    requires cell in s.cells && IsOwn(s, plugin, cell) && CanVisit(WithoutEntry(s, cell), plugin, pick)
    ensures var t, w := Visiting(s, plugin, cell), WithoutEntry(s, cell);
      && CanVisit(s, plugin, Visit(cell)) && Proceed(s, Unregister(plugin), Visit(cell)) == t
      && Enabled(t, Listeners(pick))
      && if s.lts[s.cells[cell]].cleanup
         then var u := Step(t, Listeners(pick));
              Enabled(u, Cleanup(false, pick)) && Step(u, Cleanup(false, pick)) == Proceed(w, Unregister(plugin), pick)
         else Step(t, Listeners(pick)) == Proceed(w, Unregister(plugin), pick)
  {
    hide Proceed, CanVisit;
    var t, w := Visiting(s, plugin, cell), WithoutEntry(s, cell);
    ProceedVisits(s, plugin, cell);
    assert t.stack[..|s.stack|] == s.stack;
    SameVisits(w, Pop(t), plugin, pick);
    if s.lts[s.cells[cell]].cleanup {
      var u := Step(t, Listeners(pick));
      assert u.stack[..|s.stack|] == s.stack;
      assert Pop(u) == w;
    } else {
      assert Pop(t) == w;
    }
  }

  lemma SameVisits(s: State, t: State, plugin: string, pick: Pick)
    requires s.cells == t.cells && |s.lts| == |t.lts|
    requires forall x :: 0 <= x < |s.lts| ==> s.lts[x].plugin == t.lts[x].plugin
    ensures CanVisit(s, plugin, pick) <==> CanVisit(t, plugin, pick)
  {
  }

  lemma ProceedVisits(s: State, plugin: string, cell: string)
    requires cell in s.cells && IsOwn(s, plugin, cell)
    ensures CanVisit(s, plugin, Visit(cell))
    ensures Proceed(s, Unregister(plugin), Visit(cell)) == Visiting(s, plugin, cell)
  {
  }

  lemma TurnKeeps(s: State, plugin: string, cell: string, t: State)
    requires CellsKnown(s) && cell in s.cells && IsOwn(s, plugin, cell)
    requires Unregistered(WithoutEntry(s, cell), plugin, t)
    ensures CellsKnown(WithoutEntry(s, cell)) && Unregistered(s, plugin, t)
  {
    var w, id := WithoutEntry(s, cell), s.cells[cell];
    assert forall c :: c in w.cells ==> c != cell && w.cells[c] != id && IsOwn(w, plugin, c) == IsOwn(s, plugin, c);
    forall x | 0 <= x < |s.lts|
      ensures t.lts[x] == if IsOwned(s, plugin, x) then Finished(s.lts[x]) else s.lts[x]
    {
      assert IsOwned(w, plugin, x) == (x != id && IsOwned(s, plugin, x));
    }
  }

  /** Left undisturbed, `unregister` disposes every lifetime of its plugin, runs each cleanup
      once, and touches nothing else. */
  lemma {:induction false} UnregisterRuns(s: State, plugin: string) returns (pick: Pick, es: seq<Event>)
    requires CellsKnown(s)
    ensures CanVisit(s, plugin, pick) && Possible(Proceed(s, Unregister(plugin), pick), es)
    ensures Unregistered(s, plugin, After(Proceed(s, Unregister(plugin), pick), es))
    decreases |s.cells|
  {
    hide CellsKnown, Unregistered, Possible, After;
    pick := QuietPick(s, Unregister(plugin));
    if pick.Done? {
      es := [];
      NothingToUnregister(s, plugin);
    } else {
      FewerCells(s.cells, pick.cell);
      var w := WithoutEntry(s, pick.cell);
      WithoutIsKnown(s, plugin, pick.cell);
      var next, more := UnregisterRuns(w, plugin);
      var turn := UnregisterTurn(s, plugin, pick.cell, next);
      es := turn + more;
      AfterConcat(Proceed(s, Unregister(plugin), pick), turn, more);
      TurnKeeps(s, plugin, pick.cell, After(Proceed(w, Unregister(plugin), next), more));
    }
  }

  lemma WithoutIsKnown(s: State, plugin: string, cell: string)
    requires CellsKnown(s) && cell in s.cells && IsOwn(s, plugin, cell)
    ensures CellsKnown(WithoutEntry(s, cell))
  {
  }

  lemma NothingToUnregister(s: State, plugin: string)
    requires CellsKnown(s) && CanVisit(s, plugin, Done)
    ensures Proceed(s, Unregister(plugin), Done) == s
    ensures Possible(s, []) && Unregistered(s, plugin, After(s, []))
  {
    forall id | 0 <= id < |s.lts| ensures !IsOwned(s, plugin, id) {
      if IsOwned(s, plugin, id) {
        assert IsOwn(s, plugin, s.lts[id].cell);
      }
    }
  }

  lemma BareIsKnown(s: State)
    requires Known(s)
    ensures Known(s.(cells := map[]))
  {
  }

  lemma ListedIsKnown(s: State, order: seq<nat>)
    requires Inv(s) && Lists(order, s.cells)
    ensures RestKnown(Retire(order), |s.lts|)
  {
    forall i | 0 <= i < |order| ensures order[i] < |s.lts| {
      assert order[i] in order && order[i] in s.cells.Values;
      var c :| c in s.cells && s.cells[c] == order[i];
    }
  }

  function Ran(runs: nat): Lifetime {
    Lifetime("p", "main", true, Settled, true, runs)
  }

  /** A predecessor's cleanup is running, and it has closed the registry. */
  const CLOSED_INSIDE: State :=
    State(true, map[], [Ran(1)], [Dispose(0, Cleaning, Begin("p", "main"))])

  const STORED: State := State(false, map["main" := 0], [Lifetime("p", "main", false, Settled, true, 0)], [])

  const LATE: State :=
    State(true, map["main" := 1], [Ran(1), Lifetime("p", "main", false, Rendering, false, 0)], [])

  const LEFTOVER: State := State(true, map["main" := 1], [Ran(1), Ran(1)], [])

  /** One event between explicitly given states. */
  lemma Then1(es: seq<Event>, t: State, e: Event, u: State)
    requires Leads(FRESH, es, t) && Enabled(t, e) && Step(t, e) == u
    ensures Leads(FRESH, es + [e], u)
  {
    hide Possible, After, Enabled, Step;
    Extend(FRESH, es, t, e);
  }

  lemma ReachesStored() returns (es: seq<Event>)
    ensures Leads(FRESH, es, STORED)
  {
    hide Leads;
    LeadsNowhere(FRESH);
    var e1 := Render("p", "main");
    var s1 := State(false, map["main" := 0], [Lifetime("p", "main", false, Rendering, false, 0)], [Factory(0)]);
    Then1([], FRESH, e1, s1);
    Then1([] + [e1], s1, FactoryReturns, s1.(stack := []));
    Then1([] + [e1] + [FactoryReturns], s1.(stack := []), Settle(0, true, true), STORED);
    es := [] + [e1] + [FactoryReturns] + [Settle(0, true, true)];
  }

  const REPLACING: State := State(false, map[], [Ran(0)], [Dispose(0, Aborting, Begin("p", "main"))])

  lemma ReplacingStarts()
    ensures Enabled(STORED, Render("p", "main")) && Step(STORED, Render("p", "main")) == REPLACING
  {
  }

  lemma ReplacingCleans()
    ensures Enabled(REPLACING, Listeners(Done))
    ensures Step(REPLACING, Listeners(Done)) == CLOSED_INSIDE.(closed := false)
  {
  }

  lemma ReplacingCloses()
    ensures var t := CLOSED_INSIDE.(closed := false);
            Enabled(t, Close([])) && Step(t, Close([])) == CLOSED_INSIDE
  {
  }

  lemma ReachesClosedInside() returns (es: seq<Event>)
    ensures Leads(FRESH, es, CLOSED_INSIDE)
  {
    hide Leads, Enabled, Step;
    es := ReachesStored();
    ReplacingStarts();
    Then1(es, STORED, Render("p", "main"), REPLACING);
    es := es + [Render("p", "main")];
    ReplacingCleans();
    Then1(es, REPLACING, Listeners(Done), CLOSED_INSIDE.(closed := false));
    es := es + [Listeners(Done)];
    ReplacingCloses();
    Then1(es, CLOSED_INSIDE.(closed := false), Close([]), CLOSED_INSIDE);
    es := es + [Close([])];
  }

  lemma ReachesLate() returns (es: seq<Event>)
    ensures Leads(FRESH, es, LATE)
  {
    hide Leads;
    es := ReachesClosedInside();
    Then1(es, CLOSED_INSIDE, Cleanup(false, Done), LATE.(stack := [Factory(1)]));
    es := es + [Cleanup(false, Done)];
    Then1(es, LATE.(stack := [Factory(1)]), FactoryReturns, LATE);
    es := es + [FactoryReturns];
  }

  const LATE_ABORTING: State := State(true, map["main" := 1], [Ran(1), Ran(0)], [Dispose(1, Aborting, Return)])

  lemma LateSettles()
    ensures Enabled(LATE, Settle(1, true, true)) && Step(LATE, Settle(1, true, true)) == LATE_ABORTING
  {
  }

  lemma LateCleans()
    ensures Enabled(LATE_ABORTING, Listeners(Done))
    ensures Step(LATE_ABORTING, Listeners(Done)) == LEFTOVER.(stack := [Dispose(1, Cleaning, Return)])
  {
  }

  lemma LateFinishes()
    ensures var t := LEFTOVER.(stack := [Dispose(1, Cleaning, Return)]);
            Enabled(t, Cleanup(false, Done)) && Step(t, Cleanup(false, Done)) == LEFTOVER
  {
  }

  lemma ReachesLeftover() returns (es: seq<Event>)
    ensures Leads(FRESH, es, LEFTOVER)
  {
    hide Leads, Enabled, Step;
    es := ReachesLate();
    LateSettles();
    Then1(es, LATE, Settle(1, true, true), LATE_ABORTING);
    es := es + [Settle(1, true, true)];
    LateCleans();
    Then1(es, LATE_ABORTING, Listeners(Done), LEFTOVER.(stack := [Dispose(1, Cleaning, Return)]));
    es := es + [Listeners(Done)];
    LateFinishes();
    Then1(es, LEFTOVER.(stack := [Dispose(1, Cleaning, Return)]), Cleanup(false, Done), LEFTOVER);
    es := es + [Cleanup(false, Done)];
  }

  /** Such a state is reached: a render whose predecessor's cleanup closes the registry
      starts after the close, settles into the closed map, and is disposed at once; a later
      `retireAll` runs its cleanup again. */
  lemma CleanupCanRunTwice()
    ensures exists es, t :: Leads(FRESH, es, t) && |t.lts| > 1 && t.lts[1].runs == 2
  {
    hide Leads;
    var es := ReachesLeftover();
    var s1 := LEFTOVER.(cells := map[], stack := [Dispose(1, Aborting, Retire([]))]);
    assert LEFTOVER.cells["main"] == 1 && 1 in LEFTOVER.cells.Values;
    assert [1][1..] == [];
    Then1(es, LEFTOVER, RetireAll([1]), s1);
    var s2 := State(true, map[], [Ran(1), Ran(2)], [Dispose(1, Cleaning, Retire([]))]);
    Then1(es + [RetireAll([1])], s1, Listeners(Done), s2);
  }

  // ---------------------------------------------------------------------------
  // A lifetime overwritten by a re-entrant render.

  /** Some `dispose` on the stack returns to a render that will take the cell. */
  predicate Awaited(s: State, cell: string) {
    exists f :: f in s.stack && f.Dispose? && f.next.Begin? && f.next.cell == cell
  }

  /** Whatever is in an awaited cell, and about to be overwritten, is still pending. */
  predicate OverwritesPending(s: State) {
    forall cell :: cell in s.cells && Awaited(s, cell) ==>
      s.cells[cell] < |s.lts| && s.lts[s.cells[cell]].stage == Rendering
  }

  /** The one event that can leave something else there: in a closed registry, a factory
      throws whose lifetime is in an awaited cell. */
  predicate Breaks(s: State, e: Event) {
    && e.FactoryThrows? && s.closed && s.stack != [] && Top(s).Factory?
    && InCell(s, Top(s).id) && Awaited(s, s.lts[Top(s).id].cell)
  }

  // What needs no clean run: the part of the invariant that is about places. With `pending`
  // it says of closed registries, too, that awaited cells hold pending lifetimes.

  predicate MayBeOverwritten(s: State, id: nat, pending: bool) {
    id < |s.lts| && !s.lts[id].cleanup && (pending || !s.closed ==> s.lts[id].stage == Rendering)
  }

  predicate NextPlaced(s: State, next: Then, pending: bool) {
    match next
    case Begin(_, cell) => cell in s.cells ==> MayBeOverwritten(s, s.cells[cell], pending)
    case Retire(rest) => forall x :: x in rest ==> x < |s.lts| && (!s.closed ==> !InCell(s, x))
    case _ => true
  }

  predicate FramePlaced(s: State, f: Frame, pending: bool) {
    match f
    case Dispose(id, _, next) => id < |s.lts| && NextPlaced(s, next, pending)
    case Factory(id) => id < |s.lts|
    case Report => true
  }

  predicate Placed(s: State, pending: bool) {
    && (forall cell :: cell in s.cells ==> s.cells[cell] < |s.lts| && s.lts[s.cells[cell]].cell == cell)
    && (forall cell :: cell in s.cells && !s.closed ==> !s.lts[s.cells[cell]].aborted)
    && (forall f :: f in s.stack ==> FramePlaced(s, f, pending))
  }

  lemma PlacedIsPending(s: State)
    ensures Placed(s, true) <==> Placed(s, false) && OverwritesPending(s)
  {
    if Placed(s, true) {
      forall f | f in s.stack ensures FramePlaced(s, f, false) {
        assert FramePlaced(s, f, true);
      }
      forall cell | cell in s.cells && Awaited(s, cell) ensures s.lts[s.cells[cell]].stage == Rendering {
        var f :| f in s.stack && f.Dispose? && f.next.Begin? && f.next.cell == cell;
        assert FramePlaced(s, f, true);
      }
    }
    if Placed(s, false) && OverwritesPending(s) {
      forall f | f in s.stack ensures FramePlaced(s, f, true) {
        assert FramePlaced(s, f, false);
        if f.Dispose? && f.next.Begin? && f.next.cell in s.cells {
          assert Awaited(s, f.next.cell);
        }
      }
    }
  }

  /** A smaller map, a shorter stack, or a registry that has been closed. */
  lemma FewerPlaced(s: State, t: State, pending: bool)
    requires Placed(s, pending) && t.lts == s.lts && (s.closed ==> t.closed)
    requires forall f :: f in t.stack ==> f in s.stack
    requires forall cell :: cell in t.cells ==> cell in s.cells && t.cells[cell] == s.cells[cell]
    ensures Placed(t, pending)
  {
    forall f | f in t.stack ensures FramePlaced(t, f, pending) {
      assert FramePlaced(s, f, pending);
    }
  }

  lemma PushPlaced(s: State, f: Frame, pending: bool)
    requires Placed(s, pending) && FramePlaced(s, f, pending)
    ensures Placed(s.(stack := s.stack + [f]), pending)
  {
    var t := s.(stack := s.stack + [f]);
    forall g | g in t.stack ensures FramePlaced(t, g, pending) {
      assert g == f || FramePlaced(s, g, pending);
      assert forall x :: InCell(t, x) == InCell(s, x);
    }
  }

  /** Changing a lifetime in place. Its stage may change if it is out of the map, or in a
      closed one where nobody awaits its cell or nothing is claimed for it. */
  lemma MarkPlaced(s: State, id: nat, l: Lifetime, pending: bool)
    requires Placed(s, pending) && id < |s.lts| && l.cell == s.lts[id].cell && l.cleanup == s.lts[id].cleanup
    requires l.stage == s.lts[id].stage || !InCell(s, id) || (s.closed && !(pending && Awaited(s, l.cell)))
    requires !s.closed && InCell(s, id) ==> !l.aborted
    ensures Placed(s.(lts := s.lts[id := l]), pending)
  {
    var t := s.(lts := s.lts[id := l]);
    assert forall x :: InCell(t, x) == InCell(s, x);
    forall f | f in t.stack ensures FramePlaced(t, f, pending) {
      assert FramePlaced(s, f, pending);
      if f.Dispose? && f.next.Begin? {
        assert Awaited(s, f.next.cell);
      }
    }
  }

  lemma DisposePlaced(s: State, id: nat, next: Then, pending: bool)
    requires Placed(s, pending) && id < |s.lts| && NextPlaced(s, next, pending)
    requires !s.closed ==> !InCell(s, id)
    ensures Placed(CallDispose(s, id, next), pending)
  {
    hide Placed, NextPlaced;
    var f := Dispose(id, Aborting, next);
    PushPlaced(s, f, pending);
    MarkPlaced(s.(stack := s.stack + [f]), id, s.lts[id].(aborted := true), pending);
  }

  lemma StartPlaced(s: State, plugin: string, cell: string, pending: bool)
    requires Placed(s, pending)
    ensures Placed(StartRender(s, plugin, cell), pending)
  {
    var t := StartRender(s, plugin, cell);
    forall f | f in t.stack ensures FramePlaced(t, f, pending) {
      assert f == Factory(|s.lts|) || FramePlaced(s, f, pending);
    }
  }

  /** Taking an entry out of the map and disposing it. */
  lemma VisitPlaced(s: State, cell: string, next: Then, pending: bool)
    requires Placed(s, pending) && cell in s.cells && !next.Retire? && (next.Begin? ==> next.cell == cell)
    ensures Placed(CallDispose(s.(cells := s.cells - {cell}), s.cells[cell], next), pending)
  {
    hide CallDispose;
    var t := s.(cells := s.cells - {cell});
    FewerPlaced(s, t, pending);
    assert s.lts[s.cells[cell]].cell == cell;
    DisposePlaced(t, s.cells[cell], next, pending);
  }

  lemma ProceedPlaced(s: State, next: Then, pick: Pick, pending: bool)
    requires Placed(s, pending) && NextPlaced(s, next, pending) && CanProceed(s, next, pick)
    ensures Placed(Proceed(s, next, pick), pending)
  {
    hide Placed, StartRender, CallDispose;
    match next
    case Retire(rest) =>
      if rest != [] {
        assert rest[0] in rest && forall x :: x in rest[1..] ==> x in rest;
        DisposePlaced(s, rest[0], Retire(rest[1..]), pending);
      }
    case Unregister(plugin) =>
      if pick.Visit? {
        VisitPlaced(s, pick.cell, next, pending);
      }
    case Begin(plugin, cell) => StartPlaced(s, plugin, cell, pending);
    case Fail => PushPlaced(s, Report, pending);
    case Return =>
  }

  /** `retireAll` and `close` empty the map first. */
  lemma RetirePlaced(s: State, order: seq<nat>, closed: bool, pending: bool)
    requires Placed(s, pending) && Lists(order, s.cells) && (s.closed ==> closed)
    requires CanProceed(s.(closed := closed, cells := map[]), Retire(order), Done)
    ensures Placed(Proceed(s.(closed := closed, cells := map[]), Retire(order), Done), pending)
  {
    hide Proceed;
    var t := s.(closed := closed, cells := map[]);
    FewerPlaced(s, t, pending);
    forall x | x in order ensures x < |s.lts| {
      assert x in s.cells.Values;
    }
    ProceedPlaced(t, Retire(order), Done, pending);
  }

  lemma StaleIsOut(s: State, id: nat, pending: bool)
    requires Placed(s, pending) && id < |s.lts| && Stale(s, id)
    ensures s.closed || !InCell(s, id)
  {
  }

  lemma FailsPlaced(s: State, id: nat, pending: bool)
    requires Placed(s, pending) && id < |s.lts|
    ensures Placed(RenderFails(s, id), pending)
  {
    hide CallDispose, Placed;
    if Stale(s, id) {
      StaleIsOut(s, id, pending);
      DisposePlaced(s, id, Return, pending);
    } else {
      VisitPlaced(s, s.lts[id].cell, Fail, pending);
    }
  }

  lemma ThrowPlaced(s: State, pending: bool)
    requires Placed(s, pending) && Enabled(s, FactoryThrows) && !(pending && Breaks(s, FactoryThrows))
    ensures Placed(Step(s, FactoryThrows), pending)
  {
    hide Placed, CallDispose;
    var id, p := Top(s).id, Pop(s);
    var failed := p.lts[id].(stage := Settled);
    FewerPlaced(s, p, pending);
    if Stale(p, id) {
      StaleIsOut(p, id, pending);
      assert Awaited(p, failed.cell) ==> Awaited(s, failed.cell);
      MarkPlaced(p, id, failed, pending);
      DisposePlaced(p.(lts := p.lts[id := failed]), id, Return, pending);
    } else {
      var out := p.(cells := p.cells - {failed.cell});
      FewerPlaced(p, out, pending);
      MarkPlaced(out, id, failed, pending);
      DisposePlaced(out.(lts := out.lts[id := failed]), id, Fail, pending);
    }
  }

  // With an empty stack no cell is awaited.
  lemma SettlePlaced(s: State, id: nat, ok: bool, fn: bool, pending: bool)
    requires Placed(s, pending) && Enabled(s, Settle(id, ok, fn))
    ensures Placed(Step(s, Settle(id, ok, fn)), pending)
  {
    hide RenderFails, CallDispose;
    var t := s.(lts := s.lts[id := s.lts[id].(stage := Settled, cleanup := ok && fn)]);
    assert Placed(t, pending);
    if !ok {
      FailsPlaced(t, id, pending);
    } else if Stale(t, id) {
      StaleIsOut(t, id, pending);
      DisposePlaced(t, id, Return, pending);
    }
  }

  // The code that `dispose` calls returns.
  lemma DisposingPlaced(s: State, e: Event, pending: bool)
    requires Placed(s, pending) && Enabled(s, e) && (e.Listeners? || e.Cleanup? || e.Faulted?)
    ensures Placed(Step(s, e), pending)
  {
    hide Proceed, Placed, NextPlaced;
    var f, p := Top(s), Pop(s);
    FewerPlaced(s, p, pending);
    if f.Dispose? {
      TopPlaced(s, pending);
      if e.Listeners? && s.lts[f.id].cleanup {
        var g := f.(phase := Cleaning);
        PushPlaced(p, g, pending);
        NotAborted(p, f.id, pending);
        MarkPlaced(p.(stack := p.stack + [g]), f.id, s.lts[f.id].(runs := s.lts[f.id].runs + 1), pending);
      } else if e.Cleanup? && e.threw {
        PushPlaced(p, f.(phase := Faulting), pending);
      } else {
        ProceedPlaced(p, f.next, e.pick, pending);
      }
    }
  }

  lemma TopPlaced(s: State, pending: bool)
    requires Placed(s, pending) && s.stack != [] && Top(s).Dispose?
    ensures Top(s).id < |s.lts| && NextPlaced(Pop(s), Top(s).next, pending)
  {
    assert FramePlaced(s, Top(s), pending);
    assert forall x :: InCell(Pop(s), x) == InCell(s, x);
  }

  lemma NotAborted(s: State, id: nat, pending: bool)
    requires Placed(s, pending) && id < |s.lts|
    ensures !s.closed && InCell(s, id) ==> !s.lts[id].aborted
  {
  }

  /** Every step keeps places, and all but one keep awaited lifetimes pending. */
  lemma StepPlaced(s: State, e: Event, pending: bool)
    requires Placed(s, pending) && Enabled(s, e) && !(pending && Breaks(s, e))
    ensures Placed(Step(s, e), pending)
  {
    hide Placed, Proceed, CallDispose, StartRender, RenderFails;
    match e
    case Render(plugin, cell) =>
      if cell in s.cells {
        VisitPlaced(s, cell, Begin(plugin, cell), pending);
      } else {
        StartPlaced(s, plugin, cell, pending);
      }
    case RetireAll(order) => RetirePlaced(s, order, s.closed, pending);
    case Close(order) => RetirePlaced(s, order, true, pending);
    case UnregisterPlugin(plugin, pick) => ProceedPlaced(s, Unregister(plugin), pick, pending);
    case FactoryReturns => FewerPlaced(s, Pop(s), pending);
    case FactoryThrows => ThrowPlaced(s, pending);
    case Settle(id, ok, fn) => SettlePlaced(s, id, ok, fn, pending);
    case _ => DisposingPlaced(s, e, pending);
  }

  lemma BreaksPending(s: State, e: Event)
    requires Enabled(s, e) && Breaks(s, e)
    ensures !OverwritesPending(Step(s, e))
  {
    var id, t := Top(s).id, Step(s, e);
    var cell := s.lts[id].cell;
    var f :| f in s.stack && f.Dispose? && f.next.Begin? && f.next.cell == cell;
    assert s.stack == Pop(s).stack + [Top(s)];
    assert f in t.stack && Awaited(t, cell);
    assert t.cells[cell] == id && t.lts[id].stage == Settled;
  }

  /** For the next event this is exact, whatever has been called before: awaited lifetimes
      stay pending if and only if it is not that event. */
  lemma OverwritesPendingIff(s: State, e: Event)
    requires Placed(s, false) && OverwritesPending(s) && Enabled(s, e)
    ensures OverwritesPending(Step(s, e)) <==> !Breaks(s, e)
  {
    hide Placed, OverwritesPending, Breaks, Step, Enabled;
    PlacedIsPending(s);
    if Breaks(s, e) {
      BreaksPending(s, e);
    } else {
      StepPlaced(s, e, true);
      PlacedIsPending(Step(s, e));
    }
  }

  predicate PendingThroughout(s: State, es: seq<Event>)
    requires Possible(s, es)
    decreases |es|
  {
    OverwritesPending(s) && (es == [] || PendingThroughout(Step(s, es[0]), es[1..]))
  }

  predicate NeverBroken(s: State, es: seq<Event>)
    requires Possible(s, es)
    decreases |es|
  {
    es == [] || (!Breaks(s, es[0]) && NeverBroken(Step(s, es[0]), es[1..]))
  }

  lemma {:induction false} ThroughoutIff(s: State, es: seq<Event>)
    requires Placed(s, false) && OverwritesPending(s) && Possible(s, es)
    ensures PendingThroughout(s, es) <==> NeverBroken(s, es)
    decreases |es|
  {
    hide Placed, OverwritesPending, Breaks, Step, Enabled;
    if es != [] {
      OverwritesPendingIff(s, es[0]);
      StepPlaced(s, es[0], false);
      if !Breaks(s, es[0]) {
        ThroughoutIff(Step(s, es[0]), es[1..]);
      }
    }
  }

  lemma {:induction false} AlwaysPlaced(s: State, es: seq<Event>)
    requires Placed(s, false) && Possible(s, es)
    ensures Placed(After(s, es), false)
    decreases |es|
  {
    hide Placed, Breaks, Step, Enabled;
    if es != [] {
      StepPlaced(s, es[0], false);
      AlwaysPlaced(Step(s, es[0]), es[1..]);
    }
  }

  /** Over any run of a new registry, clean or not: every lifetime about to be overwritten is
      pending at every moment if and only if no factory throws, in the closed registry, whose
      lifetime is in an awaited cell. */
  lemma OverwrittenAlwaysPendingIff(es: seq<Event>)
    requires Possible(FRESH, es)
    ensures PendingThroughout(FRESH, es) <==> NeverBroken(FRESH, es)
    ensures Placed(After(FRESH, es), false)
  {
    hide Possible, PendingThroughout, NeverBroken;
    assert Placed(FRESH, false) && OverwritesPending(FRESH);
    ThroughoutIff(FRESH, es);
    AlwaysPlaced(FRESH, es);
  }

  lemma {:induction false} RestIsWaiting(stack: seq<Frame>, f: Frame, x: nat)
    requires f in stack && f.Dispose? && x in RestOf(f.next)
    ensures x in Waiting(stack)
  {
    var n := |stack| - 1;
    if f != stack[n] {
      assert stack == stack[..n] + [stack[n]];
      RestIsWaiting(stack[..n], f, x);
    }
  }

  /** The invariant of clean runs includes all of this. */
  lemma InvIsPlaced(s: State)
    requires Inv(s)
    ensures Placed(s, false)
  {
    hide Waiting;
    forall cell | cell in s.cells && !s.closed ensures !s.lts[s.cells[cell]].aborted {
      assert LifetimeFits(s, Waiting(s.stack), s.cells[cell]);
    }
    forall f | f in s.stack ensures FramePlaced(s, f, false) {
      assert FrameFits(s, f);
      if f.Dispose? && f.next.Retire? {
        forall x | x in f.next.rest ensures x < |s.lts| && (!s.closed ==> !InCell(s, x)) {
          RestIsWaiting(s.stack, f, x);
          assert LifetimeFits(s, Waiting(s.stack), x);
        }
      }
    }
  }

  /** Between `dispose(old)` and the new `set`, whatever has taken the cell has no cleanup:
      in an open registry it is a render that is still pending. It is not abandoned: no
      later event puts it back, and when it settles it is disposed, cleanup and all. */
  lemma OverwrittenIsPending(s: State, id: nat, phase: Phase, plugin: string, cell: string)
    requires Placed(s, false) && Dispose(id, phase, Begin(plugin, cell)) in s.stack && cell in s.cells
    ensures s.cells[cell] < |s.lts| && !s.lts[s.cells[cell]].cleanup
    ensures s.lts[s.cells[cell]].stage == Rendering || s.closed
    ensures !InCell(StartRender(s, plugin, cell), s.cells[cell])
  {
    assert FramePlaced(s, Dispose(id, phase, Begin(plugin, cell)), false);
  }

  const OUTER: Frame := Dispose(0, Aborting, Begin("p", "main"))
  const FIRST: Lifetime := Lifetime("p", "main", true, Settled, true, 0)
  const ABORTED: Lifetime := Lifetime("p", "main", true, Rendering, false, 0)
  const PENDING: Lifetime := Lifetime("p", "main", false, Rendering, false, 0)
  const FAILED: Lifetime := Lifetime("p", "main", true, Settled, false, 0)

  // A render re-enters the abort listeners of a predecessor, and another one its factory.
  const NESTED: State := State(false, map["main" := 1], [FIRST, PENDING], [OUTER, Factory(1)])

  const INNERMOST: State :=
    State(false, map[], [FIRST, ABORTED], [OUTER, Factory(1), Dispose(1, Aborting, Begin("p", "main"))])

  const TAKEN: State :=
    State(true, map["main" := 2], [FIRST, ABORTED, PENDING], [OUTER, Factory(1), Factory(2)])

  const SETTLED_INSIDE: State :=
    State(true, map["main" := 2], [FIRST, ABORTED, FAILED], [OUTER, Factory(1), Dispose(2, Aborting, Return)])

  lemma ReachesNested() returns (es: seq<Event>)
    ensures Leads(FRESH, es, NESTED)
  {
    hide Leads;
    es := ReachesStored();
    var s1 := State(false, map[], [FIRST], [OUTER]);
    Then1(es, STORED, Render("p", "main"), s1);
    es := es + [Render("p", "main")];
    Then1(es, s1, Render("p", "main"), NESTED);
    es := es + [Render("p", "main")];
  }

  lemma ReachesTaken() returns (es: seq<Event>)
    ensures Leads(FRESH, es, TAKEN)
  {
    hide Leads;
    es := ReachesNested();
    Then1(es, NESTED, Render("p", "main"), INNERMOST);
    es := es + [Render("p", "main")];
    Then1(es, INNERMOST, Close([]), INNERMOST.(closed := true));
    es := es + [Close([])];
    Then1(es, INNERMOST.(closed := true), Listeners(Done), TAKEN);
    es := es + [Listeners(Done)];
  }

  /** And that event happens: a run from a new registry in which the cell about to be taken
      holds a render that has already failed. */
  lemma OverwrittenCanBeSettled()
    ensures exists es :: Leads(FRESH, es, TAKEN)
    ensures Enabled(TAKEN, FactoryThrows) && Breaks(TAKEN, FactoryThrows)
    ensures Step(TAKEN, FactoryThrows) == SETTLED_INSIDE && exists es :: Leads(FRESH, es, SETTLED_INSIDE)
    ensures SETTLED_INSIDE.closed && OUTER in SETTLED_INSIDE.stack && "main" in SETTLED_INSIDE.cells
    ensures SETTLED_INSIDE.lts[SETTLED_INSIDE.cells["main"]].stage == Settled
  {
    hide Leads;
    var es := ReachesTaken();
    Then1(es, TAKEN, FactoryThrows, SETTLED_INSIDE);
    assert TAKEN.stack[0] == OUTER;
    assert SETTLED_INSIDE.stack[0] == OUTER;
  }

  predicate NoNewHome(s: State, t: State, id: nat) {
    && id < |s.lts| <= |t.lts|
    && t.lts[id].cell == s.lts[id].cell
    && (!InCell(s, id) ==> !InCell(t, id))
  }

  lemma DisposeOut(s: State, x: nat, next: Then, id: nat)
    requires x < |s.lts| && id < |s.lts|
    ensures NoNewHome(s, CallDispose(s, x, next), id)
  {
  }

  lemma ProceedOut(s: State, next: Then, pick: Pick, id: nat)
    requires CanProceed(s, next, pick) && id < |s.lts|
    ensures NoNewHome(s, Proceed(s, next, pick), id)
  {
    hide CallDispose;
    match next
    case Retire(rest) =>
      if rest != [] {
        DisposeOut(s, rest[0], Retire(rest[1..]), id);
      }
    case Unregister(plugin) =>
      if pick.Visit? {
        DisposeOut(s.(cells := s.cells - {pick.cell}), s.cells[pick.cell], next, id);
      }
    case _ =>
  }

  lemma FailsOut(s: State, x: nat, id: nat)
    requires x < |s.lts| && id < |s.lts|
    ensures NoNewHome(s, RenderFails(s, x), id)
  {
    hide CallDispose;
    DisposeOut(s, x, Return, id);
    DisposeOut(s.(cells := s.cells - {s.lts[x].cell}), x, Fail, id);
  }

  lemma SettlingOut(s: State, e: Event, id: nat)
    requires Enabled(s, e) && id < |s.lts| && (e.FactoryReturns? || e.FactoryThrows? || e.Settle?)
    ensures NoNewHome(s, Step(s, e), id)
  {
    hide CallDispose, RenderFails;
    if e.FactoryThrows? {
      var x := Top(s).id;
      FailsOut(Pop(s).(lts := s.lts[x := s.lts[x].(stage := Settled)]), x, id);
    }
    if e.Settle? {
      var settled := s.(lts := s.lts[e.id := s.lts[e.id].(stage := Settled, cleanup := e.ok && e.fn)]);
      FailsOut(settled, e.id, id);
      DisposeOut(settled, e.id, Return, id);
    }
  }

  lemma OutStepsOut(s: State, e: Event, id: nat)
    requires Enabled(s, e) && id < |s.lts|
    ensures NoNewHome(s, Step(s, e), id)
  {
    hide CallDispose, Proceed, RenderFails;
    match e
    case Render(plugin, cell) =>
      if cell in s.cells {
        DisposeOut(s.(cells := s.cells - {cell}), s.cells[cell], Begin(plugin, cell), id);
      }
    case RetireAll(order) => ProceedOut(s.(cells := map[]), Retire(order), Done, id);
    case Close(order) => ProceedOut(s.(closed := true, cells := map[]), Retire(order), Done, id);
    case UnregisterPlugin(plugin, pick) => ProceedOut(s, Unregister(plugin), pick, id);
    case Listeners(pick) =>
      if !s.lts[Top(s).id].cleanup {
        ProceedOut(Pop(s), Top(s).next, pick, id);
      }
    case Cleanup(threw, pick) => ProceedOut(Pop(s), Top(s).next, pick, id);
    case Faulted(pick) =>
      if !Top(s).Report? {
        ProceedOut(Pop(s), Top(s).next, pick, id);
      }
    case _ => SettlingOut(s, e, id);
  }

  /** A lifetime that is out of the map stays out, whatever happens. */
  lemma {:induction false} OutStaysOut(s: State, es: seq<Event>, id: nat)
    requires Possible(s, es) && id < |s.lts|
    ensures NoNewHome(s, After(s, es), id)
    decreases |es|
  {
    hide Step, Enabled, InCell;
    if es != [] {
      OutStepsOut(s, es[0], id);
      OutStaysOut(Step(s, es[0]), es[1..], id);
    }
  }

  /** The render of this lifetime is fulfilled or rejected, or its factory throws. */
  predicate Settles(s: State, e: Event, id: nat) {
    (e.Settle? && e.id == id) || (e.FactoryThrows? && s.stack != [] && Top(s) == Factory(id))
  }

  /** And however its render ends, it is then disposed, cleanup and all. */
  lemma OutIsDisposedWhenSettled(s: State, e: Event, id: nat)
    requires Enabled(s, e) && Settles(s, e, id) && !InCell(s, id)
    ensures var t := Step(s, e);
      && t.stack == (if e.Settle? then [] else Pop(s).stack) + [Dispose(id, Aborting, Return)]
      && t.lts[id].aborted && t.lts[id].stage == Settled
      && t.lts[id].cleanup == (if e.Settle? then e.ok && e.fn else s.lts[id].cleanup)
      && (t.lts[id].cleanup ==>
            Enabled(t, Listeners(Done)) && Step(t, Listeners(Done)).lts[id].runs == s.lts[id].runs + 1)
  {
  }
}
