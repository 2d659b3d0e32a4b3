/** The two browser context owners: one current context, operations bound to it, and
    disposal listeners. Abort listeners, disposal callbacks, field getters, the live
    predicate and operations all run caller code, which may re-enter the owner:
    `Owner.Reenter` stands for all of it, and `depth` for the JavaScript stack left.

    A basic owner offers `SwitchContext` and `Read`, an extended owner `Replace` and
    `Run`; everything else is the same code in both, and so is shared here. */
module ContextOwner {
  import opened Wrappers

  const MAX_PENDING: nat := 8
  const MAX_LISTENERS: nat := 64
  const MAX_SAFE_INTEGER: int := 9007199254740991

  // The seven binding keys that no replacement may change.
  datatype Binding = Binding(
    origin: string, tenantId: string, subjectId: string, sessionId: string,
    instanceId: string, generation: int, tabId: string)

  // `axes` stands for every other versioned part of the readback.
  datatype Context =
    | Basic(tenantId: string, sessionId: string, objectId: Option<string>, revision: nat)
    | Extended(binding: Binding, axes: string, issuedAtMs: int, expiresAtMs: int)

  // `token` is the identity of the registration object.
  datatype Registration = Registration(callback: nat, token: nat)

  // What a started operation keeps across its `await`.
  datatype Handle = Handle(controller: nat, captured: Context, issued: nat)

  datatype Response =
    | CurrentContext(context: Context, value: int)
    | ReadbackReceived(context: Context, value: int)
    | StaleContext
    | OperationFailed
    | Denied
    | BackendUnavailable

  datatype Start = Refused | Answered(response: Response) | Awaiting(handle: Handle)

  // A settled backend call; a getter that throws gives nothing.
  datatype Reply = Rejected | Replied(status: Option<int>, value: Option<int>)

  // The two clock readings of one admission, and whether the live predicate said true.
  datatype Probe = Probe(before: int, live: bool, after: int)

  // `history[k]` is the context in force while the sequence number is `k`; `calls[t]`
  // counts the calls of registration `t`.
  datatype Snapshot = Snapshot(
    current: Context, sequence: nat, closed: bool,
    pending: set<nat>, aborted: set<nat>, controllers: nat,
    disposals: seq<Registration>, tokens: nat, calls: seq<nat>, history: seq<Context>)

  predicate Registered(disposals: seq<Registration>, token: nat) {
    exists i :: 0 <= i < |disposals| && disposals[i].token == token
  }

  predicate SameOwner(initial: Context, next: Context) {
    match initial
    case Basic(_, _, _, _) => next.Basic?
    case Extended(binding, _, _, _) => next.Extended? && next.binding == binding
  }

  predicate ContextsSane(initial: Context, current: Context, sequence: nat, history: seq<Context>) {
    && |history| == sequence + 1 && history[sequence] == current
    && (forall k :: 0 <= k < |history| ==> SameOwner(initial, history[k]))
  }

  predicate OperationsSane(pending: set<nat>, aborted: set<nat>, controllers: nat) {
    && |pending| <= MAX_PENDING
    && (forall c :: c in pending ==> c < controllers && c !in aborted)
    && (forall c :: c in aborted ==> c < controllers)
  }

  /** A registered listener has not been called, and no listener is called twice. */
  predicate ListenersSane(disposals: seq<Registration>, calls: seq<nat>) {
    && |disposals| <= MAX_LISTENERS
    && (forall i :: 0 <= i < |disposals| ==> disposals[i].token < |calls| && calls[disposals[i].token] == 0)
    && (forall i, j :: 0 <= i < j < |disposals| ==>
          disposals[i].callback != disposals[j].callback && disposals[i].token != disposals[j].token)
    && (forall t :: 0 <= t < |calls| ==> calls[t] <= 1)
  }

  /** What holds whenever caller code may run, except what `closed` adds. */
  predicate Sound(s: Snapshot, initial: Context) {
    && ContextsSane(initial, s.current, s.sequence, s.history)
    && OperationsSane(s.pending, s.aborted, s.controllers)
    && |s.calls| == s.tokens && ListenersSane(s.disposals, s.calls)
  }

  predicate Sane(s: Snapshot, initial: Context) {
    Sound(s, initial) && (s.closed ==> s.pending == {} && s.disposals == [])
  }

  predicate ContextsGrow(h: seq<Context>, closed: bool, h': seq<Context>, closed': bool) {
    h <= h' && (closed ==> closed')
  }

  predicate OperationsGrow(a: Snapshot, b: Snapshot) {
    && a.sequence <= b.sequence && a.aborted <= b.aborted && a.controllers <= b.controllers
    && (forall c :: c in b.pending && c < a.controllers ==> c in a.pending)
  }

  /** A registration that is gone stays gone, and is called no more. */
  predicate ListenersGrow(d: seq<Registration>, c: seq<nat>, d': seq<Registration>, c': seq<nat>) {
    && |c| <= |c'|
    && (forall t :: 0 <= t < |c| && !Registered(d, t) ==> c'[t] == c[t] && !Registered(d', t))
  }

  /** What no call ever undoes. */
  predicate Grown(a: Snapshot, b: Snapshot) {
    && ContextsGrow(a.history, a.closed, b.history, b.closed) && OperationsGrow(a, b)
    && ListenersGrow(a.disposals, a.calls, b.disposals, b.calls)
  }

  /** From one state to a later one. While the sequence number stands, nothing is
      retired: the owner stays as open as it was and no operation is aborted. */
  predicate Later(a: Snapshot, b: Snapshot) {
    Grown(a, b) && (b.sequence == a.sequence ==> b.closed == a.closed && b.aborted == a.aborted)
  }

  /** What caller code can do while one of the owner's calls is under way: unlike
      `Later`, it never forgets a pending operation without aborting it. */
  predicate Rely(a: Snapshot, b: Snapshot) {
    Later(a, b) && (forall c :: c in a.pending ==> c in b.pending || c in b.aborted)
  }

  lemma GrownIsTransitive(a: Snapshot, b: Snapshot, c: Snapshot)
    requires Grown(a, b) && Grown(b, c)
    ensures Grown(a, c)
  {
    hide Registered;
  }

  lemma LaterIsTransitive(a: Snapshot, b: Snapshot, c: Snapshot)
    requires Later(a, b) && Later(b, c)
    ensures Later(a, c)
  {
    GrownIsTransitive(a, b, c);
  }

  lemma RelyIsTransitive(a: Snapshot, b: Snapshot, c: Snapshot)
    requires Rely(a, b) && Rely(b, c)
    ensures Rely(a, c)
  {
    LaterIsTransitive(a, b, c);
    assert forall x :: x in b.aborted ==> x in c.aborted;
  }

  lemma RelyIsReflexive(a: Snapshot, initial: Context)
    requires Sane(a, initial)
    ensures Rely(a, a)
  {
  }

  predicate IsSafeInteger(n: int) {
    -MAX_SAFE_INTEGER <= n <= MAX_SAFE_INTEGER
  }

  predicate InLease(context: Context, now: int)
    requires context.Extended?
  {
    IsSafeInteger(now) && context.issuedAtMs <= now < context.expiresAtMs
  }

  /** The handle of an operation that this owner started earlier. */
  predicate Issued(s: Snapshot, h: Handle) {
    h.controller < s.controllers && h.issued < |s.history| && s.history[h.issued] == h.captured
  }

  /** `h`'s lifetime has not been retired. */
  predicate Alive(s: Snapshot, h: Handle) {
    !s.closed && h.captured == s.current && h.issued == s.sequence
  }

  lemma WithoutOne(d: seq<Registration>, c: seq<nat>, i: nat)
    requires ListenersSane(d, c) && i < |d|
    ensures ListenersSane(d[..i] + d[i + 1..], c)
    ensures ListenersGrow(d, c, d[..i] + d[i + 1..], c)
    ensures forall r :: r in d[..i] + d[i + 1..] <==> r in d && r != d[i]
  {
    var d' := d[..i] + d[i + 1..];
    assert forall j :: 0 <= j < |d'| ==> d'[j] == d[if j < i then j else j + 1];
    forall j | 0 <= j < |d| && j != i ensures d[j] in d' {
      assert d[j] == d'[if j < i then j else j - 1];
    }
    assert forall t :: Registered(d', t) ==> Registered(d, t);
  }

  lemma WithOneMore(d: seq<Registration>, c: seq<nat>, r: Registration)
    requires ListenersSane(d, c) && |d| < MAX_LISTENERS && r.token == |c|
    requires forall j :: 0 <= j < |d| ==> d[j].callback != r.callback
    ensures ListenersSane(d + [r], c + [0])
    ensures ListenersGrow(d, c, d + [r], c + [0])
    ensures r in d + [r]
  {
    assert (d + [r])[|d|] == r;
    assert forall t: nat :: t < |c| && Registered(d + [r], t) ==> Registered(d, t);
  }

  /** Retirement under way: none of `todo` and `owned` is the owner's any more, what was
      pending is either still in `todo` or aborted, and exactly the first `i` of the
      listeners have been called. */
  predicate Retiring(start: Snapshot, s: Snapshot, todo: set<nat>, i: nat) {
    && Grown(start, s) && todo <= start.pending && todo !! s.pending
    && (forall c :: c in start.pending ==> c in todo || c in s.aborted)
    && Drained(s.disposals, s.calls, start.disposals, i)
  }

  predicate Drained(d: seq<Registration>, c: seq<nat>, owned: seq<Registration>, i: nat) {
    forall j :: 0 <= j < |owned| ==>
      && owned[j].token < |c| && !Registered(d, owned[j].token)
      && c[owned[j].token] == if j < i then 1 else 0
  }

  lemma DrainedKeeps(d: seq<Registration>, c: seq<nat>, d': seq<Registration>, c': seq<nat>,
                     owned: seq<Registration>, i: nat)
    requires Drained(d, c, owned, i) && ListenersGrow(d, c, d', c')
    ensures Drained(d', c', owned, i)
  {
    hide Registered;
  }

  lemma DrainedCalls(d: seq<Registration>, c: seq<nat>, owned: seq<Registration>, before: seq<nat>, i: nat)
    requires ListenersSane(d, c) && ListenersSane(owned, before) && i < |owned|
    requires Drained(d, c, owned, i) && ListenersGrow(owned, before, d, c)
    ensures owned[i].token < |c| && c[owned[i].token] == 0
    ensures ListenersSane(d, c[owned[i].token := 1]) && Drained(d, c[owned[i].token := 1], owned, i + 1)
    ensures ListenersGrow(owned, before, d, c[owned[i].token := 1])
  {
    var t := owned[i].token;
    assert Registered(owned, t);
    assert forall j :: 0 <= j < |d| ==> Registered(d, d[j].token);
  }

  lemma RetiringStarts(s: Snapshot, initial: Context)
    requires Sound(s, initial)
    ensures Sane(s.(pending := {}, disposals := []), initial)
    ensures Retiring(s, s.(pending := {}, disposals := []), s.pending, 0)
  {
    hide ContextsSane;
  }

  lemma RetiringKeeps(start: Snapshot, s: Snapshot, s': Snapshot, todo: set<nat>, i: nat)
    requires Retiring(start, s, todo, i) && Rely(s, s')
    requires OperationsSane(start.pending, start.aborted, start.controllers)
    ensures Retiring(start, s', todo, i)
  {
    hide ListenersGrow, ContextsGrow, Drained;
    GrownIsTransitive(start, s, s');
    DrainedKeeps(s.disposals, s.calls, s'.disposals, s'.calls, start.disposals, i);
  }

  lemma RetiringAborts(start: Snapshot, s: Snapshot, todo: set<nat>, c: nat, initial: Context)
    requires Sane(s, initial) && Retiring(start, s, todo, 0) && c in todo
    requires OperationsSane(start.pending, start.aborted, start.controllers)
    ensures Sane(s.(aborted := s.aborted + {c}), initial)
    ensures Retiring(start, s.(aborted := s.aborted + {c}), todo - {c}, 0)
  {
    hide ListenersGrow, ContextsGrow, Drained, ContextsSane, ListenersSane;
  }

  lemma RetiringCalls(start: Snapshot, s: Snapshot, i: nat, initial: Context)
    requires Sane(s, initial) && Retiring(start, s, {}, i) && i < |start.disposals|
    requires ListenersSane(start.disposals, start.calls)
    ensures start.disposals[i].token < |s.calls| && s.calls[start.disposals[i].token] == 0
    ensures Sane(s.(calls := s.calls[start.disposals[i].token := 1]), initial)
    ensures Retiring(start, s.(calls := s.calls[start.disposals[i].token := 1]), {}, i + 1)
  {
    hide ListenersGrow, ContextsGrow, ContextsSane, ListenersSane, Drained;
    DrainedCalls(s.disposals, s.calls, start.disposals, start.calls, i);
  }

  function Moved(s: Snapshot, next: Context, closed: bool): Snapshot {
    s.(current := next, sequence := s.sequence + 1, closed := closed, history := s.history + [next])
  }

  lemma MovedIsSound(s: Snapshot, next: Context, closed: bool, initial: Context)
    requires Sane(s, initial) && !s.closed && SameOwner(initial, next)
    ensures Sound(Moved(s, next, closed), initial)
  {
    hide OperationsSane, ListenersSane;
  }

  /** A move to another sequence number and the retirement after it, seen as one step. */
  lemma MovedIsRetired(s: Snapshot, next: Context, closed: bool, e: Snapshot, n: nat)
    requires !s.closed && Retiring(Moved(s, next, closed), e, {}, n) && |s.history| == s.sequence + 1
    ensures Retiring(s, e, {}, n) && Rely(s, e)
    ensures s.sequence < e.sequence && s.sequence + 1 < |e.history| && e.history[s.sequence + 1] == next
    ensures closed ==> e.closed
  {
    hide ListenersGrow, Drained;
  }

  lemma HistoryLength(s: Snapshot, initial: Context)
    requires Sound(s, initial)
    ensures |s.history| == s.sequence + 1 && SameOwner(initial, s.current)
  {
  }

  lemma StillIssued(a: Snapshot, b: Snapshot, h: Handle)
    requires Rely(a, b) && Issued(a, h)
    ensures Issued(b, h)
    ensures h.controller in a.pending ==> h.controller in b.pending || h.controller in b.aborted
  {
    hide ListenersGrow;
  }

  /** The owner with one more pending operation. */
  function Started(s: Snapshot): Snapshot {
    s.(pending := s.pending + {s.controllers}, controllers := s.controllers + 1)
  }

  lemma StartedIsSane(s: Snapshot, initial: Context)
    requires Sane(s, initial) && !s.closed && |s.pending| < MAX_PENDING
    ensures Sane(Started(s), initial) && Rely(s, Started(s))
    ensures OperationsSane(s.pending, s.aborted, s.controllers) && SameOwner(initial, s.current)
    ensures Issued(Started(s), Handle(s.controllers, s.current, s.sequence))
  {
    hide ListenersSane;
  }

  lemma FinishedIsSane(s: Snapshot, c: nat, initial: Context)
    requires Sane(s, initial)
    ensures Sane(s.(pending := s.pending - {c}), initial) && Later(s, s.(pending := s.pending - {c}))
  {
    hide ContextsSane, ListenersSane;
  }

  lemma FinishedIsLater(a: Snapshot, s: Snapshot, c: nat)
    requires Rely(a, s)
    ensures Later(a, s.(pending := s.pending - {c}))
  {
    hide ListenersGrow, ContextsGrow;
  }

  lemma FinishedIsRely(a: Snapshot, s: Snapshot, c: nat)
    requires Rely(a, s) && OperationsSane(a.pending, a.aborted, a.controllers) && a.controllers <= c
    ensures Rely(a, s.(pending := s.pending - {c}))
  {
    hide ListenersGrow, ContextsGrow;
  }

  lemma OthersRemain(a: Snapshot, s: Snapshot)
    requires Rely(a, s)
    ensures forall c :: c in a.pending ==> c in s.pending || c in s.aborted
  {
    hide Later;
  }

  /** `h`'s lifetime has not been retired, as `read` tests it. */
  predicate Fresh(s: Snapshot, h: Handle) {
    !s.closed && h.controller !in s.aborted && h.issued == s.sequence
  }

  lemma FreshIsCurrent(a: Snapshot, s: Snapshot, h: Handle, initial: Context)
    requires Sane(a, initial) && Issued(a, h) && Rely(a, s) && Sane(s, initial) && Fresh(s, h)
    ensures Alive(s, h) && s.sequence == a.sequence
  {
    hide ListenersGrow, ListenersSane, OperationsSane;
  }

  /** What a reply means to a request that is still current. */
  function Answer(reply: Reply, captured: Context): Response {
    if reply.Rejected? || reply.status.None? then BackendUnavailable
    else if reply.status.value == 401 || reply.status.value == 403 then Denied
    else if reply.status.value != 200 || reply.value.None? then BackendUnavailable
    else ReadbackReceived(captured, reply.value.value)
  }

  /** Access is denied on 401 and 403 only, a value is delivered on 200 only, and whatever
      else comes back, or fails to, counts as an unavailable backend. */
  lemma AnswerMeans(reply: Reply, captured: Context)
    ensures Answer(reply, captured) == Denied <==>
            exists value :: reply == Replied(Some(401), value) || reply == Replied(Some(403), value)
    ensures forall context, value ::
              Answer(reply, captured) == ReadbackReceived(context, value) <==>
              context == captured && reply == Replied(Some(200), Some(value))
    ensures Answer(reply, captured).Denied? || Answer(reply, captured).ReadbackReceived?
            || Answer(reply, captured) == BackendUnavailable
  {
    if Answer(reply, captured) == Denied {
      assert reply == Replied(Some(reply.status.value), reply.value);
    }
  }

  /** The admission test of the extended owner: `s` is the state on entry, `e` the state
      in which the live predicate has answered. */
  predicate Passes(s: Snapshot, h: Handle, probe: Probe, e: Snapshot)
    requires h.captured.Extended?
  {
    && Alive(s, h) && InLease(h.captured, probe.before) && probe.live
    && Alive(e, h) && InLease(h.captured, probe.after)
  }

  /** What it takes: the owner open and the request current, before the predicate runs and
      after it, a predicate that says yes, and two clock readings inside the lease, whose
      start belongs to it and whose end does not. */
  lemma PassesMeans(s: Snapshot, h: Handle, probe: Probe, e: Snapshot)
    requires h.captured.Extended?
    ensures Passes(s, h, probe, e) <==>
            && !s.closed && s.current == h.captured && s.sequence == h.issued
            && !e.closed && e.current == h.captured && e.sequence == h.issued && probe.live
            && -MAX_SAFE_INTEGER <= probe.before <= MAX_SAFE_INTEGER
            && -MAX_SAFE_INTEGER <= probe.after <= MAX_SAFE_INTEGER
            && h.captured.issuedAtMs <= probe.before < h.captured.expiresAtMs
            && h.captured.issuedAtMs <= probe.after < h.captured.expiresAtMs
  {
  }

  /** One owner's states over a whole run. `Owner.Drive` shows that every run of an owner
      is one: any calls in any order, with any re-entrant calls inside them. */
  ghost predicate IsLife(states: seq<Snapshot>, initial: Context) {
    && (forall i :: 0 <= i < |states| ==> Sane(states[i], initial))
    && (forall i, j :: 0 <= i && j == i + 1 && j < |states| ==> Later(states[i], states[j]))
  }

  lemma {:induction false} LifeIsLater(states: seq<Snapshot>, initial: Context, i: nat, j: nat)
    requires IsLife(states, initial) && i <= j < |states|
    ensures Later(states[i], states[j])
    decreases j - i
  {
    hide Sound, Grown;
    if i == j {
      RelyIsReflexive(states[i], initial);
    } else {
      LifeIsLater(states, initial, i, j - 1);
      LaterIsTransitive(states[i], states[j - 1], states[j]);
    }
  }

  /** No stale delivery: if a request that began at `i` passes its last check at `j`, then
      nothing was switched, replaced, closed or aborted at any moment in between. */
  lemma NoStaleDelivery(states: seq<Snapshot>, initial: Context, i: nat, k: nat, j: nat, h: Handle)
    requires IsLife(states, initial) && i <= k <= j < |states|
    requires Alive(states[i], h) && h.controller !in states[i].aborted
    requires h.issued == states[j].sequence
    ensures Alive(states[k], h) && h.controller !in states[k].aborted
    ensures states[k].sequence == states[j].sequence && states[k].current == states[j].current == h.captured
  {
    LifeIsLater(states, initial, i, k);
    LifeIsLater(states, initial, k, j);
    StandsStill(states[i], states[k], initial);
    StandsStill(states[k], states[j], initial);
  }

  lemma StandsStill(a: Snapshot, b: Snapshot, initial: Context)
    requires Sane(a, initial) && Sane(b, initial) && Later(a, b)
    ensures a.sequence <= b.sequence
    ensures a.sequence == b.sequence ==> a.current == b.current && a.closed == b.closed && a.aborted == b.aborted
  {
    hide ListenersGrow, ListenersSane, OperationsSane;
  }

  /** A listener is called at most once over any run, and one that was unregistered or
      called is never called again. */
  lemma CalledAtMostOnce(states: seq<Snapshot>, initial: Context, i: nat, j: nat, t: nat)
    requires IsLife(states, initial) && i <= j < |states| && t < states[i].tokens
    ensures t < |states[j].calls| && states[i].calls[t] <= states[j].calls[t] <= 1
    ensures !Registered(states[i].disposals, t) ==> states[j].calls[t] == states[i].calls[t]
  {
    hide ContextsSane, OperationsSane, ContextsGrow, OperationsGrow;
    LifeIsLater(states, initial, i, j);
  }

  predicate HasBinding(context: Context, binding: Binding) {
    context.Extended? && context.binding == binding
  }

  /** The seven fixed binding keys never change, in no context that was ever in force. */
  lemma FixedKeysNeverChange(states: seq<Snapshot>, initial: Context, i: nat, k: nat)
    requires IsLife(states, initial) && i < |states| && initial.Extended? && k <= states[i].sequence
    ensures |states[i].history| == states[i].sequence + 1 && HasBinding(states[i].history[k], initial.binding)
    ensures states[i].current == states[i].history[states[i].sequence]
  {
    hide Later, OperationsSane, ListenersSane;
    assert SameOwner(initial, states[i].history[k]);
  }

  lemma FixedKeysInLife(states: seq<Snapshot>, initial: Context)
    requires IsLife(states, initial) && initial.Extended?
    ensures forall s :: s in states ==> HasBinding(s.current, initial.binding)
  {
    hide IsLife, HasBinding;
    forall s | s in states ensures HasBinding(s.current, initial.binding) {
      var i :| 0 <= i < |states| && states[i] == s;
      FixedKeysNeverChange(states, initial, i, states[i].sequence);
    }
  }

  lemma LifeExtends(states: seq<Snapshot>, s: Snapshot, initial: Context)
    requires IsLife(states, initial) && states != [] && Sane(s, initial) && Later(states[|states| - 1], s)
    ensures IsLife(states + [s], initial)
  {
    hide Sane, Later;
  }

  // How many of these are true.
  function Thrown(outcomes: seq<bool>): nat {
    if outcomes == [] then 0
    else Thrown(outcomes[..|outcomes| - 1]) + if outcomes[|outcomes| - 1] then 1 else 0
  }

  // What a started operation turned into, and between which states of a run.
  datatype Delivery = Delivery(handle: Handle, started: nat, ended: nat, response: Response)

  /** `h` was issued in state `started` and is still waited for in the last one. */
  ghost predicate Begun(states: seq<Snapshot>, h: Handle, started: nat) {
    && started < |states| && Alive(states[started], h) && h.controller !in states[started].aborted
    && Issued(states[|states| - 1], h)
  }

  /** A delivered context was the owner's at every state since its request began. */
  ghost predicate NeverStale(states: seq<Snapshot>, d: Delivery) {
    && d.started <= d.ended < |states|
    && (d.response.CurrentContext? || d.response.ReadbackReceived? ==>
          forall k :: d.started <= k <= d.ended ==>
            && Alive(states[k], d.handle) && d.handle.controller !in states[k].aborted
            && d.response.context == states[k].current)
  }

  lemma BegunExtends(states: seq<Snapshot>, s: Snapshot, h: Handle, started: nat)
    requires Begun(states, h, started) && Later(states[|states| - 1], s)
    ensures Begun(states + [s], h, started)
  {
    hide ListenersGrow;
  }

  lemma NeverStaleExtends(states: seq<Snapshot>, s: Snapshot, d: Delivery)
    requires NeverStale(states, d)
    ensures NeverStale(states + [s], d)
  {
    hide Alive;
  }

  lemma LifeBegins(s: Snapshot, initial: Context)
    requires Sane(s, initial)
    ensures IsLife([s], initial)
  {
  }

  /** One more state takes nothing back. */
  lemma KeepsAll(states: seq<Snapshot>, s: Snapshot, initial: Context,
                 handles: seq<Handle>, starts: seq<nat>, deliveries: seq<Delivery>)
    requires IsLife(states, initial) && states != [] && Sane(s, initial) && Later(states[|states| - 1], s)
    requires |starts| == |handles|
    requires forall i :: 0 <= i < |handles| ==> Begun(states, handles[i], starts[i])
    requires forall d :: d in deliveries ==> NeverStale(states, d)
    ensures IsLife(states + [s], initial)
    ensures forall i :: 0 <= i < |handles| ==> Begun(states + [s], handles[i], starts[i])
    ensures forall d :: d in deliveries ==> NeverStale(states + [s], d)
  {
    hide Sane, Later, IsLife, Begun, NeverStale;
    LifeExtends(states, s, initial);
    forall i | 0 <= i < |handles| ensures Begun(states + [s], handles[i], starts[i]) {
      BegunExtends(states, s, handles[i], starts[i]);
    }
    forall d | d in deliveries ensures NeverStale(states + [s], d) {
      NeverStaleExtends(states, s, d);
    }
  }

  lemma DeliveredIsFresh(states: seq<Snapshot>, initial: Context, h: Handle, started: nat, r: Response)
    requires IsLife(states, initial) && Begun(states, h, started)
    requires r.CurrentContext? || r.ReadbackReceived? ==>
               r.context == states[|states| - 1].current && h.issued == states[|states| - 1].sequence
    ensures NeverStale(states, Delivery(h, started, |states| - 1, r))
  {
    hide IsLife, Alive;
    if r.CurrentContext? || r.ReadbackReceived? {
      forall k | started <= k <= |states| - 1
        ensures Alive(states[k], h) && h.controller !in states[k].aborted && r.context == states[k].current
      {
        NoStaleDelivery(states, initial, started, k, |states| - 1, h);
      }
    }
  }

  lemma IssuedKind(s: Snapshot, h: Handle, initial: Context)
    requires Sane(s, initial) && Issued(s, h)
    ensures SameOwner(initial, h.captured)
  {
    hide ListenersSane, OperationsSane;
  }

  lemma BegunIsIssued(states: seq<Snapshot>, h: Handle, started: nat)
    requires Begun(states, h, started)
    ensures Issued(states[|states| - 1], h)
  {
  }

  lemma BegunAt(states: seq<Snapshot>, s: Snapshot, h: Handle, initial: Context)
    requires states != [] && var a := states[|states| - 1];
      Sane(a, initial) && !a.closed && h == Handle(a.controllers, a.current, a.sequence)
    requires Issued(s, h)
    ensures Begun(states + [s], h, |states| - 1)
  {
    hide ListenersSane;
  }

  class Owner {
    const initial: Context
    var current: Context
    var sequence: nat
    var closed: bool
    var pending: set<nat>
    var aborted: set<nat>
    var controllers: nat
    var disposals: seq<Registration>
    var tokens: nat
    ghost var calls: seq<nat>
    ghost var history: seq<Context>

    ghost function View(): Snapshot
      reads this
    {
      Snapshot(current, sequence, closed, pending, aborted, controllers, disposals, tokens, calls, history)
    }

    ghost predicate Valid()
      reads this
    {
      Sane(View(), initial)
    }

    predicate IsFresh(h: Handle)
      reads this
      ensures IsFresh(h) == Fresh(View(), h)
    {
      !closed && h.controller !in aborted && h.issued == sequence
    }

    constructor (initialContext: Context)
      ensures Valid() && initial == initialContext
      ensures View() == Snapshot(initialContext, 0, false, {}, {}, 0, [], 0, [], [initialContext])
    {
      initial := initialContext;
      current, sequence, closed := initialContext, 0, false;
      pending, aborted, controllers := {}, {}, 0;
      disposals, tokens := [], 0;
      calls, history := [], [initialContext];
    }

    method OnDispose(callback: nat) returns (ok: bool, token: nat)
      requires Valid()
      modifies this
      ensures Valid() && Rely(old(View()), View())
      ensures ok <==> !old(closed) && |old(disposals)| < MAX_LISTENERS
      ensures ok ==> Registration(callback, token) in disposals
      ensures ok && (exists r :: r in old(disposals) && r.callback == callback) ==> View() == old(View())
      ensures ok && (forall r :: r in old(disposals) ==> r.callback != callback) ==>
                disposals == old(disposals) + [Registration(callback, token)] && token == old(tokens)
      ensures !ok ==> View() == old(View())
    {
      if closed || |disposals| >= MAX_LISTENERS {
        return false, 0;
      }
      for i := 0 to |disposals|
        invariant forall j :: 0 <= j < i ==> disposals[j].callback != callback
        invariant View() == old(View())
      {
        if disposals[i].callback == callback {
          return true, disposals[i].token;
        }
      }
      token := tokens;
      WithOneMore(disposals, calls, Registration(callback, token));
      disposals := disposals + [Registration(callback, token)];
      tokens := tokens + 1;
      calls := calls + [0];
      return true, token;
    }

    /** An unregister closure removes its own registration and no later one of the same
        callback: registrations carry their identity. */
    method Unregister(callback: nat, token: nat)
      requires Valid()
      modifies this
      ensures Valid() && Rely(old(View()), View())
      ensures forall r :: r in disposals <==> r in old(disposals) && r != Registration(callback, token)
      ensures View() == old(View()).(disposals := disposals)
    {
      for i := 0 to |disposals|
        invariant forall j :: 0 <= j < i ==> disposals[j] != Registration(callback, token)
        invariant View() == old(View())
      {
        if disposals[i] == Registration(callback, token) {
          WithoutOne(disposals, calls, i);
          disposals := disposals[..i] + disposals[i + 1..];
          return;
        }
      }
    }

    /** Everything pending is aborted and every listener is called exactly once, whatever
        the callbacks do to this owner in between. `outcomes` says of each call whether the
        listener threw. */
    method Retire(depth: nat) returns (disposed: nat, failures: nat, ghost outcomes: seq<bool>)
      requires Sound(View(), initial)
      modifies this
      ensures Valid() && Retiring(old(View()), View(), {}, |old(disposals)|)
      ensures |outcomes| == disposed == |old(disposals)| && failures == Thrown(outcomes)
      decreases depth, 1
    {
      hide ContextsSane, ListenersSane, Retiring, Rely;
      ghost var start := View();
      RetiringStarts(start, initial);
      var todo, owned := pending, disposals;
      pending, disposals := {}, [];
      while todo != {}
        invariant Valid() && Retiring(start, View(), todo, 0)
        decreases |todo|
      {
        var c :| c in todo;
        RetiringAborts(start, View(), todo, c, initial);
        todo, aborted := todo - {c}, aborted + {c};
        ghost var before := View();
        Reenter(depth);
        RetiringKeeps(start, before, View(), todo, 0);
      }
      failures, outcomes := 0, [];
      for i := 0 to |owned|
        invariant Valid() && Retiring(start, View(), {}, i)
        invariant |outcomes| == i && failures == Thrown(outcomes)
      {
        RetiringCalls(start, View(), i, initial);
        calls := calls[owned[i].token := 1];
        ghost var before := View();
        Reenter(depth);
        RetiringKeeps(start, before, View(), {}, i + 1);
        var threw: bool := *;
        failures := failures + if threw then 1 else 0;
        outcomes := outcomes + [threw];
      }
      disposed := |owned|;
    }

    /** Any finite sequence of public calls that caller code makes while one of the
        owner's own calls is on the stack. */
    method Reenter(depth: nat)
      requires Valid()
      modifies this
      ensures Valid() && Rely(old(View()), View())
      decreases depth, 0
    {
      hide Sound, Later;
      RelyIsReflexive(View(), initial);
      var steps: nat := *;
      while depth > 0 && steps > 0
        invariant Valid() && Rely(old(View()), View())
        decreases steps
      {
        ghost var before := View();
        var choice: nat, callback: nat, token: nat, next: Context := *, *, *, *;
        if choice == 0 {
          var _, _ := OnDispose(callback);
        } else if choice == 1 {
          Unregister(callback, token);
        } else if choice == 2 {
          var _, _, _, _ := Close(depth - 1);
        } else if choice == 3 && initial.Extended? {
          var _, _, _, _ := Replace(next, depth - 1);
        } else if choice == 4 && initial.Basic? && next.Basic? {
          var _, _, _, _ := SwitchContext(next, depth - 1);
        } else if choice == 5 && initial.Extended? {
          var first: Probe, second: Probe, threw: bool := *, *, *;
          var _, _, _ := StartRun(first, threw, second, depth - 1);
        } else if choice == 6 && initial.Basic? {
          var threw: bool := *;
          var _ := StartRead(threw, depth - 1);
        }
        RelyIsTransitive(old(View()), before, View());
        steps := steps - 1;
      }
    }

    method SwitchContext(next: Context, depth: nat)
      returns (ok: bool, disposed: nat, failures: nat, ghost outcomes: seq<bool>)
      requires Valid() && initial.Basic? && next.Basic?
      modifies this
      ensures Valid() && Rely(old(View()), View())
      ensures ok <==> !old(closed) && old(sequence) < MAX_SAFE_INTEGER
      ensures !ok ==> View() == old(View())
      ensures ok ==> Retiring(old(View()), View(), {}, |old(disposals)|) && disposed == |old(disposals)|
      ensures ok ==> old(sequence) + 1 < |history| && history[old(sequence) + 1] == next
      ensures |outcomes| == disposed && failures == Thrown(outcomes)
      decreases depth, 2
    {
      hide ContextsSane, OperationsSane, ListenersSane, Retiring, Rely;
      if closed || sequence >= MAX_SAFE_INTEGER {
        RelyIsReflexive(View(), initial);
        return false, 0, 0, [];
      }
      MovedIsSound(View(), next, false, initial);
      sequence, current, history := sequence + 1, next, history + [next];
      disposed, failures, outcomes := Retire(depth);
      HistoryLength(old(View()), initial);
      MovedIsRetired(old(View()), next, false, View(), |old(disposals)|);
      ok := true;
    }

    method Replace(next: Context, depth: nat)
      returns (ok: bool, disposed: nat, failures: nat, ghost outcomes: seq<bool>)
      requires Valid() && initial.Extended?
      modifies this
      ensures Valid() && Rely(old(View()), View())
      ensures ok <==>
              !old(closed) && SameOwner(initial, next) && (next == old(current) || old(sequence) < MAX_SAFE_INTEGER)
      ensures !ok || next == old(current) ==> View() == old(View())
      ensures ok && next != old(current) ==>
                Retiring(old(View()), View(), {}, |old(disposals)|) && disposed == |old(disposals)|
      ensures ok && next != old(current) ==> old(sequence) + 1 < |history| && history[old(sequence) + 1] == next
      ensures ok && next == old(current) ==> disposed == 0
      ensures |outcomes| == disposed && failures == Thrown(outcomes)
      decreases depth, 2
    {
      hide ContextsSane, OperationsSane, ListenersSane, Retiring, Rely;
      RelyIsReflexive(View(), initial);
      if closed || !SameOwner(initial, next) {
        return false, 0, 0, [];
      }
      if next == current {
        return true, 0, 0, [];
      }
      if sequence >= MAX_SAFE_INTEGER {
        return false, 0, 0, [];
      }
      MovedIsSound(View(), next, false, initial);
      sequence, current, history := sequence + 1, next, history + [next];
      disposed, failures, outcomes := Retire(depth);
      HistoryLength(old(View()), initial);
      MovedIsRetired(old(View()), next, false, View(), |old(disposals)|);
      ok := true;
    }

    method Close(depth: nat)
      returns (first: bool, disposed: nat, failures: nat, ghost outcomes: seq<bool>)
      requires Valid()
      modifies this
      ensures Valid() && closed && Rely(old(View()), View())
      ensures first <==> !old(closed)
      ensures !first ==> View() == old(View())
      ensures first ==> Retiring(old(View()), View(), {}, |old(disposals)|) && disposed == |old(disposals)|
      ensures |outcomes| == disposed && failures == Thrown(outcomes)
      decreases depth, 2
    {
      hide ContextsSane, OperationsSane, ListenersSane, Retiring, Rely;
      RelyIsReflexive(View(), initial);
      if closed {
        return false, 0, 0, [];
      }
      HistoryLength(View(), initial);
      MovedIsSound(View(), current, true, initial);
      closed, sequence, history := true, sequence + 1, history + [current];
      disposed, failures, outcomes := Retire(depth);
      MovedIsRetired(old(View()), old(current), true, View(), |old(disposals)|);
      first := true;
    }

    /** The admission test runs the live predicate, so it is itself a re-entrancy point. */
    method Admitted(h: Handle, probe: Probe, depth: nat) returns (ok: bool)
      requires Valid() && h.captured.Extended?
      modifies this
      ensures Valid() && Rely(old(View()), View())
      ensures ok <==> Passes(old(View()), h, probe, View())
      decreases depth, 2
    {
      hide Sane, Rely, InLease;
      if closed || h.captured != current || h.issued != sequence {
        RelyIsReflexive(View(), initial);
        return false;
      }
      if !InLease(h.captured, probe.before) {
        RelyIsReflexive(View(), initial);
        return false;
      }
      Reenter(depth);
      if !probe.live {
        return false;
      }
      return !closed && h.captured == current && h.issued == sequence && InLease(h.captured, probe.after);
    }

    /** The part of `run` up to its `await`: `threw` says that the operation failed
        before it gave a promise. `admitted` is the state in which the first admission has
        been decided and the operation is called, `ran` the one in which it has returned. */
    method StartRun(first: Probe, threw: bool, second: Probe, depth: nat)
      returns (s: Start, ghost admitted: Snapshot, ghost ran: Snapshot)
      requires Valid() && initial.Extended?
      modifies this
      ensures Valid() && Rely(old(View()), View())
      ensures s == Refused <==> old(closed) || |old(pending)| >= MAX_PENDING
      ensures s == Refused ==> View() == old(View())
      ensures s != Refused ==>
        var h := Handle(old(controllers), old(current), old(sequence));
        var called := Passes(Started(old(View())), h, first, admitted) && h.controller !in admitted.aborted;
        && Rely(Started(old(View())), admitted)
        && (called ==> Rely(admitted, ran) && (threw ==> Later(ran, View())))
        && (s.Awaiting? <==> called && !threw)
        && (s.Awaiting? ==> s.handle == h && View() == ran)
        && (s == Answered(OperationFailed) <==>
              called && threw && Passes(ran, h, second, View()) && h.controller !in aborted)
        && (s.Answered? ==> s.response.StaleContext? || s.response.OperationFailed?)
      ensures s.Awaiting? ==>
        Issued(View(), s.handle) && (s.handle.controller in pending || s.handle.controller in aborted)
      ensures s.Answered? ==> old(controllers) !in pending
      decreases depth, 3
    {
      hide Sane, Rely, Later, InLease;
      RelyIsReflexive(View(), initial);
      admitted, ran := View(), View();
      if closed || |pending| >= MAX_PENDING {
        return Refused, admitted, ran;
      }
      var h := Handle(controllers, current, sequence);
      StartedIsSane(View(), initial);
      pending, controllers := pending + {controllers}, controllers + 1;
      ghost var begun := View();
      var ok := Admitted(h, first, depth);
      admitted := View();
      RelyIsTransitive(old(View()), begun, admitted);
      StillIssued(begun, admitted, h);
      if ok && h.controller !in aborted {
        Reenter(depth);
        ran := View();
        RelyIsTransitive(old(View()), admitted, ran);
        StillIssued(admitted, ran, h);
        if !threw {
          return Awaiting(h), admitted, ran;
        }
        ok := Admitted(h, second, depth);
        RelyIsTransitive(old(View()), ran, View());
        FinishedIsLater(ran, View(), h.controller);
        s := Answered(if ok && h.controller !in aborted then OperationFailed else StaleContext);
      } else {
        s := Answered(StaleContext);
      }
      FinishedIsSane(View(), h.controller, initial);
      FinishedIsRely(old(View()), View(), h.controller);
      pending := pending - {h.controller};
    }

    /** The part of `run` after its `await`; `result` is the settled value, if any. */
    method FinishRun(h: Handle, result: Option<int>, probe: Probe, depth: nat) returns (response: Response)
      requires Valid() && h.captured.Extended? && Issued(View(), h)
      modifies this
      ensures Valid() && Later(old(View()), View()) && h.controller !in pending
      ensures forall c :: c in old(pending) && c != h.controller ==> c in pending || c in aborted
      ensures var ok := Passes(old(View()), h, probe, View()) && h.controller !in aborted;
              response == if !ok then StaleContext
                          else if result.Some? then CurrentContext(h.captured, result.value)
                          else OperationFailed
      ensures response.CurrentContext? ==>
        response.context == current && !closed && h.issued == sequence == old(sequence)
    {
      hide Sane, Later, InLease;
      var ok := Admitted(h, probe, depth);
      if !ok || h.controller in aborted {
        response := StaleContext;
      } else {
        response := if result.Some? then CurrentContext(h.captured, result.value) else OperationFailed;
      }
      FinishedIsSane(View(), h.controller, initial);
      LaterIsTransitive(old(View()), View(), View().(pending := pending - {h.controller}));
      pending := pending - {h.controller};
    }

    /** The part of `read` up to its `await`: `threw` says that the backend call failed
        before it gave a promise. */
    method StartRead(threw: bool, depth: nat) returns (s: Start)
      requires Valid() && initial.Basic?
      modifies this
      ensures Valid() && Rely(old(View()), View())
      ensures s == Refused <==> old(closed) || |old(pending)| >= MAX_PENDING
      ensures s == Refused ==> View() == old(View())
      ensures s.Awaiting? <==> s != Refused && !threw
      ensures s.Awaiting? ==>
        s.handle == Handle(old(controllers), old(current), old(sequence)) && Issued(View(), s.handle)
      ensures s.Awaiting? ==> s.handle.controller in pending || s.handle.controller in aborted
      ensures s.Answered? ==> s.response.StaleContext? || s.response.BackendUnavailable?
      ensures s.Answered? ==>
        (s.response.BackendUnavailable? <==>
           Fresh(View(), Handle(old(controllers), old(current), old(sequence))))
      ensures s.Answered? ==> old(controllers) !in pending
      decreases depth, 3
    {
      hide Sane, Rely;
      RelyIsReflexive(View(), initial);
      if closed || |pending| >= MAX_PENDING {
        return Refused;
      }
      var h := Handle(controllers, current, sequence);
      StartedIsSane(View(), initial);
      pending, controllers := pending + {controllers}, controllers + 1;
      ghost var begun := View();
      Reenter(depth);
      RelyIsTransitive(old(View()), begun, View());
      StillIssued(begun, View(), h);
      if !threw {
        return Awaiting(h);
      }
      s := Answered(if IsFresh(h) then BackendUnavailable else StaleContext);
      FinishedIsSane(View(), h.controller, initial);
      FinishedIsRely(old(View()), View(), h.controller);
      pending := pending - {h.controller};
    }

    /** The part of `read` after its `await`. The getters of the reply are caller code.
        Its three lifetime checks amount to one check in the state it ends in. */
    method FinishRead(h: Handle, reply: Reply, depth: nat) returns (response: Response)
      requires Valid() && initial.Basic? && Issued(View(), h)
      modifies this
      ensures Valid() && Later(old(View()), View()) && h.controller !in pending
      ensures forall c :: c in old(pending) && c != h.controller ==> c in pending || c in aborted
      ensures response == if Fresh(View(), h) then Answer(reply, h.captured) else StaleContext
      ensures response.ReadbackReceived? ==>
        response.context == current && !closed && h.issued == sequence == old(sequence)
    {
      hide Sane, Rely;
      RelyIsReflexive(View(), initial);
      response := FinishReadBody(h, reply, depth);
      FinishedIsSane(View(), h.controller, initial);
      if Fresh(View(), h) {
        FreshIsCurrent(old(View()), View(), h, initial);
      }
      FinishedIsLater(old(View()), View(), h.controller);
      OthersRemain(old(View()), View());
      pending := pending - {h.controller};
    }

    // The `try` and `catch` blocks, without the `finally`.
    method FinishReadBody(h: Handle, reply: Reply, depth: nat) returns (response: Response)
      requires Valid() && initial.Basic? && Issued(View(), h)
      modifies this
      ensures Valid() && Rely(old(View()), View())
      ensures response == if Fresh(View(), h) then Answer(reply, h.captured) else StaleContext
    {
      hide Sane, Rely;
      RelyIsReflexive(View(), initial);
      if reply.Rejected? {
        return if IsFresh(h) then BackendUnavailable else StaleContext;
      }
      if !IsFresh(h) {
        return StaleContext;
      }
      Reenter(depth);
      if reply.status.None? {
        return if IsFresh(h) then BackendUnavailable else StaleContext;
      }
      if !IsFresh(h) {
        return StaleContext;
      }
      var status := reply.status.value;
      if status == 401 || status == 403 {
        return Denied;
      }
      if status != 200 {
        return BackendUnavailable;
      }
      ghost var before := View();
      Reenter(depth);
      RelyIsTransitive(old(View()), before, View());
      if reply.value.None? {
        return if IsFresh(h) then BackendUnavailable else StaleContext;
      }
      if !IsFresh(h) {
        return StaleContext;
      }
      return ReadbackReceived(h.captured, reply.value.value);
    }

    // Starts whichever kind of request the owner offers.
    method Begin(depth: nat) returns (r: Start)
      requires Valid()
      modifies this
      ensures Valid() && Rely(old(View()), View())
      ensures r.Awaiting? ==> !old(closed) && Issued(View(), r.handle)
      ensures r.Awaiting? ==> r.handle == Handle(old(controllers), old(current), old(sequence))
    {
      hide Sane, Rely;
      var first: Probe, second: Probe, threw: bool := *, *, *;
      if initial.Extended? {
        ghost var admitted, ran;
        r, admitted, ran := StartRun(first, threw, second, depth);
      } else {
        r := StartRead(threw, depth);
      }
    }

    // Goes on with an earlier request once it has settled.
    method Settle(h: Handle, depth: nat) returns (response: Response)
      requires Valid() && Issued(View(), h)
      modifies this
      ensures Valid() && Later(old(View()), View())
      ensures response.CurrentContext? || response.ReadbackReceived? ==>
                response.context == current && h.issued == sequence
    {
      hide Sane, Later;
      IssuedKind(View(), h, initial);
      var result: Option<int>, reply: Reply, probe: Probe := *, *, *;
      if initial.Extended? {
        response := FinishRun(h, result, probe, depth);
      } else {
        response := FinishRead(h, reply, depth);
      }
    }

    /** A whole life of the owner: synchronous calls, starts, and continuations of earlier
        starts, in any order and number. Its states form a run, and no context that it
        delivers was ever stale. */
    method Drive(depth: nat) returns (ghost states: seq<Snapshot>, ghost deliveries: seq<Delivery>)
      requires Valid()
      modifies this
      ensures Valid() && IsLife(states, initial) && states != []
      ensures states[0] == old(View()) && states[|states| - 1] == View()
      ensures forall d :: d in deliveries ==> NeverStale(states, d)
      ensures initial.Extended? ==> forall s :: s in states ==> HasBinding(s.current, initial.binding)
    {
      hide Sane, Later, IsLife, Begun, NeverStale, Issued;
      var handles: seq<Handle> := [];
      ghost var starts: seq<nat> := [];
      states, deliveries := [View()], [];
      LifeBegins(View(), initial);
      var steps: nat := *;
      while steps > 0
        invariant Valid() && IsLife(states, initial) && states != []
        invariant states[0] == old(View()) && states[|states| - 1] == View()
        invariant |starts| == |handles|
        invariant forall i :: 0 <= i < |handles| ==> Begun(states, handles[i], starts[i])
        invariant forall d :: d in deliveries ==> NeverStale(states, d)
        decreases steps
      {
        var choice: nat, i: nat := *, *;
        if choice == 0 {
          Reenter(depth);
          KeepsAll(states, View(), initial, handles, starts, deliveries);
          states := states + [View()];
        } else if choice == 1 {
          var r := Begin(depth);
          KeepsAll(states, View(), initial, handles, starts, deliveries);
          if r.Awaiting? {
            BegunAt(states, View(), r.handle, initial);
            handles, starts := handles + [r.handle], starts + [|states| - 1];
          }
          states := states + [View()];
        } else if i < |handles| {
          var h := handles[i];
          ghost var start := starts[i];
          BegunIsIssued(states, h, start);
          var response := Settle(h, depth);
          KeepsAll(states, View(), initial, handles, starts, deliveries);
          states := states + [View()];
          DeliveredIsFresh(states, initial, h, start, response);
          deliveries := deliveries + [Delivery(h, start, |states| - 1, response)];
          handles, starts := handles[..i] + handles[i + 1..], starts[..i] + starts[i + 1..];
        }
        steps := steps - 1;
      }
      if initial.Extended? {
        FixedKeysInLife(states, initial);
      }
    }
  }
}
