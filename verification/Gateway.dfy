/** The request protocol of the gateway WebSocket client as interleaved steps.

    Three kinds of activity share the pending map: the goroutines inside Request,
    the timers they arm, and the single reader (handleMessage, and failPending once
    the read loop ends).  An event below is one atomic action of one of them, so a
    sequence of events is one interleaving. */
module Gateway {
  import opened Common

  // ---------- frames and outcomes ----------

  /** A "res" frame; accepted says that its payload has status "accepted", in any case. */
  datatype Frame = Frame(id: string, ok: bool, accepted: bool, payload: string)

  datatype Failure = Timeout(method_: string) | Remote(frame: Frame) | NotConnected | WriteError | Closed

  datatype Outcome = Response(frame: Frame) | Failed(failure: Failure)

  // ---------- state ----------

  /** Where the goroutine of a Request call is. */
  datatype Phase = Created | Registered | Failing | Waiting | Returned(outcome: Outcome)

  /** A timer's callback first deletes the pending entry and then sends the error. */
  datatype Timer = NoTimer | Armed | Stopped | Fired | Delivered

  /** One Request call: its arguments, its timer and its two one-place channels.
      early says that the timer fired before the call was registered, and settled
      counts how often the reader resolved or rejected it. */
  datatype Req = Req(
    method_: string, expectFinal: bool, phase: Phase, timer: Timer, early: bool,
    res: Option<Frame>, err: Option<Failure>, settled: nat)

  /** The reader: reading, then holding an entry it loaded for a frame, then (timer
      stopped) having deleted it; after the loop, sweeping the map entry by entry:
      an entry is loaded, its timer stopped, the call rejected, the entry deleted. */
  datatype Reader =
    | Reading
    | Loaded(frame: Frame)
    | Halted(frame: Frame)
    | Removed(frame: Frame)
    | Sweeping(visited: set<string>)
    | Visiting(id: string, visited: set<string>)
    | Stilled(id: string, visited: set<string>)
    | Rejected(id: string, visited: set<string>)
    | Finished

  /** atEnd remembers which ids were in the map when the read loop ended. */
  datatype State = State(
    reqs: map<string, Req>, pending: set<string>, reader: Reader, closed: bool,
    received: set<Frame>, atEnd: set<string>)

  const INITIAL := State(map[], {}, Reading, false, {}, {})

  datatype Event =
    // Request
    | Begin(id: string, method_: string, expectFinal: bool, withTimer: bool)
    | Register(id: string)
    | RefuseClosed(id: string)
    | WriteFails(id: string)
    | Abandon(id: string)
    | WriteSucceeds(id: string)
    | TakeResponse(id: string)
    | TakeError(id: string)
    // timers
    | TimerFires(id: string)
    | TimerSends(id: string)
    // reader
    | ReadResponse(frame: Frame)
    | StopTimer
    | DeleteEntry
    | Settle
    | ReadLoopEnds
    | Visit(id: string)
    | StopVisitedTimer
    | RejectVisited
    | DeleteVisited
    | SweepEnds
    // anybody
    | Close

  // ---------- steps ----------

  function Put(s: State, id: string, r: Req): State {
    s.(reqs := s.reqs[id := r])
  }

  function AfterStop(t: Timer): Timer {
    if t == Armed then Stopped else t
  }

  /** A frame the reader does not treat as "still waiting". */
  predicate Final(r: Req, f: Frame) {
    !(r.expectFinal && f.accepted)
  }

  /** A send that gives up when the channel is full. */
  function Offer<T>(channel: Option<T>, x: T): Option<T> {
    if channel.None? then Some(x) else channel
  }

  function RequestStep(s: State, e: Event): Option<State> {
    match e
    case Begin(id, method_, expectFinal, withTimer) =>
      if id in s.reqs then None
      else Some(Put(s, id, Req(method_, expectFinal, Created, if withTimer then Armed else NoTimer, false, None, None, 0)))
    case Register(id) =>
      if id in s.reqs && s.reqs[id].phase == Created
      then Some(Put(s, id, s.reqs[id].(phase := Registered)).(pending := s.pending + {id})) else None
    case RefuseClosed(id) =>
      if id in s.reqs && s.reqs[id].phase == Registered && s.closed
      then Some(Put(s, id, s.reqs[id].(phase := Returned(Failed(NotConnected))))) else None
    case WriteFails(id) =>
      if id in s.reqs && s.reqs[id].phase == Registered && !s.closed
      then Some(Put(s, id, s.reqs[id].(phase := Failing))) else None
    case Abandon(id) =>
      if id in s.reqs && s.reqs[id].phase == Failing
      then Some(Put(s, id, s.reqs[id].(phase := Returned(Failed(WriteError)))).(pending := s.pending - {id})) else None
    case WriteSucceeds(id) =>
      if id in s.reqs && s.reqs[id].phase == Registered && !s.closed
      then Some(Put(s, id, s.reqs[id].(phase := Waiting))) else None
    case TakeResponse(id) =>
      if id in s.reqs && s.reqs[id].phase == Waiting && s.reqs[id].res.Some?
      then Some(Put(s, id, s.reqs[id].(phase := Returned(Response(s.reqs[id].res.value)), res := None))) else None
    case TakeError(id) =>
      if id in s.reqs && s.reqs[id].phase == Waiting && s.reqs[id].err.Some?
      then Some(Put(s, id, s.reqs[id].(phase := Returned(Failed(s.reqs[id].err.value)), err := None))) else None
    case _ => None
  }

  function TimerStep(s: State, e: Event): Option<State> {
    match e
    case TimerFires(id) =>
      if id in s.reqs && s.reqs[id].timer == Armed
      then Some(Put(s, id, s.reqs[id].(timer := Fired, early := s.reqs[id].phase == Created)).(pending := s.pending - {id})) else None
    case TimerSends(id) =>
      // this send has no default branch: it blocks while the channel is full
      if id in s.reqs && s.reqs[id].timer == Fired && s.reqs[id].err.None?
      then Some(Put(s, id, s.reqs[id].(timer := Delivered, err := Some(Timeout(s.reqs[id].method_))))) else None
    case _ => None
  }

  /** handleMessage. */
  function FrameStep(s: State, e: Event): Option<State> {
    match e
    case ReadResponse(f) =>
      if s.reader != Reading then None
      else
        var got := s.(received := s.received + {f});
        if f.id !in s.pending || f.id !in s.reqs || !Final(s.reqs[f.id], f) then Some(got)
        else Some(got.(reader := Loaded(f)))
    case StopTimer =>
      if s.reader.Loaded? && s.reader.frame.id in s.reqs then
        var id := s.reader.frame.id;
        Some(Put(s, id, s.reqs[id].(timer := AfterStop(s.reqs[id].timer))).(reader := Halted(s.reader.frame)))
      else None
    case DeleteEntry =>
      if s.reader.Halted?
      then Some(s.(pending := s.pending - {s.reader.frame.id}, reader := Removed(s.reader.frame))) else None
    case Settle =>
      if s.reader.Removed? && s.reader.frame.id in s.reqs then
        var f := s.reader.frame;
        var r := s.reqs[f.id];
        var r' := if f.ok then r.(res := Offer(r.res, f)) else r.(err := Offer(r.err, Remote(f)));
        Some(Put(s, f.id, r'.(settled := r.settled + 1)).(reader := Reading))
      else None
    case _ => None
  }

  /** The end of the read loop and failPending. */
  function SweepStep(s: State, e: Event): Option<State> {
    match e
    case ReadLoopEnds =>
      if s.reader == Reading then Some(s.(reader := Sweeping({}), atEnd := s.pending)) else None
    case Visit(id) =>
      // the map may be swept in any order and may or may not show later entries
      if s.reader.Sweeping? && id in s.pending && id in s.reqs && id !in s.reader.visited
      then Some(s.(reader := Visiting(id, s.reader.visited + {id}))) else None
    case StopVisitedTimer =>
      if s.reader.Visiting? && s.reader.id in s.reqs then
        var id := s.reader.id;
        Some(Put(s, id, s.reqs[id].(timer := AfterStop(s.reqs[id].timer))).(reader := Stilled(id, s.reader.visited)))
      else None
    case RejectVisited =>
      if s.reader.Stilled? && s.reader.id in s.reqs then
        var r := s.reqs[s.reader.id];
        Some(Put(s, s.reader.id, r.(err := Offer(r.err, Closed), settled := r.settled + 1)).(reader := Rejected(s.reader.id, s.reader.visited)))
      else None
    case DeleteVisited =>
      if s.reader.Rejected?
      then Some(s.(pending := s.pending - {s.reader.id}, reader := Sweeping(s.reader.visited))) else None
    case SweepEnds =>
      // every entry that was there throughout has been visited
      if s.reader.Sweeping? && s.atEnd * s.pending <= s.reader.visited then Some(s.(reader := Finished)) else None
    case _ => None
  }

  /** The state after an event, or None when the event cannot happen. */
  function Next(s: State, e: Event): Option<State> {
    if e == Close then Some(s.(closed := true))
    else
      var byRequest := RequestStep(s, e);
      if byRequest.Some? then byRequest
      else
        var byTimer := TimerStep(s, e);
        if byTimer.Some? then byTimer
        else
          var byFrame := FrameStep(s, e);
          if byFrame.Some? then byFrame else SweepStep(s, e)
  }

  /** The state after a whole interleaving. */
  function Run(s: State, events: seq<Event>): Option<State> {
    if events == [] then Some(s)
    else
      var before := Run(s, events[..|events| - 1]);
      if before.None? then None else Next(before.value, events[|events| - 1])
  }

  // ---------- invariant ----------

  /** A response this request may be answered with. */
  predicate OwnFrame(s: State, id: string, r: Req, f: Frame) {
    f.id == id && Final(r, f) && f in s.received
  }

  predicate LoopEnded(s: State) {
    s.reader.Sweeping? || s.reader.Visiting? || s.reader.Stilled? || s.reader.Rejected? || s.reader.Finished?
  }

  /** An error this request may be answered with. */
  predicate OwnFailure(s: State, id: string, r: Req, x: Failure) {
    match x
    case Timeout(m) => m == r.method_ && r.timer == Delivered
    case Remote(f) => OwnFrame(s, id, r, f) && !f.ok
    case Closed => LoopEnded(s)
    case NotConnected => false
    case WriteError => false
  }

  predicate OwnOutcome(s: State, id: string, r: Req, o: Outcome) {
    match o
    case Response(f) => OwnFrame(s, id, r, f) && f.ok
    case Failed(NotConnected) => s.closed
    case Failed(WriteError) => true
    case Failed(x) => OwnFailure(s, id, r, x)
  }

  /** The reader holds this request and has not settled it yet. */
  predicate Held(s: State, id: string) {
    || ((s.reader.Loaded? || s.reader.Halted? || s.reader.Removed?) && s.reader.frame.id == id)
    || ((s.reader.Visiting? || s.reader.Stilled?) && s.reader.id == id)
  }

  predicate JustRejected(s: State, id: string) {
    s.reader.Rejected? && s.reader.id == id
  }

  predicate JustDeleted(s: State, id: string) {
    s.reader.Removed? && s.reader.frame.id == id
  }

  /** What takes a registered id out of the map: its timer, the reader, the sweep, a failed write. */
  predicate TakenOut(s: State, id: string, r: Req) {
    || (r.timer in {Fired, Delivered} && !r.early)
    || (r.settled > 0 && !JustRejected(s, id))
    || JustDeleted(s, id)
    || r.phase == Returned(Failed(WriteError))
  }

  /** An answer that only the reader gives. */
  predicate ByReader(o: Outcome) {
    o.Response? || o.failure.Remote? || o.failure.Closed?
  }

  predicate ReqOk(s: State, id: string, r: Req) {
    && (r.phase != Created ==> (id in s.pending <==> !TakenOut(s, id, r)))
    && (r.early ==> r.timer in {Fired, Delivered})
    && (r.res.Some? || (r.err.Some? && ByReader(Failed(r.err.value))) ==> r.settled > 0)
    && (r.phase.Returned? && ByReader(r.phase.outcome) ==> r.settled > 0)
    && (r.res.Some? ==> OwnFrame(s, id, r, r.res.value) && r.res.value.ok)
    && (r.err.Some? ==> OwnFailure(s, id, r, r.err.value))
    && (r.phase.Returned? ==> OwnOutcome(s, id, r, r.phase.outcome))
    // settled at most once, and not while it could still be found
    && r.settled <= 1
    && (Held(s, id) ==> r.settled == 0)
    // before registration nothing can find it
    && (r.phase == Created ==> id !in s.pending && !Held(s, id) && r.settled == 0)
    && (r.phase == Created && r.timer in {Fired, Delivered} ==> r.early)
    // a registered request that has left the map is being answered
    && (r.phase in {Registered, Failing, Waiting} && id !in s.pending && r.settled == 0 ==> Held(s, id) || r.timer in {Fired, Delivered})
    && (!r.phase.Returned? && (r.settled > 0 || r.timer == Delivered) ==> r.res.Some? || r.err.Some?)
    && (r.timer == Stopped ==> r.settled > 0 || Held(s, id))
  }

  /** The entries the sweep is done with. */
  function Swept(s: State): set<string> {
    match s.reader
    case Sweeping(visited) => visited
    case Visiting(id, visited) => visited - {id}
    case Stilled(id, visited) => visited - {id}
    case Rejected(id, visited) => visited - {id}
    case Finished => s.atEnd
    case _ => {}
  }

  /** Registered at some time. */
  predicate Known(s: State, ids: set<string>) {
    forall id :: id in ids ==> id in s.reqs && s.reqs[id].phase != Created
  }

  /** Registered at some time and no longer in the map: never to return there. */
  predicate Gone(s: State, ids: set<string>) {
    Known(s, ids) && ids !! s.pending
  }

  predicate ReaderOk(s: State) {
    && ((s.reader.Loaded? || s.reader.Halted? || s.reader.Removed?) ==>
          s.reader.frame.id in s.reqs && OwnFrame(s, s.reader.frame.id, s.reqs[s.reader.frame.id], s.reader.frame))
    && (s.reader.Removed? ==> s.reader.frame.id !in s.pending)
    && ((s.reader.Visiting? || s.reader.Stilled? || s.reader.Rejected?) ==> s.reader.id in s.reqs && s.reader.id in s.reader.visited)
    && (s.reader.Rejected? ==> s.reqs[s.reader.id].settled == 1)
    && (LoopEnded(s) || s.atEnd == {})
  }

  predicate MapOk(s: State) {
    s.pending <= s.reqs.Keys && Gone(s, Swept(s)) && Known(s, s.atEnd)
  }

  predicate Inv(s: State) {
    ReaderOk(s) && MapOk(s) && forall id :: id in s.reqs ==> ReqOk(s, id, s.reqs[id])
  }

  /** An event that is about another request: nothing that ReqOk(id) looks at has
      changed, except that more frames were received or the connection ended. */
  predicate Elsewhere(s: State, s': State, id: string) {
    && id in s.reqs && id in s'.reqs && s'.reqs[id] == s.reqs[id]
    && (id in s'.pending <==> id in s.pending)
    && (Held(s', id) <==> Held(s, id))
    && (JustRejected(s', id) <==> JustRejected(s, id))
    && (JustDeleted(s', id) <==> JustDeleted(s, id))
    && s.received <= s'.received
    && (s.closed ==> s'.closed) && (LoopEnded(s) ==> LoopEnded(s'))
  }

  lemma ElsewhereKeeps(s: State, s': State, id: string)
    requires Elsewhere(s, s', id) && ReqOk(s, id, s.reqs[id])
    ensures ReqOk(s', id, s'.reqs[id])
  {
  }

  lemma KeepsInv(s: State, s': State, own: string)
    requires Inv(s) && ReaderOk(s') && MapOk(s')
    requires forall id :: id in s'.reqs && id != own ==> Elsewhere(s, s', id)
    requires own in s'.reqs ==> ReqOk(s', own, s'.reqs[own])
    ensures Inv(s')
  {
    forall id | id in s'.reqs ensures ReqOk(s', id, s'.reqs[id]) {
      if id != own {
        ElsewhereKeeps(s, s', id);
      }
    }
  }

  lemma RequestStepElsewhere(s: State, e: Event, id: string)
    requires Inv(s) && RequestStep(s, e).Some? && id in RequestStep(s, e).value.reqs && id != e.id
    ensures Elsewhere(s, RequestStep(s, e).value, id)
  {
  }

  predicate Registers(e: Event) {
    e.Begin? || e.Register? || e.WriteFails? || e.WriteSucceeds?
  }

  lemma RegisteringOwn(s: State, e: Event)
    requires Inv(s) && Registers(e) && RequestStep(s, e).Some?
    ensures ReqOk(RequestStep(s, e).value, e.id, RequestStep(s, e).value.reqs[e.id])
  {
    assert e.id in s.reqs ==> ReqOk(s, e.id, s.reqs[e.id]);
  }

  lemma ReturningOwn(s: State, e: Event)
    requires Inv(s) && !Registers(e) && RequestStep(s, e).Some?
    ensures ReqOk(RequestStep(s, e).value, e.id, RequestStep(s, e).value.reqs[e.id])
  {
    assert ReqOk(s, e.id, s.reqs[e.id]);
  }

  lemma RequestStepOwn(s: State, e: Event)
    requires Inv(s) && RequestStep(s, e).Some?
    ensures ReqOk(RequestStep(s, e).value, e.id, RequestStep(s, e).value.reqs[e.id])
  {
    if Registers(e) {
      RegisteringOwn(s, e);
    } else {
      ReturningOwn(s, e);
    }
  }

  lemma RequestStepReader(s: State, e: Event)
    requires Inv(s) && RequestStep(s, e).Some?
    ensures ReaderOk(RequestStep(s, e).value)
  {
    var s' := RequestStep(s, e).value;
    if s.reader.Loaded? || s.reader.Halted? || s.reader.Removed? {
      FrameStaysOwn(s, e);
    }
  }

  lemma FrameStaysOwn(s: State, e: Event)
    requires Inv(s) && RequestStep(s, e).Some? && (s.reader.Loaded? || s.reader.Halted? || s.reader.Removed?)
    ensures var s', f := RequestStep(s, e).value, s.reader.frame;
      f.id in s'.reqs && OwnFrame(s', f.id, s'.reqs[f.id], f) && (s.reader.Removed? ==> f.id !in s'.pending)
  {
    assert ReqOk(s, s.reader.frame.id, s.reqs[s.reader.frame.id]);
  }

  lemma RequestStepKnows(s: State, e: Event, ids: set<string>)
    requires Known(s, ids) && RequestStep(s, e).Some?
    ensures Known(RequestStep(s, e).value, ids)
  {
  }

  lemma RequestStepKnown(s: State, e: Event)
    requires Inv(s) && RequestStep(s, e).Some?
    ensures var s' := RequestStep(s, e).value;
      s'.pending <= s'.reqs.Keys && Known(s', Swept(s')) && Known(s', s'.atEnd)
  {
    var s' := RequestStep(s, e).value;
    assert s'.reader == s.reader && s'.atEnd == s.atEnd;
    RequestStepKnows(s, e, Swept(s));
    RequestStepKnows(s, e, s.atEnd);
  }

  lemma RequestStepGone(s: State, e: Event)
    requires Inv(s) && RequestStep(s, e).Some?
    ensures var s' := RequestStep(s, e).value; Swept(s') !! s'.pending
  {
  }

  lemma RequestStepKeepsInv(s: State, e: Event)
    requires Inv(s) && RequestStep(s, e).Some?
    ensures Inv(RequestStep(s, e).value)
  {
    var s' := RequestStep(s, e).value;
    RequestStepReader(s, e);
    RequestStepKnown(s, e);
    RequestStepGone(s, e);
    RequestStepOwn(s, e);
    forall id | id in s'.reqs && id != e.id ensures Elsewhere(s, s', id) {
      RequestStepElsewhere(s, e, id);
    }
    KeepsInv(s, s', e.id);
  }

  lemma TimerStepElsewhere(s: State, e: Event, id: string)
    requires Inv(s) && TimerStep(s, e).Some? && id in TimerStep(s, e).value.reqs && id != e.id
    ensures Elsewhere(s, TimerStep(s, e).value, id)
  {
  }

  lemma TimerStepOwn(s: State, e: Event)
    requires Inv(s) && TimerStep(s, e).Some? && e.id in TimerStep(s, e).value.reqs
    ensures ReqOk(TimerStep(s, e).value, e.id, TimerStep(s, e).value.reqs[e.id])
  {
    assert e.id in s.reqs ==> ReqOk(s, e.id, s.reqs[e.id]);
  }

  lemma TimerStepShared(s: State, e: Event)
    requires Inv(s) && TimerStep(s, e).Some?
    ensures ReaderOk(TimerStep(s, e).value) && MapOk(TimerStep(s, e).value)
  {
    assert e.id in s.reqs ==> ReqOk(s, e.id, s.reqs[e.id]);
  }

  lemma TimerStepKeepsInv(s: State, e: Event)
    requires Inv(s) && TimerStep(s, e).Some?
    ensures Inv(TimerStep(s, e).value)
  {
    var s' := TimerStep(s, e).value;
    TimerStepShared(s, e);
    if e.id in s'.reqs {
      TimerStepOwn(s, e);
    }
    forall id | id in s'.reqs && id != e.id ensures Elsewhere(s, s', id) {
      TimerStepElsewhere(s, e, id);
    }
    KeepsInv(s, s', e.id);
  }

  /** The request a reader event is about. */
  function Target(s: State, e: Event): string {
    match e
    case ReadResponse(f) => f.id
    case Visit(id) => id
    case _ =>
      if s.reader.Loaded? || s.reader.Halted? || s.reader.Removed? then s.reader.frame.id
      else if s.reader.Visiting? || s.reader.Stilled? || s.reader.Rejected? then s.reader.id
      else ""
  }

  lemma FrameStepElsewhere(s: State, e: Event, id: string)
    requires Inv(s) && FrameStep(s, e).Some? && id in FrameStep(s, e).value.reqs && id != Target(s, e)
    ensures Elsewhere(s, FrameStep(s, e).value, id)
  {
  }

  lemma SettleOwn(s: State)
    requires Inv(s) && FrameStep(s, Settle).Some?
    ensures ReqOk(FrameStep(s, Settle).value, s.reader.frame.id, FrameStep(s, Settle).value.reqs[s.reader.frame.id])
  {
    assert ReqOk(s, s.reader.frame.id, s.reqs[s.reader.frame.id]);
  }

  lemma ReadOwn(s: State, f: Frame)
    requires Inv(s) && FrameStep(s, ReadResponse(f)).Some? && f.id in s.reqs
    ensures ReqOk(FrameStep(s, ReadResponse(f)).value, f.id, s.reqs[f.id])
  {
    assert ReqOk(s, f.id, s.reqs[f.id]);
  }

  lemma StopTimerOwn(s: State)
    requires Inv(s) && FrameStep(s, StopTimer).Some?
    ensures ReqOk(FrameStep(s, StopTimer).value, s.reader.frame.id, FrameStep(s, StopTimer).value.reqs[s.reader.frame.id])
  {
    assert ReqOk(s, s.reader.frame.id, s.reqs[s.reader.frame.id]);
  }

  lemma DeleteEntryOwn(s: State)
    requires Inv(s) && FrameStep(s, DeleteEntry).Some?
    ensures ReqOk(FrameStep(s, DeleteEntry).value, s.reader.frame.id, s.reqs[s.reader.frame.id])
  {
    assert ReqOk(s, s.reader.frame.id, s.reqs[s.reader.frame.id]);
  }

  lemma FrameStepOwn(s: State, e: Event)
    requires Inv(s) && FrameStep(s, e).Some? && Target(s, e) in FrameStep(s, e).value.reqs
    ensures ReqOk(FrameStep(s, e).value, Target(s, e), FrameStep(s, e).value.reqs[Target(s, e)])
  {
    if e.ReadResponse? {
      ReadOwn(s, e.frame);
    } else if e.StopTimer? {
      StopTimerOwn(s);
    } else if e.DeleteEntry? {
      DeleteEntryOwn(s);
    } else {
      SettleOwn(s);
    }
  }

  lemma FrameStepShared(s: State, e: Event)
    requires Inv(s) && FrameStep(s, e).Some?
    ensures ReaderOk(FrameStep(s, e).value) && MapOk(FrameStep(s, e).value)
  {
    assert Target(s, e) in s.reqs ==> ReqOk(s, Target(s, e), s.reqs[Target(s, e)]);
  }

  lemma FrameStepKeepsInv(s: State, e: Event)
    requires Inv(s) && FrameStep(s, e).Some?
    ensures Inv(FrameStep(s, e).value)
  {
    var s' := FrameStep(s, e).value;
    FrameStepShared(s, e);
    if Target(s, e) in s'.reqs {
      FrameStepOwn(s, e);
    }
    forall id | id in s'.reqs && id != Target(s, e) ensures Elsewhere(s, s', id) {
      FrameStepElsewhere(s, e, id);
    }
    KeepsInv(s, s', Target(s, e));
  }

  lemma SweepStepElsewhere(s: State, e: Event, id: string)
    requires Inv(s) && SweepStep(s, e).Some? && id in SweepStep(s, e).value.reqs && id != Target(s, e)
    ensures Elsewhere(s, SweepStep(s, e).value, id)
  {
  }

  lemma VisitOwn(s: State, id: string)
    requires Inv(s) && SweepStep(s, Visit(id)).Some?
    ensures ReqOk(SweepStep(s, Visit(id)).value, id, SweepStep(s, Visit(id)).value.reqs[id])
  {
    assert ReqOk(s, id, s.reqs[id]);
  }

  lemma StopVisitedOwn(s: State)
    requires Inv(s) && SweepStep(s, StopVisitedTimer).Some?
    ensures ReqOk(SweepStep(s, StopVisitedTimer).value, s.reader.id, SweepStep(s, StopVisitedTimer).value.reqs[s.reader.id])
  {
    assert ReqOk(s, s.reader.id, s.reqs[s.reader.id]);
  }

  lemma RejectOwn(s: State)
    requires Inv(s) && SweepStep(s, RejectVisited).Some?
    ensures ReqOk(SweepStep(s, RejectVisited).value, s.reader.id, SweepStep(s, RejectVisited).value.reqs[s.reader.id])
  {
    assert ReqOk(s, s.reader.id, s.reqs[s.reader.id]);
  }

  lemma DeleteVisitedOwn(s: State)
    requires Inv(s) && SweepStep(s, DeleteVisited).Some?
    ensures ReqOk(SweepStep(s, DeleteVisited).value, s.reader.id, s.reqs[s.reader.id])
  {
    assert ReqOk(s, s.reader.id, s.reqs[s.reader.id]);
  }

  /** The beginning and the end of the sweep change no request. */
  lemma SweepBoundsKeep(s: State, e: Event, id: string)
    requires Inv(s) && (e.ReadLoopEnds? || e.SweepEnds?) && SweepStep(s, e).Some? && id in s.reqs
    ensures ReqOk(SweepStep(s, e).value, id, s.reqs[id])
  {
    assert Elsewhere(s, SweepStep(s, e).value, id);
    ElsewhereKeeps(s, SweepStep(s, e).value, id);
  }

  lemma SweepStepOwn(s: State, e: Event)
    requires Inv(s) && SweepStep(s, e).Some? && Target(s, e) in SweepStep(s, e).value.reqs
    ensures ReqOk(SweepStep(s, e).value, Target(s, e), SweepStep(s, e).value.reqs[Target(s, e)])
  {
    if e.Visit? {
      VisitOwn(s, e.id);
    } else if e.StopVisitedTimer? {
      StopVisitedOwn(s);
    } else if e.RejectVisited? {
      RejectOwn(s);
    } else if e.DeleteVisited? {
      DeleteVisitedOwn(s);
    } else {
      SweepBoundsKeep(s, e, Target(s, e));
    }
  }

  lemma SweepStepShared(s: State, e: Event)
    requires Inv(s) && SweepStep(s, e).Some?
    ensures ReaderOk(SweepStep(s, e).value) && MapOk(SweepStep(s, e).value)
  {
    assert Target(s, e) in s.reqs ==> ReqOk(s, Target(s, e), s.reqs[Target(s, e)]);
  }

  lemma SweepStepKeepsInv(s: State, e: Event)
    requires Inv(s) && SweepStep(s, e).Some?
    ensures Inv(SweepStep(s, e).value)
  {
    var s' := SweepStep(s, e).value;
    SweepStepShared(s, e);
    if Target(s, e) in s'.reqs {
      SweepStepOwn(s, e);
    }
    forall id | id in s'.reqs && id != Target(s, e) ensures Elsewhere(s, s', id) {
      SweepStepElsewhere(s, e, id);
    }
    KeepsInv(s, s', Target(s, e));
  }

  lemma NextKeepsInv(s: State, e: Event)
    requires Inv(s) && Next(s, e).Some?
    ensures Inv(Next(s, e).value)
  {
    if e == Close {
      forall id | id in s.reqs ensures ReqOk(s.(closed := true), id, s.reqs[id]) {
        ElsewhereKeeps(s, s.(closed := true), id);
      }
    } else if RequestStep(s, e).Some? {
      RequestStepKeepsInv(s, e);
    } else if TimerStep(s, e).Some? {
      TimerStepKeepsInv(s, e);
    } else if FrameStep(s, e).Some? {
      FrameStepKeepsInv(s, e);
    } else {
      SweepStepKeepsInv(s, e);
    }
  }

  lemma {:induction false} RunKeepsInv(s: State, events: seq<Event>)
    requires Inv(s) && Run(s, events).Some?
    ensures Inv(Run(s, events).value)
  {
    if events != [] {
      RunKeepsInv(s, events[..|events| - 1]);
      NextKeepsInv(Run(s, events[..|events| - 1]).value, events[|events| - 1]);
    }
  }

  // ---------- safety over every interleaving ----------

  /** A Request returns only a successful response with its own id that is not a mere
      "accepted" when it waits for the final one, its own timeout, an error response
      with its own id, a write or not-connected error, or the close error. */
  lemma AnswersAreOwn(events: seq<Event>, id: string)
    requires Run(INITIAL, events).Some?
    requires var s := Run(INITIAL, events).value; id in s.reqs && s.reqs[id].phase.Returned?
    ensures var s := Run(INITIAL, events).value;
            var r := s.reqs[id];
            match r.phase.outcome
            case Response(f) => f in s.received && f.id == id && f.ok && !(r.expectFinal && f.accepted)
            case Failed(Remote(f)) => f in s.received && f.id == id && !f.ok && !(r.expectFinal && f.accepted)
            case Failed(Timeout(m)) => m == r.method_ && r.timer == Delivered
            case Failed(NotConnected) => s.closed
            case Failed(WriteError) => true
            case Failed(Closed) => LoopEnded(s)
  {
    RunKeepsInv(INITIAL, events);
    var s := Run(INITIAL, events).value;
    assert ReqOk(s, id, s.reqs[id]);
  }

  /** The reader settles an id at most once. */
  lemma SettledOnce(events: seq<Event>, id: string)
    requires Run(INITIAL, events).Some? && id in Run(INITIAL, events).value.reqs
    ensures Run(INITIAL, events).value.reqs[id].settled <= 1
  {
    RunKeepsInv(INITIAL, events);
    var s := Run(INITIAL, events).value;
    assert ReqOk(s, id, s.reqs[id]);
  }

  /** Nobody registered before the read loop ended is left behind by the sweep: each
      such request is out of the map and has returned, or has its answer waiting, or
      its timer is about to deliver one. */
  lemma SweepLeavesNobodyBehind(events: seq<Event>, id: string)
    requires Run(INITIAL, events).Some?
    requires var s := Run(INITIAL, events).value; s.reader == Finished && id in s.atEnd
    ensures var s := Run(INITIAL, events).value;
            && id in s.reqs && id !in s.pending
            && var r := s.reqs[id];
               r.phase.Returned? || r.res.Some? || r.err.Some? || r.timer == Fired
  {
    RunKeepsInv(INITIAL, events);
    var s := Run(INITIAL, events).value;
    assert ReqOk(s, id, s.reqs[id]);
  }

  // ---------- what is left in the map ----------

  /** A call that has returned leaves its id in the map exactly until its timer, the reader or the
      sweep takes it out; only a failed write takes it out by itself. */
  lemma LeftBehindIff(events: seq<Event>, id: string)
    requires Run(INITIAL, events).Some?
    requires var s := Run(INITIAL, events).value; id in s.reqs && s.reqs[id].phase.Returned?
    ensures var s := Run(INITIAL, events).value; id in s.pending <==> !TakenOut(s, id, s.reqs[id])
  {
    RunKeepsInv(INITIAL, events);
    var s := Run(INITIAL, events).value;
    assert ReqOk(s, id, s.reqs[id]);
  }

  /** Once the reader is gone, the ids that stay are those the reader never settled, of calls that
      were refused and whose timer has not fired since, or whose timer fired before registration. */
  lemma LeakIff(events: seq<Event>, id: string)
    requires Run(INITIAL, events).Some?
    requires var s := Run(INITIAL, events).value;
      s.reader == Finished && id in s.reqs && s.reqs[id].phase.Returned?
    ensures var s := Run(INITIAL, events).value;
            var r := s.reqs[id];
            id in s.pending
            <==> (r.settled == 0
                  && ((r.phase.outcome == Failed(NotConnected) && (r.early || r.timer !in {Fired, Delivered}))
                      || (r.phase.outcome.Failed? && r.phase.outcome.failure.Timeout? && r.early)))
  {
    RunKeepsInv(INITIAL, events);
    var s := Run(INITIAL, events).value;
    assert ReqOk(s, id, s.reqs[id]);
  }

  // ---------- who can hang ----------

  /** Waiting with both channels empty and no timer that could still fire. */
  predicate Stuck(s: State, id: string) {
    && id in s.reqs && s.reqs[id].phase == Waiting
    && s.reqs[id].res.None? && s.reqs[id].err.None? && s.reqs[id].timer in {NoTimer, Stopped}
  }

  /** These events are possible from here, and after them the call has returned. */
  predicate Frees(s: State, events: seq<Event>, id: string) {
    var s' := Run(s, events);
    s'.Some? && id in s'.value.reqs && s'.value.reqs[id].phase.Returned?
  }

  lemma StuckStays(s: State, e: Event, id: string)
    requires s.reader == Finished && Stuck(s, id) && Next(s, e).Some?
    ensures Next(s, e).value.reader == Finished && Stuck(Next(s, e).value, id)
  {
  }

  lemma {:induction false} StuckForever(s: State, events: seq<Event>, id: string)
    requires s.reader == Finished && Stuck(s, id) && Run(s, events).Some?
    ensures Run(s, events).value.reader == Finished && Stuck(Run(s, events).value, id)
  {
    if events != [] {
      var n := |events| - 1;
      StuckForever(s, events[..n], id);
      StuckStays(Run(s, events[..n]).value, events[n], id);
    }
  }

  lemma RunOne(s: State, e: Event, rest: seq<Event>)
    requires Run(s, rest).Some?
    ensures Run(s, rest + [e]) == Next(Run(s, rest).value, e)
  {
    assert (rest + [e])[..|rest|] == rest;
  }

  lemma FreesNow(s: State, e: Event, id: string)
    requires Next(s, e).Some? && id in Next(s, e).value.reqs && Next(s, e).value.reqs[id].phase.Returned?
    ensures Frees(s, [e], id)
  {
    RunOne(s, e, []);
    assert [] + [e] == [e];
  }

  lemma {:induction false} FreesLater(s: State, e: Event, more: seq<Event>, id: string)
    requires Next(s, e).Some? && Frees(Next(s, e).value, more, id)
    ensures Frees(s, [e] + more, id)
  {
    RunAfter(s, e, more);
  }

  lemma {:induction false} RunAfter(s: State, e: Event, more: seq<Event>)
    requires Next(s, e).Some?
    ensures Run(s, [e] + more) == Run(Next(s, e).value, more)
  {
    if more == [] {
      RunOne(s, e, []);
      assert [e] + more == [] + [e];
    } else {
      var n := |more| - 1;
      RunAfter(s, e, more[..n]);
      assert ([e] + more)[..n + 1] == [e] + more[..n];
    }
  }

  lemma TimerFrees(s: State, id: string)
    requires id in s.reqs && s.reqs[id].phase == Waiting && s.reqs[id].timer == Fired && s.reqs[id].err.None?
    ensures Frees(s, [TimerSends(id), TakeError(id)], id)
  {
    var s' := TimerStep(s, TimerSends(id)).value;
    assert RequestStep(s, TimerSends(id)).None?;
    assert RequestStep(s', TakeError(id)).Some?;
    FreesNow(s', TakeError(id), id);
    FreesLater(s, TimerSends(id), [TakeError(id)], id);
    assert [TimerSends(id)] + [TakeError(id)] == [TimerSends(id), TakeError(id)];
  }

  /** Some way for the others to go on that lets a waiting request return. */
  lemma WayOut(s: State, id: string) returns (events: seq<Event>)
    requires Inv(s) && id in s.reqs && s.reqs[id].phase == Waiting && !Stuck(s, id)
    ensures Frees(s, events, id)
  {
    assert ReqOk(s, id, s.reqs[id]);
    var r := s.reqs[id];
    if r.res.Some? {
      FreesNow(s, TakeResponse(id), id);
      events := [TakeResponse(id)];
    } else if r.err.Some? {
      FreesNow(s, TakeError(id), id);
      events := [TakeError(id)];
    } else if r.timer == Fired {
      TimerFrees(s, id);
      events := [TimerSends(id), TakeError(id)];
    } else {
      events := [TimerSends(id), TakeError(id)];
      TimerFrees(TimerStep(s, TimerFires(id)).value, id);
      FreesLater(s, TimerFires(id), events, id);
      events := [TimerFires(id)] + events;
    }
  }

  /** Once the reader is gone, a waiting request can never return exactly when it is
      stuck; and only a request registered after the loop ended, with no timeout, is. */
  lemma HangsIffStuck(events: seq<Event>, id: string)
    requires Run(INITIAL, events).Some?
    requires var s := Run(INITIAL, events).value; s.reader == Finished && id in s.reqs && s.reqs[id].phase == Waiting
    ensures var s := Run(INITIAL, events).value;
            && (Stuck(s, id) <==> !exists more :: Frees(s, more, id))
            && (Stuck(s, id) ==> id !in s.atEnd && s.reqs[id].timer == NoTimer && id in s.pending)
  {
    var s := Run(INITIAL, events).value;
    RunKeepsInv(INITIAL, events);
    assert ReqOk(s, id, s.reqs[id]);
    if Stuck(s, id) {
      forall more ensures !Frees(s, more, id) {
        if Run(s, more).Some? {
          StuckForever(s, more, id);
        }
      }
    } else {
      var more := WayOut(s, id);
    }
  }

  /** Once the reader is gone and before anybody marks the connection closed, a new call
      without a timeout whose write still succeeds hangs. */
  lemma LateRequestHangs(s: State, id: string, method_: string, expectFinal: bool)
    requires s.reader == Finished && !s.closed && id !in s.reqs
    ensures var s' := Run(s, [Begin(id, method_, expectFinal, false), Register(id), WriteSucceeds(id)]);
            s'.Some? && s'.value.reader == Finished && Stuck(s'.value, id)
  {
    var begin, register := Begin(id, method_, expectFinal, false), Register(id);
    var created := Next(s, begin).value;
    RunTwo(s, begin, created, register);
    RunOne(s, WriteSucceeds(id), [begin, register]);
    assert [begin, register] + [WriteSucceeds(id)] == [begin, register, WriteSucceeds(id)];
  }

  /** One that finds the connection marked closed is refused, and its entry stays. */
  lemma RefusedCallStays(s: State, id: string, method_: string, expectFinal: bool)
    requires s.reader == Finished && s.closed && id !in s.reqs
    ensures var s' := Run(s, [Begin(id, method_, expectFinal, false), Register(id), RefuseClosed(id)]);
            s'.Some? && s'.value.reader == Finished && id in s'.value.pending
            && s'.value.reqs[id].phase == Returned(Failed(NotConnected))
  {
    var begin, register := Begin(id, method_, expectFinal, false), Register(id);
    var created := Next(s, begin).value;
    RunTwo(s, begin, created, register);
    RunOne(s, RefuseClosed(id), [begin, register]);
    assert [begin, register] + [RefuseClosed(id)] == [begin, register, RefuseClosed(id)];
  }

  /** And the protocol gets there: the connection is lost, and the sweep finds nothing. */
  lemma ReaderCanBeGone()
    ensures Run(INITIAL, [ReadLoopEnds, SweepEnds]) == Some(INITIAL.(reader := Finished))
  {
    var sweeping := INITIAL.(reader := Sweeping({}));
    assert RequestStep(INITIAL, ReadLoopEnds).None? && TimerStep(INITIAL, ReadLoopEnds).None?;
    assert FrameStep(INITIAL, ReadLoopEnds).None?;
    assert Next(INITIAL, ReadLoopEnds) == SweepStep(INITIAL, ReadLoopEnds) == Some(sweeping);
    assert RequestStep(sweeping, SweepEnds).None? && TimerStep(sweeping, SweepEnds).None?;
    assert FrameStep(sweeping, SweepEnds).None?;
    assert Next(sweeping, SweepEnds) == SweepStep(sweeping, SweepEnds) == Some(INITIAL.(reader := Finished));
    RunTwo(INITIAL, ReadLoopEnds, sweeping, SweepEnds);
  }

  lemma RunTwo(s: State, a: Event, s': State, b: Event)
    requires Next(s, a) == Some(s')
    ensures Run(s, [a, b]) == Next(s', b)
  {
    RunOne(s, a, []);
    assert [] + [a] == [a];
    RunOne(s, b, [a]);
    assert [a] + [b] == [a, b];
  }
}
