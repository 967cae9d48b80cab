/** What the gateway protocol gets done: a response reaches its call, a timeout fires, a lost
    connection fails whoever waits, and the sweep ends. */
module GatewayProgress {
  import opened Common
  import opened Gateway

  lemma Go(s: State, e: Event, s': State, more: seq<Event>)
    requires Next(s, e) == Some(s')
    ensures Run(s, [e] + more) == Run(s', more)
  {
    RunAfter(s, e, more);
  }

  lemma Going(s: State, e: Event, s': State, more: seq<Event>, all: seq<Event>)
    requires Next(s, e) == Some(s') && all == [e] + more
    ensures Run(s, all) == Run(s', more)
  {
    Go(s, e, s', more);
  }

  lemma ThreeSteps(s: State, a: Event, s1: State, b: Event, s2: State, c: Event)
    requires Next(s, a) == Some(s1) && Next(s1, b) == Some(s2)
    ensures Run(s, [a, b, c]) == Next(s2, c)
  {
    Going(s, a, s1, [b, c], [a, b, c]);
    RunTwo(s1, b, s2, c);
  }

  lemma {:induction false} RunJoin(s: State, a: seq<Event>, b: seq<Event>)
    requires Run(s, a).Some?
    ensures Run(s, a + b) == Run(Run(s, a).value, b)
  {
    if b == [] {
      assert a + b == a;
    } else {
      var n := |b| - 1;
      RunJoin(s, a, b[..n]);
      assert (a + b)[..|a| + n] == a + b[..n];
    }
  }

  lemma Gone1(s: State, e: Event)
    ensures Run(s, [e]) == Next(s, e)
  {
    assert [e][..0] == [];
    assert Run(s, []) == Some(s);
  }

  // ---------- the next event of each kind ----------

  lemma NextOfRequest(s: State, e: Event)
    requires RequestStep(s, e).Some?
    ensures Next(s, e) == RequestStep(s, e)
  {
  }

  lemma NextOfTimer(s: State, e: Event)
    requires TimerStep(s, e).Some?
    ensures Next(s, e) == TimerStep(s, e)
  {
  }

  lemma NextOfFrame(s: State, e: Event)
    requires FrameStep(s, e).Some?
    ensures Next(s, e) == FrameStep(s, e)
  {
  }

  lemma NextOfSweep(s: State, e: Event)
    requires SweepStep(s, e).Some?
    ensures Next(s, e) == SweepStep(s, e)
  {
  }

  // ---------- a call is made ----------

  /** A call that finds the connection open gets to wait, with its entry in the map. */
  lemma CallWaits(s: State, id: string, method_: string, expectFinal: bool, withTimer: bool)
    requires id !in s.reqs && !s.closed
    ensures var s' := Run(s, [Begin(id, method_, expectFinal, withTimer), Register(id), WriteSucceeds(id)]);
      s' == Some(s.(
        pending := s.pending + {id},
        reqs := s.reqs[id := Req(method_, expectFinal, Waiting, if withTimer then Armed else NoTimer, false, None, None, 0)]))
  {
    var begin, register, write := Begin(id, method_, expectFinal, withTimer), Register(id), WriteSucceeds(id);
    var r := Req(method_, expectFinal, Created, if withTimer then Armed else NoTimer, false, None, None, 0);
    var s1 := Put(s, id, r);
    var s2 := Put(s, id, r.(phase := Registered)).(pending := s.pending + {id});
    assert Next(s, begin) == Some(s1);
    Registers(s1, id);
    PutTwice(s, id, r, r.(phase := Registered));
    Writes(s2, id);
    PutTwice(s, id, r.(phase := Registered), r.(phase := Waiting));
    ThreeSteps(s, begin, s1, register, s2, write);
  }

  lemma PutTwice(s: State, id: string, r: Req, r': Req)
    ensures Put(Put(s, id, r), id, r') == Put(s, id, r')
    ensures s.reqs[id := r][id := r'] == s.reqs[id := r']
  {
  }

  lemma Registers(s: State, id: string)
    requires id in s.reqs && s.reqs[id].phase == Created
    ensures Next(s, Register(id)) == Some(Put(s, id, s.reqs[id].(phase := Registered)).(pending := s.pending + {id}))
  {
  }

  lemma Writes(s: State, id: string)
    requires id in s.reqs && s.reqs[id].phase == Registered && !s.closed
    ensures Next(s, WriteSucceeds(id)) == Some(Put(s, id, s.reqs[id].(phase := Waiting)))
  {
  }

  /** When the write fails, the call returns that error and takes its entry back. */
  lemma FailedWriteReturns(s: State, id: string)
    requires id in s.reqs && s.reqs[id].phase == Registered && !s.closed
    ensures var s' := Run(s, [WriteFails(id), Abandon(id)]);
      && s'.Some? && id in s'.value.reqs && s'.value.reqs[id].phase == Returned(Failed(WriteError))
      && s'.value.pending == s.pending - {id}
  {
    var s1 := RequestStep(s, WriteFails(id)).value;
    RunTwo(s, WriteFails(id), s1, Abandon(id));
  }

  // ---------- a response arrives ----------

  /** Only a mere acceptance is not what this call waits for. */
  predicate IsAnswerTo(f: Frame, r: Req) {
    r.expectFinal ==> !f.accepted
  }

  /** In every reachable state the reader takes a frame up exactly when a call with its id is in the
      map and waits for it; otherwise it notes the frame and nothing else happens. */
  lemma TakenUpIff(events: seq<Event>, f: Frame)
    requires Run(INITIAL, events).Some? && Run(INITIAL, events).value.reader == Reading
    ensures var s := Run(INITIAL, events).value;
      var s' := Next(s, ReadResponse(f));
      && s'.Some?
      && (s'.value.reader == Loaded(f) <==> f.id in s.pending && f.id in s.reqs && IsAnswerTo(f, s.reqs[f.id]))
      && (s'.value.reader != Loaded(f) ==> s'.value == s.(received := s.received + {f}))
      && (f.id in s.pending ==> f.id in s.reqs)
  {
    RunKeepsInv(INITIAL, events);
    NextOfFrame(Run(INITIAL, events).value, ReadResponse(f));
  }

  function Halting(t: Timer): Timer {
    if t == Armed then Stopped else t
  }

  lemma TakesUp(s: State, f: Frame)
    requires s.reader == Reading && f.id in s.pending && f.id in s.reqs && IsAnswerTo(f, s.reqs[f.id])
    ensures Next(s, ReadResponse(f)) == Some(s.(received := s.received + {f}, reader := Loaded(f)))
  {
  }

  lemma StopsTimer(s: State, f: Frame, r: Req)
    requires s.reader == Loaded(f) && f.id in s.reqs && s.reqs[f.id] == r
    ensures Next(s, StopTimer) == Some(s.(reader := Halted(f), reqs := s.reqs[f.id := r.(timer := Halting(r.timer))]))
  {
  }

  lemma Deletes(s: State, f: Frame)
    requires s.reader == Halted(f)
    ensures Next(s, DeleteEntry) == Some(s.(reader := Removed(f), pending := s.pending - {f.id}))
  {
  }

  /** A response goes into the one channel, an error into the other; a full channel stays as it is. */
  lemma Settles(s: State, f: Frame, r: Req)
    requires s.reader == Removed(f) && f.id in s.reqs && s.reqs[f.id] == r && r.res.None? && r.err.None?
    ensures Next(s, Settle) == Some(s.(reader := Reading, reqs := s.reqs[f.id := r.(
      res := if f.ok then Some(f) else None, err := if f.ok then None else Some(Remote(f)), settled := r.settled + 1)]))
  {
  }

  /** The reader holds the frame, and the timer of its call is stopped. */
  function Holding(s: State, f: Frame): State
    requires f.id in s.reqs
  {
    var r := s.reqs[f.id];
    s.(received := s.received + {f}, reader := Halted(f), reqs := s.reqs[f.id := r.(timer := Halting(r.timer))])
  }

  lemma IsHeld(s: State, f: Frame)
    requires s.reader == Reading && f.id in s.pending && f.id in s.reqs && IsAnswerTo(f, s.reqs[f.id])
    ensures Run(s, [ReadResponse(f), StopTimer]) == Some(Holding(s, f))
  {
    var s1 := s.(received := s.received + {f}, reader := Loaded(f));
    TakesUp(s, f);
    StopsTimer(s1, f, s.reqs[f.id]);
    RunTwo(s, ReadResponse(f), s1, StopTimer);
  }

  lemma IsSettled(s: State, f: Frame, r: Req)
    requires s.reader == Halted(f) && f.id in s.reqs && s.reqs[f.id] == r && r.res.None? && r.err.None?
    ensures Run(s, [DeleteEntry, Settle]) == Some(s.(
        reader := Reading, pending := s.pending - {f.id},
        reqs := s.reqs[f.id := r.(
          res := if f.ok then Some(f) else None, err := if f.ok then None else Some(Remote(f)), settled := r.settled + 1)]))
  {
    var s1 := s.(reader := Removed(f), pending := s.pending - {f.id});
    Deletes(s, f);
    Settles(s1, f, r);
    RunTwo(s, DeleteEntry, s1, Settle);
  }

  /** The call's channel holds its answer, and the reader reads on. */
  function WithAnswer(s: State, f: Frame): State
    requires f.id in s.reqs
  {
    var r := s.reqs[f.id];
    s.(reader := Reading, received := s.received + {f}, pending := s.pending - {f.id},
       reqs := s.reqs[f.id := r.(
         timer := Halting(r.timer), res := if f.ok then Some(f) else None,
         err := if f.ok then None else Some(Remote(f)), settled := r.settled + 1)])
  }

  lemma HeldThenSettled(s: State, f: Frame)
    requires f.id in s.reqs && s.reqs[f.id].res.None? && s.reqs[f.id].err.None?
    ensures Run(Holding(s, f), [DeleteEntry, Settle]) == Some(WithAnswer(s, f))
  {
    var r := s.reqs[f.id].(timer := Halting(s.reqs[f.id].timer));
    IsSettled(Holding(s, f), f, r);
    PutTwice(s, f.id, r, r.(res := if f.ok then Some(f) else None, err := if f.ok then None else Some(Remote(f)), settled := r.settled + 1));
  }

  function ReadingOf(f: Frame): seq<Event> {
    [ReadResponse(f), StopTimer] + [DeleteEntry, Settle]
  }

  /** The reader's four actions on such a frame leave the answer in the call's channel. */
  lemma Answered(s: State, f: Frame)
    requires s.reader == Reading && f.id in s.pending && f.id in s.reqs && IsAnswerTo(f, s.reqs[f.id])
    requires s.reqs[f.id].res.None? && s.reqs[f.id].err.None?
    ensures Run(s, ReadingOf(f)) == Some(WithAnswer(s, f))
  {
    IsHeld(s, f);
    HeldThenSettled(s, f);
    RunJoin(s, [ReadResponse(f), StopTimer], [DeleteEntry, Settle]);
  }

  /** So a waiting call returns with the response, or the remote error, and its entry is gone;
      nobody else's call or entry is touched. */
  lemma ResponseReachesItsCall(s: State, f: Frame)
    requires s.reader == Reading && f.id in s.pending && f.id in s.reqs && IsAnswerTo(f, s.reqs[f.id])
    requires s.reqs[f.id].phase == Waiting && s.reqs[f.id].res.None? && s.reqs[f.id].err.None?
    ensures var take := if f.ok then TakeResponse(f.id) else TakeError(f.id);
      var s' := Run(s, ReadingOf(f) + [take]);
      && s'.Some? && s'.value.reader == Reading && f.id in s'.value.reqs
      && s'.value.reqs[f.id].phase == Returned(if f.ok then Response(f) else Failed(Remote(f)))
      && s'.value.pending == s.pending - {f.id}
      && forall other :: other in s.reqs && other != f.id ==> other in s'.value.reqs && s'.value.reqs[other] == s.reqs[other]
  {
    Answered(s, f);
    var take := if f.ok then TakeResponse(f.id) else TakeError(f.id);
    RunOne(s, take, ReadingOf(f));
    NextOfRequest(WithAnswer(s, f), take);
  }

  // ---------- a timeout ----------

  /** A waiting call whose timer still runs can time out: it returns its own method's timeout and
      its entry is gone. */
  lemma TimeoutReturns(s: State, id: string)
    requires id in s.reqs && s.reqs[id].phase == Waiting && s.reqs[id].timer == Armed && s.reqs[id].err.None?
    ensures var s' := Run(s, [TimerFires(id), TimerSends(id), TakeError(id)]);
      && s'.Some? && id in s'.value.reqs
      && s'.value.reqs[id].phase == Returned(Failed(Timeout(s.reqs[id].method_)))
      && s'.value.pending == s.pending - {id}
  {
    var s1 := TimerStep(s, TimerFires(id)).value;
    NextOfTimer(s, TimerFires(id));
    var s2 := TimerStep(s1, TimerSends(id)).value;
    NextOfTimer(s1, TimerSends(id));
    Going(s, TimerFires(id), s1, [TimerSends(id), TakeError(id)], [TimerFires(id), TimerSends(id), TakeError(id)]);
    RunTwo(s1, TimerSends(id), s2, TakeError(id));
    NextOfRequest(s2, TakeError(id));
  }

  // ---------- the connection is lost ----------

  function VisitOf(id: string): seq<Event> {
    [Visit(id), StopVisitedTimer] + [RejectVisited, DeleteVisited]
  }

  lemma Visits(s: State, id: string)
    requires s.reader.Sweeping? && id in s.pending && id in s.reqs && id !in s.reader.visited
    ensures Next(s, Visit(id)) == Some(s.(reader := Visiting(id, s.reader.visited + {id})))
  {
  }

  lemma StopsVisitedTimer(s: State, id: string, r: Req)
    requires s.reader.Visiting? && s.reader.id == id && id in s.reqs && s.reqs[id] == r
    ensures Next(s, StopVisitedTimer)
         == Some(s.(reader := Stilled(id, s.reader.visited), reqs := s.reqs[id := r.(timer := Halting(r.timer))]))
  {
  }

  lemma Rejects(s: State, id: string, r: Req)
    requires s.reader.Stilled? && s.reader.id == id && id in s.reqs && s.reqs[id] == r
    ensures Next(s, RejectVisited)
         == Some(s.(reader := Rejected(id, s.reader.visited),
                    reqs := s.reqs[id := r.(err := if r.err.None? then Some(Closed) else r.err, settled := r.settled + 1)]))
  {
  }

  lemma DeletesVisited(s: State, id: string)
    requires s.reader.Rejected? && s.reader.id == id
    ensures Next(s, DeleteVisited) == Some(s.(reader := Sweeping(s.reader.visited), pending := s.pending - {id}))
  {
  }

  lemma IsStilled(s: State, id: string)
    requires s.reader.Sweeping? && id in s.pending && id in s.reqs && id !in s.reader.visited
    ensures var r := s.reqs[id];
      Run(s, [Visit(id), StopVisitedTimer])
        == Some(s.(reader := Stilled(id, s.reader.visited + {id}), reqs := s.reqs[id := r.(timer := Halting(r.timer))]))
  {
    var s1 := s.(reader := Visiting(id, s.reader.visited + {id}));
    Visits(s, id);
    StopsVisitedTimer(s1, id, s.reqs[id]);
    RunTwo(s, Visit(id), s1, StopVisitedTimer);
  }

  lemma IsRejected(s: State, id: string, r: Req)
    requires s.reader.Stilled? && s.reader.id == id && id in s.reqs && s.reqs[id] == r
    ensures Run(s, [RejectVisited, DeleteVisited]) == Some(s.(
      reader := Sweeping(s.reader.visited), pending := s.pending - {id},
      reqs := s.reqs[id := r.(err := if r.err.None? then Some(Closed) else r.err, settled := r.settled + 1)]))
  {
    var r' := r.(err := if r.err.None? then Some(Closed) else r.err, settled := r.settled + 1);
    var s1 := s.(reader := Rejected(id, s.reader.visited), reqs := s.reqs[id := r']);
    Rejects(s, id, r);
    DeletesVisited(s1, id);
    RunTwo(s, RejectVisited, s1, DeleteVisited);
  }

  /** The entry is out of the map, and its call is offered the close error. */
  function WithClosed(s: State, id: string): State
    requires id in s.reqs && s.reader.Sweeping?
  {
    var r := s.reqs[id];
    s.(reader := Sweeping(s.reader.visited + {id}), pending := s.pending - {id},
       reqs := s.reqs[id := r.(
         timer := Halting(r.timer), err := if r.err.None? then Some(Closed) else r.err, settled := r.settled + 1)])
  }

  function StilledState(s: State, id: string): State
    requires id in s.reqs && s.reader.Sweeping?
  {
    s.(reader := Stilled(id, s.reader.visited + {id}), reqs := s.reqs[id := s.reqs[id].(timer := Halting(s.reqs[id].timer))])
  }

  lemma StilledThenRejected(s: State, id: string)
    requires id in s.reqs && s.reader.Sweeping?
    ensures Run(StilledState(s, id), [RejectVisited, DeleteVisited]) == Some(WithClosed(s, id))
  {
    var r := s.reqs[id].(timer := Halting(s.reqs[id].timer));
    IsRejected(StilledState(s, id), id, r);
    PutTwice(s, id, r, r.(err := if r.err.None? then Some(Closed) else r.err, settled := r.settled + 1));
  }

  /** The sweep's four actions on one entry do that. */
  lemma Visited(s: State, id: string)
    requires s.reader.Sweeping? && id in s.pending && id in s.reqs && id !in s.reader.visited
    ensures Run(s, VisitOf(id)) == Some(WithClosed(s, id))
  {
    IsStilled(s, id);
    StilledThenRejected(s, id);
    RunJoin(s, [Visit(id), StopVisitedTimer], [RejectVisited, DeleteVisited]);
  }

  /** So a call that waits when the connection is lost returns the close error. */
  lemma LostConnectionFailsItsCalls(s: State, id: string)
    requires s.reader == Reading && id in s.pending && id in s.reqs
    requires s.reqs[id].phase == Waiting && s.reqs[id].err.None?
    ensures var s' := Run(s, ([ReadLoopEnds] + VisitOf(id)) + [TakeError(id)]);
      && s'.Some? && id in s'.value.reqs
      && s'.value.reqs[id].phase == Returned(Failed(Closed)) && s'.value.pending == s.pending - {id}
  {
    var s1 := s.(reader := Sweeping({}), atEnd := s.pending);
    assert Next(s, ReadLoopEnds) == Some(s1);
    Visited(s1, id);
    Go(s, ReadLoopEnds, s1, VisitOf(id));
    RunOne(s, TakeError(id), [ReadLoopEnds] + VisitOf(id));
    NextOfRequest(WithClosed(s1, id), TakeError(id));
  }

  /** From any reachable state in which the sweep runs, it can go on to its end, and then no entry
      that was there when the loop ended is left. */
  lemma {:induction false} SweepEndsIn(s: State) returns (events: seq<Event>)
    requires s.reader.Sweeping? && s.pending <= s.reqs.Keys
    ensures var s' := Run(s, events); s'.Some? && s'.value.reader == Finished && s'.value.atEnd == s.atEnd
    decreases |s.pending - s.reader.visited|
  {
    var left := s.atEnd * s.pending - s.reader.visited;
    if left == {} {
      assert forall id :: id in s.atEnd * s.pending && id !in s.reader.visited ==> id in left;
      NextOfSweep(s, SweepEnds);
      Gone1(s, SweepEnds);
      events := [SweepEnds];
    } else {
      var id :| id in left;
      Visited(s, id);
      var s1 := Run(s, VisitOf(id)).value;
      assert s1.pending - s1.reader.visited <= s.pending - s.reader.visited - {id};
      FewerThan(s1.pending - s1.reader.visited, s.pending - s.reader.visited, id);
      var more := SweepEndsIn(s1);
      RunJoin(s, VisitOf(id), more);
      events := VisitOf(id) + more;
    }
  }

  lemma FewerThan(a: set<string>, b: set<string>, x: string)
    requires a <= b - {x} && x in b
    ensures |a| < |b|
  {
    SubsetSize(a, b - {x});
  }

  lemma {:induction false} SubsetSize(a: set<string>, b: set<string>)
    requires a <= b
    ensures |a| <= |b|
  {
    if a != {} {
      var x :| x in a;
      SubsetSize(a - {x}, b - {x});
    }
  }

  /** The read loop can end at any time, and after every interleaving the sweep can come to its end. */
  lemma SweepCanEnd(events: seq<Event>) returns (more: seq<Event>)
    requires Run(INITIAL, events).Some? && (Run(INITIAL, events).value.reader == Reading || Run(INITIAL, events).value.reader.Sweeping?)
    ensures var s := Run(INITIAL, events + more);
      && s.Some? && s.value.reader == Finished
      && forall id :: id in s.value.atEnd ==> id !in s.value.pending
  {
    RunKeepsInv(INITIAL, events);
    var s := Run(INITIAL, events).value;
    if s.reader == Reading {
      var s1 := SweepStep(s, ReadLoopEnds).value;
      NextOfSweep(s, ReadLoopEnds);
      var rest := SweepEndsIn(s1);
      Go(s, ReadLoopEnds, s1, rest);
      more := [ReadLoopEnds] + rest;
    } else {
      more := SweepEndsIn(s);
    }
    RunJoin(INITIAL, events, more);
    RunKeepsInv(INITIAL, events + more);
  }
}
