/** How tiers move over whole runs: promotion, decay, and the point of no return. */
module MemoryLifecycle {
  import opened Common
  import opened MemoryModel
  import opened MemoryHistory

  /** Calls in which somebody changes this very memory on purpose. */
  predicate Intervenes(op: Op, id: string) {
    (op.Update? || op.Rollback?) && op.id == id
  }

  predicate Deletes(op: Op, id: string) {
    op.Delete? && op.id == id
  }

  predicate Scans(op: Op, id: string) {
    op.RunDecayScan? && id in op.visit
  }

  /** At tier 0 and older than the window in which tier 0 can be promoted. */
  predicate Doomed(m: Memory, now: int) {
    m.content.tier == 0 && m.createdAt < now - TIER0_TTL
  }

  /** What every call but an intervention or a delete does to a row. */
  predicate Drifts(m: Memory, m': Memory, now: int) {
    && m'.createdAt == m.createdAt
    && (Doomed(m, now) ==> m'.content.tier == 0)
    && (m.content.tier >= 2 ==> m'.content.tier >= m.content.tier && m'.isDeleted == m.isDeleted)
    && (m.isDeleted ==> m'.isDeleted)
  }

  lemma PromotionDrifts(w: World, db: Db, actor: Actor, id: string, now: int, other: string)
    requires Valid(db, now) && id in db.rows && other in db.rows
    ensures var db' := EvaluatePromotion(w, db, actor, db.rows[id], now);
            && other in db'.rows
            && Drifts(db.rows[other], db'.rows[other], now)
            && db'.rows[other].content.tier in {db.rows[other].content.tier, db.rows[other].content.tier + 1}
  {
    RowFacts(db, now, id);
  }

  lemma TouchDrifts(w: World, db: Db, actor: Actor, id: string, now: int, other: string)
    requires Valid(db, now) && other in db.rows
    ensures var db' := TouchMemory(w, db, actor, id, now);
            && other in db'.rows
            && Drifts(db.rows[other], db'.rows[other], now)
            && db'.rows[other].content.tier in {db.rows[other].content.tier, db.rows[other].content.tier + 1}
  {
    if id in db.rows {
      TouchedRowKeepsValid(db, id, now);
      PromotionDrifts(w, db.(rows := db.rows[id := Touched(db.rows[id], now)]), actor, id, now, other);
    }
  }

  lemma {:induction false} TouchesDrift(w: World, db: Db, actor: Actor, ids: seq<string>, now: int, other: string)
    requires Valid(db, now) && other in db.rows
    ensures var db' := TouchMemories(w, db, actor, ids, now);
            other in db'.rows && Drifts(db.rows[other], db'.rows[other], now)
  {
    if ids != [] {
      TouchesDrift(w, db, actor, ids[..|ids| - 1], now, other);
      TouchesKeepValid(w, db, actor, ids[..|ids| - 1], now);
      TouchDrifts(w, TouchMemories(w, db, actor, ids[..|ids| - 1], now), actor, ids[|ids| - 1], now, other);
    }
  }

  /** Decay moves tier 1 to tier 0 and deletes old tier 0; it leaves tiers 2 and 3 alone. */
  lemma DecayDrifts(w: World, db: Db, actor: Actor, id: string, now: int, other: string)
    requires Valid(db, now) && other in db.rows
    ensures var db' := DecayMemory(w, db, actor, id, now);
            && other in db'.rows
            && Drifts(db.rows[other], db'.rows[other], now)
            && (id == other && Doomed(db.rows[other], now) ==> db'.rows[other].isDeleted)
            && (db'.rows[other].content.tier < db.rows[other].content.tier ==>
                  db.rows[other].content.tier == 1 && Doomed(db'.rows[other], now))
  {
    RowFacts(db, now, other);
    assert RowOk(db.versions, other, db.rows[other], now);
    if id in db.rows {
      RowFacts(db, now, id);
    }
  }

  lemma {:induction false} DecayScanDrifts(w: World, db: Db, actor: Actor, visit: seq<string>, now: int, other: string)
    requires Valid(db, now) && other in db.rows
    ensures var db' := DecayScan(w, db, actor, visit, now);
            && other in db'.rows
            && Drifts(db.rows[other], db'.rows[other], now)
            && (other in visit && Doomed(db.rows[other], now) ==> db'.rows[other].isDeleted)
            && (db'.rows[other].content.tier < db.rows[other].content.tier ==> Doomed(db'.rows[other], now))
  {
    if visit != [] {
      var init, last := visit[..|visit| - 1], visit[|visit| - 1];
      assert visit == init + [last];
      DecayScanDrifts(w, db, actor, init, now, other);
      ScansKeepValid(w, db, actor, init, now);
      DecayDrifts(w, DecayScan(w, db, actor, init, now), actor, last, now, other);
    }
  }

  lemma {:induction false} PromotionScanDrifts(w: World, db: Db, actor: Actor, visit: seq<string>, now: int, other: string)
    requires Valid(db, now) && other in db.rows
    ensures var db' := PromotionScan(w, db, actor, visit, now);
            other in db'.rows && Drifts(db.rows[other], db'.rows[other], now)
  {
    if visit != [] {
      var init, last := visit[..|visit| - 1], visit[|visit| - 1];
      PromotionScanDrifts(w, db, actor, init, now, other);
      ScansKeepValid(w, db, actor, init, now);
      var db1 := PromotionScan(w, db, actor, init, now);
      if last in db1.rows {
        PromotionDrifts(w, db1, actor, last, now, other);
      }
    }
  }

  /** Creating a memory, and updating or rolling back another one, leave a row alone. */
  lemma CreateLeavesAlone(w: World, db: Db, actor: Actor, input: Payload, freshId: string, now: int, id: string)
    requires id in db.rows
    ensures var db' := CreateMemory(w, db, actor, input, freshId, now).0; id in db'.rows && db'.rows[id] == db.rows[id]
  {
  }

  lemma UpdateLeavesAlone(w: World, db: Db, actor: Actor, ns: string, i: string, patch: Patch, now: int, id: string)
    requires Valid(db, now) && id in db.rows && i != id
    ensures var db' := UpdateMemory(w, db, actor, ns, i, patch, now).0; id in db'.rows && db'.rows[id] == db.rows[id]
  {
    if i in db.rows {
      RowFacts(db, now, i);
    }
  }

  lemma RollbackLeavesAlone(w: World, db: Db, actor: Actor, ns: string, i: string, v: int, now: int, id: string)
    requires Valid(db, now) && id in db.rows && i != id
    ensures var db' := RollbackMemory(w, db, actor, ns, i, v, now).0; id in db'.rows && db'.rows[id] == db.rows[id]
  {
    if i in db.rows {
      RowFacts(db, now, i);
    }
  }

  /** A delete only hides its own memory. */
  lemma DeleteOnlyHides(w: World, db: Db, actor: Actor, ns: string, i: string, now: int, id: string)
    requires Valid(db, now) && id in db.rows
    ensures var db' := SoftDeleteMemory(w, db, actor, ns, i, now).0;
            && id in db'.rows
            && db'.rows[id].createdAt == db.rows[id].createdAt && db'.rows[id].content == db.rows[id].content
            && (if i == id then db.rows[id].isDeleted ==> db'.rows[id].isDeleted else db'.rows[id] == db.rows[id])
  {
    if i in db.rows {
      RowFacts(db, now, i);
    }
  }

  lemma StepDrifts(w: World, db: Db, op: Op, clock: int, now: int, id: string)
    requires Valid(db, clock) && clock <= now && id in db.rows && !Intervenes(op, id)
    ensures var db' := Step(w, db, op, now);
            && id in db'.rows
            && db'.rows[id].createdAt == db.rows[id].createdAt
            && (Doomed(db.rows[id], now) ==> db'.rows[id].content.tier == 0)
            && (db.rows[id].content.tier >= 2 ==> db'.rows[id].content.tier >= db.rows[id].content.tier)
            && (db.rows[id].isDeleted ==> db'.rows[id].isDeleted)
            && (db.rows[id].content.tier >= 2 && !Deletes(op, id) ==> db'.rows[id].isDeleted == db.rows[id].isDeleted)
            && (Doomed(db.rows[id], now) && Scans(op, id) ==> db'.rows[id].isDeleted)
  {
    LaterIsFine(db, clock, now);
    match op {
      case Get(actor, ns, i) => TouchesDrift(w, db, actor, [i], now, id);
      case Browse(actor, ns, found) => TouchesDrift(w, db, actor, found, now, id);
      case Search(actor, ns, found) => TouchesDrift(w, db, actor, found, now, id);
      case RunPromotionScan(actor, visit) => PromotionScanDrifts(w, db, actor, visit, now, id);
      case RunDecayScan(actor, visit) => DecayScanDrifts(w, db, actor, visit, now, id);
      case Note(_, _, _, _, _, _, _) =>
      case Create(actor, input, freshId) => CreateLeavesAlone(w, db, actor, input, freshId, now, id);
      case Update(actor, ns, i, patch) => UpdateLeavesAlone(w, db, actor, ns, i, patch, now, id);
      case Rollback(actor, ns, i, v) => RollbackLeavesAlone(w, db, actor, ns, i, v, now, id);
      case Delete(actor, ns, i) => DeleteOnlyHides(w, db, actor, ns, i, now, id);
    }
  }

  /** A doomed memory can never be promoted again, and the next decay scan that
      visits it deletes it for good, unless somebody updates it or rolls it back. */
  lemma {:induction false} DoomedStaysDoomed(w: World, db: Db, calls: seq<Call>, start: int, id: string)
    requires Valid(db, start) && Monotone(calls, start) && id in db.rows
    requires Doomed(db.rows[id], start)
    requires forall i :: 0 <= i < |calls| ==> !Intervenes(calls[i].op, id)
    ensures var later := Run(w, db, calls);
            && id in later.rows
            && Doomed(later.rows[id], start)
            && (db.rows[id].isDeleted ==> later.rows[id].isDeleted)
            && ((exists i :: 0 <= i < |calls| && Scans(calls[i].op, id)) ==> later.rows[id].isDeleted)
  {
    if calls != [] {
      var init, last := calls[..|calls| - 1], calls[|calls| - 1];
      DoomedStaysDoomed(w, db, init, start, id);
      RunKeepsValid(w, db, init, start);
      StepDrifts(w, Run(w, db, init), last.op, Clock(init, start), last.now, id);
      if exists i :: 0 <= i < |calls| && Scans(calls[i].op, id) {
        var i :| 0 <= i < |calls| && Scans(calls[i].op, id);
        assert i < |init| ==> Scans(init[i].op, id);
      }
    }
  }

  /** A decay scan that takes a memory to tier 0 seals its fate. */
  lemma DecayIsFinal(w: World, db: Db, clock: int, scan: Call, calls: seq<Call>, id: string)
    requires Valid(db, clock) && clock <= scan.now && scan.op.RunDecayScan? && id in db.rows
    requires Monotone(calls, scan.now)
    requires var demoted := Step(w, db, scan.op, scan.now);
             id in demoted.rows && demoted.rows[id].content.tier < db.rows[id].content.tier
    requires forall i :: 0 <= i < |calls| ==> !Intervenes(calls[i].op, id)
    ensures var later := Run(w, Step(w, db, scan.op, scan.now), calls);
            && id in later.rows && later.rows[id].content.tier == 0
            && ((exists i :: 0 <= i < |calls| && Scans(calls[i].op, id)) ==> later.rows[id].isDeleted)
  {
    StepKeepsValid(w, db, scan.op, clock, scan.now);
    LaterIsFine(db, clock, scan.now);
    DecayScanDrifts(w, db, scan.op.actor, scan.op.visit, scan.now, id);
    DoomedStaysDoomed(w, Step(w, db, scan.op, scan.now), calls, scan.now, id);
  }

  /** Tiers 2 and 3 are safe: without an update or rollback of the memory its tier
      never falls, and without a delete it stays visible. */
  lemma {:induction false} HighTiersNeverDecay(w: World, db: Db, calls: seq<Call>, start: int, id: string)
    requires Valid(db, start) && Monotone(calls, start) && id in db.rows && db.rows[id].content.tier >= 2
    requires forall i :: 0 <= i < |calls| ==> !Intervenes(calls[i].op, id)
    ensures var later := Run(w, db, calls);
            && id in later.rows
            && db.rows[id].content.tier <= later.rows[id].content.tier <= 3
            && ((forall i :: 0 <= i < |calls| ==> !Deletes(calls[i].op, id)) ==> later.rows[id].isDeleted == db.rows[id].isDeleted)
  {
    if calls != [] {
      var init, last := calls[..|calls| - 1], calls[|calls| - 1];
      HighTiersNeverDecay(w, db, init, start, id);
      RunKeepsValid(w, db, init, start);
      StepDrifts(w, Run(w, db, init), last.op, Clock(init, start), last.now, id);
      assert forall i :: 0 <= i < |init| ==> init[i] == calls[i];
    }
    RunKeepsValid(w, db, calls, start);
    RowFacts(Run(w, db, calls), Clock(calls, start), id);
  }
}
