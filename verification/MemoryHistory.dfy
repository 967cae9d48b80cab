/** Version histories over every run of the memory service. */
module MemoryHistory {
  import opened Common
  import opened MemoryModel

  /** The log entries of one memory, oldest first. */
  function History(log: seq<Version>, id: string): seq<Version> {
    if log == [] then []
    else
      var earlier := History(log[..|log| - 1], id);
      var last := log[|log| - 1];
      if last.entityId == id then earlier + [last] else earlier
  }

  /** A row agrees with its history: versions 1..n once each in order, the newest
      one holding the current content; its tier and times are in range. */
  predicate RowOk(log: seq<Version>, id: string, m: Memory, clock: int) {
    var h := History(log, id);
    && m.id == id
    && |h| == m.version >= 1
    && (forall j :: 0 <= j < |h| ==> h[j].version == j + 1 && h[j].ns == m.ns)
    && h[|h| - 1].content == m.content
    && m.createdAt <= m.updatedAt <= clock
    && (m.lastAccessedAt.Some? ==> m.createdAt <= m.lastAccessedAt.value <= clock)
  }

  /** A snapshot belongs to a row and holds a legal tier. */
  predicate EntryOk(rows: map<string, Memory>, e: Version) {
    e.entityId in rows && 0 <= e.content.tier <= 3
  }

  /** The memory table and the version log agree; the audit log plays no part. */
  predicate TablesOk(rows: map<string, Memory>, log: seq<Version>, clock: int) {
    && (forall e {:trigger EntryOk(rows, e)} :: e in log ==> EntryOk(rows, e))
    && (forall id {:trigger RowOk(log, id, rows[id], clock)} :: id in rows ==> RowOk(log, id, rows[id], clock))
  }

  predicate Valid(db: Db, clock: int) {
    TablesOk(db.rows, db.versions, clock)
  }

  /** What no call undoes: the existence of a row, its namespace, creation time
      and version count. */
  predicate RowsExtend(rows: map<string, Memory>, rows': map<string, Memory>) {
    forall id :: id in rows ==>
      && id in rows'
      && rows'[id].ns == rows[id].ns
      && rows'[id].createdAt == rows[id].createdAt
      && rows'[id].version >= rows[id].version
  }

  /** Logged snapshots are never changed or removed either. */
  predicate Extends(db: Db, db': Db) {
    db.versions <= db'.versions && RowsExtend(db.rows, db'.rows)
  }

  // ---------- facts about histories ----------

  lemma {:induction false} HistoryMembers(log: seq<Version>, id: string)
    ensures forall j :: 0 <= j < |History(log, id)| ==> History(log, id)[j] in log && History(log, id)[j].entityId == id
  {
    if log != [] {
      HistoryMembers(log[..|log| - 1], id);
    }
  }

  lemma {:induction false} HistoryHolds(log: seq<Version>, id: string, k: nat) returns (j: nat)
    requires k < |log| && log[k].entityId == id
    ensures j < |History(log, id)| && History(log, id)[j] == log[k]
  {
    if k == |log| - 1 {
      j := |History(log, id)| - 1;
    } else {
      j := HistoryHolds(log[..|log| - 1], id, k);
    }
  }

  lemma {:induction false} HistoryGrows(log: seq<Version>, log': seq<Version>, id: string)
    requires log <= log'
    ensures History(log, id) <= History(log', id)
  {
    if |log'| > |log| {
      HistoryGrows(log, log'[..|log'| - 1], id);
    } else {
      assert log == log';
    }
  }

  lemma HistoryAppend(log: seq<Version>, e: Version, id: string)
    ensures History(log + [e], id) == if e.entityId == id then History(log, id) + [e] else History(log, id)
  {
    assert (log + [e])[..|log|] == log;
  }

  lemma {:induction false} HistoryOfStranger(log: seq<Version>, id: string)
    requires forall k :: 0 <= k < |log| ==> log[k].entityId != id
    ensures History(log, id) == []
  {
    if log != [] {
      HistoryOfStranger(log[..|log| - 1], id);
    }
  }

  lemma VersionIsThere(db: Db, clock: int, id: string, v: int) returns (k: nat)
    requires Valid(db, clock) && id in db.rows && 1 <= v <= db.rows[id].version
    ensures k < |db.versions| && db.versions[k].entityId == id && db.versions[k].version == v
    ensures db.versions[k].ns == db.rows[id].ns
  {
    assert RowOk(db.versions, id, db.rows[id], clock);
    HistoryMembers(db.versions, id);
    var e := History(db.versions, id)[v - 1];
    k :| 0 <= k < |db.versions| && db.versions[k] == e;
  }

  lemma VersionIsInPlace(db: Db, clock: int, k: nat)
    requires Valid(db, clock) && k < |db.versions|
    ensures var e := db.versions[k];
            && e.entityId in db.rows && e.ns == db.rows[e.entityId].ns
            && 1 <= e.version <= |History(db.versions, e.entityId)| == db.rows[e.entityId].version
            && e == History(db.versions, e.entityId)[e.version - 1]
  {
    var e := db.versions[k];
    var j := HistoryHolds(db.versions, e.entityId, k);
    assert EntryOk(db.rows, e);
    assert RowOk(db.versions, e.entityId, db.rows[e.entityId], clock);
  }

  /** In a reachable state a memory has exactly the versions 1..Version, each once. */
  lemma VersionIsUnique(db: Db, clock: int, ns: string, id: string, v: int)
    requires Valid(db, clock)
    ensures FindVersion(db.versions, ns, id, v).Some? <==> Has(db, ns, id) && 1 <= v <= db.rows[id].version
    ensures forall k :: 0 <= k < |db.versions| && db.versions[k].entityId == id && db.versions[k].version == v ==>
              && FindVersion(db.versions, ns, id, v).Some? == (ns == db.versions[k].ns)
              && 1 <= v <= |History(db.versions, id)|
              && db.versions[k] == History(db.versions, id)[v - 1]
  {
    var found := FindVersion(db.versions, ns, id, v);
    if found.Some? {
      VersionIsInPlace(db, clock, found.value);
    }
    if Has(db, ns, id) && 1 <= v <= db.rows[id].version {
      var k := VersionIsThere(db, clock, id, v);
      assert found.Some?;
    }
    forall k | 0 <= k < |db.versions| && db.versions[k].entityId == id && db.versions[k].version == v
      ensures found.Some? == (ns == db.versions[k].ns)
      ensures 1 <= v <= |History(db.versions, id)| && db.versions[k] == History(db.versions, id)[v - 1]
    {
      VersionIsInPlace(db, clock, k);
    }
  }

  // ---------- every call keeps the invariant ----------

  lemma LaterIsFine(db: Db, clock: int, now: int)
    requires Valid(db, clock) && clock <= now
    ensures Valid(db, now)
  {
    forall id | id in db.rows ensures RowOk(db.versions, id, db.rows[id], now) {
      assert RowOk(db.versions, id, db.rows[id], clock);
    }
  }

  /** m is the next version of its row, or the first version of a new one. */
  predicate IsNext(db: Db, m: Memory, now: int) {
    && m.updatedAt == now && m.createdAt <= now
    && if m.id in db.rows then
         var current := db.rows[m.id];
         && m.version == current.version + 1 && m.ns == current.ns
         && m.createdAt == current.createdAt && m.lastAccessedAt == current.lastAccessedAt
       else
         m.version == 1 && m.lastAccessedAt.None?
  }

  lemma SavedRowOk(w: World, db: Db, m: Memory, actor: Actor, reason: string, now: int)
    requires Valid(db, now) && IsNext(db, m, now)
    ensures RowOk(SaveWithVersion(w, db, m, actor, reason, now).versions, m.id, m, now)
  {
    HistoryAppend(db.versions, Snapshot(w, m, actor, reason, now), m.id);
    if m.id in db.rows {
      assert RowOk(db.versions, m.id, db.rows[m.id], now);
    } else {
      forall e | e in db.versions ensures e.entityId != m.id {
        assert EntryOk(db.rows, e);
      }
      HistoryOfStranger(db.versions, m.id);
    }
  }

  lemma OtherRowOk(w: World, db: Db, m: Memory, actor: Actor, reason: string, now: int, id: string)
    requires Valid(db, now) && id in db.rows && id != m.id
    ensures RowOk(SaveWithVersion(w, db, m, actor, reason, now).versions, id, db.rows[id], now)
  {
    HistoryAppend(db.versions, Snapshot(w, m, actor, reason, now), id);
    assert RowOk(db.versions, id, db.rows[id], now);
  }

  lemma SaveKeepsValid(w: World, db: Db, m: Memory, actor: Actor, reason: string, now: int)
    requires Valid(db, now) && IsNext(db, m, now) && 0 <= m.content.tier <= 3
    ensures Valid(SaveWithVersion(w, db, m, actor, reason, now), now)
    ensures Extends(db, SaveWithVersion(w, db, m, actor, reason, now))
  {
    var db' := SaveWithVersion(w, db, m, actor, reason, now);
    forall e | e in db'.versions ensures EntryOk(db'.rows, e) {
      assert e in db.versions ==> EntryOk(db.rows, e);
    }
    forall id | id in db'.rows ensures RowOk(db'.versions, id, db'.rows[id], now) {
      if id == m.id {
        SavedRowOk(w, db, m, actor, reason, now);
      } else {
        OtherRowOk(w, db, m, actor, reason, now, id);
      }
    }
  }

  lemma CommitKeepsValid(w: World, db: Db, m: Memory, actor: Actor, reason: string, ns: string, action: string,
                         beforeHash: string, afterHash: string, now: int)
    requires Valid(db, now) && IsNext(db, m, now) && 0 <= m.content.tier <= 3
    ensures Valid(Commit(w, db, m, actor, reason, ns, action, beforeHash, afterHash, now), now)
    ensures Extends(db, Commit(w, db, m, actor, reason, ns, action, beforeHash, afterHash, now))
  {
    SaveKeepsValid(w, db, m, actor, reason, now);
  }

  lemma RowFacts(db: Db, clock: int, id: string)
    requires Valid(db, clock) && id in db.rows
    ensures db.rows[id].id == id && 0 <= db.rows[id].content.tier <= 3
    ensures db.rows[id].createdAt <= db.rows[id].updatedAt <= clock
  {
    assert RowOk(db.versions, id, db.rows[id], clock);
    HistoryMembers(db.versions, id);
    var newest := History(db.versions, id)[db.rows[id].version - 1];
    assert EntryOk(db.rows, newest);
  }

  lemma PromotionKeepsValid(w: World, db: Db, actor: Actor, id: string, now: int)
    requires Valid(db, now) && id in db.rows
    ensures Valid(EvaluatePromotion(w, db, actor, db.rows[id], now), now)
    ensures Extends(db, EvaluatePromotion(w, db, actor, db.rows[id], now))
  {
    var m := db.rows[id];
    RowFacts(db, now, id);
    var tier := PromotedTier(m, now);
    if tier.Some? {
      var m' := Advance(m.(content := m.content.(tier := tier.value)), now);
      CommitKeepsValid(w, db, m', actor, "tier_promotion", m.ns, "promote", HashMemory(w, m), HashMemory(w, m'), now);
    }
  }

  lemma TouchedRowKeepsValid(db: Db, id: string, now: int)
    requires Valid(db, now) && id in db.rows
    ensures Valid(db.(rows := db.rows[id := Touched(db.rows[id], now)]), now)
    ensures Extends(db, db.(rows := db.rows[id := Touched(db.rows[id], now)]))
  {
    var db1 := db.(rows := db.rows[id := Touched(db.rows[id], now)]);
    forall e | e in db1.versions ensures EntryOk(db1.rows, e) {
      assert EntryOk(db.rows, e);
    }
    forall i | i in db1.rows ensures RowOk(db1.versions, i, db1.rows[i], now) {
      assert RowOk(db.versions, i, db.rows[i], now);
    }
  }

  lemma TouchKeepsValid(w: World, db: Db, actor: Actor, id: string, now: int)
    requires Valid(db, now)
    ensures Valid(TouchMemory(w, db, actor, id, now), now)
    ensures Extends(db, TouchMemory(w, db, actor, id, now))
  {
    if id in db.rows {
      var db1 := db.(rows := db.rows[id := Touched(db.rows[id], now)]);
      TouchedRowKeepsValid(db, id, now);
      PromotionKeepsValid(w, db1, actor, id, now);
      ExtendsThrough(db, db1, EvaluatePromotion(w, db1, actor, db1.rows[id], now));
    }
  }

  lemma ExtendsThrough(db: Db, db1: Db, db2: Db)
    requires Extends(db, db1) && Extends(db1, db2)
    ensures Extends(db, db2)
  {
  }

  lemma {:induction false} TouchesKeepValid(w: World, db: Db, actor: Actor, ids: seq<string>, now: int)
    requires Valid(db, now)
    ensures Valid(TouchMemories(w, db, actor, ids, now), now)
    ensures Extends(db, TouchMemories(w, db, actor, ids, now))
  {
    if ids != [] {
      TouchesKeepValid(w, db, actor, ids[..|ids| - 1], now);
      TouchKeepsValid(w, TouchMemories(w, db, actor, ids[..|ids| - 1], now), actor, ids[|ids| - 1], now);
    }
  }

  lemma DecayKeepsValid(w: World, db: Db, actor: Actor, id: string, now: int)
    requires Valid(db, now)
    ensures Valid(DecayMemory(w, db, actor, id, now), now)
    ensures Extends(db, DecayMemory(w, db, actor, id, now))
  {
    if id in db.rows && Decayed(db.rows[id], now).Some? {
      RowFacts(db, now, id);
      var m, d := db.rows[id], Decayed(db.rows[id], now).value;
      CommitKeepsValid(w, db, d, actor, "decay", m.ns, "decay", HashMemory(w, m), HashMemory(w, d), now);
    }
  }

  lemma {:induction false} ScansKeepValid(w: World, db: Db, actor: Actor, visit: seq<string>, now: int)
    requires Valid(db, now)
    ensures Valid(DecayScan(w, db, actor, visit, now), now) && Extends(db, DecayScan(w, db, actor, visit, now))
    ensures Valid(PromotionScan(w, db, actor, visit, now), now) && Extends(db, PromotionScan(w, db, actor, visit, now))
  {
    if visit != [] {
      var init, last := visit[..|visit| - 1], visit[|visit| - 1];
      ScansKeepValid(w, db, actor, init, now);
      DecayKeepsValid(w, DecayScan(w, db, actor, init, now), actor, last, now);
      var db1 := PromotionScan(w, db, actor, init, now);
      if last in db1.rows {
        PromotionKeepsValid(w, db1, actor, last, now);
      }
    }
  }

  lemma UpdateKeepsValid(w: World, db: Db, actor: Actor, ns: string, id: string, patch: Patch, now: int)
    requires Valid(db, now)
    ensures Valid(UpdateMemory(w, db, actor, ns, id, patch, now).0, now)
    ensures Extends(db, UpdateMemory(w, db, actor, ns, id, patch, now).0)
  {
    if Has(db, ns, id) {
      var m := db.rows[id];
      var patched := PatchMemory(w, actor, m, patch);
      RowFacts(db, now, id);
      if MayWrite(actor, m.content.tier) && patched.Ok? {
        var m' := Advance(patched.value, now);
        CommitKeepsValid(w, db, m', actor, "update", ns, "update", HashMemory(w, m), HashMemory(w, m'), now);
      }
    }
  }

  lemma RollbackKeepsValid(w: World, db: Db, actor: Actor, ns: string, id: string, v: int, now: int)
    requires Valid(db, now)
    ensures Valid(RollbackMemory(w, db, actor, ns, id, v, now).0, now)
    ensures Extends(db, RollbackMemory(w, db, actor, ns, id, v, now).0)
  {
    var k := FindVersion(db.versions, ns, id, v);
    if k.Some? && Has(db, ns, id) {
      var m := db.rows[id];
      RowFacts(db, now, id);
      assert EntryOk(db.rows, db.versions[k.value]);
      var m' := m.(content := db.versions[k.value].content, version := m.version + 1, isDeleted := false, updatedAt := now);
      CommitKeepsValid(w, db, m', actor, "rollback:" + w.itoa(v), ns, "rollback", HashMemory(w, m), HashMemory(w, m'), now);
    }
  }

  lemma DeleteKeepsValid(w: World, db: Db, actor: Actor, ns: string, id: string, now: int)
    requires Valid(db, now)
    ensures Valid(SoftDeleteMemory(w, db, actor, ns, id, now).0, now)
    ensures Extends(db, SoftDeleteMemory(w, db, actor, ns, id, now).0)
  {
    if Has(db, ns, id) && MayDelete(actor) {
      var m := db.rows[id];
      RowFacts(db, now, id);
      var m' := m.(isDeleted := true, version := m.version + 1, updatedAt := now);
      CommitKeepsValid(w, db, m', actor, "delete", ns, "delete", HashMemory(w, m'), "", now);
    }
  }

  lemma CreateKeepsValid(w: World, db: Db, actor: Actor, input: Payload, freshId: string, now: int)
    requires Valid(db, now)
    ensures Valid(CreateMemory(w, db, actor, input, freshId, now).0, now)
    ensures Extends(db, CreateMemory(w, db, actor, input, freshId, now).0)
  {
    var r := CreateMemory(w, db, actor, input, freshId, now);
    if r.1.Ok? {
      var m := r.1.value;
      CommitKeepsValid(w, db, m, actor, "create", m.ns, "write", "", HashMemory(w, m), now);
    }
  }

  /** Every public call keeps every history exact and takes nothing back. */
  lemma StepKeepsValid(w: World, db: Db, op: Op, clock: int, now: int)
    requires Valid(db, clock) && clock <= now
    ensures Valid(Step(w, db, op, now), now) && Extends(db, Step(w, db, op, now))
  {
    LaterIsFine(db, clock, now);
    match op
    case Create(actor, input, freshId) => CreateKeepsValid(w, db, actor, input, freshId, now);
    case Get(actor, ns, id) => TouchesKeepValid(w, db, actor, [id], now);
    case Browse(actor, ns, found) => TouchesKeepValid(w, db, actor, found, now);
    case Search(actor, ns, found) => TouchesKeepValid(w, db, actor, found, now);
    case Update(actor, ns, id, patch) => UpdateKeepsValid(w, db, actor, ns, id, patch, now);
    case Rollback(actor, ns, id, v) => RollbackKeepsValid(w, db, actor, ns, id, v, now);
    case Delete(actor, ns, id) => DeleteKeepsValid(w, db, actor, ns, id, now);
    case RunPromotionScan(actor, visit) => ScansKeepValid(w, db, actor, visit, now);
    case RunDecayScan(actor, visit) => ScansKeepValid(w, db, actor, visit, now);
    case Note(_, _, _, _, _, _, _) =>
  }

  lemma {:induction false} RunKeepsValid(w: World, db: Db, calls: seq<Call>, start: int)
    requires Valid(db, start) && Monotone(calls, start)
    ensures Valid(Run(w, db, calls), Clock(calls, start))
    ensures Extends(db, Run(w, db, calls))
  {
    if calls != [] {
      var init, last := calls[..|calls| - 1], calls[|calls| - 1];
      RunKeepsValid(w, db, init, start);
      StepKeepsValid(w, Run(w, db, init), last.op, Clock(init, start), last.now);
    }
  }

  /** Every state reachable from empty tables is valid. */
  lemma ReachableIsValid(w: World, calls: seq<Call>, start: int)
    requires Monotone(calls, start)
    ensures Valid(Run(w, EMPTY, calls), Clock(calls, start))
  {
    RunKeepsValid(w, EMPTY, calls, start);
  }

  // ---------- rollback ----------

  /** Rolling back to v succeeds exactly for the versions 1..Version of an existing
      memory, and brings back snapshot v as the next version, undeleted. */
  lemma RollbackBringsBack(w: World, db: Db, clock: int, actor: Actor, ns: string, id: string, v: int, now: int)
    requires Valid(db, clock)
    ensures var (after, r) := RollbackMemory(w, db, actor, ns, id, v, now);
            && (r.Ok? <==> Has(db, ns, id) && 1 <= v <= db.rows[id].version)
            && (r.Err? ==> after == db)
            && (r.Ok? ==>
                  && v <= |History(db.versions, id)| && id in after.rows
                  && after.rows[id].content == History(db.versions, id)[v - 1].content
                  && !after.rows[id].isDeleted
                  && after.rows[id].version == db.rows[id].version + 1)
  {
    VersionIsUnique(db, clock, ns, id, v);
    if id in db.rows {
      RowFacts(db, clock, id);
    }
  }

  /** Snapshot n of a memory that is now at version n holds its content for ever. */
  lemma ContentIsKept(w: World, db: Db, calls: seq<Call>, start: int, id: string)
    requires Valid(db, start) && Monotone(calls, start) && id in db.rows
    ensures var m := db.rows[id];
            var later := Run(w, db, calls);
            && 1 <= m.version <= |History(later.versions, id)|
            && History(later.versions, id)[m.version - 1].content == m.content
  {
    RunKeepsValid(w, db, calls, start);
    HistoryGrows(db.versions, Run(w, db, calls).versions, id);
    assert RowOk(db.versions, id, db.rows[id], start);
  }

  /** Rolling back restores the content a memory had when it was at that version,
      whatever happened in between: updates, deletes, promotions, decay, other
      rollbacks, calls on other memories. */
  lemma RollbackRestores(w: World, db: Db, calls: seq<Call>, start: int, id: string, actor: Actor, now: int)
    requires Valid(db, start) && Monotone(calls, start) && id in db.rows
    ensures var m := db.rows[id];
            var before := Run(w, db, calls);
            var (after, r) := RollbackMemory(w, before, actor, m.ns, id, m.version, now);
            && r.Ok? && id in before.rows && id in after.rows
            && after.rows[id].content == m.content
            && after.rows[id].version == before.rows[id].version + 1
  {
    var m := db.rows[id];
    RunKeepsValid(w, db, calls, start);
    ContentIsKept(w, db, calls, start, id);
    RollbackBringsBack(w, Run(w, db, calls), Clock(calls, start), actor, m.ns, id, m.version, now);
  }

  /** Rolling back to a version and then to the one just left gives back the
      content that was there. */
  lemma RollbackTwice(w: World, db: Db, clock: int, id: string, v: int, actor: Actor, actor': Actor, now: int, now': int)
    requires Valid(db, clock) && clock <= now <= now' && id in db.rows && 1 <= v <= db.rows[id].version
    ensures var m := db.rows[id];
            var (there, r) := RollbackMemory(w, db, actor, m.ns, id, v, now);
            var (back, r') := RollbackMemory(w, there, actor', m.ns, id, m.version, now');
            r.Ok? && r'.Ok? && id in back.rows && back.rows[id].content == m.content && back.rows[id].version == m.version + 2
  {
    var m := db.rows[id];
    VersionIsUnique(db, clock, m.ns, id, v);
    var calls := [Call(Rollback(actor, m.ns, id, v), now)];
    assert Run(w, db, []) == db && calls[..0] == [];
    assert Run(w, db, calls) == RollbackMemory(w, db, actor, m.ns, id, v, now).0;
    RollbackRestores(w, db, calls, clock, id, actor', now');
  }
}
