/** The audit log retells the version log: over every run, each version of a memory has
    its own change entry, and these entries link one state of the memory to the next. */
module MemoryLedger {
  import opened Common
  import opened MemoryModel
  import opened MemoryHistory

  /** The audit actions that record a change of a memory. */
  predicate IsChange(action: string) {
    action in ["write", "update", "rollback", "delete", "promote", "decay"]
  }

  /** The change entries of one memory, oldest first. */
  function Changes(audit: seq<AuditEntry>, id: string): seq<AuditEntry> {
    if audit == [] then []
    else
      var earlier := Changes(audit[..|audit| - 1], id);
      var last := audit[|audit| - 1];
      if last.entityId == id && IsChange(last.action) then earlier + [last] else earlier
  }

  /** The hash of the memory after the change.  A delete notes it as the hash before. */
  function HashAfter(e: AuditEntry): string {
    if e.action == "delete" then e.beforeHash else e.afterHash
  }

  /** The reason under which the version of a change is saved. */
  predicate IsReasonOf(action: string, reason: string) {
    match action
    case "write" => reason == "create"
    case "promote" => reason == "tier_promotion"
    case "rollback" => "rollback:" <= reason
    case _ => reason == action
  }

  predicate SignedBy(w: World, e: AuditEntry, v: Version, actor: Actor) {
    && v.changedBy == w.renderActor(actor) && e.agentId == actor.agentId
    && e.actorKind == if IsBlank(actor.kind) then "system" else actor.kind
  }

  /** Entry and version tell of the same change: its place, time, actor, reason and outcome. */
  ghost predicate Retells(w: World, e: AuditEntry, v: Version) {
    && e.ns == v.ns && e.createdAt == v.createdAt && IsReasonOf(e.action, v.reason)
    && (exists actor: Actor :: SignedBy(w, e, v, actor))
    && (HashAfter(e) == HashOf(w, v.content, false) || HashAfter(e) == HashOf(w, v.content, true))
  }

  function HashOf(w: World, c: Content, deleted: bool): string {
    w.hash(c.title + "|" + c.text + "|" + c.metadata + "|" + c.provenance + "|"
           + w.itoa(c.tier) + "|" + (if deleted then "true" else "false"))
  }

  /** This change starts from where the one before ended; a creation does so from nothing, and only
      a delete does not say where it started. */
  predicate GoesOn(changes: seq<AuditEntry>, e: AuditEntry) {
    if changes == [] then e.action == "write" && e.beforeHash == ""
    else e.action != "write" && (e.action != "delete" ==> e.beforeHash == HashAfter(changes[|changes| - 1]))
  }

  predicate Linked(changes: seq<AuditEntry>) {
    changes == [] || (Linked(changes[..|changes| - 1]) && GoesOn(changes[..|changes| - 1], changes[|changes| - 1]))
  }

  /** One change for each version, in order. */
  ghost predicate AllRetell(w: World, changes: seq<AuditEntry>, history: seq<Version>) {
    |changes| == |history| && forall k :: 0 <= k < |changes| ==> Retells(w, changes[k], history[k])
  }

  /** They link up, and end in this hash. */
  ghost predicate Tells(w: World, changes: seq<AuditEntry>, history: seq<Version>, hash: string) {
    && AllRetell(w, changes, history) && Linked(changes)
    && changes != [] && HashAfter(changes[|changes| - 1]) == hash
  }

  ghost predicate IdRetold(w: World, db: Db, id: string) {
    if id in db.rows
    then Tells(w, Changes(db.audit, id), History(db.versions, id), HashOf(w, db.rows[id].content, db.rows[id].isDeleted))
    else Changes(db.audit, id) == []
  }

  ghost predicate Retold(w: World, db: Db) {
    forall id :: IdRetold(w, db, id)
  }

  lemma ChangesAppend(audit: seq<AuditEntry>, e: AuditEntry, id: string)
    ensures Changes(audit + [e], id) == if e.entityId == id && IsChange(e.action) then Changes(audit, id) + [e] else Changes(audit, id)
  {
    assert (audit + [e])[..|audit|] == audit;
  }

  // ---------- what is no change ----------

  lemma NoteKeepsRetold(w: World, db: Db, actor: Actor, ns: string, action: string, entityId: string, entityType: string,
                        beforeHash: string, afterHash: string, now: int)
    requires Retold(w, db) && !IsChange(action)
    ensures Retold(w, AppendAudit(w, db, actor, ns, action, entityId, entityType, beforeHash, afterHash, now))
  {
    var db' := AppendAudit(w, db, actor, ns, action, entityId, entityType, beforeHash, afterHash, now);
    forall id ensures IdRetold(w, db', id) {
      assert IdRetold(w, db, id);
      ChangesAppend(db.audit, db'.audit[|db.audit|], id);
    }
  }

  lemma TouchedIsRetold(w: World, db: Db, id: string, now: int)
    requires Retold(w, db) && id in db.rows
    ensures Retold(w, db.(rows := db.rows[id := Touched(db.rows[id], now)]))
  {
    var db' := db.(rows := db.rows[id := Touched(db.rows[id], now)]);
    forall i ensures IdRetold(w, db', i) {
      assert IdRetold(w, db, i);
    }
  }

  // ---------- what is one ----------

  /** The entry is the next change of this memory, to this state. */
  predicate Follows(w: World, db: Db, m: Memory, reason: string, action: string, beforeHash: string, afterHash: string) {
    && IsChange(action) && IsReasonOf(action, reason)
    && HashOf(w, m.content, m.isDeleted) == (if action == "delete" then beforeHash else afterHash)
    && if m.id in db.rows then
         action != "write"
         && (action != "delete" ==> beforeHash == HashOf(w, db.rows[m.id].content, db.rows[m.id].isDeleted))
       else action == "write" && beforeHash == ""
  }

  lemma NextLinked(changes: seq<AuditEntry>, e: AuditEntry)
    requires Linked(changes) && GoesOn(changes, e)
    ensures Linked(changes + [e])
  {
    assert (changes + [e])[..|changes|] == changes;
  }

  lemma NextRetells(w: World, changes: seq<AuditEntry>, history: seq<Version>, e: AuditEntry, v: Version)
    requires AllRetell(w, changes, history) && Retells(w, e, v)
    ensures AllRetell(w, changes + [e], history + [v])
  {
  }

  lemma NextTells(w: World, changes: seq<AuditEntry>, history: seq<Version>, e: AuditEntry, v: Version)
    requires AllRetell(w, changes, history) && Linked(changes) && GoesOn(changes, e) && Retells(w, e, v)
    ensures Tells(w, changes + [e], history + [v], HashAfter(e))
  {
    NextLinked(changes, e);
    NextRetells(w, changes, history, e, v);
  }

  lemma EntryRetells(w: World, m: Memory, actor: Actor, e: AuditEntry, v: Version)
    requires v.content == m.content && v.changedBy == w.renderActor(actor) && e.agentId == actor.agentId
    requires e.actorKind == FirstNonEmpty(actor.kind, "system") && e.ns == v.ns && e.createdAt == v.createdAt
    requires IsReasonOf(e.action, v.reason) && HashAfter(e) == HashOf(w, m.content, m.isDeleted)
    ensures Retells(w, e, v)
  {
    assert !IsBlank("system");
    assert SignedBy(w, e, v, actor);
  }

  lemma NewHistoryIsEmpty(db: Db, clock: int, id: string)
    requires Valid(db, clock) && id !in db.rows
    ensures History(db.versions, id) == []
  {
    forall e | e in db.versions ensures e.entityId != id {
      assert EntryOk(db.rows, e);
    }
    HistoryOfStranger(db.versions, id);
  }

  lemma CommittedIsRetold(w: World, db: Db, m: Memory, actor: Actor, reason: string, action: string,
                          beforeHash: string, afterHash: string, now: int)
    requires IdRetold(w, db, m.id) && Valid(db, now) && Follows(w, db, m, reason, action, beforeHash, afterHash)
    ensures IdRetold(w, Commit(w, db, m, actor, reason, m.ns, action, beforeHash, afterHash, now), m.id)
  {
    var db' := Commit(w, db, m, actor, reason, m.ns, action, beforeHash, afterHash, now);
    var e, v := db'.audit[|db.audit|], Snapshot(w, m, actor, reason, now);
    ChangesAppend(db.audit, e, m.id);
    HistoryAppend(db.versions, v, m.id);
    EntryRetells(w, m, actor, e, v);
    if m.id !in db.rows {
      NewHistoryIsEmpty(db, now, m.id);
    }
    NextTells(w, Changes(db.audit, m.id), History(db.versions, m.id), e, v);
  }

  lemma OthersAreRetold(w: World, db: Db, m: Memory, actor: Actor, reason: string, ns: string, action: string,
                        beforeHash: string, afterHash: string, now: int, id: string)
    requires IdRetold(w, db, id) && id != m.id
    ensures IdRetold(w, Commit(w, db, m, actor, reason, ns, action, beforeHash, afterHash, now), id)
  {
    var db' := Commit(w, db, m, actor, reason, ns, action, beforeHash, afterHash, now);
    ChangesAppend(db.audit, db'.audit[|db.audit|], id);
    HistoryAppend(db.versions, Snapshot(w, m, actor, reason, now), id);
  }

  lemma CommitKeepsRetold(w: World, db: Db, m: Memory, actor: Actor, reason: string, action: string,
                          beforeHash: string, afterHash: string, now: int)
    requires Retold(w, db) && Valid(db, now) && Follows(w, db, m, reason, action, beforeHash, afterHash)
    ensures Retold(w, Commit(w, db, m, actor, reason, m.ns, action, beforeHash, afterHash, now))
  {
    forall id ensures IdRetold(w, Commit(w, db, m, actor, reason, m.ns, action, beforeHash, afterHash, now), id) {
      assert IdRetold(w, db, id);
      if id == m.id {
        CommittedIsRetold(w, db, m, actor, reason, action, beforeHash, afterHash, now);
      } else {
        OthersAreRetold(w, db, m, actor, reason, m.ns, action, beforeHash, afterHash, now, id);
      }
    }
  }

  // ---------- every call ----------

  lemma PromotionKeepsRetold(w: World, db: Db, actor: Actor, id: string, now: int)
    requires Retold(w, db) && Valid(db, now) && id in db.rows
    ensures Retold(w, EvaluatePromotion(w, db, actor, db.rows[id], now))
  {
    var m := db.rows[id];
    RowFacts(db, now, id);
    var tier := PromotedTier(m, now);
    if tier.Some? {
      var m' := Advance(m.(content := m.content.(tier := tier.value)), now);
      CommitKeepsRetold(w, db, m', actor, "tier_promotion", "promote", HashMemory(w, m), HashMemory(w, m'), now);
      var noted := Commit(w, db, m', actor, "tier_promotion", m.ns, "promote", HashMemory(w, m), HashMemory(w, m'), now);
      NoteKeepsRetold(w, noted, actor, m.ns, "write_back", m.id, m.entityType, "",
                      w.hash("# " + m.content.title + "\n\n" + m.content.text), now);
    }
  }

  lemma {:induction false} TouchesKeepRetold(w: World, db: Db, actor: Actor, ids: seq<string>, now: int)
    requires Retold(w, db) && Valid(db, now)
    ensures Retold(w, TouchMemories(w, db, actor, ids, now))
  {
    if ids != [] {
      var init, last := ids[..|ids| - 1], ids[|ids| - 1];
      TouchesKeepRetold(w, db, actor, init, now);
      TouchesKeepValid(w, db, actor, init, now);
      var db1 := TouchMemories(w, db, actor, init, now);
      if last in db1.rows {
        TouchedIsRetold(w, db1, last, now);
        TouchedRowKeepsValid(db1, last, now);
        PromotionKeepsRetold(w, db1.(rows := db1.rows[last := Touched(db1.rows[last], now)]), actor, last, now);
      }
    }
  }

  lemma DecayKeepsRetold(w: World, db: Db, actor: Actor, id: string, now: int)
    requires Retold(w, db) && Valid(db, now)
    ensures Retold(w, DecayMemory(w, db, actor, id, now))
  {
    if id in db.rows && Decayed(db.rows[id], now).Some? {
      RowFacts(db, now, id);
      var m, d := db.rows[id], Decayed(db.rows[id], now).value;
      CommitKeepsRetold(w, db, d, actor, "decay", "decay", HashMemory(w, m), HashMemory(w, d), now);
    }
  }

  lemma {:induction false} ScansKeepRetold(w: World, db: Db, actor: Actor, visit: seq<string>, now: int)
    requires Retold(w, db) && Valid(db, now)
    ensures Retold(w, DecayScan(w, db, actor, visit, now)) && Retold(w, PromotionScan(w, db, actor, visit, now))
  {
    if visit != [] {
      var init, last := visit[..|visit| - 1], visit[|visit| - 1];
      ScansKeepRetold(w, db, actor, init, now);
      ScansKeepValid(w, db, actor, init, now);
      DecayKeepsRetold(w, DecayScan(w, db, actor, init, now), actor, last, now);
      var db1 := PromotionScan(w, db, actor, init, now);
      if last in db1.rows {
        PromotionKeepsRetold(w, db1, actor, last, now);
      }
    }
  }

  lemma CreateKeepsRetold(w: World, db: Db, actor: Actor, input: Payload, freshId: string, now: int)
    requires Retold(w, db) && Valid(db, now)
    ensures Retold(w, CreateMemory(w, db, actor, input, freshId, now).0)
  {
    var r := CreateMemory(w, db, actor, input, freshId, now).1;
    if r.Ok? {
      CommitKeepsRetold(w, db, r.value, actor, "create", "write", "", HashMemory(w, r.value), now);
    }
  }

  lemma UpdateKeepsRetold(w: World, db: Db, actor: Actor, ns: string, id: string, patch: Patch, now: int)
    requires Retold(w, db) && Valid(db, now)
    ensures Retold(w, UpdateMemory(w, db, actor, ns, id, patch, now).0)
  {
    var r := UpdateMemory(w, db, actor, ns, id, patch, now).1;
    if r.Ok? {
      RowFacts(db, now, id);
      CommitKeepsRetold(w, db, r.value, actor, "update", "update", HashMemory(w, db.rows[id]), HashMemory(w, r.value), now);
    }
  }

  lemma RollbackKeepsRetold(w: World, db: Db, actor: Actor, ns: string, id: string, v: int, now: int)
    requires Retold(w, db) && Valid(db, now)
    ensures Retold(w, RollbackMemory(w, db, actor, ns, id, v, now).0)
  {
    var r := RollbackMemory(w, db, actor, ns, id, v, now).1;
    if r.Ok? {
      RowFacts(db, now, id);
      CommitKeepsRetold(w, db, r.value, actor, "rollback:" + w.itoa(v), "rollback", HashMemory(w, db.rows[id]), HashMemory(w, r.value), now);
    }
  }

  lemma DeleteKeepsRetold(w: World, db: Db, actor: Actor, ns: string, id: string, now: int)
    requires Retold(w, db) && Valid(db, now)
    ensures Retold(w, SoftDeleteMemory(w, db, actor, ns, id, now).0)
  {
    var r := SoftDeleteMemory(w, db, actor, ns, id, now).1;
    if r.Ok? {
      RowFacts(db, now, id);
      CommitKeepsRetold(w, db, r.value, actor, "delete", "delete", HashMemory(w, r.value), "", now);
    }
  }

  lemma ReadKeepsRetold(w: World, db: Db, actor: Actor, ids: seq<string>, ns: string, action: string, entityId: string,
                        entityType: string, afterHash: string, now: int)
    requires Retold(w, db) && Valid(db, now) && !IsChange(action)
    ensures Retold(w, AppendAudit(w, TouchMemories(w, db, actor, ids, now), actor, ns, action, entityId, entityType, "", afterHash, now))
  {
    TouchesKeepRetold(w, db, actor, ids, now);
    NoteKeepsRetold(w, TouchMemories(w, db, actor, ids, now), actor, ns, action, entityId, entityType, "", afterHash, now);
  }

  /** A call that only makes a note does not pass it off as a change. */
  predicate IsHonest(op: Op) {
    op.Note? ==> !IsChange(op.action)
  }

  lemma StepKeepsRetold(w: World, db: Db, op: Op, clock: int, now: int)
    requires Retold(w, db) && Valid(db, clock) && clock <= now && IsHonest(op)
    ensures Retold(w, Step(w, db, op, now))
  {
    LaterIsFine(db, clock, now);
    match op
    case Create(actor, input, freshId) => CreateKeepsRetold(w, db, actor, input, freshId, now);
    case Get(actor, ns, id) =>
      if Has(db, ns, id) {
        ReadKeepsRetold(w, db, actor, [id], ns, "read", id, db.rows[id].entityType, HashMemory(w, db.rows[id]), now);
      }
    case Browse(actor, ns, found) => ReadKeepsRetold(w, db, actor, found, ns, "browse", "", "memory", "", now);
    case Search(actor, ns, found) =>
      ReadKeepsRetold(w, db, actor, found, ns, "search", "", "memory", "results:" + w.itoa(|found|), now);
    case Update(actor, ns, id, patch) => UpdateKeepsRetold(w, db, actor, ns, id, patch, now);
    case Rollback(actor, ns, id, v) => RollbackKeepsRetold(w, db, actor, ns, id, v, now);
    case Delete(actor, ns, id) => DeleteKeepsRetold(w, db, actor, ns, id, now);
    case RunPromotionScan(actor, visit) => ScansKeepRetold(w, db, actor, visit, now);
    case RunDecayScan(actor, visit) => ScansKeepRetold(w, db, actor, visit, now);
    case Note(actor, ns, action, entityId, entityType, beforeHash, afterHash) =>
      NoteKeepsRetold(w, db, actor, ns, action, entityId, entityType, beforeHash, afterHash, now);
  }

  /** After any run the audit log holds, for every memory, one linked change for each of its
      versions - same time, same actor, fitting reason, hash of that version's content - and the
      last one ends in the hash of the memory as it is. */
  lemma {:induction false} RunIsRetold(w: World, calls: seq<Call>, start: int)
    requires Monotone(calls, start) && forall i :: 0 <= i < |calls| ==> IsHonest(calls[i].op)
    ensures Retold(w, Run(w, EMPTY, calls))
  {
    if calls != [] {
      var init, last := calls[..|calls| - 1], calls[|calls| - 1];
      RunIsRetold(w, init, start);
      ReachableIsValid(w, init, start);
      StepKeepsRetold(w, Run(w, EMPTY, init), last.op, Clock(init, start), last.now);
    }
  }
}
