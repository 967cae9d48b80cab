/** What each call of the memory service promises its caller: what is written is
    read back, a delete deletes, reads promote, idleness decays. */
module MemoryLaws {
  import opened Common
  import opened MemoryModel
  import opened MemoryHistory
  import opened MemoryLifecycle

  const DAY := 24 * 3_600_000_000_000

  // ---------- deleting ----------

  /** A delete succeeds exactly for an existing memory and an actor who may delete; then the
      memory is deleted and keeps its content, and otherwise nothing happens. */
  lemma DeleteDeletes(w: World, db: Db, clock: int, actor: Actor, ns: string, id: string, now: int)
    requires Valid(db, clock)
    ensures var (after, r) := SoftDeleteMemory(w, db, actor, ns, id, now);
      && (r.Ok? <==> id in db.rows && db.rows[id].ns == ns && (actor.kind == "agent" ==> actor.trustTier >= 4))
      && (r.Err? ==> after == db && (r.error == NotFound <==> id !in db.rows || db.rows[id].ns != ns))
      && (r.Ok? ==>
            && id in after.rows && after.rows[id].isDeleted
            && after.rows[id].content == db.rows[id].content
            && after.rows[id].version == db.rows[id].version + 1
            && forall other :: other in db.rows && other != id ==> other in after.rows && after.rows[other] == db.rows[other])
  {
    if id in db.rows {
      RowFacts(db, clock, id);
    }
  }

  lemma UpdateKeepsDeleted(w: World, db: Db, actor: Actor, ns: string, i: string, patch: Patch, now: int, id: string)
    requires Valid(db, now) && id in db.rows && db.rows[id].isDeleted
    ensures var db' := UpdateMemory(w, db, actor, ns, i, patch, now).0; id in db'.rows && db'.rows[id].isDeleted
  {
    if i != id {
      UpdateLeavesAlone(w, db, actor, ns, i, patch, now, id);
    }
  }

  predicate NeverRolledBack(calls: seq<Call>, id: string) {
    forall i :: 0 <= i < |calls| ==> !(calls[i].op.Rollback? && calls[i].op.id == id)
  }

  /** Only a rollback brings a deleted memory back. */
  lemma {:induction false} StaysDeleted(w: World, db: Db, calls: seq<Call>, start: int, id: string)
    requires Valid(db, start) && Monotone(calls, start) && id in db.rows && db.rows[id].isDeleted
    requires NeverRolledBack(calls, id)
    ensures var later := Run(w, db, calls); id in later.rows && later.rows[id].isDeleted
  {
    if calls != [] {
      var init, last := calls[..|calls| - 1], calls[|calls| - 1];
      StaysDeleted(w, db, init, start, id);
      RunKeepsValid(w, db, init, start);
      var before := Run(w, db, init);
      if Intervenes(last.op, id) {
        LaterIsFine(before, Clock(init, start), last.now);
        UpdateKeepsDeleted(w, before, last.op.actor, last.op.ns, last.op.id, last.op.patch, last.now, id);
      } else {
        StepDrifts(w, before, last.op, Clock(init, start), last.now, id);
      }
    }
  }

  lemma DeletedIsNotFound(w: World, db: Db, reader: Actor, ns: string, id: string, now: int)
    requires id in db.rows && db.rows[id].isDeleted
    ensures GetMemory(w, db, reader, ns, id, now) == (db, Err(NotFound))
  {
  }

  /** Once deleted, a memory is not found by anybody, whatever else happens, until it is rolled back. */
  lemma DeletedIsGone(w: World, db: Db, clock: int, actor: Actor, ns: string, id: string, now: int, deleted: Db,
                      calls: seq<Call>, reader: Actor, ns': string, later: int)
    requires Valid(db, clock) && clock <= now && Monotone(calls, now) && NeverRolledBack(calls, id)
    requires var r := SoftDeleteMemory(w, db, actor, ns, id, now); r.0 == deleted && r.1.Ok?
    ensures GetMemory(w, Run(w, deleted, calls), reader, ns', id, later) == (Run(w, deleted, calls), Err(NotFound))
  {
    StepKeepsValid(w, db, Delete(actor, ns, id), clock, now);
    DeleteDeletes(w, db, clock, actor, ns, id, now);
    StaysDeleted(w, deleted, calls, now, id);
    DeletedIsNotFound(w, Run(w, deleted, calls), reader, ns', id, later);
  }

  // ---------- writing ----------

  function ChosenId(input: Payload, freshId: string): string {
    if input.id != "" then input.id else freshId
  }

  /** A creation succeeds exactly with a namespace, the right to write at that tier, an embedding,
      a text and a new id, and otherwise changes nothing. */
  lemma CreateOkIff(w: World, db: Db, actor: Actor, input: Payload, freshId: string, now: int)
    ensures var (after, r) := CreateMemory(w, db, actor, input, freshId, now);
      && (r.Ok? <==>
            && (input.ns != "" || actor.ns != "") && ChosenId(input, freshId) !in db.rows && !IsBlank(input.text)
            && (actor.kind == "agent" ==> actor.trustTier >= (if input.tier >= 2 then 4 else 2))
            && w.embed(TrimSpace(input.title + " " + input.text)).Some?)
      && (r.Err? ==> after == db)
  {
  }

  lemma NewMemoryRecords(w: World, actor: Actor, input: Payload, id: string, ns: string, embedding: string, now: int)
    ensures var m := NewMemory(w, actor, input, id, ns, embedding, now);
      && m.id == id && m.ns == ns && m.teamId == input.teamId
      && m.version == 1 && !m.isDeleted && m.accessCount == 0 && m.createdAt == now && m.lastAccessedAt == None
      && (!IsBlank(input.entityType) ==> m.entityType == input.entityType)
      && (!IsBlank(input.syncPath) ==> m.syncPath == input.syncPath)
      && m.decayAt == (if m.content.tier == 0 then Some(now + DAY) else if m.content.tier == 1 then Some(now + 30 * DAY) else None)
  {
    assert IsBlank("");
  }

  lemma CreateStores(w: World, db: Db, actor: Actor, input: Payload, freshId: string, now: int)
    returns (ns: string, embedding: string)
    requires CreateMemory(w, db, actor, input, freshId, now).1.Ok?
    ensures ns == if input.ns != "" then input.ns else actor.ns
    ensures var (after, r) := CreateMemory(w, db, actor, input, freshId, now);
      && r.value == NewMemory(w, actor, input, ChosenId(input, freshId), ns, embedding, now)
      && after.rows == db.rows[ChosenId(input, freshId) := r.value]
      && w.embed(TrimSpace(input.title + " " + input.text)) == Some(embedding)
  {
    ns := if input.ns != "" then input.ns else actor.ns;
    embedding := w.embed(TrimSpace(input.title + " " + input.text)).value;
  }

  /** Then the row holds what was given, and no other row is touched. */
  lemma CreateRecords(w: World, db: Db, actor: Actor, input: Payload, freshId: string, now: int)
    requires CreateMemory(w, db, actor, input, freshId, now).1.Ok?
    ensures var (after, r) := CreateMemory(w, db, actor, input, freshId, now);
      var m := r.value;
      && after.rows == db.rows[ChosenId(input, freshId) := m] && m.id == ChosenId(input, freshId)
      && m.ns == (if input.ns != "" then input.ns else actor.ns) && m.teamId == input.teamId
      && m.version == 1 && !m.isDeleted && m.accessCount == 0 && m.createdAt == now && m.lastAccessedAt == None
      && (!IsBlank(input.entityType) ==> m.entityType == input.entityType)
      && (!IsBlank(input.syncPath) ==> m.syncPath == input.syncPath)
      && m.decayAt == (if m.content.tier == 0 then Some(now + DAY) else if m.content.tier == 1 then Some(now + 30 * DAY) else None)
  {
    var ns, embedding := CreateStores(w, db, actor, input, freshId, now);
    NewMemoryRecords(w, actor, input, ChosenId(input, freshId), ns, embedding, now);
  }

  lemma CreateRecordsContent(w: World, db: Db, actor: Actor, input: Payload, freshId: string, now: int)
    requires CreateMemory(w, db, actor, input, freshId, now).1.Ok?
    ensures var c := CreateMemory(w, db, actor, input, freshId, now).1.value.content;
      && c.title == input.title && c.text == TrimSpace(input.text)
      && Some(c.embedding) == w.embed(TrimSpace(input.title + " " + input.text))
      && c.metadata == w.json(input.metadata)
      && (input.provenance.Some? ==> c.provenance == w.json(input.provenance))
      && c.identity == w.json(Some(CreationIdentity(input.identity, actor)))
      && 0 <= c.tier <= 3 && (0 <= input.tier <= 3 ==> c.tier == input.tier)
  {
    var _, _ := CreateStores(w, db, actor, input, freshId, now);
  }

  /** The identity of a new memory keeps what was given and says who created it, and how. */
  lemma IdentityIsKept(identity: Option<JsonMap>, actor: Actor)
    ensures var r := CreationIdentity(identity, actor);
      && (identity.Some? ==> forall key :: HasValue(identity.value, key) ==> HasValue(r, key) && r[key] == identity.value[key])
      && (identity.None? || !HasValue(identity.value, "createdByAgentId") ==>
            if actor.agentId != "" then HasValue(r, "createdByAgentId") && r["createdByAgentId"] == JsonString(actor.agentId)
            else !HasValue(r, "createdByAgentId"))
      && (identity.None? || !HasValue(identity.value, "createdVia") ==>
            HasValue(r, "createdVia") && r["createdVia"] == JsonString(if IsBlank(actor.kind) then "api" else actor.kind))
  {
  }

  /** An update succeeds exactly for an existing memory, the right to write at its tier and at the
      new one, and an embedding for a new text. */
  lemma UpdateOkIff(w: World, db: Db, actor: Actor, ns: string, id: string, patch: Patch, now: int)
    ensures var (after, r) := UpdateMemory(w, db, actor, ns, id, patch, now);
      && (r.Err? ==> after == db)
      && (r.Ok? <==>
            && id in db.rows && db.rows[id].ns == ns
            && var m := db.rows[id];
            && (actor.kind == "agent" ==> actor.trustTier >= (if m.content.tier >= 2 then 4 else 2))
            && (actor.kind == "agent" && patch.tier.Some? ==> actor.trustTier >= (if Truncate(patch.tier.value) >= 2 then 4 else 2))
            && (patch.text.Some? && !IsBlank(patch.text.value) ==>
                  w.embed((if patch.title.Some? then TrimSpace(patch.title.value) else m.content.title)
                          + " " + TrimSpace(patch.text.value)).Some?))
  {
  }

  /** What is given is written, trimmed, and what is not given is kept. */
  lemma UpdateRecords(w: World, db: Db, clock: int, actor: Actor, ns: string, id: string, patch: Patch, now: int)
    requires Valid(db, clock) && UpdateMemory(w, db, actor, ns, id, patch, now).1.Ok?
    ensures var after := UpdateMemory(w, db, actor, ns, id, patch, now).0;
      && id in db.rows && id in after.rows
      && var c, c', m, m' := db.rows[id].content, after.rows[id].content, db.rows[id], after.rows[id];
      && c'.title == (if patch.title.Some? then TrimSpace(patch.title.value) else c.title)
      && (if patch.text.Some? && !IsBlank(patch.text.value)
          then c'.text == TrimSpace(patch.text.value) && Some(c'.embedding) == w.embed(c'.title + " " + c'.text)
          else c'.text == c.text && c'.embedding == c.embedding)
      && c'.metadata == (if patch.metadata.Some? then w.json(patch.metadata) else c.metadata)
      && c'.provenance == (if patch.provenance.Some? then w.json(patch.provenance) else c.provenance)
      && c'.identity == (if patch.identity.Some? then w.json(patch.identity) else c.identity)
      && (patch.tier.None? ==> c'.tier == c.tier)
      && (patch.tier.Some? && 0.0 <= patch.tier.value < 4.0 ==>
            0.0 <= patch.tier.value - c'.tier as real < 1.0)
      && m'.entityType == (if patch.entityType.Some? && patch.entityType.value != "" then patch.entityType.value else m.entityType)
      && (patch.metadata.None? ==> m'.syncPath == m.syncPath)
      && m'.version == m.version + 1 && m'.isDeleted == m.isDeleted && m'.accessCount == m.accessCount
      && forall other :: other in db.rows && other != id ==> other in after.rows && after.rows[other] == db.rows[other]
  {
    RowFacts(db, clock, id);
  }

  /** The same but for the tier. */
  predicate SameText(a: Content, b: Content) {
    b == a.(tier := b.tier)
  }

  /** What an automatic change leaves alone. */
  predicate KeepsText(m: Memory, m': Memory) {
    && m'.id == m.id && m'.ns == m.ns && m'.teamId == m.teamId && m'.entityType == m.entityType && m'.syncPath == m.syncPath
    && SameText(m.content, m'.content) && m'.createdAt == m.createdAt && m'.manualPromote == m.manualPromote
  }

  lemma TouchKeepsText(w: World, db: Db, actor: Actor, id: string, now: int, other: string)
    requires Valid(db, now) && other in db.rows
    ensures var db' := TouchMemory(w, db, actor, id, now); other in db'.rows && KeepsText(db.rows[other], db'.rows[other])
  {
    if id in db.rows {
      TouchedRowKeepsValid(db, id, now);
      PromotionKeepsText(w, db.(rows := db.rows[id := Touched(db.rows[id], now)]), actor, id, now, other);
    }
  }

  lemma {:induction false} TouchesKeepText(w: World, db: Db, actor: Actor, ids: seq<string>, now: int, other: string)
    requires Valid(db, now) && other in db.rows
    ensures var db' := TouchMemories(w, db, actor, ids, now); other in db'.rows && KeepsText(db.rows[other], db'.rows[other])
  {
    if ids != [] {
      TouchesKeepText(w, db, actor, ids[..|ids| - 1], now, other);
      TouchesKeepValid(w, db, actor, ids[..|ids| - 1], now);
      TouchKeepsText(w, TouchMemories(w, db, actor, ids[..|ids| - 1], now), actor, ids[|ids| - 1], now, other);
    }
  }

  lemma DecayKeepsText(w: World, db: Db, actor: Actor, id: string, now: int, other: string)
    requires Valid(db, now) && other in db.rows
    ensures var db' := DecayMemory(w, db, actor, id, now); other in db'.rows && KeepsText(db.rows[other], db'.rows[other])
  {
    if id in db.rows {
      RowFacts(db, now, id);
    }
  }

  lemma PromotionKeepsText(w: World, db: Db, actor: Actor, id: string, now: int, other: string)
    requires Valid(db, now) && other in db.rows
    ensures var db' := PromoteMemory(w, db, actor, id, now); other in db'.rows && KeepsText(db.rows[other], db'.rows[other])
  {
    if id in db.rows {
      PromoteIff(w, db, actor, id, now);
    }
  }

  lemma {:induction false} DecayScanKeepsText(w: World, db: Db, actor: Actor, visit: seq<string>, now: int, other: string)
    requires Valid(db, now) && other in db.rows
    ensures var db' := DecayScan(w, db, actor, visit, now); other in db'.rows && KeepsText(db.rows[other], db'.rows[other])
  {
    if visit != [] {
      var init, last := visit[..|visit| - 1], visit[|visit| - 1];
      DecayScanKeepsText(w, db, actor, init, now, other);
      ScansKeepValid(w, db, actor, init, now);
      DecayKeepsText(w, DecayScan(w, db, actor, init, now), actor, last, now, other);
    }
  }

  lemma {:induction false} PromotionScanKeepsText(w: World, db: Db, actor: Actor, visit: seq<string>, now: int, other: string)
    requires Valid(db, now) && other in db.rows
    ensures var db' := PromotionScan(w, db, actor, visit, now); other in db'.rows && KeepsText(db.rows[other], db'.rows[other])
  {
    if visit != [] {
      var init, last := visit[..|visit| - 1], visit[|visit| - 1];
      PromotionScanKeepsText(w, db, actor, init, now, other);
      ScansKeepValid(w, db, actor, init, now);
      PromotionKeepsText(w, PromotionScan(w, db, actor, init, now), actor, last, now, other);
    }
  }

  lemma DeleteKeepsText(w: World, db: Db, actor: Actor, ns: string, i: string, now: int, id: string)
    requires Valid(db, now) && id in db.rows
    ensures var db' := SoftDeleteMemory(w, db, actor, ns, i, now).0; id in db'.rows && KeepsText(db.rows[id], db'.rows[id])
  {
    if i in db.rows {
      RowFacts(db, now, i);
    }
  }

  lemma StepKeepsText(w: World, db: Db, op: Op, clock: int, now: int, id: string)
    requires Valid(db, clock) && clock <= now && id in db.rows && !Intervenes(op, id)
    ensures var db' := Step(w, db, op, now); id in db'.rows && KeepsText(db.rows[id], db'.rows[id])
  {
    LaterIsFine(db, clock, now);
    match op {
      case Get(actor, ns, i) => TouchesKeepText(w, db, actor, [i], now, id);
      case Browse(actor, ns, found) => TouchesKeepText(w, db, actor, found, now, id);
      case Search(actor, ns, found) => TouchesKeepText(w, db, actor, found, now, id);
      case RunPromotionScan(actor, visit) => PromotionScanKeepsText(w, db, actor, visit, now, id);
      case RunDecayScan(actor, visit) => DecayScanKeepsText(w, db, actor, visit, now, id);
      case Note(_, _, _, _, _, _, _) =>
      case Create(actor, input, freshId) => CreateLeavesAlone(w, db, actor, input, freshId, now, id);
      case Update(actor, ns, i, patch) => UpdateLeavesAlone(w, db, actor, ns, i, patch, now, id);
      case Rollback(actor, ns, i, v) => RollbackLeavesAlone(w, db, actor, ns, i, v, now, id);
      case Delete(actor, ns, i) => DeleteKeepsText(w, db, actor, ns, i, now, id);
    }
  }

  lemma {:induction false} RunKeepsText(w: World, db: Db, calls: seq<Call>, start: int, id: string)
    requires Valid(db, start) && Monotone(calls, start) && id in db.rows
    requires forall i :: 0 <= i < |calls| ==> !Intervenes(calls[i].op, id)
    ensures var later := Run(w, db, calls); id in later.rows && KeepsText(db.rows[id], later.rows[id])
  {
    if calls != [] {
      var init, last := calls[..|calls| - 1], calls[|calls| - 1];
      RunKeepsText(w, db, init, start, id);
      RunKeepsValid(w, db, init, start);
      StepKeepsText(w, Run(w, db, init), last.op, Clock(init, start), last.now, id);
    }
  }

  /** What a creation or an update wrote is what a reader gets, after every run without an update
      or rollback of that memory: the same text and data, at whatever tier it is by then, as long
      as it is not deleted. */
  lemma WrittenIsRead(w: World, db: Db, calls: seq<Call>, start: int, id: string, reader: Actor, now: int)
    requires Valid(db, start) && Monotone(calls, start) && id in db.rows
    requires forall i :: 0 <= i < |calls| ==> !Intervenes(calls[i].op, id)
    ensures var later := Run(w, db, calls);
      var r := GetMemory(w, later, reader, db.rows[id].ns, id, now).1;
      && id in later.rows
      && (r.Ok? <==> !later.rows[id].isDeleted)
      && (r.Ok? ==> KeepsText(db.rows[id], r.value) && r.value.content.tier == later.rows[id].content.tier)
  {
    RunKeepsText(w, db, calls, start, id);
  }

  /** An agent is shown the text exactly up to its trust tier, and everything else as it is. */
  lemma ShownIff(actor: Actor, m: Memory)
    ensures var seen := ShownTo(actor, m);
      && seen == m.(content := m.content.(text := seen.content.text))
      && seen.content.text ==
           if actor.kind != "agent" || m.content.tier <= actor.trustTier || (actor.trustTier == 0 && m.content.tier <= 1)
           then m.content.text else "[redacted: higher trust tier required]"
  {
  }

  // ---------- reading ----------

  /** Enough accesses, or a mark by hand, have come together, and within a day at tier 0. */
  predicate IsDue(tier: int, accesses: int, marked: bool, createdAt: int, now: int) {
    || (tier == 0 && (accesses >= 3 || marked) && createdAt > now - DAY)
    || (tier == 1 && (accesses >= 5 || marked))
    || (tier == 2 && (accesses >= 10 || marked))
  }

  /** The memory climbs by one tier, as its next version, exactly if this holds. */
  predicate ClimbsIf(due: bool, m: Memory, m': Memory) {
    && m'.content.tier == (if due then m.content.tier + 1 else m.content.tier)
    && m'.version == (if due then m.version + 1 else m.version)
    && m'.isDeleted == m.isDeleted && KeepsText(m, m')
  }

  predicate OthersStay(rows: map<string, Memory>, rows': map<string, Memory>, id: string) {
    rows'.Keys == rows.Keys && forall other :: other in rows && other != id ==> rows'[other] == rows[other]
  }

  lemma PromoteIff(w: World, db: Db, actor: Actor, id: string, now: int)
    requires Valid(db, now) && id in db.rows
    ensures var m, after := db.rows[id], PromoteMemory(w, db, actor, id, now);
      && OthersStay(db.rows, after.rows, id)
      && ClimbsIf(IsDue(m.content.tier, m.accessCount, m.manualPromote, m.createdAt, now), m, after.rows[id])
      && after.rows[id].accessCount == m.accessCount && after.rows[id].lastAccessedAt == m.lastAccessedAt
  {
    RowFacts(db, now, id);
  }

  /** One access. */
  predicate Counted(m: Memory, m': Memory, now: int) {
    && m'.accessCount == m.accessCount + 1 && m'.lastAccessedAt == Some(now) && m'.updatedAt == now
    && ClimbsIf(IsDue(m.content.tier, m.accessCount + 1, m.manualPromote, m.createdAt, now), m, m')
  }

  lemma TouchCounts(w: World, db: Db, actor: Actor, id: string, now: int)
    requires Valid(db, now) && id in db.rows
    ensures var after := TouchMemory(w, db, actor, id, now);
      OthersStay(db.rows, after.rows, id) && Counted(db.rows[id], after.rows[id], now)
  {
    TouchedRowKeepsValid(db, id, now);
    PromoteIff(w, db.(rows := db.rows[id := Touched(db.rows[id], now)]), actor, id, now);
  }

  /** A browse or a search counts one access of each row that it found, and touches no other row. */
  lemma {:induction false} TouchesCount(w: World, db: Db, actor: Actor, ids: seq<string>, now: int)
    requires Valid(db, now) && NoDuplicates(ids)
    ensures var after := TouchMemories(w, db, actor, ids, now);
      && after.rows.Keys == db.rows.Keys
      && forall id :: id in db.rows ==>
           if id in ids then Counted(db.rows[id], after.rows[id], now) else after.rows[id] == db.rows[id]
  {
    if ids != [] {
      var init, last := ids[..|ids| - 1], ids[|ids| - 1];
      assert ids == init + [last];
      TouchesCount(w, db, actor, init, now);
      TouchesKeepValid(w, db, actor, init, now);
      if last in db.rows {
        TouchCounts(w, TouchMemories(w, db, actor, init, now), actor, last, now);
      }
    }
  }

  /** A promotion scan promotes exactly those it visits that are due. */
  lemma {:induction false} ScanPromotesIff(w: World, db: Db, actor: Actor, visit: seq<string>, now: int)
    requires Valid(db, now) && NoDuplicates(visit)
    ensures var after := PromotionScan(w, db, actor, visit, now);
      && after.rows.Keys == db.rows.Keys
      && forall id :: id in db.rows ==>
           var m := db.rows[id];
           ClimbsIf(id in visit && IsDue(m.content.tier, m.accessCount, m.manualPromote, m.createdAt, now), m, after.rows[id])
  {
    if visit != [] {
      var init, last := visit[..|visit| - 1], visit[|visit| - 1];
      assert visit == init + [last];
      UnvisitedIsNotPromoted(w, db, actor, init, now, last);
      ScanPromotesIff(w, db, actor, init, now);
      ScansKeepValid(w, db, actor, init, now);
      if last in db.rows {
        PromoteIff(w, PromotionScan(w, db, actor, init, now), actor, last, now);
      }
    }
  }

  lemma {:induction false} UnvisitedIsNotPromoted(w: World, db: Db, actor: Actor, visit: seq<string>, now: int, id: string)
    requires Valid(db, now) && id !in visit
    ensures var after := PromotionScan(w, db, actor, visit, now);
      (id in after.rows <==> id in db.rows) && (id in db.rows ==> after.rows[id] == db.rows[id])
  {
    if visit != [] {
      var init, last := visit[..|visit| - 1], visit[|visit| - 1];
      assert visit == init + [last];
      UnvisitedIsNotPromoted(w, db, actor, init, now, id);
      ScansKeepValid(w, db, actor, init, now);
      var before := PromotionScan(w, db, actor, init, now);
      if last in before.rows {
        PromoteIff(w, before, actor, last, now);
      }
    }
  }

  /** Reading a visible memory gives it as it was, counts the access and promotes it if it is due then. */
  lemma ReadPromotesIff(w: World, db: Db, actor: Actor, ns: string, id: string, now: int)
    requires Valid(db, now)
    ensures var (after, r) := GetMemory(w, db, actor, ns, id, now);
      && (r.Err? ==> after == db && r.error == NotFound)
      && (r.Ok? <==> id in db.rows && db.rows[id].ns == ns && !db.rows[id].isDeleted)
      && (r.Ok? ==>
            && r.value == db.rows[id]
            && OthersStay(db.rows, after.rows, id) && Counted(db.rows[id], after.rows[id], now))
  {
    if Has(db, ns, id) {
      assert [id][..0] == [];
      assert TouchMemories(w, db, actor, [id], now) == TouchMemory(w, db, actor, id, now);
      TouchCounts(w, db, actor, id, now);
    }
  }

  /** The calls are n reads of this memory. */
  predicate AreReads(calls: seq<Call>, ns: string, id: string) {
    forall i :: 0 <= i < |calls| ==> calls[i].op.Get? && calls[i].op.ns == ns && calls[i].op.id == id
  }

  /** A new memory that is read n times within a day of its creation has climbed by that number alone. */
  lemma {:induction false} ReadsClimb(w: World, db: Db, calls: seq<Call>, start: int, id: string)
    requires Valid(db, start) && Monotone(calls, start) && id in db.rows
    requires var m := db.rows[id];
      m.content.tier == 0 && m.accessCount == 0 && !m.manualPromote && !m.isDeleted && AreReads(calls, m.ns, id)
    requires forall i :: 0 <= i < |calls| ==> calls[i].now < db.rows[id].createdAt + DAY
    ensures var later, n := Run(w, db, calls), |calls|;
      && id in later.rows && later.rows[id].accessCount == n
      && later.rows[id].ns == db.rows[id].ns && later.rows[id].createdAt == db.rows[id].createdAt
      && !later.rows[id].isDeleted && !later.rows[id].manualPromote
      && later.rows[id].content.tier == if n < 3 then 0 else if n < 5 then 1 else if n < 10 then 2 else 3
  {
    if calls != [] {
      var init, last := calls[..|calls| - 1], calls[|calls| - 1];
      ReadsClimb(w, db, init, start, id);
      RunKeepsValid(w, db, init, start);
      LaterIsFine(Run(w, db, init), Clock(init, start), last.now);
      ReadPromotesIff(w, Run(w, db, init), last.op.actor, last.op.ns, id, last.now);
    }
  }

  // ---------- decay ----------

  predicate IsIdle(m: Memory, now: int) {
    (if m.lastAccessedAt.Some? then m.lastAccessedAt.value else m.updatedAt) < now - 30 * DAY
  }

  /** The decay of one memory: a tier-0 memory older than a day is deleted, a tier-1 memory that
      was idle for thirty days falls to tier 0, and any other is left as it is. */
  lemma DecayIff(w: World, db: Db, actor: Actor, id: string, now: int)
    requires Valid(db, now) && id in db.rows
    ensures var m, after := db.rows[id], DecayMemory(w, db, actor, id, now);
      && id in after.rows
      && after.rows[id].isDeleted == (m.isDeleted || (m.content.tier == 0 && m.createdAt < now - DAY))
      && after.rows[id].content.tier == (if m.content.tier == 1 && IsIdle(m, now) then 0 else m.content.tier)
      && (after == db <==> !(m.content.tier == 0 && m.createdAt < now - DAY) && !(m.content.tier == 1 && IsIdle(m, now)))
      && forall other :: other in db.rows && other != id ==> other in after.rows && after.rows[other] == db.rows[other]
  {
    RowFacts(db, now, id);
  }

  lemma {:induction false} UnvisitedStays(w: World, db: Db, actor: Actor, visit: seq<string>, now: int, id: string)
    requires Valid(db, now) && id in db.rows && id !in visit
    ensures var db' := DecayScan(w, db, actor, visit, now); id in db'.rows && db'.rows[id] == db.rows[id]
  {
    if visit != [] {
      var init, last := visit[..|visit| - 1], visit[|visit| - 1];
      assert visit == init + [last];
      UnvisitedStays(w, db, actor, init, now, id);
      ScansKeepValid(w, db, actor, init, now);
      var before := DecayScan(w, db, actor, init, now);
      if last in before.rows {
        DecayIff(w, before, actor, last, now);
      }
    }
  }

  lemma IdleIsDoomed(w: World, db: Db, actor: Actor, visit: seq<string>, now: int, id: string)
    requires Valid(db, now) && id in db.rows && db.rows[id].content.tier == 1 && IsIdle(db.rows[id], now)
    requires NoDuplicates(visit) && id in visit
    ensures var demoted := DecayScan(w, db, actor, visit, now);
      Valid(demoted, now) && id in demoted.rows && Doomed(demoted.rows[id], now)
  {
    var k :| 0 <= k < |visit| && visit[k] == id;
    DemotedAt(w, db, actor, visit, now, id, k);
    DecayScanDrifts(w, db, actor, visit, now, id);
    ScansKeepValid(w, db, actor, visit, now);
  }

  /** A scan that visits a memory idle at tier 1 takes it to tier 0, where no read helps it any more:
      after any calls but an update or rollback of it, the next scan that visits it deletes it. */
  lemma IdleIsForgotten(w: World, db: Db, actor: Actor, visit: seq<string>, now: int, calls: seq<Call>, id: string,
                        actor': Actor, visit': seq<string>, now': int)
    requires Valid(db, now) && id in db.rows && db.rows[id].content.tier == 1 && IsIdle(db.rows[id], now)
    requires NoDuplicates(visit) && id in visit && id in visit'
    requires Monotone(calls, now) && Clock(calls, now) <= now' && forall i :: 0 <= i < |calls| ==> !Intervenes(calls[i].op, id)
    ensures var demoted := DecayScan(w, db, actor, visit, now);
      id in demoted.rows && demoted.rows[id].content.tier == 0
    ensures var forgotten := DecayScan(w, Run(w, DecayScan(w, db, actor, visit, now), calls), actor', visit', now');
      id in forgotten.rows && forgotten.rows[id].isDeleted
  {
    IdleIsDoomed(w, db, actor, visit, now, id);
    DoomedIsForgotten(w, DecayScan(w, db, actor, visit, now), calls, now, id, actor', visit', now');
  }

  lemma DoomedIsForgotten(w: World, db: Db, calls: seq<Call>, start: int, id: string, actor: Actor, visit: seq<string>, now: int)
    requires Valid(db, start) && id in db.rows && Doomed(db.rows[id], start) && id in visit
    requires Monotone(calls, start) && Clock(calls, start) <= now && forall i :: 0 <= i < |calls| ==> !Intervenes(calls[i].op, id)
    ensures var forgotten := DecayScan(w, Run(w, db, calls), actor, visit, now);
      id in forgotten.rows && forgotten.rows[id].isDeleted
  {
    DoomedStaysDoomed(w, db, calls, start, id);
    RunKeepsValid(w, db, calls, start);
    var later := Run(w, db, calls);
    LaterIsFine(later, Clock(calls, start), now);
    assert start <= Clock(calls, start);
    DecayScanDrifts(w, later, actor, visit, now, id);
  }

  lemma {:induction false} DemotedAt(w: World, db: Db, actor: Actor, visit: seq<string>, now: int, id: string, k: nat)
    requires Valid(db, now) && id in db.rows && db.rows[id].content.tier == 1 && IsIdle(db.rows[id], now)
    requires NoDuplicates(visit) && k < |visit| && visit[k] == id
    ensures var demoted := DecayScan(w, db, actor, visit, now); id in demoted.rows && demoted.rows[id].content.tier == 0
  {
    var init, last := visit[..|visit| - 1], visit[|visit| - 1];
    var before := DecayScan(w, db, actor, init, now);
    ScansKeepValid(w, db, actor, init, now);
    if k == |visit| - 1 {
      UnvisitedStays(w, db, actor, init, now, id);
      DecayIff(w, before, actor, id, now);
    } else {
      DemotedAt(w, db, actor, init, now, id, k);
      if last in before.rows {
        DecayIff(w, before, actor, last, now);
      }
    }
  }
}
