/** The memory service as it runs: tables that its methods change in place.  Each
    method is proved against the value-level call of the same name in MemoryModel,
    about which MemoryHistory, MemoryLifecycle and AuditChain prove their results. */
module MemoryStore {
  import opened Common
  import opened MemoryModel
  import M = MemoryModel

  /** The ids of a list of rows. */
  function Ids(memories: seq<Memory>): (ids: seq<string>)
    ensures |ids| == |memories| && forall k :: 0 <= k < |ids| ==> ids[k] == memories[k].id
  {
    seq(|memories|, k requires 0 <= k < |memories| => memories[k].id)
  }

  class Store {
    const w: World
    var rows: map<string, Memory>
    var versions: seq<Version>
    var audit: seq<AuditEntry>

    constructor (w: World)
      ensures this.w == w && Tables() == EMPTY
    {
      this.w := w;
      rows, versions, audit := map[], [], [];
    }

    function Tables(): Db
      reads this
    {
      Db(rows, versions, audit)
    }

    method SaveVersion(m: Memory, actor: Actor, reason: string, now: int)
      modifies this`versions
      ensures versions == old(versions) + [Snapshot(w, m, actor, reason, now)]
    {
      var version := Version(m.ns, m.id, m.version, m.content, w.renderActor(actor), reason, now);
      versions := versions + [version];
    }

    method AppendAudit(actor: Actor, ns: string, action: string, entityId: string, entityType: string,
                       beforeHash: string, afterHash: string, now: int)
      modifies this`audit
      ensures Tables() == M.AppendAudit(w, old(Tables()), actor, ns, action, entityId, entityType, beforeHash, afterHash, now)
    {
      var chainBase := ChainHead(audit, ns);
      var payload := ChainPayload(w, chainBase, ns, now, afterHash);
      audit := audit + [AuditEntry(ns, actor.agentId, FirstNonEmpty(actor.kind, "system"), action, entityId, entityType,
                                   beforeHash, afterHash, w.hash(payload), now)];
    }

    /** How the service records a changed row: save it, snapshot it, note it. */
    method Commit(memory: Memory, actor: Actor, reason: string, ns: string, action: string,
                  beforeHash: string, afterHash: string, now: int)
      modifies this
      ensures Tables() == M.Commit(w, old(Tables()), memory, actor, reason, ns, action, beforeHash, afterHash, now)
    {
      rows := rows[memory.id := memory];
      SaveVersion(memory, actor, reason, now);
      AppendAudit(actor, ns, action, memory.id, memory.entityType, beforeHash, afterHash, now);
    }

    method CreateMemory(actor: Actor, input: Payload, freshId: string, now: int) returns (r: Result<Memory, Error>)
      modifies this
      ensures (Tables(), r) == M.CreateMemory(w, old(Tables()), actor, input, freshId, now)
    {
      var ns := input.ns;
      if ns == "" {
        ns := actor.ns;
      }
      if ns == "" {
        return Err(Invalid);
      }
      if !MayWrite(actor, ClampTier(input.tier)) {
        return Err(Forbidden);
      }
      var id := input.id;
      if id == "" {
        id := freshId;
      }
      var embedding := w.embed(TrimSpace(input.title + " " + input.text));
      if embedding.None? {
        return Err(EmbeddingFailed);
      }
      var memory := NewMemory(w, actor, input, id, ns, embedding.value, now);
      if memory.content.text == "" {
        return Err(Invalid);
      }
      if id in rows {
        return Err(Duplicate);
      }
      Commit(memory, actor, "create", ns, "write", "", HashMemory(w, memory), now);
      return Ok(memory);
    }

    /** The field-by-field part of an update, on local copies of the fields. */
    method PatchRow(actor: Actor, row: Memory, patch: Patch) returns (r: Result<Memory, Error>)
      ensures r == PatchMemory(w, actor, row, patch)
    {
      var Content(title, text, embedding, metadata, provenance, identity, tier) := row.content;
      var entityType, syncPath := row.entityType, row.syncPath;
      if patch.title.Some? {
        title := TrimSpace(patch.title.value);
      }
      if patch.text.Some? && TrimSpace(patch.text.value) != "" {
        text := TrimSpace(patch.text.value);
        var generated := w.embed(title + " " + text);
        if generated.None? {
          return Err(EmbeddingFailed);
        }
        embedding := generated.value;
      }
      if patch.entityType.Some? && patch.entityType.value != "" {
        entityType := patch.entityType.value;
      }
      if patch.tier.Some? {
        tier := ClampTier(Truncate(patch.tier.value));
        if !MayWrite(actor, tier) {
          return Err(Forbidden);
        }
      }
      if patch.metadata.Some? {
        metadata := w.json(patch.metadata);
        syncPath := FirstNonEmpty(StringFromMap(patch.metadata, "sync_path"), syncPath);
      }
      if patch.provenance.Some? {
        provenance := w.json(patch.provenance);
      }
      if patch.identity.Some? {
        identity := w.json(patch.identity);
      }
      return Ok(row.(entityType := entityType, syncPath := syncPath,
                     content := Content(title, text, embedding, metadata, provenance, identity, tier)));
    }

    method UpdateMemory(actor: Actor, ns: string, id: string, patch: Patch, now: int) returns (r: Result<Memory, Error>)
      modifies this
      ensures var expected := M.UpdateMemory(w, old(Tables()), actor, ns, id, patch, now);
        Tables() == expected.0 && r == Shown(actor, expected.1)
    {
      if id !in rows || rows[id].ns != ns {
        return Err(NotFound);
      }
      if !MayWrite(actor, rows[id].content.tier) {
        return Err(Forbidden);
      }
      var beforeHash := HashMemory(w, rows[id]);
      r := PatchRow(actor, rows[id], patch);
      if r.Err? {
        return Err(r.error);
      }
      var memory := r.value;
      memory := memory.(version := memory.version + 1, updatedAt := now);
      var decayAt := ComputeDecayAt(memory.content.tier, now);
      if decayAt.Some? {
        memory := memory.(decayAt := decayAt);
      }
      assert memory == Advance(r.value, now);
      Commit(memory, actor, "update", ns, "update", beforeHash, HashMemory(w, memory), now);
      return Ok(ShownTo(actor, memory));
    }

    method RollbackMemory(actor: Actor, ns: string, id: string, v: int, now: int) returns (r: Result<Memory, Error>)
      modifies this
      ensures var expected := M.RollbackMemory(w, old(Tables()), actor, ns, id, v, now);
        Tables() == expected.0 && r == Shown(actor, expected.1)
    {
      var k := FindVersion(versions, ns, id, v);
      if k.None? {
        return Err(NotFound);
      }
      if id !in rows || rows[id].ns != ns {
        return Err(NotFound);
      }
      var memory := rows[id];
      var beforeHash := HashMemory(w, memory);
      memory := memory.(content := versions[k.value].content);
      memory := memory.(version := memory.version + 1, isDeleted := false, updatedAt := now);
      Commit(memory, actor, "rollback:" + w.itoa(v), ns, "rollback", beforeHash, HashMemory(w, memory), now);
      return Ok(ShownTo(actor, memory));
    }

    method SoftDeleteMemory(actor: Actor, ns: string, id: string, now: int) returns (r: Result<Memory, Error>)
      modifies this
      ensures (Tables(), r) == M.SoftDeleteMemory(w, old(Tables()), actor, ns, id, now)
    {
      if id !in rows || rows[id].ns != ns {
        return Err(NotFound);
      }
      if !MayDelete(actor) {
        return Err(Forbidden);
      }
      var memory := rows[id].(isDeleted := true, version := rows[id].version + 1, updatedAt := now);
      Commit(memory, actor, "delete", ns, "delete", HashMemory(w, memory), "", now);
      return Ok(memory);
    }

    method EvaluatePromotion(actor: Actor, m: Memory, now: int) returns (promoted: bool)
      modifies this
      ensures Tables() == M.EvaluatePromotion(w, old(Tables()), actor, m, now)
      ensures promoted <==> PromotedTier(m, now).Some?
    {
      var memory := m;
      var beforeHash := HashMemory(w, memory);
      promoted := false;
      var c := memory.content;
      if c.tier == 0 && (memory.accessCount >= TIER0_PROMOTION_THRESHOLD || memory.manualPromote)
         && memory.createdAt > now - TIER0_PROMOTION_WINDOW {
        memory, promoted := memory.(content := c.(tier := 1)), true;
      } else if c.tier == 1 && (memory.accessCount >= TIER1_PROMOTION_THRESHOLD || memory.manualPromote) {
        memory, promoted := memory.(content := c.(tier := 2)), true;
      } else if c.tier == 2 && (memory.accessCount >= TIER2_PROMOTION_THRESHOLD || memory.manualPromote) {
        memory, promoted := memory.(content := c.(tier := 3)), true;
      }
      if !promoted {
        return;
      }
      memory := Advance(memory, now);
      Commit(memory, actor, "tier_promotion", memory.ns, "promote", beforeHash, HashMemory(w, memory), now);
      if memory.content.tier >= 2 && memory.syncPath != "" && w.canWrite(memory.syncPath) {
        AppendAudit(actor, memory.ns, "write_back", memory.id, memory.entityType, "",
                    w.hash("# " + memory.content.title + "\n\n" + memory.content.text), now);
      }
    }

    /** The rows handed in were read before the loop starts; as they are the
        current rows of distinct ids, each is still current when its turn comes. */
    method TouchMemories(actor: Actor, memories: seq<Memory>, now: int)
      requires forall k :: 0 <= k < |memories| ==> memories[k].id in rows && rows[memories[k].id] == memories[k]
      requires forall j, k :: 0 <= j < k < |memories| ==> memories[j].id != memories[k].id
      modifies this
      ensures Tables() == M.TouchMemories(w, old(Tables()), actor, Ids(memories), now)
    {
      var i := 0;
      while i < |memories|
        invariant 0 <= i <= |memories|
        invariant Tables() == M.TouchMemories(w, old(Tables()), actor, Ids(memories)[..i], now)
        invariant forall k :: i <= k < |memories| ==> memories[k].id in rows && rows[memories[k].id] == memories[k]
      {
        assert Ids(memories)[..i + 1][..i] == Ids(memories)[..i];
        var memory := memories[i].(accessCount := memories[i].accessCount + 1, lastAccessedAt := Some(now), updatedAt := now);
        rows := rows[memory.id := memory];
        var _ := EvaluatePromotion(actor, memory, now);
        i := i + 1;
      }
      assert Ids(memories)[..i] == Ids(memories);
    }

    method GetMemory(actor: Actor, ns: string, id: string, now: int) returns (r: Result<Memory, Error>)
      requires id in rows ==> rows[id].id == id
      modifies this
      ensures var expected := M.GetMemory(w, old(Tables()), actor, ns, id, now);
        Tables() == expected.0 && r == Shown(actor, expected.1)
    {
      if id !in rows || rows[id].ns != ns {
        return Err(NotFound);
      }
      var memory := rows[id];
      if memory.isDeleted {
        return Err(NotFound);
      }
      TouchMemories(actor, [memory], now);
      assert Ids([memory]) == [id];
      AppendAudit(actor, ns, "read", memory.id, memory.entityType, "", HashMemory(w, memory), now);
      return Ok(ShownTo(actor, memory));
    }

    /** Browse and search, once their query has returned these rows. */
    method ReadMany(actor: Actor, ns: string, action: string, found: seq<Memory>, afterHash: string, now: int)
      returns (shown: seq<Memory>)
      requires forall k :: 0 <= k < |found| ==> found[k].id in rows && rows[found[k].id] == found[k]
      requires forall j, k :: 0 <= j < k < |found| ==> found[j].id != found[k].id
      modifies this
      ensures Tables() == M.ReadMany(w, old(Tables()), actor, ns, action, Ids(found), afterHash, now)
      ensures |shown| == |found| && forall k :: 0 <= k < |shown| ==> shown[k] == ShownTo(actor, found[k])
    {
      TouchMemories(actor, found, now);
      shown := [];
      for i := 0 to |found|
        invariant |shown| == i && forall k :: 0 <= k < i ==> shown[k] == ShownTo(actor, found[k])
        invariant Tables() == M.TouchMemories(w, old(Tables()), actor, Ids(found), now)
      {
        shown := shown + [ShownTo(actor, found[i])];
      }
      AppendAudit(actor, ns, action, "", "memory", "", afterHash, now);
    }

    method RunPromotionScan(actor: Actor, visit: seq<string>, now: int)
      modifies this
      ensures Tables() == M.PromotionScan(w, old(Tables()), actor, visit, now)
    {
      var i := 0;
      while i < |visit|
        invariant 0 <= i <= |visit|
        invariant Tables() == M.PromotionScan(w, old(Tables()), actor, visit[..i], now)
      {
        assert visit[..i + 1][..i] == visit[..i];
        if visit[i] in rows {
          var _ := EvaluatePromotion(actor, rows[visit[i]], now);
        }
        i := i + 1;
      }
      assert visit[..i] == visit;
    }

    method RunDecayScan(actor: Actor, visit: seq<string>, now: int)
      modifies this
      ensures Tables() == M.DecayScan(w, old(Tables()), actor, visit, now)
    {
      var i := 0;
      while i < |visit|
        invariant 0 <= i <= |visit|
        invariant Tables() == M.DecayScan(w, old(Tables()), actor, visit[..i], now)
      {
        assert visit[..i + 1][..i] == visit[..i];
        if visit[i] in rows {
          Decay(actor, visit[i], now);
        }
        i := i + 1;
      }
      assert visit[..i] == visit;
    }

    /** The body of the decay loop. */
    method Decay(actor: Actor, id: string, now: int)
      requires id in rows
      modifies this
      ensures Tables() == DecayMemory(w, old(Tables()), actor, id, now)
    {
      var memory := rows[id];
      var before := HashMemory(w, memory);
      var modified := false;
      if memory.content.tier == 0 {
        if memory.createdAt < now - TIER0_TTL {
          memory, modified := memory.(isDeleted := true), true;
        }
      } else if memory.content.tier == 1 {
        var last := memory.updatedAt;
        if memory.lastAccessedAt.Some? {
          last := memory.lastAccessedAt.value;
        }
        if last < now - TIER1_DECAY_WINDOW {
          memory := memory.(content := memory.content.(tier := 0), decayAt := ComputeDecayAt(0, now));
          modified := true;
        }
      }
      if modified {
        memory := memory.(version := memory.version + 1, updatedAt := now);
        Commit(memory, actor, "decay", memory.ns, "decay", before, HashMemory(w, memory), now);
      }
    }
  }
}
