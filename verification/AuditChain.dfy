/** The per-namespace hash chain in the audit log. */
module AuditChain {
  import opened Common
  import opened MemoryModel

  /** Every entry's chain hash covers the hash of the entry before it in the same
      namespace, its own namespace and time, and its after-hash. */
  predicate ChainOk(w: World, audit: seq<AuditEntry>) {
    forall k :: 0 <= k < |audit| ==>
      var e := audit[k];
      e.chainHash == w.hash(ChainPayload(w, ChainHead(audit[..k], e.ns), e.ns, e.createdAt, e.afterHash))
  }

  /** The entries of one namespace, oldest first. */
  function ChainOf(audit: seq<AuditEntry>, ns: string): seq<AuditEntry> {
    if audit == [] then []
    else
      var earlier := ChainOf(audit[..|audit| - 1], ns);
      if audit[|audit| - 1].ns == ns then earlier + [audit[|audit| - 1]] else earlier
  }

  /** What a chain commits to. */
  function Commitments(chain: seq<AuditEntry>): seq<(int, string)> {
    seq(|chain|, i requires 0 <= i < |chain| => (chain[i].createdAt, chain[i].afterHash))
  }

  // ---------- every run keeps the chains ----------

  /** A log grows by links that each cover the one before. */
  predicate Grows(w: World, audit: seq<AuditEntry>, audit': seq<AuditEntry>) {
    audit <= audit' && (ChainOk(w, audit) ==> ChainOk(w, audit'))
  }

  lemma AppendGrows(w: World, db: Db, actor: Actor, ns: string, action: string, entityId: string, entityType: string,
                    beforeHash: string, afterHash: string, now: int)
    ensures Grows(w, db.audit, AppendAudit(w, db, actor, ns, action, entityId, entityType, beforeHash, afterHash, now).audit)
  {
    var audit' := AppendAudit(w, db, actor, ns, action, entityId, entityType, beforeHash, afterHash, now).audit;
    assert audit'[..|db.audit|] == db.audit;
    if ChainOk(w, db.audit) {
      forall k | 0 <= k < |audit'|
        ensures audit'[k].chainHash ==
                w.hash(ChainPayload(w, ChainHead(audit'[..k], audit'[k].ns), audit'[k].ns, audit'[k].createdAt, audit'[k].afterHash))
      {
        if k < |db.audit| {
          assert audit'[..k] == db.audit[..k];
        }
      }
    }
  }

  lemma CommitGrows(w: World, db: Db, m: Memory, actor: Actor, reason: string, ns: string, action: string,
                    beforeHash: string, afterHash: string, now: int)
    ensures Grows(w, db.audit, Commit(w, db, m, actor, reason, ns, action, beforeHash, afterHash, now).audit)
  {
    AppendGrows(w, SaveWithVersion(w, db, m, actor, reason, now), actor, ns, action, m.id, m.entityType, beforeHash, afterHash, now);
  }

  lemma PromotionGrows(w: World, db: Db, actor: Actor, m: Memory, now: int)
    ensures Grows(w, db.audit, EvaluatePromotion(w, db, actor, m, now).audit)
  {
    var tier := PromotedTier(m, now);
    if tier.Some? {
      var m' := Advance(m.(content := m.content.(tier := tier.value)), now);
      var before, after := HashMemory(w, m), HashMemory(w, m');
      CommitGrows(w, db, m', actor, "tier_promotion", m.ns, "promote", before, after, now);
      var noted := Commit(w, db, m', actor, "tier_promotion", m.ns, "promote", before, after, now);
      AppendGrows(w, noted, actor, m.ns, "write_back", m.id, m.entityType, "",
                  w.hash("# " + m.content.title + "\n\n" + m.content.text), now);
    }
  }

  lemma {:induction false} TouchesGrow(w: World, db: Db, actor: Actor, ids: seq<string>, now: int)
    ensures Grows(w, db.audit, TouchMemories(w, db, actor, ids, now).audit)
  {
    if ids != [] {
      var init, last := ids[..|ids| - 1], ids[|ids| - 1];
      TouchesGrow(w, db, actor, init, now);
      var db1 := TouchMemories(w, db, actor, init, now);
      if last in db1.rows {
        var m := Touched(db1.rows[last], now);
        PromotionGrows(w, db1.(rows := db1.rows[last := m]), actor, m, now);
      }
    }
  }

  lemma {:induction false} ScansGrow(w: World, db: Db, actor: Actor, visit: seq<string>, now: int)
    ensures Grows(w, db.audit, DecayScan(w, db, actor, visit, now).audit)
    ensures Grows(w, db.audit, PromotionScan(w, db, actor, visit, now).audit)
  {
    if visit != [] {
      var init, last := visit[..|visit| - 1], visit[|visit| - 1];
      ScansGrow(w, db, actor, init, now);
      var db1 := DecayScan(w, db, actor, init, now);
      if last in db1.rows && Decayed(db1.rows[last], now).Some? {
        var m, d := db1.rows[last], Decayed(db1.rows[last], now).value;
        CommitGrows(w, db1, d, actor, "decay", m.ns, "decay", HashMemory(w, m), HashMemory(w, d), now);
      }
      var db2 := PromotionScan(w, db, actor, init, now);
      if last in db2.rows {
        PromotionGrows(w, db2, actor, db2.rows[last], now);
      }
    }
  }

  lemma ReadGrows(w: World, db: Db, actor: Actor, ids: seq<string>, ns: string, action: string, entityId: string,
                  entityType: string, afterHash: string, now: int)
    ensures Grows(w, db.audit,
      AppendAudit(w, TouchMemories(w, db, actor, ids, now), actor, ns, action, entityId, entityType, "", afterHash, now).audit)
  {
    TouchesGrow(w, db, actor, ids, now);
    AppendGrows(w, TouchMemories(w, db, actor, ids, now), actor, ns, action, entityId, entityType, "", afterHash, now);
  }

  lemma CreateGrows(w: World, db: Db, actor: Actor, input: Payload, freshId: string, now: int)
    ensures Grows(w, db.audit, CreateMemory(w, db, actor, input, freshId, now).0.audit)
  {
    var r := CreateMemory(w, db, actor, input, freshId, now).1;
    if r.Ok? {
      CommitGrows(w, db, r.value, actor, "create", r.value.ns, "write", "", HashMemory(w, r.value), now);
    }
  }

  lemma UpdateGrows(w: World, db: Db, actor: Actor, ns: string, id: string, patch: Patch, now: int)
    ensures Grows(w, db.audit, UpdateMemory(w, db, actor, ns, id, patch, now).0.audit)
  {
    var r := UpdateMemory(w, db, actor, ns, id, patch, now).1;
    if r.Ok? {
      CommitGrows(w, db, r.value, actor, "update", ns, "update", HashMemory(w, db.rows[id]), HashMemory(w, r.value), now);
    }
  }

  lemma RollbackGrows(w: World, db: Db, actor: Actor, ns: string, id: string, v: int, now: int)
    ensures Grows(w, db.audit, RollbackMemory(w, db, actor, ns, id, v, now).0.audit)
  {
    var r := RollbackMemory(w, db, actor, ns, id, v, now).1;
    if r.Ok? {
      var before, after := HashMemory(w, db.rows[id]), HashMemory(w, r.value);
      CommitGrows(w, db, r.value, actor, "rollback:" + w.itoa(v), ns, "rollback", before, after, now);
    }
  }

  lemma DeleteGrows(w: World, db: Db, actor: Actor, ns: string, id: string, now: int)
    ensures Grows(w, db.audit, SoftDeleteMemory(w, db, actor, ns, id, now).0.audit)
  {
    var r := SoftDeleteMemory(w, db, actor, ns, id, now).1;
    if r.Ok? {
      CommitGrows(w, db, r.value, actor, "delete", ns, "delete", HashMemory(w, r.value), "", now);
    }
  }

  lemma GetGrows(w: World, db: Db, actor: Actor, ns: string, id: string, now: int)
    ensures Grows(w, db.audit, GetMemory(w, db, actor, ns, id, now).0.audit)
  {
    if Has(db, ns, id) {
      ReadGrows(w, db, actor, [id], ns, "read", id, db.rows[id].entityType, HashMemory(w, db.rows[id]), now);
    }
  }

  predicate IsChange(op: Op) {
    op.Create? || op.Update? || op.Rollback? || op.Delete?
  }

  lemma ChangeGrows(w: World, db: Db, op: Op, now: int)
    requires IsChange(op)
    ensures Grows(w, db.audit, Step(w, db, op, now).audit)
  {
    match op
    case Create(actor, input, freshId) => CreateGrows(w, db, actor, input, freshId, now);
    case Update(actor, ns, id, patch) => UpdateGrows(w, db, actor, ns, id, patch, now);
    case Rollback(actor, ns, id, v) => RollbackGrows(w, db, actor, ns, id, v, now);
    case Delete(actor, ns, id) => DeleteGrows(w, db, actor, ns, id, now);
    case _ =>
  }

  lemma StepGrows(w: World, db: Db, op: Op, now: int)
    ensures Grows(w, db.audit, Step(w, db, op, now).audit)
  {
    if IsChange(op) {
      ChangeGrows(w, db, op, now);
    } else {
      match op
      case Get(actor, ns, id) => GetGrows(w, db, actor, ns, id, now);
      case Browse(actor, ns, found) => ReadGrows(w, db, actor, found, ns, "browse", "", "memory", "", now);
      case Search(actor, ns, found) =>
        ReadGrows(w, db, actor, found, ns, "search", "", "memory", "results:" + w.itoa(|found|), now);
      case RunPromotionScan(actor, visit) => ScansGrow(w, db, actor, visit, now);
      case RunDecayScan(actor, visit) => ScansGrow(w, db, actor, visit, now);
      case Note(actor, ns, action, entityId, entityType, beforeHash, afterHash) =>
        AppendGrows(w, db, actor, ns, action, entityId, entityType, beforeHash, afterHash, now);
      case _ =>
    }
  }

  /** Over any interleaving of calls on any namespaces the log only grows and every
      namespace's entries stay one valid chain. */
  lemma {:induction false} RunGrows(w: World, db: Db, calls: seq<Call>)
    ensures Grows(w, db.audit, Run(w, db, calls).audit)
  {
    if calls != [] {
      var init, last := calls[..|calls| - 1], calls[|calls| - 1];
      RunGrows(w, db, init);
      StepGrows(w, Run(w, db, init), last.op, last.now);
    }
  }

  // ---------- what equal heads imply ----------

  /** The hash has no collisions and, like hexadecimal digests, is never empty and
      holds no separator; time stamps are distinct and hold no separator. */
  ghost predicate CollisionFree(w: World) {
    && (forall x, y {:trigger w.hash(x), w.hash(y)} :: w.hash(x) == w.hash(y) ==> x == y)
    && (forall x {:trigger w.hash(x)} :: w.hash(x) != "" && '|' !in w.hash(x))
    && (forall s, t {:trigger w.stamp(s), w.stamp(t)} :: w.stamp(s) == w.stamp(t) ==> s == t)
    && (forall t {:trigger w.stamp(t)} :: '|' !in w.stamp(t))
  }

  /** Within one namespace the payload determines its parts. */
  lemma PayloadInjective(w: World, ns: string, base: string, base': string, now: int, now': int, after: string, after': string)
    requires CollisionFree(w) && '|' !in base && '|' !in base'
    requires ChainPayload(w, base, ns, now, after) == ChainPayload(w, base', ns, now', after')
    ensures base == base' && now == now' && after == after'
  {
    var rest := ns + "|" + w.stamp(now) + "|" + after;
    var rest' := ns + "|" + w.stamp(now') + "|" + after';
    assert ChainPayload(w, base, ns, now, after) == base + "|" + rest;
    assert ChainPayload(w, base', ns, now', after') == base' + "|" + rest';
    FirstSeparator(base, rest, base', rest', '|');
    assert rest[|ns| + 1..] == w.stamp(now) + "|" + after;
    assert rest'[|ns| + 1..] == w.stamp(now') + "|" + after';
    FirstSeparator(w.stamp(now), after, w.stamp(now'), after', '|');
  }

  /** The head is empty or a hash: it never holds the separator. */
  lemma {:induction false} HeadIsClean(w: World, audit: seq<AuditEntry>, ns: string)
    requires CollisionFree(w) && ChainOk(w, audit)
    ensures '|' !in ChainHead(audit, ns)
    ensures ChainHead(audit, ns) == "" <==> ChainOf(audit, ns) == []
  {
    if audit != [] {
      var init := audit[..|audit| - 1];
      PrefixOk(w, audit);
      HeadIsClean(w, init, ns);
    }
  }

  lemma PrefixOk(w: World, audit: seq<AuditEntry>)
    requires audit != [] && ChainOk(w, audit)
    ensures ChainOk(w, audit[..|audit| - 1])
  {
    var init := audit[..|audit| - 1];
    forall k | 0 <= k < |init|
      ensures init[k].chainHash ==
              w.hash(ChainPayload(w, ChainHead(init[..k], init[k].ns), init[k].ns, init[k].createdAt, init[k].afterHash))
    {
      assert init[..k] == audit[..k];
    }
  }

  /** Equal heads mean equal histories: under a collision-free hash two valid logs
      whose chains for a namespace end in the same hash hold, for that namespace,
      the same number of entries with the same times and after-hashes. */
  lemma {:induction false} HeadDeterminesChain(w: World, a: seq<AuditEntry>, b: seq<AuditEntry>, ns: string)
    requires CollisionFree(w) && ChainOk(w, a) && ChainOk(w, b)
    requires ChainHead(a, ns) == ChainHead(b, ns)
    ensures Commitments(ChainOf(a, ns)) == Commitments(ChainOf(b, ns))
    decreases |a| + |b|
  {
    HeadIsClean(w, a, ns);
    HeadIsClean(w, b, ns);
    if ChainOf(a, ns) == [] {
    } else if a[|a| - 1].ns != ns {
      PrefixOk(w, a);
      HeadDeterminesChain(w, a[..|a| - 1], b, ns);
    } else if b[|b| - 1].ns != ns {
      PrefixOk(w, b);
      HeadDeterminesChain(w, a, b[..|b| - 1], ns);
    } else {
      var x, y := a[|a| - 1], b[|b| - 1];
      PrefixOk(w, a);
      PrefixOk(w, b);
      HeadIsClean(w, a[..|a| - 1], ns);
      HeadIsClean(w, b[..|b| - 1], ns);
      PayloadInjective(w, ns, ChainHead(a[..|a| - 1], ns), ChainHead(b[..|b| - 1], ns), x.createdAt, y.createdAt, x.afterHash, y.afterHash);
      HeadDeterminesChain(w, a[..|a| - 1], b[..|b| - 1], ns);
      CommitmentsAppend(ChainOf(a[..|a| - 1], ns), x);
      CommitmentsAppend(ChainOf(b[..|b| - 1], ns), y);
    }
  }

  lemma CommitmentsAppend(chain: seq<AuditEntry>, e: AuditEntry)
    ensures Commitments(chain + [e]) == Commitments(chain) + [(e.createdAt, e.afterHash)]
  {
  }
}
