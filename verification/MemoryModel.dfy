/** The OpenBrain memory service on values: the three tables it writes (memory
    rows, version log, audit log) and what each service call does to them.
    Class MemoryStore.Store performs the same calls on mutable fields. */
module MemoryModel {
  import opened Common

  // Durations are in nanoseconds, as in Go.
  const HOUR: int := 3_600_000_000_000
  const TIER0_PROMOTION_THRESHOLD := 3
  const TIER1_PROMOTION_THRESHOLD := 5
  const TIER2_PROMOTION_THRESHOLD := 10
  const TIER0_PROMOTION_WINDOW := 24 * HOUR
  const TIER0_TTL := 24 * HOUR
  const TIER1_DECAY_WINDOW := 30 * 24 * HOUR

  /** A decoded JSON value, as far as the service looks into one. */
  datatype Json = JsonNull | JsonString(text: string) | JsonOther(raw: string)

  type JsonMap = map<string, Json>

  /** The part of a memory that every version snapshots. */
  datatype Content = Content(
    title: string, text: string, embedding: string,
    metadata: string, provenance: string, identity: string, tier: int)

  datatype Memory = Memory(
    id: string, ns: string, teamId: string, entityType: string, syncPath: string,
    content: Content, version: int, isDeleted: bool, accessCount: int, manualPromote: bool,
    lastAccessedAt: Option<int>, decayAt: Option<int>, createdAt: int, updatedAt: int)

  datatype Version = Version(
    ns: string, entityId: string, version: int, content: Content,
    changedBy: string, reason: string, createdAt: int)

  datatype AuditEntry = AuditEntry(
    ns: string, agentId: string, actorKind: string, action: string, entityId: string, entityType: string,
    beforeHash: string, afterHash: string, chainHash: string, createdAt: int)

  /** The tables.  The logs are in insertion order, which is their id order. */
  datatype Db = Db(rows: map<string, Memory>, versions: seq<Version>, audit: seq<AuditEntry>)

  datatype Actor = Actor(kind: string, ns: string, agentId: string, trustTier: int, name: string)

  datatype Payload = Payload(
    id: string, ns: string, teamId: string, entityType: string, syncPath: string, title: string, text: string,
    metadata: Option<JsonMap>, provenance: Option<JsonMap>, identity: Option<JsonMap>, tier: int)

  datatype Patch = Patch(
    title: Option<string>, text: Option<string>, entityType: Option<string>, tier: Option<real>,
    metadata: Option<JsonMap>, provenance: Option<JsonMap>, identity: Option<JsonMap>)

  datatype Error = NotFound | Forbidden | Invalid | EmbeddingFailed | Duplicate

  /** What lies outside the service: the hash, the embedding provider, the
      renderings of JSON, actors, time and numbers, and whether a file can be written. */
  datatype World = World(
    hash: string -> string,
    embed: string -> Option<string>,
    json: Option<JsonMap> -> string,
    renderActor: Actor -> string,
    stamp: int -> string,
    itoa: int -> string,
    canWrite: string -> bool)

  // ---------- helpers of the service ----------

  function ClampTier(tier: int): int {
    if tier < 0 then 0 else if tier > 3 then 3 else tier
  }

  /** Go's conversion of a float to an int: truncation toward zero. */
  function Truncate(x: real): int {
    if x >= 0.0 then x.Floor else -((-x).Floor)
  }

  function ComputeDecayAt(tier: int, now: int): Option<int> {
    if tier == 0 then Some(now + TIER0_TTL)
    else if tier == 1 then Some(now + TIER1_DECAY_WINDOW)
    else None
  }

  predicate MayWrite(actor: Actor, tier: int) {
    actor.kind == "agent" ==> actor.trustTier >= 2 && (tier >= 2 ==> actor.trustTier >= 4)
  }

  predicate MayDelete(actor: Actor) {
    actor.kind == "agent" ==> actor.trustTier >= 4
  }

  function StringFromMap(values: Option<JsonMap>, key: string): string {
    if values.Some? && key in values.value && values.value[key].JsonString? then values.value[key].text else ""
  }

  function EntityTypeFromMetadata(metadata: Option<JsonMap>): string {
    var t := StringFromMap(metadata, "type");
    if t == "" then "note" else t
  }

  function OrEmpty(m: Option<JsonMap>): JsonMap {
    if m.Some? then m.value else map[]
  }

  predicate HasValue(m: JsonMap, key: string) {
    key in m && m[key] != JsonNull
  }

  /** The identity a new memory gets: who created it and by which door. */
  function CreationIdentity(identity: Option<JsonMap>, actor: Actor): JsonMap {
    var base := OrEmpty(identity);
    var withAgent :=
      if !HasValue(base, "createdByAgentId") && actor.agentId != ""
      then base["createdByAgentId" := JsonString(actor.agentId)] else base;
    if !HasValue(withAgent, "createdVia")
    then withAgent["createdVia" := JsonString(FirstNonEmpty(actor.kind, "api"))] else withAgent
  }

  function HashMemory(w: World, m: Memory): string {
    var c := m.content;
    w.hash(c.title + "|" + c.text + "|" + c.metadata + "|" + c.provenance + "|"
           + w.itoa(c.tier) + "|" + (if m.isDeleted then "true" else "false"))
  }

  /** Row lookup by namespace and id. */
  predicate Has(db: Db, ns: string, id: string) {
    id in db.rows && db.rows[id].ns == ns
  }

  /** The position of a log entry of this namespace, entity and version.  The
      database orders candidates by their random key; VersionIsUnique in
      MemoryHistory shows that there is at most one. */
  function FindVersion(log: seq<Version>, ns: string, id: string, v: int): (k: Option<nat>)
    ensures k.Some? ==>
      && k.value < |log|
      && log[k.value].ns == ns && log[k.value].entityId == id && log[k.value].version == v
    ensures k.None? ==> forall i :: 0 <= i < |log| ==> !(log[i].ns == ns && log[i].entityId == id && log[i].version == v)
  {
    if log == [] then None
    else
      var earlier := FindVersion(log[..|log| - 1], ns, id, v);
      var last := log[|log| - 1];
      if earlier.Some? then earlier
      else if last.ns == ns && last.entityId == id && last.version == v then Some(|log| - 1)
      else None
  }

  // ---------- the two logs ----------

  function ChainHead(audit: seq<AuditEntry>, ns: string): string {
    if audit == [] then ""
    else if audit[|audit| - 1].ns == ns then audit[|audit| - 1].chainHash
    else ChainHead(audit[..|audit| - 1], ns)
  }

  function ChainPayload(w: World, base: string, ns: string, now: int, afterHash: string): string {
    base + "|" + ns + "|" + w.stamp(now) + "|" + afterHash
  }

  function AppendAudit(w: World, db: Db, actor: Actor, ns: string, action: string, entityId: string,
                       entityType: string, beforeHash: string, afterHash: string, now: int): Db
  {
    var payload := ChainPayload(w, ChainHead(db.audit, ns), ns, now, afterHash);
    var entry := AuditEntry(ns, actor.agentId, FirstNonEmpty(actor.kind, "system"), action, entityId, entityType,
                            beforeHash, afterHash, w.hash(payload), now);
    db.(audit := db.audit + [entry])
  }

  function Snapshot(w: World, m: Memory, actor: Actor, reason: string, now: int): Version {
    Version(m.ns, m.id, m.version, m.content, w.renderActor(actor), reason, now)
  }

  /** Save the row, then append its snapshot. */
  function SaveWithVersion(w: World, db: Db, m: Memory, actor: Actor, reason: string, now: int): Db {
    db.(rows := db.rows[m.id := m], versions := db.versions + [Snapshot(w, m, actor, reason, now)])
  }

  /** How every change of a row is recorded: row, snapshot, audit entry. */
  function Commit(w: World, db: Db, m: Memory, actor: Actor, reason: string, ns: string, action: string,
                  beforeHash: string, afterHash: string, now: int): Db
  {
    AppendAudit(w, SaveWithVersion(w, db, m, actor, reason, now), actor, ns, action, m.id, m.entityType,
                beforeHash, afterHash, now)
  }

  // ---------- explicit changes ----------

  function NewMemory(w: World, actor: Actor, input: Payload, id: string, ns: string, embedding: string, now: int): Memory {
    var tier := ClampTier(input.tier);
    var entityType := if input.entityType == "" then EntityTypeFromMetadata(input.metadata) else input.entityType;
    Memory(
      id, ns, input.teamId, FirstNonEmpty(entityType, "note"),
      FirstNonEmpty(input.syncPath, StringFromMap(input.metadata, "sync_path")),
      Content(input.title, TrimSpace(input.text), embedding, w.json(input.metadata),
              w.json(Some(OrEmpty(input.provenance))), w.json(Some(CreationIdentity(input.identity, actor))), tier),
      1, false, 0, false, None, ComputeDecayAt(tier, now), now, now)
  }

  function CreateMemory(w: World, db: Db, actor: Actor, input: Payload, freshId: string, now: int): (Db, Result<Memory, Error>) {
    var ns := if input.ns == "" then actor.ns else input.ns;
    var id := if input.id == "" then freshId else input.id;
    if ns == "" then (db, Err(Invalid))
    else if !MayWrite(actor, ClampTier(input.tier)) then (db, Err(Forbidden))
    else
      var embedding := w.embed(TrimSpace(input.title + " " + input.text));
      if embedding.None? then (db, Err(EmbeddingFailed))
      else if IsBlank(input.text) then (db, Err(Invalid))
      else if id in db.rows then (db, Err(Duplicate))
      else
        var m := NewMemory(w, actor, input, id, ns, embedding.value, now);
        (Commit(w, db, m, actor, "create", ns, "write", "", HashMemory(w, m), now), Ok(m))
  }

  /** The patched row before version and time are advanced, or why it is refused. */
  function PatchMemory(w: World, actor: Actor, m: Memory, patch: Patch): Result<Memory, Error> {
    var title := if patch.title.Some? then TrimSpace(patch.title.value) else m.content.title;
    var newText := patch.text.Some? && !IsBlank(patch.text.value);
    var text := if newText then TrimSpace(patch.text.value) else m.content.text;
    var embedding := if newText then w.embed(title + " " + text) else Some(m.content.embedding);
    var tier := if patch.tier.Some? then ClampTier(Truncate(patch.tier.value)) else m.content.tier;
    if embedding.None? then Err(EmbeddingFailed)
    else if patch.tier.Some? && !MayWrite(actor, tier) then Err(Forbidden)
    else
      Ok(m.(
         entityType := if patch.entityType.Some? && patch.entityType.value != "" then patch.entityType.value else m.entityType,
         syncPath := if patch.metadata.Some? then FirstNonEmpty(StringFromMap(patch.metadata, "sync_path"), m.syncPath) else m.syncPath,
         content := Content(
           title, text, embedding.value,
           if patch.metadata.Some? then w.json(patch.metadata) else m.content.metadata,
           if patch.provenance.Some? then w.json(patch.provenance) else m.content.provenance,
           if patch.identity.Some? then w.json(patch.identity) else m.content.identity,
           tier)))
  }

  /** Version, update time and (for tiers that decay) decay time move forward. */
  function Advance(m: Memory, now: int): Memory {
    var decayAt := ComputeDecayAt(m.content.tier, now);
    m.(version := m.version + 1, updatedAt := now, decayAt := if decayAt.Some? then decayAt else m.decayAt)
  }

  function UpdateMemory(w: World, db: Db, actor: Actor, ns: string, id: string, patch: Patch, now: int): (Db, Result<Memory, Error>) {
    if !Has(db, ns, id) then (db, Err(NotFound))
    else
      var m := db.rows[id];
      if !MayWrite(actor, m.content.tier) then (db, Err(Forbidden))
      else
        match PatchMemory(w, actor, m, patch)
        case Err(e) => (db, Err(e))
        case Ok(patched) =>
          var m' := Advance(patched, now);
          (Commit(w, db, m', actor, "update", ns, "update", HashMemory(w, m), HashMemory(w, m'), now), Ok(m'))
  }

  function RollbackMemory(w: World, db: Db, actor: Actor, ns: string, id: string, v: int, now: int): (Db, Result<Memory, Error>) {
    var k := FindVersion(db.versions, ns, id, v);
    if k.None? || !Has(db, ns, id) then (db, Err(NotFound))
    else
      var m := db.rows[id];
      var m' := m.(content := db.versions[k.value].content, version := m.version + 1, isDeleted := false, updatedAt := now);
      (Commit(w, db, m', actor, "rollback:" + w.itoa(v), ns, "rollback", HashMemory(w, m), HashMemory(w, m'), now), Ok(m'))
  }

  function SoftDeleteMemory(w: World, db: Db, actor: Actor, ns: string, id: string, now: int): (Db, Result<Memory, Error>) {
    if !Has(db, ns, id) then (db, Err(NotFound))
    else if !MayDelete(actor) then (db, Err(Forbidden))
    else
      var m := db.rows[id];
      var m' := m.(isDeleted := true, version := m.version + 1, updatedAt := now);
      (Commit(w, db, m', actor, "delete", ns, "delete", HashMemory(w, m'), "", now), Ok(m'))
  }

  // ---------- automatic changes ----------

  /** The tier a memory is promoted to, if it is due. */
  function PromotedTier(m: Memory, now: int): Option<int> {
    var c := m.accessCount;
    if m.content.tier == 0 && (c >= TIER0_PROMOTION_THRESHOLD || m.manualPromote) && m.createdAt > now - TIER0_PROMOTION_WINDOW then Some(1)
    else if m.content.tier == 1 && (c >= TIER1_PROMOTION_THRESHOLD || m.manualPromote) then Some(2)
    else if m.content.tier == 2 && (c >= TIER2_PROMOTION_THRESHOLD || m.manualPromote) then Some(3)
    else None
  }

  function EvaluatePromotion(w: World, db: Db, actor: Actor, m: Memory, now: int): Db {
    var tier := PromotedTier(m, now);
    if tier.None? then db
    else
      var m' := Advance(m.(content := m.content.(tier := tier.value)), now);
      var noted := Commit(w, db, m', actor, "tier_promotion", m.ns, "promote", HashMemory(w, m), HashMemory(w, m'), now);
      if tier.value >= 2 && m.syncPath != "" && w.canWrite(m.syncPath) then
        AppendAudit(w, noted, actor, m.ns, "write_back", m.id, m.entityType, "",
                    w.hash("# " + m.content.title + "\n\n" + m.content.text), now)
      else noted
  }

  function Touched(m: Memory, now: int): Memory {
    m.(accessCount := m.accessCount + 1, lastAccessedAt := Some(now), updatedAt := now)
  }

  function TouchMemory(w: World, db: Db, actor: Actor, id: string, now: int): Db {
    if id !in db.rows then db
    else
      var m := Touched(db.rows[id], now);
      EvaluatePromotion(w, db.(rows := db.rows[id := m]), actor, m, now)
  }

  function TouchMemories(w: World, db: Db, actor: Actor, ids: seq<string>, now: int): Db {
    if ids == [] then db
    else TouchMemory(w, TouchMemories(w, db, actor, ids[..|ids| - 1], now), actor, ids[|ids| - 1], now)
  }

  /** The row after a decay scan looks at it, if the scan changes it. */
  function Decayed(m: Memory, now: int): Option<Memory> {
    if m.content.tier == 0 && m.createdAt < now - TIER0_TTL then
      Some(m.(isDeleted := true, version := m.version + 1, updatedAt := now))
    else
      var last := if m.lastAccessedAt.Some? then m.lastAccessedAt.value else m.updatedAt;
      if m.content.tier == 1 && last < now - TIER1_DECAY_WINDOW then
        Some(m.(content := m.content.(tier := 0), decayAt := ComputeDecayAt(0, now),
                version := m.version + 1, updatedAt := now))
      else None
  }

  function DecayMemory(w: World, db: Db, actor: Actor, id: string, now: int): Db {
    if id !in db.rows then db
    else
      var m := db.rows[id];
      var d := Decayed(m, now);
      if d.None? then db
      else
        Commit(w, db, d.value, actor, "decay", m.ns, "decay", HashMemory(w, m), HashMemory(w, d.value), now)
  }

  /** A decay scan that visits these rows, in this order. */
  function DecayScan(w: World, db: Db, actor: Actor, visit: seq<string>, now: int): Db {
    if visit == [] then db
    else DecayMemory(w, DecayScan(w, db, actor, visit[..|visit| - 1], now), actor, visit[|visit| - 1], now)
  }

  function PromoteMemory(w: World, db: Db, actor: Actor, id: string, now: int): Db {
    if id !in db.rows then db else EvaluatePromotion(w, db, actor, db.rows[id], now)
  }

  function PromotionScan(w: World, db: Db, actor: Actor, visit: seq<string>, now: int): Db {
    if visit == [] then db
    else PromoteMemory(w, PromotionScan(w, db, actor, visit[..|visit| - 1], now), actor, visit[|visit| - 1], now)
  }

  // ---------- reads ----------

  function GetMemory(w: World, db: Db, actor: Actor, ns: string, id: string, now: int): (Db, Result<Memory, Error>) {
    if !Has(db, ns, id) || db.rows[id].isDeleted then (db, Err(NotFound))
    else
      var m := db.rows[id];
      var touched := TouchMemories(w, db, actor, [id], now);
      (AppendAudit(w, touched, actor, ns, "read", id, m.entityType, "", HashMemory(w, m), now), Ok(m))
  }

  /** Browse and search: touch what the query returned, then note the call. */
  function ReadMany(w: World, db: Db, actor: Actor, ns: string, action: string, ids: seq<string>, afterHash: string, now: int): Db {
    AppendAudit(w, TouchMemories(w, db, actor, ids, now), actor, ns, action, "", "memory", "", afterHash, now)
  }

  /** What an actor gets to see of a row: an agent sees no text above its trust tier. */
  function ShownTo(actor: Actor, m: Memory): Memory {
    var maxTier := if actor.trustTier == 0 then 1 else actor.trustTier;
    if actor.kind == "agent" && m.content.tier > maxTier
    then m.(content := m.content.(text := "[redacted: higher trust tier required]")) else m
  }

  function Shown(actor: Actor, r: Result<Memory, Error>): Result<Memory, Error> {
    match r case Ok(m) => Ok(ShownTo(actor, m)) case Err(e) => Err(e)
  }

  // ---------- runs ----------

  /** One public call. Browse, Search and the scans carry the ids their query
      returned; Note is any call that only appends an audit entry. */
  datatype Op =
    | Create(actor: Actor, input: Payload, freshId: string)
    | Get(actor: Actor, ns: string, id: string)
    | Browse(actor: Actor, ns: string, found: seq<string>)
    | Search(actor: Actor, ns: string, found: seq<string>)
    | Update(actor: Actor, ns: string, id: string, patch: Patch)
    | Rollback(actor: Actor, ns: string, id: string, v: int)
    | Delete(actor: Actor, ns: string, id: string)
    | RunPromotionScan(actor: Actor, visit: seq<string>)
    | RunDecayScan(actor: Actor, visit: seq<string>)
    | Note(actor: Actor, ns: string, action: string, entityId: string, entityType: string, beforeHash: string, afterHash: string)

  function Step(w: World, db: Db, op: Op, now: int): Db {
    match op
    case Create(actor, input, freshId) => CreateMemory(w, db, actor, input, freshId, now).0
    case Get(actor, ns, id) => GetMemory(w, db, actor, ns, id, now).0
    case Browse(actor, ns, found) => ReadMany(w, db, actor, ns, "browse", found, "", now)
    case Search(actor, ns, found) => ReadMany(w, db, actor, ns, "search", found, "results:" + w.itoa(|found|), now)
    case Update(actor, ns, id, patch) => UpdateMemory(w, db, actor, ns, id, patch, now).0
    case Rollback(actor, ns, id, v) => RollbackMemory(w, db, actor, ns, id, v, now).0
    case Delete(actor, ns, id) => SoftDeleteMemory(w, db, actor, ns, id, now).0
    case RunPromotionScan(actor, visit) => PromotionScan(w, db, actor, visit, now)
    case RunDecayScan(actor, visit) => DecayScan(w, db, actor, visit, now)
    case Note(actor, ns, action, entityId, entityType, beforeHash, afterHash) =>
      AppendAudit(w, db, actor, ns, action, entityId, entityType, beforeHash, afterHash, now)
  }

  datatype Call = Call(op: Op, now: int)

  function Run(w: World, db: Db, calls: seq<Call>): Db {
    if calls == [] then db
    else
      var last := calls[|calls| - 1];
      Step(w, Run(w, db, calls[..|calls| - 1]), last.op, last.now)
  }

  /** The clock never goes back: every call happens at or after `start` and the call before it. */
  predicate Monotone(calls: seq<Call>, start: int) {
    && (forall i :: 0 <= i < |calls| ==> start <= calls[i].now)
    && (forall i, j :: 0 <= i < j < |calls| ==> calls[i].now <= calls[j].now)
  }

  function Clock(calls: seq<Call>, start: int): int {
    if calls == [] then start else calls[|calls| - 1].now
  }

  const EMPTY := Db(map[], [], [])
}
