/** Moving the released proofs of a compacted ledger into the shards: a shard first, the ledger after it. */
module ProofTransfer {
  import opened Outcomes
  import opened JsText
  import opened Sorting
  import opened Ledger
  import opened LedgerBytes
  import opened Protection
  import Eviction
  import opened Compaction
  import opened ProofStore

  /** The record validators of the codec, and the two directions of a shard document. */
  datatype Codec = Codec(task: Task -> bool, envelope: Envelope -> bool,
                         encode: (Text, seq<Proof>) -> Result<Document, Failure>,
                         decode: (Document, Text) -> Result<seq<Proof>, Failure>)

  /** Shards are encoded and decoded with the placement of task ids by hash. */
  ghost predicate Lawful(c: Codec) {
    && (forall shard, entries :: c.encode(shard, entries) == Encode(ShardOf, shard, entries))
    && (forall d, shard :: c.decode(d, shard) == Decode(ShardOf, d, shard, c.task, c.envelope))
  }

  /** The codec that given validators make. */
  function CodecOf(valid: Task -> bool, validEnvelope: Envelope -> bool): (c: Codec)
    ensures Lawful(c) && c.task == valid && c.envelope == validEnvelope
  {
    Codec(valid, validEnvelope, (shard, entries) => Encode(ShardOf, shard, entries),
          (d, shard) => Decode(ShardOf, d, shard, valid, validEnvelope))
  }

  type Disk = map<Text, Document>

  function Ids(ps: seq<Proof>): set<TaskId> {
    set p | p in ps :: p.task.taskId
  }

  function InShard(ps: seq<Proof>, shard: Text): (r: seq<Proof>)
    ensures forall p :: p in r <==> p in ps && ShardOf(p.task.taskId) == shard
  {
    if ps == [] then []
    else (if ShardOf(ps[0].task.taskId) == shard then [ps[0]] else []) + InShard(ps[1..], shard)
  }

  function Without(ps: seq<Proof>, ids: set<TaskId>): (r: seq<Proof>)
    ensures forall p :: p in r <==> p in ps && p.task.taskId !in ids
  {
    if ps == [] then [] else (if ps[0].task.taskId in ids then [] else [ps[0]]) + Without(ps[1..], ids)
  }

  /** What is written to a shard: its proofs, each new one in place of one with the same id. */
  function Entries(kept: seq<Proof>, added: seq<Proof>, shard: Text): seq<Proof> {
    Without(InShard(kept, shard), Ids(added)) + added
  }

  /** One proof decodes by itself. */
  predicate Accepts(c: Codec, p: Proof) {
    var shard := ShardOf(p.task.taskId);
    p.task.taskId != []
    && c.decode(Document(shard, [p.task], [p.envelope]), shard).Ok?
  }

  ghost predicate Good(c: Codec, p: Proof) {
    && c.task(p.task) && c.envelope(p.envelope) && IsTombstone(p.task) && PayloadMatches(p.task, p.envelope)
    && p.task.taskId != []
  }

  /** The document of the shard decodes, and the proof is among what it holds. */
  ghost predicate Holds(d: Document, shard: Text, c: Codec, p: Proof) {
    var r := c.decode(d, shard);
    r.Ok? && p in r.value
  }

  /** Loading the shards gives the proof back. */
  ghost predicate ReadsBack(disk: Disk, c: Codec, p: Proof) {
    var shard := ShardOf(p.task.taskId);
    shard in disk && Holds(disk[shard], shard, c, p)
  }

  ghost predicate AllReadBack(disk: Disk, c: Codec, ps: seq<Proof>) {
    forall p :: p in ps ==> ReadsBack(disk, c, p)
  }

  /** A proof that decodes by itself is one the shard will take, and the other way round. */
  lemma AcceptsGood(c: Codec, p: Proof)
    requires Lawful(c)
    ensures Accepts(c, p) <==> Good(c, p)
  {
    if p.task.taskId != [] {
      DecodesAlone(c, ShardOf(p.task.taskId), p);
    }
  }

  lemma DecodesAlone(c: Codec, shard: Text, p: Proof)
    requires Lawful(c) && p.task.taskId != [] && shard == ShardOf(p.task.taskId)
    ensures c.decode(Document(shard, [p.task], [p.envelope]), shard).Ok? <==> Good(c, p)
  {
    if p.envelope.taskId == p.task.taskId {
      OwnEnvelopeDecides(c, shard, p);
    } else {
      ForeignEnvelopeRefused(c, shard, p);
    }
  }

  lemma OwnEnvelopeDecides(c: Codec, shard: Text, p: Proof)
    requires Lawful(c) && IsShard(shard) && Belongs(ShardOf, shard, p)
    ensures c.decode(Document(shard, [p.task], [p.envelope]), shard).Ok? <==> Good(c, p)
  {
    OneDocument(shard, p);
    ShardRoundTrip(ShardOf, shard, [p], c.task, c.envelope);
    DecodableAlone(c, p);
  }

  lemma DecodableAlone(c: Codec, p: Proof)
    requires p.task.taskId != []
    ensures Decodable([p], c.task, c.envelope) <==> Good(c, p)
  {
    assert p in [p] && Apart([p]);
  }

  lemma OneDocument(shard: Text, p: Proof)
    requires IsShard(shard) && Belongs(ShardOf, shard, p)
    ensures Encode(ShardOf, shard, [p]) == Ok(Document(shard, [p.task], [p.envelope]))
  {
    assert Sort([p], ById()) == [p];
    assert Tasks([p]) == [p.task] && Envelopes([p]) == [p.envelope];
  }

  lemma ForeignEnvelopeRefused(c: Codec, shard: Text, p: Proof)
    requires Lawful(c)
    requires p.envelope.taskId != p.task.taskId
    ensures c.decode(Document(shard, [p.task], [p.envelope]), shard).Err?
  {
    var d := Document(shard, [p.task], [p.envelope]);
    assert d.envelopes[0] == p.envelope && p.envelope in d.envelopes;
    assert !LedgerAccepts(d, c.task, c.envelope);
  }

  // ---------- Keys stay apart ----------

  lemma {:induction false} InShardApart(ps: seq<Proof>, shard: Text)
    requires Apart(ps)
    ensures Apart(InShard(ps, shard))
  {
    if ps != [] {
      assert ps == [ps[0]] + ps[1..];
      ApartCons(ps[0], ps[1..]);
      InShardApart(ps[1..], shard);
      ApartCons(ps[0], InShard(ps[1..], shard));
    }
  }

  lemma {:induction false} WithoutApart(ps: seq<Proof>, ids: set<TaskId>)
    requires Apart(ps)
    ensures Apart(Without(ps, ids))
  {
    if ps != [] {
      assert ps == [ps[0]] + ps[1..];
      ApartCons(ps[0], ps[1..]);
      WithoutApart(ps[1..], ids);
      ApartCons(ps[0], Without(ps[1..], ids));
    }
  }

  lemma JoinApart(a: seq<Proof>, b: seq<Proof>)
    requires Apart(a) && Apart(b) && forall p, q :: p in a && q in b ==> Differ(p, q)
    ensures Apart(a + b)
  {
    forall i, j | 0 <= i < j < |a + b|
      ensures Differ((a + b)[i], (a + b)[j])
    {
      if i < |a| && j >= |a| {
        assert (a + b)[i] in a && (a + b)[j] in b;
      }
    }
  }

  /** The stored proofs and the new ones are proofs, and two of them differ in id and key or are the same task. */
  ghost predicate Ready(c: Codec, kept: seq<Proof>, released: seq<Proof>) {
    && Apart(kept) && Apart(released)
    && (forall p :: p in kept || p in released ==> Good(c, p))
    && (forall p, q :: p in kept && q in released && p.task.taskId != q.task.taskId ==> Differ(p, q))
  }

  lemma EntriesReady(c: Codec, kept: seq<Proof>, released: seq<Proof>, shard: Text)
    requires Ready(c, kept, released)
    ensures Apart(Entries(kept, InShard(released, shard), shard))
    ensures forall p :: p in Entries(kept, InShard(released, shard), shard) ==>
                          Good(c, p) && ShardOf(p.task.taskId) == shard
  {
    var added := InShard(released, shard);
    InShardApart(kept, shard);
    InShardApart(released, shard);
    WithoutApart(InShard(kept, shard), Ids(added));
    JoinApart(Without(InShard(kept, shard), Ids(added)), added);
  }

  lemma EntriesReturn(c: Codec, entries: seq<Proof>, shard: Text)
    requires Lawful(c) && IsShard(shard) && Apart(entries)
    requires forall p :: p in entries ==> Good(c, p) && ShardOf(p.task.taskId) == shard
    ensures c.encode(shard, entries).Ok?
    ensures forall p :: p in entries ==> Holds(c.encode(shard, entries).value, shard, c, p)
  {
    PlacedEncode(ShardOf, shard, entries);
    ShardRoundTrip(ShardOf, shard, entries, c.task, c.envelope);
    SortKeeps(entries, ById());
  }

  lemma WrittenReadsBack(c: Codec, disk: Disk, shard: Text, d: Document, p: Proof)
    requires ShardOf(p.task.taskId) == shard && Holds(d, shard, c, p)
    ensures ReadsBack(disk[shard := d], c, p)
  {
  }

  lemma OthersReadBack(c: Codec, disk: Disk, shard: Text, d: Document, p: Proof)
    requires ShardOf(p.task.taskId) != shard && ReadsBack(disk, c, p)
    ensures ReadsBack(disk[shard := d], c, p)
  {
    var own := ShardOf(p.task.taskId);
    assert own in disk[shard := d] && disk[shard := d][own] == disk[own];
  }

  function Rewritten(c: Codec, kept: seq<Proof>, released: seq<Proof>, shard: Text): Result<Document, Failure> {
    c.encode(shard, Entries(kept, InShard(released, shard), shard))
  }

  /** One shard is rewritten: what it is to hold reads back. */
  lemma ShardWritten(c: Codec, kept: seq<Proof>, released: seq<Proof>, shard: Text, disk: Disk)
    requires Lawful(c) && Ready(c, kept, released) && IsShard(shard)
    ensures Rewritten(c, kept, released, shard).Ok?
    ensures forall p :: p in Entries(kept, InShard(released, shard), shard) ==>
                          ReadsBack(disk[shard := Rewritten(c, kept, released, shard).value], c, p)
  {
    var entries := Entries(kept, InShard(released, shard), shard);
    EntriesReady(c, kept, released, shard);
    EntriesReturn(c, entries, shard);
    forall p | p in entries
      ensures ReadsBack(disk[shard := Rewritten(c, kept, released, shard).value], c, p)
    {
      WrittenReadsBack(c, disk, shard, c.encode(shard, entries).value, p);
    }
  }

  // ---------- Writing the shards ----------

  /** Rewrites every shard that gets a proof; a write that fails leaves its shard and its proofs alone. */
  method WriteShards(c: Codec, kept: seq<Proof>, released: seq<Proof>, writes: Text -> bool, disk: Disk)
    returns (moved: seq<Proof>, after: Disk)
    requires Lawful(c) && Ready(c, kept, released) && AllReadBack(disk, c, kept)
    ensures forall p :: p in moved <==> p in released && writes(ShardOf(p.task.taskId))
    ensures AllReadBack(after, c, moved)
    ensures forall p :: p in kept && p.task.taskId !in Ids(moved) ==> ReadsBack(after, c, p)
  {
    moved, after := [], disk;
    for i := 0 to SHARD_COUNT
      invariant MovedUpTo(released, writes, i, moved)
      invariant AllReadBack(after, c, moved) && AllReadBack(after, c, Without(kept, Ids(moved)))
    {
      var shard := ShardName(i);
      var added := InShard(released, shard);
      NextMoved(released, writes, i, moved);
      if added != [] && writes(shard) {
        NextWritten(c, kept, released, i, moved, after);
        after := after[shard := Rewritten(c, kept, released, shard).value];
        moved := moved + added;
      }
    }
  }

  ghost predicate MovedUpTo(released: seq<Proof>, writes: Text -> bool, i: nat, moved: seq<Proof>) {
    forall p :: p in moved <==> p in released && ShardIndex(p.task.taskId) < i && writes(ShardOf(p.task.taskId))
  }

  lemma {:induction false} NextMoved(released: seq<Proof>, writes: Text -> bool, i: nat, moved: seq<Proof>)
    requires i < SHARD_COUNT && MovedUpTo(released, writes, i, moved)
    ensures IsShard(ShardName(i))
    ensures var added := InShard(released, ShardName(i));
            MovedUpTo(released, writes, i + 1, if added != [] && writes(ShardName(i)) then moved + added else moved)
  {
    OneShard([], i);
    forall p | p in released
      ensures ShardOf(p.task.taskId) == ShardName(i) <==> ShardIndex(p.task.taskId) == i
    {
      OneShard(p.task.taskId, i);
    }
    assert forall p :: p in released && ShardIndex(p.task.taskId) == i ==> p in InShard(released, ShardName(i));
  }

  lemma NextWritten(c: Codec, kept: seq<Proof>, released: seq<Proof>, i: nat, moved: seq<Proof>, disk: Disk)
    requires Lawful(c) && Ready(c, kept, released) && i < SHARD_COUNT && IsShard(ShardName(i))
    requires forall p :: p in moved ==> ShardIndex(p.task.taskId) < i
    requires AllReadBack(disk, c, moved) && AllReadBack(disk, c, Without(kept, Ids(moved)))
    ensures Rewritten(c, kept, released, ShardName(i)).Ok?
    ensures var added := InShard(released, ShardName(i));
            var after := disk[ShardName(i) := Rewritten(c, kept, released, ShardName(i)).value];
            AllReadBack(after, c, moved + added) && AllReadBack(after, c, Without(kept, Ids(moved + added)))
  {
    var shard := ShardName(i);
    var added := InShard(released, shard);
    ShardWritten(c, kept, released, shard, disk);
    var d := Rewritten(c, kept, released, shard).value;
    forall p | p in moved + added
      ensures ReadsBack(disk[shard := d], c, p)
    {
      if p in moved {
        OneShard(p.task.taskId, i);
        OthersReadBack(c, disk, shard, d, p);
      } else {
        assert p in Entries(kept, added, shard);
      }
    }
    forall p | p in Without(kept, Ids(moved + added))
      ensures ReadsBack(disk[shard := d], c, p)
    {
      KeptReadsBack(c, kept, moved, added, disk, shard, d, p);
    }
  }

  lemma KeptReadsBack(c: Codec, kept: seq<Proof>, moved: seq<Proof>, added: seq<Proof>, disk: Disk, shard: Text,
                      d: Document, p: Proof)
    requires p in Without(kept, Ids(moved + added)) && AllReadBack(disk, c, Without(kept, Ids(moved)))
    requires forall q :: q in Entries(kept, added, shard) ==> ReadsBack(disk[shard := d], c, q)
    ensures ReadsBack(disk[shard := d], c, p)
  {
    assert Ids(moved) <= Ids(moved + added) && Ids(added) <= Ids(moved + added);
    if ShardOf(p.task.taskId) == shard {
      assert p in InShard(kept, shard);
      assert p in Entries(kept, added, shard);
    } else {
      assert p in Without(kept, Ids(moved));
      OthersReadBack(c, disk, shard, d, p);
    }
  }

  // ---------- Releasing ----------

  /** The stored proofs stay apart from each other and from the records of a ledger. */
  ghost predicate Beside(c: Codec, kept: seq<Proof>, tasks: seq<Task>) {
    && Apart(kept) && (forall p :: p in kept ==> Good(c, p))
    && (forall p, t :: p in kept && t in tasks && p.task.taskId != t.taskId ==>
          p.task.rootSessionId != t.rootSessionId || p.task.idempotencyKey != t.idempotencyKey)
  }

  /** A record that may move and that decodes with its envelope. */
  ghost predicate Releasable(c: Codec, state: Snapshot, ids: seq<TaskId>, p: Proof) {
    && p.task in state.tasks && p.task.taskId in ids && p.envelope in state.envelopes && Good(c, p)
  }

  function KeepTasks(tasks: seq<Task>, gone: set<TaskId>): (r: seq<Task>)
    ensures forall t :: t in r <==> t in tasks && t.taskId !in gone
    ensures UniqueTasks(tasks) ==> UniqueTasks(r)
  {
    if tasks == [] then []
    else
      assert UniqueTasks(tasks) ==> UniqueTasks(tasks[1..]);
      assert UniqueTasks(tasks) ==> forall t :: t in tasks[1..] ==> t.taskId != tasks[0].taskId;
      (if tasks[0].taskId in gone then [] else [tasks[0]]) + KeepTasks(tasks[1..], gone)
  }

  function KeepEnvelopes(envelopes: seq<Envelope>, gone: set<TaskId>): (r: seq<Envelope>)
    ensures forall e :: e in r <==> e in envelopes && e.taskId !in gone
    ensures UniqueEnvelopes(envelopes) ==> UniqueEnvelopes(r)
  {
    if envelopes == [] then []
    else
      assert UniqueEnvelopes(envelopes) ==> UniqueEnvelopes(envelopes[1..]);
      assert UniqueEnvelopes(envelopes) ==> forall e :: e in envelopes[1..] ==> e.taskId != envelopes[0].taskId;
      (if envelopes[0].taskId in gone then [] else [envelopes[0]]) + KeepEnvelopes(envelopes[1..], gone)
  }

  function Remaining(state: Snapshot, moved: seq<Proof>): Snapshot {
    Snapshot(state.objectiveChecks, KeepTasks(state.tasks, Ids(moved)), KeepEnvelopes(state.envelopes, Ids(moved)))
  }

  lemma RemainingDecodes(state: Snapshot, moved: seq<Proof>)
    requires Decoded(state)
    ensures Decoded(Remaining(state, moved))
  {
    var rest := Remaining(state, moved);
    forall e | e in rest.envelopes
      ensures exists t :: t in rest.tasks && PayloadMatches(t, e)
    {
      var t :| t in state.tasks && PayloadMatches(t, e);
      assert t in rest.tasks;
    }
  }

  predicate Takes(accepts: Proof -> bool, t: Task, envelopes: map<TaskId, Envelope>, ids: seq<TaskId>) {
    t.taskId in ids && t.taskId in envelopes && accepts(Proof(t, envelopes[t.taskId]))
  }

  function Collected(accepts: Proof -> bool, tasks: seq<Task>, envelopes: map<TaskId, Envelope>, ids: seq<TaskId>)
    : seq<Proof>
  {
    if tasks == [] then []
    else
      var n := |tasks| - 1;
      Collected(accepts, tasks[..n], envelopes, ids)
      + if Takes(accepts, tasks[n], envelopes, ids) then [Proof(tasks[n], envelopes[tasks[n].taskId])] else []
  }

  lemma {:induction false} CollectedAre(accepts: Proof -> bool, tasks: seq<Task>, envelopes: map<TaskId, Envelope>,
                                        ids: seq<TaskId>)
    ensures forall p :: p in Collected(accepts, tasks, envelopes, ids) <==>
                        p.task in tasks && Takes(accepts, p.task, envelopes, ids)
                        && p.envelope == envelopes[p.task.taskId]
  {
    if tasks != [] {
      CollectedAre(accepts, tasks[..|tasks| - 1], envelopes, ids);
      assert tasks == tasks[..|tasks| - 1] + [tasks[|tasks| - 1]];
    }
  }

  lemma DistinctNext(ps: seq<Proof>, p: Proof)
    requires DistinctIds(ps) && forall q :: q in ps ==> q.task.taskId != p.task.taskId
    ensures DistinctIds(ps + [p])
  {
    forall i, j | 0 <= i < j < |ps| + 1
      ensures (ps + [p])[i].task.taskId != (ps + [p])[j].task.taskId
    {
      assert ps[i] in ps;
    }
  }

  lemma LastIsNew(tasks: seq<Task>, t: Task)
    requires UniqueTasks(tasks) && tasks != [] && t in tasks[..|tasks| - 1]
    ensures t.taskId != tasks[|tasks| - 1].taskId
  {
    var k :| 0 <= k < |tasks| - 1 && tasks[..|tasks| - 1][k] == t;
    assert tasks[k] == t;
  }

  lemma {:induction false} CollectedDiffer(accepts: Proof -> bool, tasks: seq<Task>, envelopes: map<TaskId, Envelope>,
                                           ids: seq<TaskId>)
    requires UniqueTasks(tasks)
    ensures DistinctIds(Collected(accepts, tasks, envelopes, ids))
  {
    if tasks != [] {
      var n := |tasks| - 1;
      CollectedDiffer(accepts, tasks[..n], envelopes, ids);
      CollectedAre(accepts, tasks[..n], envelopes, ids);
      var before := Collected(accepts, tasks[..n], envelopes, ids);
      if Takes(accepts, tasks[n], envelopes, ids) {
        forall q | q in before
          ensures q.task.taskId != tasks[n].taskId
        {
          LastIsNew(tasks, q.task);
        }
        DistinctNext(before, Proof(tasks[n], envelopes[tasks[n].taskId]));
      } else {
        assert Collected(accepts, tasks, envelopes, ids) == before;
      }
    }
  }

  lemma CollectedNext(accepts: Proof -> bool, tasks: seq<Task>, i: nat, envelopes: map<TaskId, Envelope>,
                      ids: seq<TaskId>)
    requires i < |tasks|
    ensures Collected(accepts, tasks[..i + 1], envelopes, ids)
            == Collected(accepts, tasks[..i], envelopes, ids)
               + if Takes(accepts, tasks[i], envelopes, ids) then [Proof(tasks[i], envelopes[tasks[i].taskId])] else []
  {
    assert tasks[..i + 1][..i] == tasks[..i];
  }

  /** The proofs to release: those that decode; the others stay in the ledger. */
  method CollectProofs(accepts: Proof -> bool, state: Snapshot, ids: seq<TaskId>) returns (released: seq<Proof>)
    requires Decoded(state)
    ensures forall p :: p in released <==>
                        p.task in state.tasks && p.task.taskId in ids && p.envelope in state.envelopes
                        && p.envelope.taskId == p.task.taskId && accepts(p)
    ensures Apart(released)
  {
    var envelopes := EnvelopeMap(state.envelopes);
    released := [];
    for i := 0 to |state.tasks|
      invariant released == Collected(accepts, state.tasks[..i], envelopes, ids)
    {
      var task := state.tasks[i];
      CollectedNext(accepts, state.tasks, i, envelopes, ids);
      if Takes(accepts, task, envelopes, ids) {
        released := released + [Proof(task, envelopes[task.taskId])];
      }
    }
    assert state.tasks[..|state.tasks|] == state.tasks;
    CollectedProofs(accepts, state, ids);
  }

  lemma CollectedProofs(accepts: Proof -> bool, state: Snapshot, ids: seq<TaskId>)
    requires Decoded(state)
    ensures var released := Collected(accepts, state.tasks, EnvelopeMap(state.envelopes), ids);
            && Apart(released)
            && (forall p :: p in released <==>
                  p.task in state.tasks && p.task.taskId in ids && p.envelope in state.envelopes
                  && p.envelope.taskId == p.task.taskId && accepts(p))
  {
    var released := Collected(accepts, state.tasks, EnvelopeMap(state.envelopes), ids);
    CollectedAre(accepts, state.tasks, EnvelopeMap(state.envelopes), ids);
    CollectedDiffer(accepts, state.tasks, EnvelopeMap(state.envelopes), ids);
    EntriesApart(state.tasks, released);
    forall p: Proof
      ensures p in released <==>
              p.task in state.tasks && p.task.taskId in ids && p.envelope in state.envelopes
              && p.envelope.taskId == p.task.taskId && accepts(p)
    {
      if p.envelope in state.envelopes && p.envelope.taskId == p.task.taskId {
        EnvelopeMapFinds(state.envelopes, p.envelope);
      }
    }
  }

  function Acceptor(c: Codec): (accepts: Proof -> bool)
    ensures forall p :: accepts(p) <==> Accepts(c, p)
  {
    (p: Proof) => Accepts(c, p)
  }

  lemma AcceptorIsGood(c: Codec)
    requires Lawful(c)
    ensures forall p :: Acceptor(c)(p) <==> Good(c, p)
  {
    forall p
      ensures Acceptor(c)(p) <==> Good(c, p)
    {
      AcceptsGood(c, p);
    }
  }

  /**
   * Every record is still in the ledger or reads back from its one shard, whatever writes fail, and the
   * proofs stored before are still there.
   */
  method ReleaseProofs(c: Codec, state: Snapshot, ids: seq<TaskId>, kept: seq<Proof>, writes: Text -> bool, disk: Disk)
    returns (rest: Snapshot, moved: seq<Proof>, after: Disk)
    requires Lawful(c) && Decoded(state) && Beside(c, kept, state.tasks) && AllReadBack(disk, c, kept)
    ensures forall p :: p in moved <==> Releasable(c, state, ids, p) && writes(ShardOf(p.task.taskId))
    ensures Decoded(rest) && rest == Remaining(state, moved)
    ensures forall t :: t in rest.tasks <==> t in state.tasks && t.taskId !in Ids(moved)
    ensures forall e :: e in rest.envelopes <==> e in state.envelopes && e.taskId !in Ids(moved)
    ensures AllReadBack(after, c, moved)
    ensures forall p :: p in kept && p.task.taskId !in Ids(moved) ==> ReadsBack(after, c, p)
  {
    AcceptorIsGood(c);
    var released := CollectProofs(Acceptor(c), state, ids);
    moved, after := WriteShards(c, kept, released, writes, disk);
    RemainingDecodes(state, moved);
    rest := Remaining(state, moved);
  }

  // ---------- Saving ----------

  datatype Saved = CapacityExceeded | Saved(ledger: Snapshot, shards: Disk)

  /** The record is in the ledger or in the shards, whole or released. */
  ghost predicate Survives(c: Codec, saved: Saved, t: Task)
    requires saved.Saved?
  {
    || (exists u :: u in saved.ledger.tasks && SameIdentity(t, u))
    || (exists p :: ReadsBack(saved.shards, c, p) && SameIdentity(t, p.task))
  }

  lemma TombstoneIdentity(t: Task, envelope: Option<Envelope>)
    ensures SameIdentity(t, Eviction.ToTombstone(t, envelope).task)
  {
  }

  lemma {:induction false} CompactedIdentity(s: Snapshot, r: Compacted, k: Task)
    requires Decoded(s) && Decoded(r.state) && Partitions(s, r) && k in r.state.tasks
    ensures exists t :: t in s.tasks && SameIdentity(t, k)
  {
    var t :| t in s.tasks && t.taskId == k.taskId;
    var envelope := Eviction.EnvelopeOf(LookupOf(s), t.taskId);
    TombstoneIdentity(t, envelope);
    var u := if t.taskId in r.tombstonedTaskIds then Eviction.ToTombstone(t, envelope).task else t;
    TaskMapFinds(r.state.tasks, k);
    TaskMapFinds(r.state.tasks, u);
    assert SameIdentity(t, k);
  }

  lemma BesideCompacted(c: Codec, kept: seq<Proof>, s: Snapshot, r: Compacted)
    requires Decoded(s) && Decoded(r.state) && Partitions(s, r) && Beside(c, kept, s.tasks)
    ensures Beside(c, kept, r.state.tasks)
  {
    forall p, k | p in kept && k in r.state.tasks && p.task.taskId != k.taskId
      ensures p.task.rootSessionId != k.rootSessionId || p.task.idempotencyKey != k.idempotencyKey
    {
      CompactedIdentity(s, r, k);
      var t :| t in s.tasks && SameIdentity(t, k);
    }
  }

  /** Every record of the state is one of the ledger's. */
  ghost predicate SameRecords(tasks: seq<Task>, state: Snapshot) {
    forall k :: k in state.tasks ==> exists t :: t in tasks && SameIdentity(t, k)
  }

  lemma RecordsStay(s: Snapshot, r: Compacted)
    requires Decoded(s) && Decoded(r.state) && Partitions(s, r)
    ensures SameRecords(s.tasks, r.state)
  {
    forall k | k in r.state.tasks
      ensures exists t :: t in s.tasks && SameIdentity(t, k)
    {
      CompactedIdentity(s, r, k);
    }
  }

  ghost predicate Found(state: Snapshot, id: TaskId) {
    exists k :: k in state.tasks && k.taskId == id
  }

  lemma SurvivorsFound(s: Snapshot, r: Compacted)
    requires Partitions(s, r)
    ensures forall t :: t in s.tasks && t.taskId !in r.removedTaskIds ==> Found(r.state, t.taskId)
  {
  }

  lemma SameRecord(tasks: seq<Task>, state: Snapshot, t: Task, k: Task)
    requires UniqueTasks(tasks) && SameRecords(tasks, state)
    requires t in tasks && k in state.tasks && k.taskId == t.taskId
    ensures SameIdentity(t, k)
  {
    var u :| u in tasks && SameIdentity(u, k);
    TaskMapFinds(tasks, t);
    TaskMapFinds(tasks, u);
  }

  /** What stays in the ledger after compaction is in the saved ledger or reads back from a shard. */
  lemma StateSurvives(c: Codec, tasks: seq<Task>, state: Snapshot, saved: Saved, moved: seq<Proof>, t: Task)
    requires UniqueTasks(tasks) && UniqueTasks(state.tasks) && SameRecords(tasks, state) && t in tasks
    requires Found(state, t.taskId)
    requires saved.Saved? && saved.ledger == Remaining(state, moved) && AllReadBack(saved.shards, c, moved)
    requires forall p :: p in moved ==> p.task in state.tasks
    ensures Survives(c, saved, t)
  {
    var k :| k in state.tasks && k.taskId == t.taskId;
    if k.taskId in Ids(moved) {
      var p :| p in moved && p.task.taskId == k.taskId;
      SameRecord(tasks, state, t, p.task);
      assert ReadsBack(saved.shards, c, p);
    } else {
      SameRecord(tasks, state, t, k);
      assert k in saved.ledger.tasks;
    }
  }

  /** The record and its envelope read back from the one shard of its id. */
  ghost predicate Stored(c: Codec, shards: Disk, state: Snapshot, t: Task) {
    exists e :: e in state.envelopes && PayloadMatches(t, e) && ReadsBack(shards, c, Proof(t, e))
  }

  lemma MovedAreStored(c: Codec, state: Snapshot, moved: seq<Proof>, shards: Disk, t: Task)
    requires Decoded(state) && t in state.tasks && t !in Remaining(state, moved).tasks
    requires AllReadBack(shards, c, moved)
    requires forall p :: p in moved ==> p.task in state.tasks && p.envelope in state.envelopes && Good(c, p)
    ensures exists p :: p in moved && p.task.taskId == t.taskId
    ensures Stored(c, shards, state, t)
  {
    var p :| p in moved && p.task.taskId == t.taskId;
    TaskMapFinds(state.tasks, t);
    TaskMapFinds(state.tasks, p.task);
    assert ReadsBack(shards, c, Proof(t, p.envelope));
  }

  lemma KeptSurvives(c: Codec, moved: seq<Proof>, saved: Saved, p: Proof)
    requires saved.Saved? && AllReadBack(saved.shards, c, moved)
    requires p.task.taskId !in Ids(moved) ==> ReadsBack(saved.shards, c, p)
    ensures exists q :: ReadsBack(saved.shards, c, q) && q.task.taskId == p.task.taskId
  {
    if p.task.taskId in Ids(moved) {
      var q :| q in moved && q.task.taskId == p.task.taskId;
      assert ReadsBack(saved.shards, c, q);
    }
  }

  lemma AllSurvive(c: Codec, s: Snapshot, r: Compacted, saved: Saved, moved: seq<Proof>)
    requires UniqueTasks(s.tasks) && UniqueTasks(r.state.tasks) && SameRecords(s.tasks, r.state)
    requires forall t :: t in s.tasks && t.taskId !in r.removedTaskIds ==> Found(r.state, t.taskId)
    requires saved.Saved? && saved.ledger == Remaining(r.state, moved) && AllReadBack(saved.shards, c, moved)
    requires forall p :: p in moved ==> p.task in r.state.tasks
    ensures forall t :: t in s.tasks && t.taskId !in r.removedTaskIds ==> Survives(c, saved, t)
  {
    forall t | t in s.tasks && t.taskId !in r.removedTaskIds
      ensures Survives(c, saved, t)
    {
      StateSurvives(c, s.tasks, r.state, saved, moved, t);
    }
  }

  lemma AllKeptSurvive(c: Codec, kept: seq<Proof>, moved: seq<Proof>, saved: Saved)
    requires saved.Saved? && AllReadBack(saved.shards, c, moved)
    requires forall p :: p in kept && p.task.taskId !in Ids(moved) ==> ReadsBack(saved.shards, c, p)
    ensures forall p :: p in kept ==> exists q :: ReadsBack(saved.shards, c, q) && q.task.taskId == p.task.taskId
  {
    forall p | p in kept
      ensures exists q :: ReadsBack(saved.shards, c, q) && q.task.taskId == p.task.taskId
    {
      KeptSurvives(c, moved, saved, p);
    }
  }

  lemma AllMovedAreStored(s: Snapshot, o: Policy, c: Codec, r: Compacted, moved: seq<Proof>, shards: Disk)
    requires Decoded(r.state) && AllReadBack(shards, c, moved)
    requires forall p :: p in moved ==> Releasable(c, r.state, r.proofTaskIds, p)
    requires forall id :: id in r.proofTaskIds ==> !HardProtected(s, o, id)
    ensures forall t :: t in r.state.tasks && t !in Remaining(r.state, moved).tasks ==>
                          !HardProtected(s, o, t.taskId) && Stored(c, shards, r.state, t)
  {
    forall t | t in r.state.tasks && t !in Remaining(r.state, moved).tasks
      ensures !HardProtected(s, o, t.taskId) && Stored(c, shards, r.state, t)
    {
      MovedAreStored(c, r.state, moved, shards, t);
    }
  }

  /** What saving needs of compaction. */
  method CompactLedger(j: Encoders, s: Snapshot, o: Policy) returns (r: Compacted)
    requires Decoded(s) && WalksEnd(s, o)
    ensures Decoded(r.state) && Partitions(s, r)
    ensures forall t :: t in s.tasks && RetainsProof(t) ==> t.taskId !in r.removedTaskIds
    ensures forall id :: id in r.proofTaskIds ==> !HardProtected(s, o, id)
  {
    ghost var p, trace;
    r, p, trace := Compact(j, s, o);
  }

  /**
   * Compacts the ledger and moves what may move. A ledger over its limits is refused and nothing is
   * written; otherwise every record that compaction did not drop survives, no proof was dropped, and a
   * proof of every task that had one stored is still stored.
   */
  method Persist(j: Encoders, s: Snapshot, o: Policy, c: Codec, kept: seq<Proof>, writes: Text -> bool, disk: Disk)
    returns (saved: Saved, r: Compacted)
    requires Lawful(c) && Decoded(s) && WalksEnd(s, o) && Beside(c, kept, s.tasks) && AllReadBack(disk, c, kept)
    ensures Partitions(s, r) && (saved.Saved? <==> !r.overLimit)
    ensures forall t :: t in s.tasks && RetainsProof(t) ==> t.taskId !in r.removedTaskIds
    ensures saved.Saved? ==>
              && Decoded(saved.ledger)
              && (forall t :: t in s.tasks && t.taskId !in r.removedTaskIds ==> Survives(c, saved, t))
              && (forall p :: p in kept ==>
                    exists q :: ReadsBack(saved.shards, c, q) && q.task.taskId == p.task.taskId)
    // Only unheld proofs leave the ledger, and each that did is in its shard, with its envelope.
    ensures saved.Saved? ==> forall t :: t in r.state.tasks && t !in saved.ledger.tasks ==>
                                           !HardProtected(s, o, t.taskId) && Stored(c, saved.shards, r.state, t)
  {
    r := CompactLedger(j, s, o);
    if r.overLimit { return CapacityExceeded, r; }
    BesideCompacted(c, kept, s, r);
    var rest, moved, after := ReleaseProofs(c, r.state, r.proofTaskIds, kept, writes, disk);
    saved := Saved(rest, after);
    RecordsStay(s, r);
    SurvivorsFound(s, r);
    AllSurvive(c, s, r, saved, moved);
    AllKeptSurvive(c, kept, moved, saved);
    AllMovedAreStored(s, o, c, r, moved, after);
  }
}
