/** Proof shards: placement by hash, and the document that carries one shard. */
module ProofStore {
  import opened Outcomes
  import opened JsText
  import opened Sorting
  import opened Ledger

  const SHARD_COUNT: nat := 64
  const FNV_OFFSET: bv32 := 0x811c9dc5
  const FNV_PRIME: bv32 := 0x01000193

  /** One record with its envelope. */
  datatype Proof = Proof(task: Task, envelope: Envelope)

  /** The fields of a shard document; its JSON text is read back unchanged. */
  datatype Document = Document(shard: Text, tasks: seq<Task>, envelopes: seq<Envelope>)

  datatype Failure = InvalidProof | InvalidShard

  // ---------- Placement ----------

  function HexDigit(n: nat): CodeUnit
    requires n < 16
  {
    if n < 10 then 48 + n else 87 + n
  }

  /** Two lowercase hex digits. */
  function ShardName(index: nat): Text
    requires index < SHARD_COUNT
  {
    [HexDigit(index / 16), HexDigit(index % 16)]
  }

  predicate IsShard(name: Text) {
    exists i :: 0 <= i < SHARD_COUNT && name == ShardName(i)
  }

  lemma ShardNamesDiffer(a: nat, b: nat)
    requires a < SHARD_COUNT && b < SHARD_COUNT
    ensures ShardName(a) == ShardName(b) <==> a == b
  {
    if ShardName(a) == ShardName(b) {
      assert HexDigit(a / 16) == HexDigit(b / 16) && HexDigit(a % 16) == HexDigit(b % 16) by {
        assert ShardName(a)[0] == ShardName(b)[0] && ShardName(a)[1] == ShardName(b)[1];
      }
      assert a == 16 * (a / 16) + a % 16 && b == 16 * (b / 16) + b % 16;
    }
  }

  function HashStep(hash: bv32, unit: CodeUnit): bv32 {
    (hash ^ (unit as bv32)) * FNV_PRIME
  }

  /** 32-bit FNV-1a over the code units of a task id. */
  function Hash(id: Text): bv32 {
    if id == [] then FNV_OFFSET else HashStep(Hash(id[..|id| - 1]), id[|id| - 1])
  }

  lemma HashNext(id: Text, i: nat)
    requires i < |id|
    ensures Hash(id[..i + 1]) == HashStep(Hash(id[..i]), id[i])
  {
    assert id[..i + 1][..i] == id[..i];
  }

  function Low(hash: bv32): (index: nat)
    ensures index < SHARD_COUNT
  {
    (hash % 64) as nat
  }

  function ShardIndex(id: TaskId): (index: nat)
    ensures index < SHARD_COUNT
  {
    Low(Hash(id))
  }

  function ShardOf(id: TaskId): (shard: Text)
    ensures IsShard(shard)
  {
    ShardName(ShardIndex(id))
  }

  /** A task id belongs to the shard its hash names and to no other. */
  lemma OneShard(id: TaskId, index: nat)
    requires index < SHARD_COUNT
    ensures IsShard(ShardName(index)) && (ShardName(index) == ShardOf(id) <==> index == ShardIndex(id))
  {
    ShardNamesDiffer(index, ShardIndex(id));
  }

  lemma OnlyShard(id: TaskId)
    ensures forall k :: 0 <= k < SHARD_COUNT ==> (ShardName(k) == ShardOf(id) <==> k == ShardIndex(id))
  {
    forall k | 0 <= k < SHARD_COUNT
      ensures ShardName(k) == ShardOf(id) <==> k == ShardIndex(id)
    {
      OneShard(id, k);
    }
  }

  /** An id has exactly one shard; only the empty one, which is no task id, has none. */
  method FindShard(id: TaskId) returns (shard: Result<Text, Failure>)
    ensures shard.Err? <==> id == []
    ensures shard.Ok? ==> IsShard(shard.value) && shard.value == ShardOf(id)
    ensures shard.Ok? ==> forall k :: 0 <= k < SHARD_COUNT ==> (ShardName(k) == shard.value <==> k == ShardIndex(id))
  {
    if id == [] { return Err(InvalidProof); }
    var hash := FNV_OFFSET;
    for i := 0 to |id|
      invariant hash == Hash(id[..i])
    {
      HashNext(id, i);
      hash := HashStep(hash, id[i]);
    }
    assert id[..|id|] == id;
    OnlyShard(id);
    shard := Ok(ShardName(Low(hash)));
  }

  // ---------- Encoding ----------

  // `place` is the placement of task ids in shards, which is `ShardOf`.

  function ById(): (Proof, Proof) -> bool {
    (a: Proof, b: Proof) => AtMost(a.task.taskId, b.task.taskId)
  }

  lemma ByIdIsTotal()
    ensures TotalPreorder(ById())
  {
    forall a: Proof, b: Proof
      ensures ById()(a, b) || ById()(b, a)
    {
      AtMostTotal(a.task.taskId, b.task.taskId);
    }
    forall a: Proof, b: Proof, c: Proof | ById()(a, b) && ById()(b, c)
      ensures ById()(a, c)
    {
      AtMostTransitive(a.task.taskId, b.task.taskId, c.task.taskId);
    }
  }

  predicate Belongs(place: TaskId -> Text, shard: Text, p: Proof) {
    p.task.taskId != [] && place(p.task.taskId) == shard && p.envelope.taskId == p.task.taskId
  }

  function Tasks(proofs: seq<Proof>): (r: seq<Task>)
    ensures |r| == |proofs| && forall i :: 0 <= i < |r| ==> r[i] == proofs[i].task
  {
    if proofs == [] then [] else [proofs[0].task] + Tasks(proofs[1..])
  }

  function Envelopes(proofs: seq<Proof>): (r: seq<Envelope>)
    ensures |r| == |proofs| && forall i :: 0 <= i < |r| ==> r[i] == proofs[i].envelope
  {
    if proofs == [] then [] else [proofs[0].envelope] + Envelopes(proofs[1..])
  }

  function Encode(place: TaskId -> Text, shard: Text, entries: seq<Proof>): Result<Document, Failure> {
    if !IsShard(shard) then Err(InvalidShard)
    else
      var sorted := Sort(entries, ById());
      if forall p :: p in sorted ==> Belongs(place, shard, p)
      then Ok(Document(shard, Tasks(sorted), Envelopes(sorted)))
      else Err(InvalidProof)
  }

  // ---------- Decoding ----------

  /** The checks of the ledger codec on a whole snapshot; `valid` stands for the record validators. */
  predicate LedgerAccepts(d: Document, valid: Task -> bool, validEnvelope: Envelope -> bool) {
    && (forall t :: t in d.tasks ==> valid(t))
    && (forall e :: e in d.envelopes ==> validEnvelope(e))
    && (forall i, j :: 0 <= i < j < |d.tasks| ==> d.tasks[i].taskId != d.tasks[j].taskId)
    && (forall i, j :: 0 <= i < j < |d.tasks| ==>
          (d.tasks[i].rootSessionId, d.tasks[i].idempotencyKey) != (d.tasks[j].rootSessionId,
                                                                    d.tasks[j].idempotencyKey))
    && (forall i, j :: 0 <= i < j < |d.envelopes| ==> d.envelopes[i].taskId != d.envelopes[j].taskId)
    && (forall e :: e in d.envelopes ==> exists t :: t in d.tasks && PayloadMatches(t, e))
  }

  function Pair(tasks: seq<Task>, envelopes: map<TaskId, Envelope>): seq<Proof>
    requires forall t :: t in tasks ==> t.taskId in envelopes
  {
    if tasks == [] then [] else [Proof(tasks[0], envelopes[tasks[0].taskId])] + Pair(tasks[1..], envelopes)
  }

  /** Every record is a body-free proof of this shard and has its envelope. */
  predicate AllPlaced(place: TaskId -> Text, shard: Text, tasks: seq<Task>, envelopes: map<TaskId, Envelope>) {
    forall t :: t in tasks ==>
                  t.taskId in envelopes && IsTombstone(t) && t.taskId != [] && place(t.taskId) == shard
  }

  /** Any defect rejects the whole document. */
  function Decode(place: TaskId -> Text, d: Document, shard: Text, valid: Task -> bool, validEnvelope: Envelope -> bool)
    : Result<seq<Proof>, Failure>
  {
    if !IsShard(shard) || d.shard != shard || !LedgerAccepts(d, valid, validEnvelope) then Err(InvalidShard)
    else if |d.tasks| != |d.envelopes| then Err(InvalidShard)
    else if AllPlaced(place, shard, d.tasks, EnvelopeMap(d.envelopes)) then Ok(Pair(d.tasks, EnvelopeMap(d.envelopes)))
    else Err(InvalidShard)
  }

  // ---------- Round trip ----------

  /** What encoding does not check and decoding does. */
  ghost predicate Decodable(entries: seq<Proof>, valid: Task -> bool, validEnvelope: Envelope -> bool) {
    && (forall p :: p in entries ==>
          valid(p.task) && validEnvelope(p.envelope) && IsTombstone(p.task) && PayloadMatches(p.task, p.envelope))
    && Apart(entries)
  }

  /** No two entries share a task id, or an idempotency key of the same root. */
  ghost predicate Apart(entries: seq<Proof>) {
    forall i, j :: 0 <= i < j < |entries| ==> Differ(entries[i], entries[j])
  }

  predicate Differ(a: Proof, b: Proof) {
    && a.task.taskId != b.task.taskId
    && (a.task.rootSessionId != b.task.rootSessionId || a.task.idempotencyKey != b.task.idempotencyKey)
  }

  lemma {:induction false} InsertApart(p: Proof, s: seq<Proof>)
    ensures Apart(Insert(p, s, ById())) <==> Apart(s) && forall q :: q in s ==> Differ(p, q)
  {
    if s != [] && !ById()(p, s[0]) {
      var rest := Insert(p, s[1..], ById());
      InsertApart(p, s[1..]);
      InsertKeeps(p, s[1..], ById());
      InsertHas(p, s[1..]);
      ApartCons(s[0], rest);
      ApartCons(s[0], s[1..]);
      assert s == [s[0]] + s[1..];
      assert Differ(s[0], p) <==> Differ(p, s[0]);
    } else {
      ApartCons(p, s);
    }
  }

  lemma InsertHas(p: Proof, s: seq<Proof>)
    ensures forall q :: q in Insert(p, s, ById()) <==> q == p || q in s
  {
    InsertKeeps(p, s, ById());
    forall q
      ensures q in Insert(p, s, ById()) <==> q == p || q in s
    {
      assert q in Insert(p, s, ById()) <==> q in multiset(Insert(p, s, ById()));
      assert q in s <==> q in multiset(s);
    }
  }

  lemma ApartCons(p: Proof, s: seq<Proof>)
    ensures Apart([p] + s) <==> Apart(s) && forall q :: q in s ==> Differ(p, q)
  {
    if Apart([p] + s) {
      forall i, j | 0 <= i < j < |s|
        ensures Differ(s[i], s[j])
      {
        assert s[i] == ([p] + s)[i + 1] && s[j] == ([p] + s)[j + 1];
      }
      forall q | q in s
        ensures Differ(p, q)
      {
        var k :| 0 <= k < |s| && s[k] == q;
        assert ([p] + s)[0] == p && ([p] + s)[k + 1] == q;
      }
    }
  }

  lemma {:induction false} SortApart(s: seq<Proof>)
    ensures Apart(Sort(s, ById())) <==> Apart(s)
  {
    if s != [] {
      SortApart(s[1..]);
      SortKeeps(s[1..], ById());
      InsertApart(s[0], Sort(s[1..], ById()));
      assert s == [s[0]] + s[1..];
      ApartCons(s[0], s[1..]);
    }
  }

  lemma {:induction false} PairAgain(sorted: seq<Proof>, envelopes: map<TaskId, Envelope>)
    requires forall p :: p in sorted ==> p.task.taskId in envelopes && envelopes[p.task.taskId] == p.envelope
    ensures Pair(Tasks(sorted), envelopes) == sorted
  {
    if sorted != [] {
      assert Tasks(sorted)[1..] == Tasks(sorted[1..]);
      PairAgain(sorted[1..], envelopes);
    }
  }

  /**
   * A shard that was encoded decodes to the same proofs in id order exactly when its entries are
   * valid released proofs and no two of them share an id or an idempotency key.
   */
  lemma ShardRoundTrip(place: TaskId -> Text, shard: Text, entries: seq<Proof>, valid: Task -> bool,
                       validEnvelope: Envelope -> bool)
    requires Encode(place, shard, entries).Ok?
    ensures Decode(place, Encode(place, shard, entries).value, shard, valid, validEnvelope) == Ok(Sort(entries, ById()))
            <==> Decodable(entries, valid, validEnvelope)
    ensures Decode(place, Encode(place, shard, entries).value, shard, valid, validEnvelope).Ok?
            <==> Decodable(entries, valid, validEnvelope)
    ensures Sorted(Sort(entries, ById()), ById()) && multiset(Sort(entries, ById())) == multiset(entries)
  {
    var sorted := Sort(entries, ById());
    var d := Encode(place, shard, entries).value;
    SortedEntries(entries, valid, validEnvelope);
    if Decodable(sorted, valid, validEnvelope) {
      DecodesBack(place, shard, sorted, d, valid, validEnvelope);
    }
    if Decode(place, d, shard, valid, validEnvelope).Ok? {
      DecodableWhenAccepted(sorted, d, valid, validEnvelope);
    }
  }

  /** Sorting changes neither the entries nor whether they decode. */
  lemma SortedEntries(entries: seq<Proof>, valid: Task -> bool, validEnvelope: Envelope -> bool)
    ensures var sorted := Sort(entries, ById());
            && (Decodable(sorted, valid, validEnvelope) <==> Decodable(entries, valid, validEnvelope))
            && Sorted(sorted, ById()) && multiset(sorted) == multiset(entries)
  {
    SortKeeps(entries, ById());
    SortApart(entries);
    ByIdIsTotal();
    SortSorted(entries, ById());
  }

  lemma DecodesBack(place: TaskId -> Text, shard: Text, sorted: seq<Proof>, d: Document, valid: Task -> bool,
                    validEnvelope: Envelope -> bool)
    requires IsShard(shard) && d == Document(shard, Tasks(sorted), Envelopes(sorted))
    requires Decodable(sorted, valid, validEnvelope)
    requires forall p :: p in sorted ==> Belongs(place, shard, p)
    ensures Decode(place, d, shard, valid, validEnvelope) == Ok(sorted)
  {
    assert LedgerAccepts(d, valid, validEnvelope) && UniqueEnvelopes(d.envelopes) by {
      AcceptedWhenDecodable(sorted, d, valid, validEnvelope);
    }
    assert AllPlaced(place, shard, d.tasks, EnvelopeMap(d.envelopes)) by {
      EnvelopesFound(sorted);
      TasksPlaced(place, shard, sorted);
    }
    assert Pair(d.tasks, EnvelopeMap(d.envelopes)) == sorted by {
      EnvelopesFound(sorted);
      PairAgain(sorted, EnvelopeMap(d.envelopes));
    }
  }

  lemma TasksPlaced(place: TaskId -> Text, shard: Text, sorted: seq<Proof>)
    requires forall p :: p in sorted ==>
                           && Belongs(place, shard, p) && IsTombstone(p.task)
                           && p.task.taskId in EnvelopeMap(Envelopes(sorted))
    ensures AllPlaced(place, shard, Tasks(sorted), EnvelopeMap(Envelopes(sorted)))
  {
    forall t | t in Tasks(sorted)
      ensures t.taskId in EnvelopeMap(Envelopes(sorted)) && IsTombstone(t) && t.taskId != [] && place(t.taskId) == shard
    {
      var p := ProofOfTask(sorted, t);
    }
  }

  lemma EnvelopesFound(sorted: seq<Proof>)
    requires UniqueEnvelopes(Envelopes(sorted)) && forall p :: p in sorted ==> p.envelope.taskId == p.task.taskId
    ensures var m := EnvelopeMap(Envelopes(sorted));
            forall p :: p in sorted ==> p.task.taskId in m && m[p.task.taskId] == p.envelope
  {
    var envelopes := Envelopes(sorted);
    forall p | p in sorted
      ensures p.task.taskId in EnvelopeMap(envelopes) && EnvelopeMap(envelopes)[p.task.taskId] == p.envelope
    {
      var k :| 0 <= k < |sorted| && sorted[k] == p;
      assert envelopes[k] == p.envelope;
      EnvelopeMapFinds(envelopes, p.envelope);
    }
  }

  lemma ProofOfTask(sorted: seq<Proof>, t: Task) returns (p: Proof)
    requires t in Tasks(sorted)
    ensures p in sorted && p.task == t
  {
    var k :| 0 <= k < |sorted| && Tasks(sorted)[k] == t;
    p := sorted[k];
  }

  lemma AcceptedWhenDecodable(sorted: seq<Proof>, d: Document, valid: Task -> bool, validEnvelope: Envelope -> bool)
    requires d.tasks == Tasks(sorted) && d.envelopes == Envelopes(sorted)
    requires Decodable(sorted, valid, validEnvelope)
    requires forall p :: p in sorted ==> p.envelope.taskId == p.task.taskId
    ensures LedgerAccepts(d, valid, validEnvelope) && UniqueEnvelopes(d.envelopes)
  {
    forall i | 0 <= i < |sorted|
      ensures valid(d.tasks[i]) && validEnvelope(d.envelopes[i]) && PayloadMatches(d.tasks[i], d.envelopes[i])
    {
      assert sorted[i] in sorted;
    }
    ApartDocument(sorted, d);
  }

  lemma {:induction false} ApartDocument(sorted: seq<Proof>, d: Document)
    requires d.tasks == Tasks(sorted) && d.envelopes == Envelopes(sorted) && Apart(sorted)
    requires forall p :: p in sorted ==> p.envelope.taskId == p.task.taskId
    ensures forall i, j :: 0 <= i < j < |sorted| ==>
                             d.tasks[i].taskId != d.tasks[j].taskId && d.envelopes[i].taskId != d.envelopes[j].taskId
    ensures forall i, j :: 0 <= i < j < |sorted| ==>
                             (d.tasks[i].rootSessionId, d.tasks[i].idempotencyKey)
                             != (d.tasks[j].rootSessionId, d.tasks[j].idempotencyKey)
  {
    forall i | 0 <= i < |sorted|
      ensures d.envelopes[i].taskId == d.tasks[i].taskId
    {
      assert sorted[i] in sorted;
    }
    forall i, j | 0 <= i < j < |sorted|
      ensures Differ(Proof(d.tasks[i], d.envelopes[i]), Proof(d.tasks[j], d.envelopes[j]))
    {
      assert Differ(sorted[i], sorted[j]);
    }
  }

  lemma DecodableWhenAccepted(sorted: seq<Proof>, d: Document, valid: Task -> bool, validEnvelope: Envelope -> bool)
    requires d.tasks == Tasks(sorted) && d.envelopes == Envelopes(sorted)
    requires LedgerAccepts(d, valid, validEnvelope) && (forall t :: t in d.tasks ==> IsTombstone(t))
    requires forall p :: p in sorted ==> p.envelope.taskId == p.task.taskId
    ensures Decodable(sorted, valid, validEnvelope)
  {
    forall p | p in sorted
      ensures valid(p.task) && validEnvelope(p.envelope) && IsTombstone(p.task) && PayloadMatches(p.task, p.envelope)
    {
      OwnEnvelopeMatches(sorted, p);
    }
    forall i, j | 0 <= i < j < |sorted|
      ensures Differ(sorted[i], sorted[j])
    {
      assert d.tasks[i] == sorted[i].task && d.tasks[j] == sorted[j].task;
      assert (d.tasks[i].rootSessionId, d.tasks[i].idempotencyKey)
             != (d.tasks[j].rootSessionId, d.tasks[j].idempotencyKey);
    }
  }

  /** With unique ids, the task an envelope matches is the one it was stored with. */
  lemma OwnEnvelopeMatches(sorted: seq<Proof>, p: Proof)
    requires p in sorted && p.envelope.taskId == p.task.taskId && UniqueTasks(Tasks(sorted))
    requires forall e :: e in Envelopes(sorted) ==> exists t :: t in Tasks(sorted) && PayloadMatches(t, e)
    ensures p.task in Tasks(sorted) && p.envelope in Envelopes(sorted) && PayloadMatches(p.task, p.envelope)
  {
    var k :| 0 <= k < |sorted| && sorted[k] == p;
    assert Tasks(sorted)[k] == p.task && Envelopes(sorted)[k] == p.envelope;
    assert p.envelope in Envelopes(sorted);
    var t :| t in Tasks(sorted) && PayloadMatches(t, p.envelope);
    TaskMapFinds(Tasks(sorted), t);
    TaskMapFinds(Tasks(sorted), p.task);
  }

  ghost predicate DistinctIds(entries: seq<Proof>) {
    forall i, j :: 0 <= i < j < |entries| ==> entries[i].task.taskId != entries[j].task.taskId
  }

  /** A released proof of the ledger, with its envelope, that hashes to the shard. */
  ghost predicate Storable(place: TaskId -> Text, tasks: seq<Task>, shard: Text, valid: Task -> bool,
                            validEnvelope: Envelope -> bool, p: Proof)
  {
    && p.task in tasks && PayloadMatches(p.task, p.envelope) && IsTombstone(p.task)
    && TASK_ID_PREFIX <= p.task.taskId && place(p.task.taskId) == shard
    && valid(p.task) && validEnvelope(p.envelope)
  }

  /** The released proofs of a ledger that hash to one shard survive the trip through its document. */
  lemma LedgerProofsReturn(place: TaskId -> Text, tasks: seq<Task>, shard: Text, entries: seq<Proof>,
                           valid: Task -> bool,
                           validEnvelope: Envelope -> bool)
    requires UniqueKeys(tasks) && IsShard(shard)
    requires forall p :: p in entries ==> Storable(place, tasks, shard, valid, validEnvelope, p)
    requires DistinctIds(entries)
    ensures Encode(place, shard, entries).Ok?
    ensures Decode(place, Encode(place, shard, entries).value, shard, valid, validEnvelope) == Ok(Sort(entries, ById()))
  {
    StorableIsDecodable(place, tasks, shard, entries, valid, validEnvelope);
    ShardRoundTrip(place, shard, entries, valid, validEnvelope);
  }

  lemma StorableIsDecodable(place: TaskId -> Text, tasks: seq<Task>, shard: Text, entries: seq<Proof>,
                            valid: Task -> bool, validEnvelope: Envelope -> bool)
    requires UniqueKeys(tasks) && IsShard(shard)
    requires forall p :: p in entries ==> Storable(place, tasks, shard, valid, validEnvelope, p)
    requires DistinctIds(entries)
    ensures Encode(place, shard, entries).Ok? && Decodable(entries, valid, validEnvelope)
  {
    EntriesEncode(place, shard, entries);
    EntriesApart(tasks, entries);
  }

  lemma EntriesEncode(place: TaskId -> Text, shard: Text, entries: seq<Proof>)
    requires IsShard(shard)
    requires forall p :: p in entries ==>
                           && TASK_ID_PREFIX <= p.task.taskId && place(p.task.taskId) == shard
                           && p.envelope.taskId == p.task.taskId
    ensures Encode(place, shard, entries).Ok?
  {
    SortKeeps(entries, ById());
    assert |TASK_ID_PREFIX| == 9;
  }

  lemma EntriesApart(tasks: seq<Task>, entries: seq<Proof>)
    requires UniqueKeys(tasks) && forall p :: p in entries ==> p.task in tasks
    requires DistinctIds(entries)
    ensures Apart(entries)
  {
    forall i, j | 0 <= i < j < |entries|
      ensures Differ(entries[i], entries[j])
    {
      assert entries[i] in entries && entries[j] in entries;
    }
  }

  // ---------- What encoding lets through ----------

  /** A tombstone with its envelope, of the one root and key all of these share. */
  function Released(id: TaskId): Proof {
    var segment := Segment([], [], [], SegAccepted, Some(Pending));
    var plain := PlainTask(id, [107], 1, None, Completed);
    var task := plain.(executionBackend := Some(NativeJob), nativeJobSegments := Some([segment]),
                       prompt := TOMBSTONE_PROMPT);
    Proof(task, Envelope([], 1, id, [], None, None, [], Completed, false, None, 1, None, [], [], [], 0, None, None,
                         None, None, []))
  }

  lemma ReleasedIsProof(id: TaskId)
    ensures var p := Released(id);
            && IsTombstone(p.task) && PayloadMatches(p.task, p.envelope) && p.task.taskId == id == p.envelope.taskId
            && p.task.rootSessionId == [] && p.task.idempotencyKey == [107]
  {
    assert Released(id).task.nativeJobSegments.value[0].completion == Some(Pending);
  }

  /** Two ids whose last units differ by 64, which leaves the low bits of the hash alone. */
  const FIRST_ID: TaskId := TASK_ID_PREFIX + [33]
  const SECOND_ID: TaskId := TASK_ID_PREFIX + [97]

  lemma LowBits(hash: bv32)
    ensures ((hash ^ 33) * FNV_PRIME) % 64 == ((hash ^ 97) * FNV_PRIME) % 64
  {
  }

  lemma LowBitsAgree(hash: bv32)
    ensures Low(HashStep(hash, 33)) == Low(HashStep(hash, 97))
  {
    assert HashStep(hash, 33) == (hash ^ 33) * FNV_PRIME && HashStep(hash, 97) == (hash ^ 97) * FNV_PRIME;
    LowBits(hash);
  }

  lemma SameShard()
    ensures FIRST_ID != SECOND_ID && ShardOf(FIRST_ID) == ShardOf(SECOND_ID)
  {
    var n := |TASK_ID_PREFIX|;
    assert FIRST_ID[n] == 33 && SECOND_ID[n] == 97;
    assert FIRST_ID[..n] == TASK_ID_PREFIX == SECOND_ID[..n];
    assert FIRST_ID[..n + 1] == FIRST_ID && SECOND_ID[..n + 1] == SECOND_ID;
    HashNext(FIRST_ID, n);
    HashNext(SECOND_ID, n);
    LowBitsAgree(Hash(TASK_ID_PREFIX));
  }

  lemma RefusedWhole(place: TaskId -> Text, d: Document, shard: Text, valid: Task -> bool,
                     validEnvelope: Envelope -> bool)
    ensures var r := Decode(place, d, shard, valid, validEnvelope);
            r.Err? ==> r == Err(InvalidShard)
  {
  }

  lemma AliasesRefused(place: TaskId -> Text, shard: Text, entries: seq<Proof>, valid: Task -> bool,
                       validEnvelope: Envelope -> bool)
    requires Encode(place, shard, entries).Ok? && !Apart(entries)
    ensures Decode(place, Encode(place, shard, entries).value, shard, valid, validEnvelope) == Err(InvalidShard)
  {
    ShardRoundTrip(place, shard, entries, valid, validEnvelope);
    RefusedWhole(place, Encode(place, shard, entries).value, shard, valid, validEnvelope);
  }

  lemma PlacedEncode(place: TaskId -> Text, shard: Text, entries: seq<Proof>)
    requires IsShard(shard) && forall p :: p in entries ==> Belongs(place, shard, p)
    ensures Encode(place, shard, entries).Ok?
  {
    SortKeeps(entries, ById());
  }

  /** Entries of one root and key are encoded, and refused when read. */
  lemma SharedKeyRefused(place: TaskId -> Text, shard: Text, a: Proof, b: Proof, valid: Task -> bool,
                         validEnvelope: Envelope -> bool)
    requires IsShard(shard) && Belongs(place, shard, a) && Belongs(place, shard, b)
    requires a.task.rootSessionId == b.task.rootSessionId && a.task.idempotencyKey == b.task.idempotencyKey
    ensures Encode(place, shard, [a, b]).Ok?
    ensures Decode(place, Encode(place, shard, [a, b]).value, shard, valid, validEnvelope) == Err(InvalidShard)
  {
    var entries := [a, b];
    PlacedEncode(place, shard, entries);
    assert !Differ(entries[0], entries[1]);
    AliasesRefused(place, shard, entries, valid, validEnvelope);
  }

  /** Two tombstones of one root with one key are encoded, whatever the validators say, and never read back. */
  lemma SharedKeyIsLost(valid: Task -> bool, validEnvelope: Envelope -> bool)
    ensures var a, b, shard := Released(FIRST_ID), Released(SECOND_ID), ShardOf(FIRST_ID);
            && IsTombstone(a.task) && PayloadMatches(a.task, a.envelope)
            && IsTombstone(b.task) && PayloadMatches(b.task, b.envelope) && a.task.taskId != b.task.taskId
            && Encode(ShardOf, shard, [a, b]).Ok?
            && Decode(ShardOf, Encode(ShardOf, shard, [a, b]).value, shard, valid, validEnvelope) == Err(InvalidShard)
  {
    SameShard();
    ReleasedIsProof(FIRST_ID);
    ReleasedIsProof(SECOND_ID);
    assert |FIRST_ID| == 10 && |SECOND_ID| == 10;
    SharedKeyRefused(ShardOf, ShardOf(FIRST_ID), Released(FIRST_ID), Released(SECOND_ID), valid, validEnvelope);
  }
}
