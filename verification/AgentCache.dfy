/** The cache of live agents: least-recently-used eviction that never takes an agent in use. */
module AgentCache {
  import opened Outcomes

  /** An agent, known by its identity. */
  type Agent = nat

  datatype Entry = Entry(key: string, value: Agent, sessionID: string, activeCount: nat,
                               releaseRequested: bool, lastAccessAt: int)

  datatype Reason = SessionRelease | IdleTtl | Capacity | Duplicate | Replacement | Shutdown

  /** One call of the eviction callback; `active` says whether the entry was in use. */
  datatype Notice = Notice(key: string, value: Agent, sessionID: string, reason: Reason, active: bool)

  function NoticeOf(e: Entry, reason: Reason): Notice {
    Notice(e.key, e.value, e.sessionID, reason, e.activeCount > 0)
  }

  // ---------- Entries in map order ----------

  predicate DistinctKeys(s: seq<Entry>) {
    forall i, j :: 0 <= i < j < |s| ==> s[i].key != s[j].key
  }

  /** Map order is access order. */
  ghost predicate ByAccess(s: seq<Entry>) {
    forall i, j :: 0 <= i < j < |s| ==> s[i].lastAccessAt <= s[j].lastAccessAt
  }

  ghost predicate AllBy(s: seq<Entry>, now: int) {
    forall i :: 0 <= i < |s| ==> s[i].lastAccessAt <= now
  }

  function Position(s: seq<Entry>, key: string): (i: nat)
    ensures i <= |s|
    ensures i < |s| ==> s[i].key == key
    ensures forall j :: 0 <= j < i ==> s[j].key != key
  {
    if s == [] || s[0].key == key then 0 else Position(s[1..], key) + 1
  }

  function Drop(s: seq<Entry>, i: nat): seq<Entry>
    requires i < |s|
  {
    s[..i] + s[i + 1..]
  }

  /** How many entries hold the pair. */
  function Holding(s: seq<Entry>, key: string, value: Agent): nat {
    if s == [] then 0 else (if s[0].key == key && s[0].value == value then 1 else 0) + Holding(s[1..], key, value)
  }

  /** How many callbacks told of the pair. */
  function Told(s: seq<Notice>, key: string, value: Agent): nat {
    if s == [] then 0 else (if s[0].key == key && s[0].value == value then 1 else 0) + Told(s[1..], key, value)
  }

  /** How many times the pair was handed over. */
  function Handed(s: seq<(string, Agent)>, key: string, value: Agent): nat {
    if s == [] then 0 else (if s[0] == (key, value) then 1 else 0) + Handed(s[1..], key, value)
  }

  lemma {:induction false} HoldingAppend(a: seq<Entry>, b: seq<Entry>, key: string, value: Agent)
    ensures Holding(a + b, key, value) == Holding(a, key, value) + Holding(b, key, value)
  {
    if a == [] {
      assert a + b == b;
    } else {
      HoldingAppend(a[1..], b, key, value);
      assert (a + b)[1..] == a[1..] + b;
    }
  }

  lemma {:induction false} ToldAppend(a: seq<Notice>, b: seq<Notice>, key: string, value: Agent)
    ensures Told(a + b, key, value) == Told(a, key, value) + Told(b, key, value)
  {
    if a == [] {
      assert a + b == b;
    } else {
      ToldAppend(a[1..], b, key, value);
      assert (a + b)[1..] == a[1..] + b;
    }
  }

  lemma {:induction false} HandedAppend(a: seq<(string, Agent)>, b: seq<(string, Agent)>, key: string, value: Agent)
    ensures Handed(a + b, key, value) == Handed(a, key, value) + Handed(b, key, value)
  {
    if a == [] {
      assert a + b == b;
    } else {
      HandedAppend(a[1..], b, key, value);
      assert (a + b)[1..] == a[1..] + b;
    }
  }

  /** Entries `s` give way to `t`, and the callbacks told of exactly the pairs that went. */
  ghost predicate Accounted(s: seq<Entry>, t: seq<Entry>, told: seq<Notice>) {
    forall key, value :: Holding(s, key, value) == Holding(t, key, value) + Told(told, key, value)
  }

  ghost predicate Balanced(acquired: seq<(string, Agent)>, held: seq<Entry>, told: seq<Notice>) {
    forall key, value :: Handed(acquired, key, value) == Holding(held, key, value) + Told(told, key, value)
  }

  lemma BalanceMoves(acquired: seq<(string, Agent)>, s: seq<Entry>, before: seq<Notice>, t: seq<Entry>,
                     told: seq<Notice>)
    requires Balanced(acquired, s, before) && Accounted(s, t, told)
    ensures Balanced(acquired, t, before + told)
  {
    forall key, value
      ensures Handed(acquired, key, value) == Holding(t, key, value) + Told(before + told, key, value)
    {
      ToldAppend(before, told, key, value);
    }
  }

  lemma AccountedCons(e: Entry, f: Entry, s: seq<Entry>, t: seq<Entry>, told: seq<Notice>, n: Notice)
    requires Accounted(s, t, told) && f.key == n.key == e.key && f.value == n.value == e.value
    ensures Accounted([e] + s, [f] + t, told)
    ensures Accounted([e] + s, t, [n] + told)
  {
    forall key, value
      ensures Holding([e] + s, key, value) == Holding([f] + t, key, value) + Told(told, key, value)
      ensures Holding([e] + s, key, value) == Holding(t, key, value) + Told([n] + told, key, value)
    {
      assert ([e] + s)[1..] == s && ([f] + t)[1..] == t && ([n] + told)[1..] == told;
    }
  }

  lemma AccountedThen(s: seq<Entry>, t: seq<Entry>, u: seq<Entry>, a: seq<Notice>, b: seq<Notice>)
    requires Accounted(s, t, a) && Accounted(t, u, b)
    ensures Accounted(s, u, a + b)
  {
    forall key, value
      ensures Holding(s, key, value) == Holding(u, key, value) + Told(a + b, key, value)
    {
      ToldAppend(a, b, key, value);
    }
  }

  lemma AccountedDrop(s: seq<Entry>, i: nat, reason: Reason)
    requires i < |s|
    ensures Accounted(s, Drop(s, i), [NoticeOf(s[i], reason)])
    ensures forall e: Entry :: e.key == s[i].key && e.value == s[i].value ==>
                                 Accounted(s, Drop(s, i) + [e], []) && Accounted(s, s[i := e], [])
  {
    forall key, value
      ensures Holding(s, key, value)
              == Holding(Drop(s, i), key, value) + (if s[i].key == key && s[i].value == value then 1 else 0)
    {
      assert s == s[..i] + ([s[i]] + s[i + 1..]);
      HoldingAppend(s[..i], [s[i]] + s[i + 1..], key, value);
      HoldingAppend(s[..i], s[i + 1..], key, value);
      assert ([s[i]] + s[i + 1..])[1..] == s[i + 1..];
    }
    forall e: Entry, key, value | e.key == s[i].key && e.value == s[i].value
      ensures Holding(Drop(s, i) + [e], key, value) == Holding(s, key, value)
      ensures Holding(s[i := e], key, value) == Holding(s, key, value)
    {
      HoldingAppend(Drop(s, i), [e], key, value);
      assert s[i := e] == s[..i] + ([e] + s[i + 1..]);
      HoldingAppend(s[..i], [e] + s[i + 1..], key, value);
      HoldingAppend(s[..i], s[i + 1..], key, value);
      assert ([e] + s[i + 1..])[1..] == s[i + 1..];
    }
  }

  lemma BalanceTakesIn(acquired: seq<(string, Agent)>, held: seq<Entry>, told: seq<Notice>, e: Entry, n: Notice)
    requires Balanced(acquired, held, told) && n.key == e.key && n.value == e.value
    ensures Balanced(acquired + [(e.key, e.value)], held + [e], told)
    ensures Balanced(acquired + [(e.key, e.value)], held, told + [n])
  {
    forall key, value
      ensures Handed(acquired + [(e.key, e.value)], key, value)
          == Holding(held + [e], key, value) + Told(told, key, value)
      ensures Handed(acquired + [(e.key, e.value)], key, value)
          == Holding(held, key, value) + Told(told + [n], key, value)
    {
      HandedAppend(acquired, [(e.key, e.value)], key, value);
      HoldingAppend(held, [e], key, value);
      ToldAppend(told, [n], key, value);
    }
  }

  // ---------- Sweeps: one walk that keeps, marks or gives up each entry ----------

  datatype Sweep = Expiry(now: int, ttl: int) | Release(sessionID: string) | ShutDown

  predicate Expired(e: Entry, now: int, ttl: int) {
    e.activeCount == 0 && (e.releaseRequested || now - e.lastAccessAt > ttl)
  }

  predicate GivesUp(e: Entry, w: Sweep) {
    match w
    case Expiry(now, ttl) => Expired(e, now, ttl)
    case Release(id) => e.sessionID == id && e.activeCount == 0
    case ShutDown => true
  }

  function WhyGone(e: Entry, w: Sweep): Reason {
    match w
    case Expiry(_, _) => if e.releaseRequested then SessionRelease else IdleTtl
    case Release(_) => SessionRelease
    case ShutDown => Shutdown
  }

  function Marked(e: Entry, w: Sweep): Entry {
    if w.Release? && e.sessionID == w.sessionID then e.(releaseRequested := true) else e
  }

  function Kept(e: Entry, w: Sweep): seq<Entry> {
    if GivesUp(e, w) then [] else [Marked(e, w)]
  }

  function Farewell(e: Entry, w: Sweep): seq<Notice> {
    if GivesUp(e, w) then [NoticeOf(e, WhyGone(e, w))] else []
  }

  function Survivors(s: seq<Entry>, w: Sweep): seq<Entry> {
    if s == [] then [] else Kept(s[0], w) + Survivors(s[1..], w)
  }

  function Farewells(s: seq<Entry>, w: Sweep): seq<Notice> {
    if s == [] then [] else Farewell(s[0], w) + Farewells(s[1..], w)
  }

  function SessionSize(s: seq<Entry>, sessionID: string): nat {
    if s == [] then 0 else (if s[0].sessionID == sessionID then 1 else 0) + SessionSize(s[1..], sessionID)
  }

  /** The same entry, except that a release may have marked it. */
  predicate SameSlot(e: Entry, f: Entry) {
    e == f.(releaseRequested := e.releaseRequested)
  }

  /** `t` is `s` without some of its entries. */
  ghost predicate Thins(s: seq<Entry>, t: seq<Entry>) {
    if t == [] then true
    else s != [] && ((SameSlot(t[0], s[0]) && Thins(s[1..], t[1..])) || Thins(s[1..], t))
  }

  ghost predicate HasSlot(s: seq<Entry>, e: Entry) {
    exists k :: 0 <= k < |s| && SameSlot(e, s[k])
  }

  lemma {:induction false} ThinsItself(s: seq<Entry>)
    ensures Thins(s, s)
  {
    if s != [] {
      ThinsItself(s[1..]);
    }
  }

  lemma {:induction false} ThinsHas(s: seq<Entry>, t: seq<Entry>, j: nat)
    requires Thins(s, t) && j < |t|
    ensures HasSlot(s, t[j])
  {
    if SameSlot(t[0], s[0]) && Thins(s[1..], t[1..]) {
      if j > 0 {
        ThinsHas(s[1..], t[1..], j - 1);
        var k :| 0 <= k < |s[1..]| && SameSlot(t[j], s[1..][k]);
        assert s[k + 1] == s[1..][k];
      }
    } else {
      ThinsHas(s[1..], t, j);
      var k :| 0 <= k < |s[1..]| && SameSlot(t[j], s[1..][k]);
      assert s[k + 1] == s[1..][k];
    }
  }

  /** Giving up entries keeps the order and the keys of the rest. */
  lemma {:induction false} ThinsKeepsOrder(s: seq<Entry>, t: seq<Entry>, now: int)
    requires Thins(s, t) && DistinctKeys(s) && ByAccess(s) && AllBy(s, now)
    ensures DistinctKeys(t) && ByAccess(t) && AllBy(t, now) && |t| <= |s|
  {
    if t != [] {
      if SameSlot(t[0], s[0]) && Thins(s[1..], t[1..]) {
        ThinsKeepsOrder(s[1..], t[1..], now);
        forall j | 0 < j < |t|
          ensures t[0].key != t[j].key && t[0].lastAccessAt <= t[j].lastAccessAt
        {
          ThinsHas(s[1..], t[1..], j - 1);
          var k :| 0 <= k < |s[1..]| && SameSlot(t[j], s[1..][k]);
          assert s[k + 1] == s[1..][k];
        }
        assert forall j :: 0 < j < |t| ==> t[j] == t[1..][j - 1];
      } else {
        ThinsKeepsOrder(s[1..], t, now);
      }
    }
  }

  lemma {:induction false} ThinsComposes(s: seq<Entry>, t: seq<Entry>, u: seq<Entry>)
    requires Thins(s, t) && Thins(t, u)
    ensures Thins(s, u)
  {
    if u != [] {
      if SameSlot(t[0], s[0]) && Thins(s[1..], t[1..]) {
        if SameSlot(u[0], t[0]) && Thins(t[1..], u[1..]) {
          ThinsComposes(s[1..], t[1..], u[1..]);
        } else {
          ThinsComposes(s[1..], t[1..], u);
        }
      } else {
        ThinsComposes(s[1..], t, u);
      }
    }
  }

  /** A sweep only thins, tells of exactly the pairs it gives up, and takes one in use only at shutdown. */
  lemma {:induction false} SweepThins(s: seq<Entry>, w: Sweep)
    ensures Thins(s, Survivors(s, w))
    ensures Accounted(s, Survivors(s, w), Farewells(s, w))
    ensures forall n :: n in Farewells(s, w) && n.active ==> n.reason == Shutdown
  {
    if s != [] {
      SweepThins(s[1..], w);
      var n := NoticeOf(s[0], WhyGone(s[0], w));
      AccountedCons(s[0], Marked(s[0], w), s[1..], Survivors(s[1..], w), Farewells(s[1..], w), n);
      assert s == [s[0]] + s[1..];
      if GivesUp(s[0], w) {
        assert Survivors(s, w) == Survivors(s[1..], w);
      } else {
        assert Farewells(s, w) == Farewells(s[1..], w);
        assert Survivors(s, w)[1..] == Survivors(s[1..], w);
      }
    }
  }

  /** Exactly the entries a sweep does not give up are left, marked where it marks. */
  lemma {:induction false} SweepSpares(s: seq<Entry>, w: Sweep, e: Entry)
    ensures e in Survivors(s, w) <==> exists f :: f in s && !GivesUp(f, w) && e == Marked(f, w)
  {
    if s != [] {
      SweepSpares(s[1..], w, e);
      assert s == [s[0]] + s[1..];
    }
  }

  /** The walk after one more entry. */
  lemma SweepStep(s: seq<Entry>, i: nat, w: Sweep, done: seq<Entry>, told: seq<Notice>)
    requires i < |s|
    requires done + Survivors(s[i..], w) == Survivors(s, w) && told + Farewells(s[i..], w) == Farewells(s, w)
    ensures done + Kept(s[i], w) + Survivors(s[i + 1..], w) == Survivors(s, w)
    ensures told + Farewell(s[i], w) + Farewells(s[i + 1..], w) == Farewells(s, w)
  {
    assert s[i..][1..] == s[i + 1..];
    Regroup(done, Kept(s[i], w), Survivors(s[i + 1..], w));
    Regroup(told, Farewell(s[i], w), Farewells(s[i + 1..], w));
  }

  lemma Regroup<T>(a: seq<T>, b: seq<T>, c: seq<T>)
    ensures a + (b + c) == a + b + c
    ensures a + b + [] == a + b
  {
  }

  lemma SessionStep(s: seq<Entry>, i: nat, sessionID: string)
    requires i < |s|
    ensures SessionSize(s[i..], sessionID)
            == (if s[i].sessionID == sessionID then 1 else 0) + SessionSize(s[i + 1..], sessionID)
  {
    assert s[i..][1..] == s[i + 1..];
  }

  /** `part` stands for the entry at `k`. */
  function Replaced(s: seq<Entry>, k: nat, part: seq<Entry>): seq<Entry>
    requires k < |s|
  {
    s[..k] + part + s[k + 1..]
  }

  lemma ReplacedAt(s: seq<Entry>, i: nat, done: seq<Entry>, held: seq<Entry>, part: seq<Entry>)
    requires i < |s| && held == done + s[i..]
    ensures var k := |held| - (|s| - i);
            && 0 <= k < |held| && held[k] == s[i] && Replaced(held, k, part) == done + part + s[i + 1..]
            && |Replaced(held, k, part)| == |held| - 1 + |part|
  {
  }

  /** The walk over a snapshot has come to `i`: `held` is what is kept so far and the rest. */
  ghost predicate Swept(s: seq<Entry>, i: nat, w: Sweep, done: seq<Entry>, told: seq<Notice>, held: seq<Entry>,
                        heard: seq<Notice>, notices: seq<Notice>)
  {
    && i <= |s| && held == done + s[i..] && done + Survivors(s[i..], w) == Survivors(s, w)
    && notices == heard + told && told + Farewells(s[i..], w) == Farewells(s, w)
  }

  lemma SweptFirst(s: seq<Entry>, w: Sweep, heard: seq<Notice>)
    ensures Swept(s, 0, w, [], [], s, heard, heard)
  {
    assert s[0..] == s && heard + [] == heard;
  }

  lemma SweptNext(s: seq<Entry>, i: nat, w: Sweep, done: seq<Entry>, told: seq<Notice>, held: seq<Entry>,
                  heard: seq<Notice>, notices: seq<Notice>)
    requires i < |s| && Swept(s, i, w, done, told, held, heard, notices)
    ensures var k := |held| - (|s| - i);
            && 0 <= k < |held| && held[k] == s[i]
            && Swept(s, i + 1, w, done + Kept(s[i], w), told + Farewell(s[i], w), Replaced(held, k, Kept(s[i], w)),
                     heard, notices + Farewell(s[i], w))
  {
    SweepStep(s, i, w, done, told);
    ReplacedAt(s, i, done, held, Kept(s[i], w));
    Regroup(heard, told, Farewell(s[i], w));
  }

  lemma SweptAll(s: seq<Entry>, w: Sweep, done: seq<Entry>, told: seq<Notice>, held: seq<Entry>, heard: seq<Notice>,
                 notices: seq<Notice>)
    requires Swept(s, |s|, w, done, told, held, heard, notices)
    ensures held == Survivors(s, w) && told == Farewells(s, w) && notices == heard + Farewells(s, w)
  {
    assert s[|s|..] == [];
    assert done + [] == done && told + [] == told;
  }

  // ---------- Shedding to the size limit ----------

  /** Gives up the `excess` oldest entries that are not in use. */
  function Shed(s: seq<Entry>, excess: nat): seq<Entry> {
    if s == [] || excess == 0 then s
    else if s[0].activeCount > 0 then [s[0]] + Shed(s[1..], excess)
    else Shed(s[1..], excess - 1)
  }

  function ShedNotices(s: seq<Entry>, excess: nat): seq<Notice> {
    if s == [] || excess == 0 then []
    else if s[0].activeCount > 0 then ShedNotices(s[1..], excess)
    else [NoticeOf(s[0], Capacity)] + ShedNotices(s[1..], excess - 1)
  }

  function ActiveSize(s: seq<Entry>): (n: nat)
    ensures n <= |s|
  {
    if s == [] then 0 else (if s[0].activeCount > 0 then 1 else 0) + ActiveSize(s[1..])
  }

  lemma {:induction false} ShedThins(s: seq<Entry>, excess: nat)
    ensures Thins(s, Shed(s, excess))
    ensures Accounted(s, Shed(s, excess), ShedNotices(s, excess))
    ensures forall n :: n in ShedNotices(s, excess) ==> !n.active
  {
    if s == [] || excess == 0 {
      ThinsItself(s);
    } else {
      assert s == [s[0]] + s[1..];
      var left := if s[0].activeCount > 0 then excess else excess - 1;
      ShedThins(s[1..], left);
      AccountedCons(s[0], s[0], s[1..], Shed(s[1..], left), ShedNotices(s[1..], left), NoticeOf(s[0], Capacity));
      if s[0].activeCount > 0 {
        assert Shed(s, excess)[1..] == Shed(s[1..], excess);
      }
    }
  }

  /** As many go as asked for, or all that are not in use; every entry in use stays. */
  lemma {:induction false} ShedSizes(s: seq<Entry>, excess: nat)
    ensures |Shed(s, excess)| + |ShedNotices(s, excess)| == |s|
    ensures |ShedNotices(s, excess)| == if |s| - ActiveSize(s) < excess then |s| - ActiveSize(s) else excess
    ensures forall e :: e in Shed(s, excess) ==> e in s
    ensures forall e :: e in s && e.activeCount > 0 ==> e in Shed(s, excess)
    ensures |ShedNotices(s, excess)| < excess ==> forall e :: e in Shed(s, excess) ==> e.activeCount > 0
  {
    if s != [] && excess > 0 {
      assert s == [s[0]] + s[1..];
      ShedSizes(s[1..], if s[0].activeCount > 0 then excess else excess - 1);
    }
  }

  /** Least recently used first: what is shed was used no later than any idle entry that stays. */
  lemma {:induction false} ShedIsLeastRecentlyUsed(s: seq<Entry>, excess: nat, e: Entry, f: Entry)
    requires ByAccess(s) && e in s && e !in Shed(s, excess) && f in Shed(s, excess) && f.activeCount == 0
    ensures e.activeCount == 0 && e.lastAccessAt <= f.lastAccessAt
  {
    assert s == [s[0]] + s[1..];
    ShedSizes(s, excess);
    if e != s[0] {
      ShedIsLeastRecentlyUsed(s[1..], if s[0].activeCount > 0 then excess else excess - 1, e, f);
    }
  }

  function Spared(e: Entry): (r: seq<Entry>)
    ensures |r| == if e.activeCount > 0 then 1 else 0
  {
    if e.activeCount > 0 then [e] else []
  }

  function Dropped(e: Entry): (r: seq<Notice>)
    ensures |r| == if e.activeCount > 0 then 0 else 1
  {
    if e.activeCount > 0 then [] else [NoticeOf(e, Capacity)]
  }

  function Excess(size: nat, most: nat): nat {
    if size > most then size - most else 0
  }

  /** The shedding walk over a snapshot has come to `i`; it goes on until `most` are held. */
  ghost predicate Shedding(s: seq<Entry>, i: nat, most: nat, done: seq<Entry>, held: seq<Entry>, heard: seq<Notice>,
                           notices: seq<Notice>)
  {
    var total, left := Excess(|s|, most), Excess(|held|, most);
    && i <= |s| && held == done + s[i..] && done + Shed(s[i..], left) == Shed(s, total)
    && notices + ShedNotices(s[i..], left) == heard + ShedNotices(s, total)
  }

  lemma SheddingFirst(s: seq<Entry>, most: nat, heard: seq<Notice>)
    ensures Shedding(s, 0, most, [], s, heard, heard)
  {
    assert s[0..] == s;
  }

  /** The next entry stays or goes. */
  lemma ShedOne(s: seq<Entry>, i: nat, left: nat)
    requires i < |s| && left > 0
    ensures Shed(s[i..], left) == Spared(s[i]) + Shed(s[i + 1..], left - |Dropped(s[i])|)
    ensures ShedNotices(s[i..], left) == Dropped(s[i]) + ShedNotices(s[i + 1..], left - |Dropped(s[i])|)
  {
    assert s[i..][1..] == s[i + 1..];
  }

  lemma SheddingNext(s: seq<Entry>, i: nat, most: nat, done: seq<Entry>, held: seq<Entry>, heard: seq<Notice>,
                     notices: seq<Notice>)
    requires i < |s| && |held| > most && Shedding(s, i, most, done, held, heard, notices)
    ensures |held| - (|s| - i) == |done| < |held| && held[|done|] == s[i]
    ensures Shedding(s, i + 1, most, done + Spared(s[i]), Replaced(held, |done|, Spared(s[i])), heard,
                     notices + Dropped(s[i]))
  {
    var left := |held| - most;
    ShedOne(s, i, left);
    ReplacedAt(s, i, done, held, Spared(s[i]));
    Regroup(done, Spared(s[i]), Shed(s[i + 1..], left - |Dropped(s[i])|));
    Regroup(notices, Dropped(s[i]), ShedNotices(s[i + 1..], left - |Dropped(s[i])|));
  }

  /** The walk stops when nothing is left to shed or to look at. */
  lemma SheddingEnds(s: seq<Entry>, i: nat, most: nat, done: seq<Entry>, held: seq<Entry>, heard: seq<Notice>,
                     notices: seq<Notice>)
    requires Shedding(s, i, most, done, held, heard, notices) && (i == |s| || |held| <= most)
    ensures held == Shed(s, Excess(|s|, most)) && notices == heard + ShedNotices(s, Excess(|s|, most))
  {
    NothingToShed(s[i..], Excess(|held|, most));
    assert notices + [] == notices;
  }

  lemma NothingToShed(s: seq<Entry>, excess: nat)
    requires s == [] || excess == 0
    ensures Shed(s, excess) == s && ShedNotices(s, excess) == []
  {
  }

  function Pruned(s: seq<Entry>, now: int, ttl: int, most: nat): seq<Entry> {
    var current := Survivors(s, Expiry(now, ttl));
    Shed(current, Excess(|current|, most))
  }

  function PruneNotices(s: seq<Entry>, now: int, ttl: int, most: nat): seq<Notice> {
    var current := Survivors(s, Expiry(now, ttl));
    Farewells(s, Expiry(now, ttl)) + ShedNotices(current, Excess(|current|, most))
  }

  lemma PruneThins(s: seq<Entry>, now: int, ttl: int, most: nat)
    ensures Thins(s, Pruned(s, now, ttl, most))
    ensures Accounted(s, Pruned(s, now, ttl, most), PruneNotices(s, now, ttl, most))
    ensures forall n :: n in PruneNotices(s, now, ttl, most) && n.active ==> n.reason == Shutdown
  {
    var current := Survivors(s, Expiry(now, ttl));
    var excess := Excess(|current|, most);
    SweepThins(s, Expiry(now, ttl));
    ShedThins(current, excess);
    ThinsComposes(s, current, Shed(current, excess));
    AccountedThen(s, current, Shed(current, excess), Farewells(s, Expiry(now, ttl)), ShedNotices(current, excess));
  }

  /** After pruning: nothing expired is left, everything in use is, and only that can exceed the size limit. */
  lemma PrunedIsWithinLimits(s: seq<Entry>, now: int, ttl: int, most: nat)
    ensures forall e :: e in Pruned(s, now, ttl, most) ==> e in s && !Expired(e, now, ttl)
    ensures forall e :: e in s && e.activeCount > 0 ==> e in Pruned(s, now, ttl, most)
    ensures |Pruned(s, now, ttl, most)| > most ==> forall e :: e in Pruned(s, now, ttl, most) ==> e.activeCount > 0
  {
    var current := Survivors(s, Expiry(now, ttl));
    ShedSizes(current, Excess(|current|, most));
    forall e | e in Pruned(s, now, ttl, most)
      ensures e in s && !Expired(e, now, ttl)
    {
      SweepSpares(s, Expiry(now, ttl), e);
    }
    forall e | e in s && e.activeCount > 0
      ensures e in Pruned(s, now, ttl, most)
    {
      SweepSpares(s, Expiry(now, ttl), e);
      assert !GivesUp(e, Expiry(now, ttl)) && e == Marked(e, Expiry(now, ttl));
    }
  }

  /** A release leaves entries of its session only in use and marked. */
  lemma ReleaseMarks(s: seq<Entry>, sessionID: string)
    ensures forall e :: e in Survivors(s, Release(sessionID)) && e.sessionID == sessionID
                        ==> e.activeCount > 0 && e.releaseRequested
    ensures forall e :: e in Survivors(s, Release(sessionID)) && e.sessionID != sessionID ==> e in s
    ensures forall e :: e in s && e.sessionID != sessionID ==> e in Survivors(s, Release(sessionID))
    ensures forall e :: e in s && e.activeCount > 0 && e.sessionID == sessionID
                        ==> e.(releaseRequested := true) in Survivors(s, Release(sessionID))
  {
    var w := Release(sessionID);
    forall e: Entry
      ensures e in Survivors(s, w) <==> exists f :: f in s && !GivesUp(f, w) && e == Marked(f, w)
    {
      SweepSpares(s, w, e);
    }
    forall e | e in s && (e.activeCount > 0 || e.sessionID != sessionID)
      ensures Marked(e, w) in Survivors(s, w)
    {
      assert !GivesUp(e, w);
    }
  }

  lemma {:induction false} ShutdownTakesAll(s: seq<Entry>)
    ensures Survivors(s, ShutDown) == [] && |Farewells(s, ShutDown)| == |s|
  {
    if s != [] {
      ShutdownTakesAll(s[1..]);
    }
  }

  // ---------- The cache ----------

  class Cache {
    const maxEntries: nat
    const idleTtlMs: nat
    var entries: seq<Entry>
    var clock: int
    /** Every pair a caller handed over, and every callback so far. */
    ghost var acquired: seq<(string, Agent)>
    ghost var notices: seq<Notice>

    /** Holds at every step inside an operation. */
    ghost predicate Consistent()
      reads this
    {
      && Ordered(entries, clock)
      && Balanced(acquired, entries, notices)
      && OnlyShutdownTakesActive(notices)
    }

    ghost predicate Valid()
      reads this
    {
      Consistent() && Settled(entries, maxEntries)
    }

    constructor (maxEntries: nat, idleTtlMs: nat)
      ensures Valid() && entries == [] && notices == [] && acquired == []
      ensures this.maxEntries == maxEntries && this.idleTtlMs == idleTtlMs
    {
      this.maxEntries := maxEntries;
      this.idleTtlMs := idleTtlMs;
      entries := [];
      clock := 0;
      acquired := [];
      notices := [];
    }

    /** Reads a clock that never goes back. */
    method Now() returns (t: int)
      modifies this`clock
      ensures t == clock && clock >= old(clock)
    {
      t :| t >= clock;
      clock := t;
    }

    method Notify(n: Notice)
      modifies this`notices
      ensures notices == old(notices) + [n]
    {
      notices := notices + [n];
    }

    method EvictAt(i: nat, reason: Reason)
      requires i < |entries|
      modifies this`entries, this`notices
      ensures entries == Drop(old(entries), i)
      ensures notices == old(notices) + [NoticeOf(old(entries)[i], reason)]
    {
      var entry := entries[i];
      entries := Drop(entries, i);
      Notify(NoticeOf(entry, reason));
    }

    /** Stamps the entry and moves it to the end of the map. */
    method TouchAt(i: nat) returns (ghost t: int)
      requires i < |entries| && Consistent()
      modifies this`entries, this`clock
      ensures Consistent() && clock >= old(clock) && t == clock
      ensures entries == Touched(old(entries), i, t)
    {
      var now := Now();
      t := now;
      ghost var before := entries;
      entries := Drop(entries, i) + [entries[i].(lastAccessAt := now)];
      TouchKeeps(before, i, now);
      BalanceMoves(acquired, before, notices, entries, []);
      assert notices + [] == notices;
    }

    /** Changes the bookkeeping of an entry in place. */
    method ReplaceAt(i: nat, e: Entry)
      requires i < |entries| && Consistent()
      requires e.key == entries[i].key && e.value == entries[i].value && e.lastAccessAt == entries[i].lastAccessAt
      modifies this`entries
      ensures Consistent() && entries == old(entries)[i := e]
    {
      ghost var before := entries;
      entries := entries[i := e];
      AccountedDrop(before, i, Capacity);
      BalanceMoves(acquired, before, notices, entries, []);
      assert notices + [] == notices;
    }

    method Prune() returns (removed: nat, ghost t: int)
      requires Consistent()
      modifies this`entries, this`clock, this`notices
      ensures Valid() && clock >= old(clock) && t == clock
      ensures entries == Pruned(old(entries), t, idleTtlMs, maxEntries)
      ensures notices == old(notices) + PruneNotices(old(entries), t, idleTtlMs, maxEntries)
      ensures removed == |PruneNotices(old(entries), t, idleTtlMs, maxEntries)|
    {
      var now := Now();
      t := now;
      ghost var before, heard := entries, notices;
      removed := PruneExpired(now);
      if |entries| > maxEntries {
        var more := PruneToCapacity();
        removed := removed + more;
      }
      assert entries == Pruned(before, t, idleTtlMs, maxEntries);
      assert notices == heard + PruneNotices(before, t, idleTtlMs, maxEntries);
      KeepBalance(acquired, before, heard, entries, PruneNotices(before, t, idleTtlMs, maxEntries), clock) by {
        PruneThins(before, t, idleTtlMs, maxEntries);
      }
      PrunedIsWithinLimits(before, t, idleTtlMs, maxEntries);
    }

    method PruneExpired(now: int) returns (removed: nat)
      modifies this`entries, this`notices
      ensures entries == Survivors(old(entries), Expiry(now, idleTtlMs))
      ensures notices == old(notices) + Farewells(old(entries), Expiry(now, idleTtlMs))
      ensures removed == |Farewells(old(entries), Expiry(now, idleTtlMs))|
    {
      removed := 0;
      var snapshot := entries;
      ghost var w, heard := Expiry(now, idleTtlMs), notices;
      ghost var done: seq<Entry> := [];
      ghost var told: seq<Notice> := [];
      SweptFirst(snapshot, w, heard);
      for i := 0 to |snapshot|
        invariant Swept(snapshot, i, w, done, told, entries, heard, notices) && removed == |told|
      {
        SweptNext(snapshot, i, w, done, told, entries, heard, notices);
        done, told := done + Kept(snapshot[i], w), told + Farewell(snapshot[i], w);
        var gone := ExpireAt(|entries| - (|snapshot| - i), now);
        removed := removed + if gone then 1 else 0;
      }
      SweptAll(snapshot, w, done, told, entries, heard, notices);
    }

    method ExpireAt(k: nat, now: int) returns (gone: bool)
      requires k < |entries|
      modifies this`entries, this`notices
      ensures entries == Replaced(old(entries), k, Kept(old(entries)[k], Expiry(now, idleTtlMs)))
      ensures notices == old(notices) + Farewell(old(entries)[k], Expiry(now, idleTtlMs))
      ensures gone == GivesUp(old(entries)[k], Expiry(now, idleTtlMs))
    {
      gone := false;
      var entry := entries[k];
      if entry.activeCount > 0 { return; }
      if entry.releaseRequested {
        EvictAt(k, SessionRelease);
        return true;
      }
      if now - entry.lastAccessAt > idleTtlMs {
        EvictAt(k, IdleTtl);
        gone := true;
      }
    }

    method PruneToCapacity() returns (removed: nat)
      requires |entries| > maxEntries
      modifies this`entries, this`notices
      ensures entries == Shed(old(entries), Excess(|old(entries)|, maxEntries))
      ensures notices == old(notices) + ShedNotices(old(entries), Excess(|old(entries)|, maxEntries))
      ensures removed == |ShedNotices(old(entries), Excess(|old(entries)|, maxEntries))|
    {
      removed := 0;
      var snapshot := entries;
      ghost var heard := notices;
      ghost var done: seq<Entry> := [];
      SheddingFirst(snapshot, maxEntries, heard);
      var i := 0;
      while i < |snapshot| && |entries| > maxEntries
        invariant |notices| == |heard| + removed && Shedding(snapshot, i, maxEntries, done, entries, heard, notices)
      {
        var gone := ShedNext(snapshot, i, done, heard);
        done := done + Spared(snapshot[i]);
        removed := removed + if gone then 1 else 0;
        i := i + 1;
      }
      SheddingEnds(snapshot, i, maxEntries, done, entries, heard, notices);
    }

    /** One entry of the walk. */
    method ShedNext(snapshot: seq<Entry>, i: nat, ghost done: seq<Entry>, ghost heard: seq<Notice>)
      returns (gone: bool)
      requires i < |snapshot| && |entries| > maxEntries
      requires Shedding(snapshot, i, maxEntries, done, entries, heard, notices)
      modifies this`entries, this`notices
      ensures Shedding(snapshot, i + 1, maxEntries, done + Spared(snapshot[i]), entries, heard, notices)
      ensures |notices| == |old(notices)| + if gone then 1 else 0
    {
      SheddingNext(snapshot, i, maxEntries, done, entries, heard, notices);
      ghost var next, said := Replaced(entries, |done|, Spared(snapshot[i])), notices + Dropped(snapshot[i]);
      gone := ShedAt(|entries| - (|snapshot| - i));
      assert entries == next && notices == said;
    }

    method ShedAt(k: nat) returns (gone: bool)
      requires k < |entries|
      modifies this`entries, this`notices
      ensures entries == Replaced(old(entries), k, Spared(old(entries)[k]))
      ensures notices == old(notices) + Dropped(old(entries)[k])
      ensures gone == (old(entries)[k].activeCount == 0)
    {
      if entries[k].activeCount > 0 { return false; }
      EvictAt(k, Capacity);
      gone := true;
    }

    method Get(key: string) returns (r: Option<Agent>, ghost t: int)
      requires Valid()
      modifies this`entries, this`clock, this`notices
      ensures Valid() && clock >= t >= old(clock)
      ensures notices == old(notices) + PruneNotices(old(entries), t, idleTtlMs, maxEntries)
      ensures var s := Pruned(old(entries), t, idleTtlMs, maxEntries); var i := Position(s, key);
              if i < |s| && !s[i].releaseRequested
              then r == Some(s[i].value) && entries == Touched(s, i, clock)
              else r == None && entries == s
    {
      var removed;
      removed, t := Prune();
      var i := Position(entries, key);
      if i == |entries| || entries[i].releaseRequested { return None, t; }
      r := Some(entries[i].value);
      TouchSettles(entries, i, maxEntries);
      ghost var u := TouchAt(i);
    }

    method MarkActive(key: string) returns (r: bool, ghost t: int)
      requires Valid()
      modifies this`entries, this`clock, this`notices
      ensures Valid() && clock >= t >= old(clock)
      ensures notices == old(notices) + PruneNotices(old(entries), t, idleTtlMs, maxEntries)
      ensures var s := Pruned(old(entries), t, idleTtlMs, maxEntries); var i := Position(s, key);
              if i < |s| && !s[i].releaseRequested
              then r && entries == Touched(s[i := s[i].(activeCount := s[i].activeCount + 1)], i, clock)
              else !r && entries == s
    {
      var removed;
      removed, t := Prune();
      var i := Position(entries, key);
      if i == |entries| || entries[i].releaseRequested { return false, t; }
      ReplaceAt(i, entries[i].(activeCount := entries[i].activeCount + 1));
      TouchSettles(entries, i, maxEntries);
      ghost var u := TouchAt(i);
      r := true;
    }

    method MarkInactive(key: string) returns (r: bool, ghost touched: int, ghost t: int)
      requires Valid()
      modifies this`entries, this`clock, this`notices
      ensures Valid()
      ensures var s := old(entries); var i := Position(s, key);
              if i == |s| then !r && entries == s && notices == old(notices)
              else
                var e := s[i].(activeCount := if s[i].activeCount > 0 then s[i].activeCount - 1 else 0);
                var u := if e.activeCount == 0 then Touched(s[i := e], i, touched) else s[i := e];
                && r && old(clock) <= touched <= t == clock && entries == Pruned(u, t, idleTtlMs, maxEntries)
                && notices == old(notices) + PruneNotices(u, t, idleTtlMs, maxEntries)
    {
      touched, t := clock, clock;
      var i := Position(entries, key);
      if i == |entries| { return false, touched, t; }
      if entries[i].activeCount > 0 {
        ReplaceAt(i, entries[i].(activeCount := entries[i].activeCount - 1));
      }
      assert entries == old(entries)[i := entries[i]];
      if entries[i].activeCount == 0 {
        touched := TouchAt(i);
      }
      var removed;
      removed, t := Prune();
      r := true;
    }

    /** Hands a value over for `key`; `value` is not kept when another one is in use under that key. */
    method Set(key: string, value: Agent, sessionID: string, active: bool) returns (r: Agent, ghost t: int)
      requires Valid()
      modifies this
      ensures Valid() && clock >= t >= old(clock)
      ensures var s := old(entries); var i := Position(s, key);
              if i < |s| && s[i].value != value && s[i].activeCount > 0 then
                && r == s[i].value && acquired == old(acquired) + [(key, value)]
                && entries == Touched(s[i := s[i].(activeCount := s[i].activeCount + (if active then 1 else 0))], i,
                                      clock)
                && notices == old(notices) + [Notice(key, value, sessionID, Duplicate, false)]
              else if i < |s| && s[i].value == value then
                var u := Touched(s[i := Renewed(s[i], sessionID, active)], i, t);
                && r == value && acquired == old(acquired)
                && entries == Pruned(u, clock, idleTtlMs, maxEntries)
                && notices == old(notices) + PruneNotices(u, clock, idleTtlMs, maxEntries)
              else
                var rest := if i < |s| then Drop(s, i) else s;
                var told := if i < |s| then [NoticeOf(s[i], Replacement)] else [];
                var u := rest + [Entry(key, value, sessionID, if active then 1 else 0, false, t)];
                && r == value && acquired == old(acquired) + [(key, value)]
                && entries == Pruned(u, clock, idleTtlMs, maxEntries)
                && notices == old(notices) + told + PruneNotices(u, clock, idleTtlMs, maxEntries)
    {
      var removed;
      ghost var u;
      var i := Position(entries, key);
      if i < |entries| {
        if entries[i].value != value {
          if entries[i].activeCount > 0 {
            r, t := TurnAway(i, value, sessionID, active);
            return;
          }
          Replace(i);
        } else {
          ReplaceAt(i, Renewed(entries[i], sessionID, active));
          t := TouchAt(i);
          removed, u := Prune();
          return value, t;
        }
      }
      t := Insert(key, value, sessionID, active);
      removed, u := Prune();
      r := value;
    }

    /** The value under the key is in use: the new one goes straight to the callback. */
    method TurnAway(i: nat, value: Agent, sessionID: string, active: bool) returns (r: Agent, ghost t: int)
      requires Valid() && i < |entries| && entries[i].activeCount > 0
      modifies this
      ensures Valid() && t == clock >= old(clock) && r == old(entries)[i].value
      ensures var e := old(entries)[i];
              && entries == Touched(old(entries)[i := e.(activeCount := e.activeCount + (if active then 1 else 0))],
                                    i, t)
              && notices == old(notices) + [Notice(e.key, value, sessionID, Duplicate, false)]
              && acquired == old(acquired) + [(e.key, value)]
    {
      var e := entries[i];
      BalanceTakesIn(acquired, entries, notices, Entry(e.key, value, sessionID, 0, false, 0),
                     Notice(e.key, value, sessionID, Duplicate, false));
      acquired := acquired + [(e.key, value)];
      Notify(Notice(e.key, value, sessionID, Duplicate, false));
      if active {
        ReplaceAt(i, e.(activeCount := e.activeCount + 1));
      } else {
        assert entries == entries[i := e];
      }
      TouchSettles(entries, i, maxEntries);
      t := TouchAt(i);
      r := e.value;
    }

    method Replace(i: nat)
      requires Consistent() && i < |entries| && entries[i].activeCount == 0
      modifies this`entries, this`notices
      ensures Consistent() && entries == Drop(old(entries), i)
      ensures notices == old(notices) + [NoticeOf(old(entries)[i], Replacement)]
    {
      ghost var before, heard := entries, notices;
      AccountedDrop(entries, i, Replacement);
      EvictAt(i, Replacement);
      BalanceMoves(acquired, before, heard, entries, [NoticeOf(before[i], Replacement)]);
    }

    method Insert(key: string, value: Agent, sessionID: string, active: bool) returns (ghost t: int)
      requires Consistent() && (forall i :: 0 <= i < |entries| ==> entries[i].key != key)
      modifies this`entries, this`acquired, this`clock
      ensures Consistent() && t == clock >= old(clock)
      ensures entries == old(entries) + [Entry(key, value, sessionID, if active then 1 else 0, false, t)]
      ensures acquired == old(acquired) + [(key, value)]
    {
      var now := Now();
      t := now;
      var e := Entry(key, value, sessionID, if active then 1 else 0, false, now);
      BalanceTakesIn(acquired, entries, notices, e, NoticeOf(e, Capacity));
      acquired := acquired + [(key, value)];
      entries := entries + [e];
    }

    /** Releases a session: entries in use are only marked, the others go at once. */
    method ReleaseSession(sessionID: string) returns (released: nat)
      requires Valid()
      modifies this`entries, this`notices
      ensures Valid()
      ensures sessionID == "" ==> released == 0 && entries == old(entries) && notices == old(notices)
      ensures sessionID != "" ==>
                && entries == Survivors(old(entries), Release(sessionID))
                && notices == old(notices) + Farewells(old(entries), Release(sessionID))
                && released == SessionSize(old(entries), sessionID)
    {
      if sessionID == "" { return 0; }
      ghost var before, heard := entries, notices;
      released := ReleaseEach(sessionID);
      KeepBalance(acquired, before, heard, entries, Farewells(before, Release(sessionID)), clock) by {
        SweepThins(before, Release(sessionID));
      }
      ReleaseSettles(before, sessionID, maxEntries);
    }

    method ReleaseEach(sessionID: string) returns (released: nat)
      modifies this`entries, this`notices
      ensures entries == Survivors(old(entries), Release(sessionID))
      ensures notices == old(notices) + Farewells(old(entries), Release(sessionID))
      ensures released == SessionSize(old(entries), sessionID)
    {
      released := 0;
      var snapshot := entries;
      ghost var w, heard := Release(sessionID), notices;
      ghost var done: seq<Entry> := [];
      ghost var told: seq<Notice> := [];
      for i := 0 to |snapshot|
        invariant entries == done + snapshot[i..] && done + Survivors(snapshot[i..], w) == Survivors(snapshot, w)
        invariant notices == heard + told
        invariant told + Farewells(snapshot[i..], w) == Farewells(snapshot, w)
        invariant released + SessionSize(snapshot[i..], sessionID) == SessionSize(snapshot, sessionID)
      {
        SweepStep(snapshot, i, w, done, told);
        SessionStep(snapshot, i, sessionID);
        ReplacedAt(snapshot, i, done, entries, Kept(snapshot[i], w));
        Regroup(heard, told, Farewell(snapshot[i], w));
        var counted := ReleaseAt(|entries| - (|snapshot| - i), sessionID);
        released := released + if counted then 1 else 0;
        done, told := done + Kept(snapshot[i], w), told + Farewell(snapshot[i], w);
      }
    }

    method ReleaseAt(k: nat, sessionID: string) returns (counted: bool)
      requires k < |entries|
      modifies this`entries, this`notices
      ensures entries == Replaced(old(entries), k, Kept(old(entries)[k], Release(sessionID)))
      ensures notices == old(notices) + Farewell(old(entries)[k], Release(sessionID))
      ensures counted == (old(entries)[k].sessionID == sessionID)
    {
      var entry := entries[k];
      if entry.sessionID != sessionID { return false; }
      counted := true;
      if entry.activeCount > 0 {
        entries := entries[k := entry.(releaseRequested := true)];
        return;
      }
      EvictAt(k, SessionRelease);
    }

    method Clear() returns (removed: nat)
      requires Valid()
      modifies this`entries, this`notices
      ensures Valid() && entries == [] && removed == |old(entries)|
      ensures notices == old(notices) + Farewells(old(entries), ShutDown)
    {
      removed := 0;
      var snapshot := entries;
      ghost var heard := notices;
      ghost var told: seq<Notice> := [];
      for i := 0 to |snapshot|
        invariant entries == snapshot[i..] && removed == i
        invariant notices == heard + told && [] + Survivors(snapshot[i..], ShutDown) == Survivors(snapshot, ShutDown)
        invariant told + Farewells(snapshot[i..], ShutDown) == Farewells(snapshot, ShutDown)
      {
        SweepStep(snapshot, i, ShutDown, [], told);
        Regroup(heard, told, Farewell(snapshot[i], ShutDown));
        assert snapshot[i..][1..] == snapshot[i + 1..];
        EvictAt(0, Shutdown);
        told := told + Farewell(snapshot[i], ShutDown);
        removed := removed + 1;
      }
      ClearKeeps(acquired, snapshot, heard, told);
    }

    method Size() returns (n: nat)
      ensures n == |entries|
    {
      n := |entries|;
    }
  }

  // ---------- What the operations keep ----------

  ghost predicate Ordered(s: seq<Entry>, now: int) {
    DistinctKeys(s) && ByAccess(s) && AllBy(s, now)
  }

  ghost predicate OnlyShutdownTakesActive(notices: seq<Notice>) {
    forall n :: n in notices && n.active ==> n.reason == Shutdown
  }

  /** A release is pending only while the entry is in use, and only entries in use exceed the limit. */
  ghost predicate Settled(s: seq<Entry>, most: nat) {
    && (forall e :: e in s && e.releaseRequested ==> e.activeCount > 0)
    && (|s| > most ==> forall e :: e in s ==> e.activeCount > 0)
  }

  /** The entry stamped and moved to the end. */
  function Touched(s: seq<Entry>, i: nat, now: int): seq<Entry>
    requires i < |s|
  {
    Drop(s, i) + [s[i].(lastAccessAt := now)]
  }

  function Renewed(e: Entry, sessionID: string, active: bool): Entry {
    e.(sessionID := if sessionID != "" then sessionID else e.sessionID,
       activeCount := e.activeCount + (if active then 1 else 0), releaseRequested := false)
  }

  lemma TouchKeeps(s: seq<Entry>, i: nat, now: int)
    requires i < |s| && Ordered(s, now)
    ensures Ordered(Touched(s, i, now), now) && Accounted(s, Touched(s, i, now), [])
  {
    AccountedDrop(s, i, Capacity);
  }

  lemma TouchSettles(s: seq<Entry>, i: nat, most: nat)
    requires i < |s|
    requires forall e :: e in s && e.releaseRequested ==> e.activeCount > 0
    requires |s| > most ==> forall e :: e in s ==> e.activeCount > 0
    ensures forall now :: Settled(Touched(s, i, now), most)
  {
  }

  lemma KeepBalance(acquired: seq<(string, Agent)>, s: seq<Entry>, heard: seq<Notice>, t: seq<Entry>,
                    told: seq<Notice>, now: int)
    requires Thins(s, t) && Accounted(s, t, told) && OnlyShutdownTakesActive(told)
    requires Ordered(s, now) && Balanced(acquired, s, heard) && OnlyShutdownTakesActive(heard)
    ensures Ordered(t, now) && Balanced(acquired, t, heard + told) && OnlyShutdownTakesActive(heard + told)
  {
    ThinsKeepsOrder(s, t, now);
    BalanceMoves(acquired, s, heard, t, told);
  }

  lemma ClearKeeps(acquired: seq<(string, Agent)>, s: seq<Entry>, heard: seq<Notice>, told: seq<Notice>)
    requires told + Farewells([], ShutDown) == Farewells(s, ShutDown)
    requires Balanced(acquired, s, heard) && OnlyShutdownTakesActive(heard)
    ensures told == Farewells(s, ShutDown)
    ensures Balanced(acquired, [], heard + told) && OnlyShutdownTakesActive(heard + told)
  {
    assert told + [] == told;
    SweepThins(s, ShutDown);
    ShutdownTakesAll(s);
    BalanceMoves(acquired, s, heard, [], told);
  }

  lemma ReleaseSettles(s: seq<Entry>, sessionID: string, most: nat)
    requires Settled(s, most)
    ensures Settled(Survivors(s, Release(sessionID)), most)
  {
    ReleaseMarks(s, sessionID);
    SweepSizes(s, Release(sessionID));
  }

  lemma {:induction false} SweepSizes(s: seq<Entry>, w: Sweep)
    ensures |Survivors(s, w)| + |Farewells(s, w)| == |s|
  {
    if s != [] {
      SweepSizes(s[1..], w);
    }
  }
}
