/** The numbered outbox of a session: appended by one writer, delivered in batches, safe against crashes. */
module ChangeOutbox {
  import opened Outcomes
  import opened JsText

  // ---------- File names ----------

  function Pow10(w: nat): (p: nat)
    ensures p >= 1
  {
    if w == 0 then 1 else 10 * Pow10(w - 1)
  }

  /** The number in decimal, padded with zeros to `w` digits. */
  function Padded(n: nat, w: nat): (t: Text)
    requires n < Pow10(w)
    ensures |t| == w
  {
    if w == 0 then []
    else
      LeadingDigit(n, Pow10(w - 1));
      [48 + n / Pow10(w - 1)] + Padded(n % Pow10(w - 1), w - 1)
  }

  lemma LeadingDigit(n: nat, p: nat)
    requires p >= 1 && n < 10 * p
    ensures 0 <= n / p < 10 && n % p < p && n == (n / p) * p + n % p
  {
    var q := n / p;
    assert n == q * p + n % p;
    assert q >= 10 ==> q * p >= 10 * p;
  }

  /** Numbers compare as their quotients do, and then as their remainders. */
  lemma ByQuotient(q: nat, r: nat, u: nat, v: nat, p: nat)
    requires r < p && v < p
    ensures q * p + r <= u * p + v <==> q < u || (q == u && r <= v)
  {
    if q < u {
      assert (q + 1) * p <= u * p;
    } else if u < q {
      assert (u + 1) * p <= q * p;
    }
  }

  /** The leading digit and the rest, in the number and in its name. */
  lemma Split(n: nat, w: nat) returns (q: nat, r: nat)
    requires w > 0 && n < Pow10(w)
    ensures q < 10 && r < Pow10(w - 1) && n == q * Pow10(w - 1) + r
    ensures Padded(n, w) == [48 + q] + Padded(r, w - 1)
  {
    LeadingDigit(n, Pow10(w - 1));
    q, r := n / Pow10(w - 1), n % Pow10(w - 1);
  }

  lemma FirstUnitDecides(x: CodeUnit, s: Text, y: CodeUnit, t: Text)
    ensures AtMost([x] + s, [y] + t) <==> x < y || (x == y && AtMost(s, t))
  {
    assert ([x] + s)[1..] == s && ([y] + t)[1..] == t;
  }

  /** Names of one width sort as their numbers do. */
  lemma {:induction false} PaddedOrder(a: nat, b: nat, w: nat)
    requires a < Pow10(w) && b < Pow10(w)
    ensures AtMost(Padded(a, w), Padded(b, w)) <==> a <= b
  {
    if w > 0 {
      var q, r := Split(a, w);
      var u, v := Split(b, w);
      ByQuotient(q, r, u, v, Pow10(w - 1));
      PaddedOrder(r, v, w - 1);
      FirstUnitDecides(48 + q, Padded(r, w - 1), 48 + u, Padded(v, w - 1));
    }
  }

  // ---------- The 64 smallest names ----------

  const BATCH := 64

  ghost predicate Increasing(names: seq<nat>) {
    forall i, j :: 0 <= i < j < |names| ==> names[i] < names[j]
  }

  /** The smallest names of the directory, all of them if they fit. */
  ghost predicate IsBatch(names: seq<nat>, present: set<nat>) {
    && Increasing(names) && |names| <= BATCH
    && (forall x :: x in names ==> x in present)
    && (forall k :: k in present && k !in names ==> |names| == BATCH && Below(names, k))
  }

  ghost predicate Below(names: seq<nat>, k: nat) {
    forall x :: x in names ==> x < k
  }

  function Inserted(names: seq<nat>, n: nat): seq<nat> {
    if names == [] || n < names[0] then [n] + names else [names[0]] + Inserted(names[1..], n)
  }

  lemma {:induction false} InsertedHas(names: seq<nat>, n: nat)
    ensures |Inserted(names, n)| == |names| + 1
    ensures forall x :: x in Inserted(names, n) <==> x in names || x == n
  {
    if names != [] && n >= names[0] {
      InsertedHas(names[1..], n);
      assert names == [names[0]] + names[1..];
    }
  }

  lemma {:induction false} InsertedIncreasing(names: seq<nat>, n: nat)
    requires Increasing(names) && n !in names
    ensures Increasing(Inserted(names, n))
  {
    if names != [] && n >= names[0] {
      var rest := Inserted(names[1..], n);
      assert names == [names[0]] + names[1..];
      InsertedIncreasing(names[1..], n);
      InsertedHas(names[1..], n);
      forall j | 0 <= j < |rest|
        ensures names[0] < rest[j]
      {
        assert rest[j] in rest;
      }
    }
  }

  function Kept(names: seq<nat>): seq<nat> {
    if |names| > BATCH then names[..|names| - 1] else names
  }

  lemma {:induction false} BatchStep(names: seq<nat>, present: set<nat>, n: nat)
    requires IsBatch(names, present) && n !in present
    ensures IsBatch(Kept(Inserted(names, n)), present + {n})
  {
    var all := Inserted(names, n);
    InsertedHas(names, n);
    InsertedIncreasing(names, n);
    if |all| > BATCH {
      var last, kept := all[BATCH], all[..BATCH];
      assert all == kept + [last];
      assert Below(kept, last) by {
        forall x | x in kept
          ensures x < last
        {
          var i :| 0 <= i < BATCH && kept[i] == x;
          assert all[i] == x;
        }
      }
      forall k | k in present + {n} && k !in kept
        ensures Below(kept, k)
      {
        if k != last {
          AboveTheLast(names, n, kept, last, k);
        }
      }
    }
  }

  /** What is above all names stays above them when one is inserted and the last one goes. */
  lemma AboveTheLast(names: seq<nat>, n: nat, kept: seq<nat>, last: nat, k: nat)
    requires Below(names, k) && Below(kept, last)
    requires forall x :: x in kept || x == last <==> x in names || x == n
    ensures Below(kept, k)
  {
    forall x | x in kept
      ensures x < k
    {
      assert x < last;
      if x == n {
        assert last in names;
      }
    }
  }

  // ---------- The outbox ----------

  /** One stored event with its place in the order of appends. */
  datatype Stored = Stored(serial: nat, content: nat)

  datatype Ended = Empty | DeadlinePassed | NotDelivered

  /** What a delivery comes to; a lost answer leaves open whether the event arrived, and here it did. */
  datatype Answer = Acknowledged | Refused | Lost

  class Outbox {
    /** The event files by number, and the number in the counter file (0 when there is none). */
    var files: map<nat, Stored>
    var counter: nat
    /** The counter value an append has yet to write. */
    var owed: Option<nat>
    /** The file whose event was acknowledged and that has yet to be removed. */
    var unlinking: Option<nat>
    /** The session has been removed. */
    var deleted: bool
    /** Every event appended; a stored event carries its place in it. */
    var log: seq<nat>
    /** The serials that arrived, in order, and whether nothing was interrupted so far. */
    ghost var received: seq<nat>
    ghost var smooth: bool

    ghost predicate Valid()
      reads this
    {
      && Backed(files, log) && (!deleted ==> NoneLost(files, log, received))
      && (unlinking.Some? ==> unlinking.value in files && files[unlinking.value].serial in received)
      && (smooth && !deleted ==> Orderly(files, log, received, unlinking, counter, owed))
    }

    constructor ()
      ensures Valid() && log == [] && received == [] && files == map[] && counter == 0
      ensures smooth && !deleted && owed == None && unlinking == None
    {
      files, counter, owed, unlinking, deleted := map[], 0, None, None, false;
      log, received, smooth := [], [], true;
    }

    /** The first half of an append: finds a free number from the counter on and writes the event there. */
    method WriteEvent(content: nat)
      requires Valid() && !deleted && owed == None
      modifies this`files, this`owed, this`log
      ensures Valid() && log == old(log) + [content] && owed.Some? && owed.value > counter
      ensures owed.value - 1 !in old(files) && forall k :: counter <= k < owed.value - 1 ==> k in old(files)
      ensures files == old(files)[owed.value - 1 := Stored(|old(log)|, content)]
    {
      var next := FreeNumber();
      WriteKeeps(files, log, received, unlinking, counter, next, content);
      files := files[next := Stored(|log|, content)];
      log := log + [content];
      owed := Some(next + 1);
    }

    /** A crash may have left an event at the counter: it is stepped over, never overwritten. */
    method FreeNumber() returns (next: nat)
      ensures next >= counter && next !in files
      ensures forall k :: counter <= k < next ==> k in files
    {
      next := counter;
      ghost var free := files.Keys;
      while next in files
        invariant next >= counter && free <= files.Keys
        invariant forall k :: k in files && k >= next ==> k in free
        invariant forall k :: counter <= k < next ==> k in files
        decreases |free|
      {
        free := free - {next};
        next := next + 1;
      }
    }

    /** The second half: the counter moves past the event. */
    method WriteCounter()
      requires Valid() && owed.Some?
      modifies this`counter, this`owed
      ensures Valid() && counter == old(owed).value && owed == None
    {
      counter := owed.value;
      owed := None;
    }

    /** The process ends between any two steps: what was still to be done is forgotten, every file stays. */
    method Crash()
      requires Valid()
      modifies this`owed, this`unlinking, this`smooth
      ensures Valid() && owed == None && unlinking == None && !smooth
    {
      owed, unlinking := None, None;
      smooth := false;
    }

    /** Whatever the appending side does while a delivery is under way. */
    method Await()
      requires Valid() && !deleted
      modifies this`files, this`counter, this`owed, this`log
      ensures Valid() && old(log) <= log
      ensures forall n :: n in old(files) ==> n in files && files[n] == old(files)[n]
    {
    }

    /** Reads the directory in any order and keeps the smallest names. */
    method Batch() returns (names: seq<nat>)
      ensures IsBatch(names, files.Keys)
    {
      names := [];
      var left := files.Keys;
      while left != {}
        invariant left <= files.Keys && IsBatch(names, files.Keys - left)
        decreases |left|
      {
        var n :| n in left;
        BatchStep(names, files.Keys - left, n);
        assert files.Keys - left + {n} == files.Keys - (left - {n});
        left := left - {n};
        names := Kept(Inserted(names, n));
      }
      assert files.Keys - left == files.Keys;
    }

    /** The first half of a delivery: the event is handed over, and its file stays. */
    method Hand(n: nat, answer: Answer)
      requires Valid() && !deleted && n in files && unlinking == None && (smooth ==> n == |received|)
      modifies this`received, this`unlinking, this`smooth
      ensures Valid()
      ensures received == if answer.Refused? then old(received) else old(received) + [files[n].serial]
      ensures unlinking == if answer.Acknowledged? then Some(n) else None
      ensures smooth == (old(smooth) && !answer.Lost?)
    {
      HandKeeps(files, log, received, counter, owed, n);
      if !answer.Refused? { received := received + [files[n].serial]; }
      if answer.Acknowledged? { unlinking := Some(n); }
      if answer.Lost? { smooth := false; }
    }

    /** The second half: only an acknowledged event leaves the directory. */
    method Unlink()
      requires Valid() && !deleted && unlinking.Some?
      modifies this`files, this`unlinking
      ensures Valid() && unlinking == None && files == old(files) - {old(unlinking).value}
      ensures old(files)[old(unlinking).value].serial in received
    {
      UnlinkKeeps(files, log, received, counter, owed, unlinking.value);
      files := files - {unlinking.value};
      unlinking := None;
    }

    /**
     * Delivers batch after batch until the outbox is empty, a delivery is not acknowledged or the time is
     * up, with appends in between. Everything appended has then arrived or is still in the directory;
     * without interruptions events arrive once each, in the order of appends.
     */
    method Replay(time: nat, answers: nat -> Answer) returns (ended: Ended, delivered: nat)
      requires Valid() && !deleted && unlinking == None
      modifies this
      ensures Valid() && deleted == old(deleted) && unlinking == None && old(log) <= log
      ensures NoneLost(files, log, received) && old(received) <= received
      ensures var lost := ended.NotDelivered? && answers(delivered).Lost?;
              && |received| == |old(received)| + delivered + (if lost then 1 else 0)
              && smooth == (old(smooth) && !lost)
      ensures smooth ==> forall i :: 0 <= i < |received| ==> received[i] == i
      ensures ended.Empty? ==> files == map[] && forall i :: 0 <= i < |log| ==> i in received
      ensures delivered <= time && (ended.DeadlinePassed? <==> delivered == time && files != map[])
      ensures ended.NotDelivered? ==> delivered < time && !answers(delivered).Acknowledged?
      ensures forall i :: 0 <= i < delivered ==> answers(i).Acknowledged?
    {
      delivered := 0;
      while true
        invariant Valid() && !deleted && unlinking == None && smooth == old(smooth)
        invariant old(log) <= log && old(received) <= received
        invariant delivered <= time && |received| == |old(received)| + delivered
        invariant forall i :: 0 <= i < delivered ==> answers(i).Acknowledged?
        decreases time - delivered
      {
        var names := Batch();
        if names == [] {
          NothingPending(files);
          return Empty, delivered;
        }
        BatchInOrder(names, files.Keys, |received|, |log|);
        var more;
        ended, more := DeliverBatch(names, delivered, time, answers);
        delivered := delivered + more;
        if more < |names| { return; }
      }
    }

    /** One event of a batch; those behind it stay where they are. */
    method Deliver(names: seq<nat>, k: nat, answer: Answer)
      requires Valid() && !deleted && unlinking == None && Increasing(names) && k < |names|
      requires smooth ==> names[k] == |received|
      requires forall j :: k <= j < |names| ==> names[j] in files
      modifies this`files, this`counter, this`owed, this`unlinking, this`log, this`received, this`smooth
      ensures Valid() && unlinking == None && old(log) <= log && old(received) <= received
      ensures |received| == |old(received)| + if answer.Refused? then 0 else 1
      ensures smooth == (old(smooth) && !answer.Lost?)
      ensures !answer.Acknowledged? ==> names[k] in files
      ensures answer.Acknowledged? ==> forall j :: k < j < |names| ==> names[j] in files
    {
      Hand(names[k], answer);
      if answer.Acknowledged? { FinishDelivery(); }
    }

    /** Appends may also come before it. */
    method DeliverNext(names: seq<nat>, k: nat, answer: Answer)
      requires Valid() && !deleted && unlinking == None && Increasing(names) && k < |names|
      requires smooth ==> names[k] == |received|
      requires forall j :: k <= j < |names| ==> names[j] in files
      modifies this`files, this`counter, this`owed, this`unlinking, this`log, this`received, this`smooth
      ensures Valid() && unlinking == None && old(log) <= log && old(received) <= received
      ensures |received| == |old(received)| + if answer.Refused? then 0 else 1
      ensures smooth == (old(smooth) && !answer.Lost?)
      ensures !answer.Acknowledged? ==> names[k] in files
      ensures answer.Acknowledged? ==> forall j :: k < j < |names| ==> names[j] in files
    {
      Await();
      Deliver(names, k, answer);
    }

    /** Appends may come between the acknowledgement and the removal of the file. */
    method FinishDelivery()
      requires Valid() && !deleted && unlinking.Some?
      modifies this`files, this`counter, this`owed, this`unlinking, this`log
      ensures Valid() && unlinking == None && old(log) <= log
      ensures forall n :: n in old(files) && Some(n) != old(unlinking) ==> n in files
    {
      Await();
      Unlink();
    }

    method DeliverBatch(names: seq<nat>, spent: nat, time: nat, answers: nat -> Answer)
      returns (ended: Ended, delivered: nat)
      requires Valid() && !deleted && unlinking == None && Increasing(names) && spent <= time && names != []
      requires forall j :: 0 <= j < |names| ==> names[j] in files
      requires smooth ==> forall j :: 0 <= j < |names| ==> names[j] == |received| + j
      modifies this`files, this`counter, this`owed, this`unlinking, this`log, this`received, this`smooth
      ensures Valid() && unlinking == None && old(log) <= log && old(received) <= received && !ended.Empty?
      ensures delivered <= |names| && spent + delivered <= time
      ensures var lost := delivered < |names| && ended.NotDelivered? && answers(spent + delivered).Lost?;
              && |received| == |old(received)| + delivered + (if lost then 1 else 0)
              && smooth == (old(smooth) && !lost)
      ensures forall i :: spent <= i < spent + delivered ==> answers(i).Acknowledged?
      ensures delivered < |names| ==>
                && files != map[]
                && if ended.DeadlinePassed? then spent + delivered == time
                   else spent + delivered < time && !answers(spent + delivered).Acknowledged?
    {
      delivered, ended := 0, DeadlinePassed;
      while delivered < |names|
        invariant delivered <= |names| && spent + delivered <= time && Valid() && ended.DeadlinePassed?
        invariant unlinking == None && smooth == old(smooth)
        invariant old(log) <= log && old(received) <= received && |received| == |old(received)| + delivered
        invariant forall j :: delivered <= j < |names| ==> names[j] in files
        invariant forall i :: spent <= i < spent + delivered ==> answers(i).Acknowledged?
      {
        assert names[delivered] in files;
        if spent + delivered == time { return; }
        var answer := answers(spent + delivered);
        DeliverNext(names, delivered, answer);
        if !answer.Acknowledged? { return NotDelivered, delivered; }
        delivered := delivered + 1;
      }
    }

    /** Removing the session is the only other way an event disappears. */
    method Remove()
      requires Valid() && owed == None && unlinking == None
      modifies this`files, this`counter, this`deleted
      ensures Valid() && deleted && files == map[]
    {
      deleted := true;
      files := map[];
      counter := 0;
    }
  }

  /** A crash between the acknowledgement and the removal: the event arrives a second time. */
  method ArrivesTwice(content: nat) returns (o: Outbox)
    ensures fresh(o) && o.Valid() && o.log == [content] && o.received == [0, 0] && o.files == map[]
  {
    o := new Outbox();
    o.WriteEvent(content);
    o.WriteCounter();
    assert o.files == map[0 := Stored(0, content)];
    o.Hand(0, Acknowledged);
    o.Crash();
    o.Hand(0, Acknowledged);
    o.Unlink();
  }

  /** Every file holds an event of the log, and no event is in two files. */
  ghost predicate Backed(files: map<nat, Stored>, log: seq<nat>) {
    && (forall n :: n in files ==> files[n].serial < |log| && files[n].content == log[files[n].serial])
    && (forall m, n :: m in files && n in files && files[m].serial == files[n].serial ==> m == n)
  }

  /** At least once: what is no longer stored has arrived. */
  ghost predicate NoneLost(files: map<nat, Stored>, log: seq<nat>, received: seq<nat>) {
    forall i :: 0 <= i < |log| ==> Pending(files, i) || i in received
  }

  /** Without interruptions the numbers are the serials, and what arrived is a prefix. */
  ghost predicate Orderly(files: map<nat, Stored>, log: seq<nat>, received: seq<nat>, unlinking: Option<nat>,
                          counter: nat, owed: Option<nat>) {
    && |received| <= |log| && (forall i :: 0 <= i < |received| ==> received[i] == i)
    && (unlinking.Some? ==> received != [] && unlinking.value == |received| - 1)
    && (forall n :: n in files <==> |received| - (if unlinking.Some? then 1 else 0) <= n < |log|)
    && (forall n :: n in files ==> files[n].serial == n)
    && (match owed case None => counter == |log| case Some(c) => c == |log| && counter == |log| - 1)
  }

  lemma WriteKeeps(files: map<nat, Stored>, log: seq<nat>, received: seq<nat>, unlinking: Option<nat>, counter: nat,
                   next: nat, content: nat)
    requires Backed(files, log) && NoneLost(files, log, received) && next !in files
    requires forall k :: counter <= k < next ==> k in files
    ensures var after := files[next := Stored(|log|, content)];
            && Backed(after, log + [content]) && NoneLost(after, log + [content], received)
            && (Orderly(files, log, received, unlinking, counter, None) && counter <= next ==>
                  Orderly(after, log + [content], received, unlinking, counter, Some(next + 1)))
  {
    StillPending(files, next, Stored(|log|, content));
    assert counter < next ==> counter in files;
  }

  lemma HandKeeps(files: map<nat, Stored>, log: seq<nat>, received: seq<nat>, counter: nat, owed: Option<nat>, n: nat)
    requires NoneLost(files, log, received) && n in files
    ensures NoneLost(files, log, received + [files[n].serial])
    ensures Orderly(files, log, received, None, counter, owed) && n == |received| ==>
              Orderly(files, log, received + [files[n].serial], Some(n), counter, owed)
  {
  }

  lemma UnlinkKeeps(files: map<nat, Stored>, log: seq<nat>, received: seq<nat>, counter: nat, owed: Option<nat>,
                    n: nat)
    requires Backed(files, log) && NoneLost(files, log, received) && n in files && files[n].serial in received
    ensures Backed(files - {n}, log) && NoneLost(files - {n}, log, received)
    ensures Orderly(files, log, received, Some(n), counter, owed) ==>
              Orderly(files - {n}, log, received, None, counter, owed)
  {
    var rest := files - {n};
    forall i | 0 <= i < |log|
      ensures Pending(rest, i) || i in received
    {
      if Pending(files, i) && i != files[n].serial {
        var k :| k in files && files[k].serial == i;
        assert k in rest && rest[k].serial == i;
      }
    }
  }

  ghost predicate Pending(files: map<nat, Stored>, serial: nat) {
    exists n :: n in files && files[n].serial == serial
  }

  lemma StillPending(files: map<nat, Stored>, n: nat, s: Stored)
    requires n !in files
    ensures Pending(files[n := s], s.serial)
    ensures forall i :: Pending(files, i) ==> Pending(files[n := s], i)
  {
    assert files[n := s][n].serial == s.serial;
    forall i | Pending(files, i)
      ensures Pending(files[n := s], i)
    {
      var k :| k in files && files[k].serial == i;
      assert k in files[n := s] && files[n := s][k].serial == i;
    }
  }

  lemma NothingPending(files: map<nat, Stored>)
    requires IsBatch([], files.Keys)
    ensures files == map[] && forall i :: !Pending(files, i)
  {
    assert forall k :: k in files.Keys ==> k in [];
  }

  /** When the numbers present are a range, the batch is its beginning. */
  lemma BatchInOrder(names: seq<nat>, present: set<nat>, from: nat, to: nat)
    requires IsBatch(names, present)
    ensures (forall n :: n in present <==> from <= n < to) ==> forall j :: 0 <= j < |names| ==> names[j] == from + j
  {
    if forall n :: n in present <==> from <= n < to {
      BatchPrefix(names, present, from, to, |names|);
    }
  }

  lemma {:induction false} BatchPrefix(names: seq<nat>, present: set<nat>, from: nat, to: nat, j: nat)
    requires IsBatch(names, present) && j <= |names|
    requires forall n :: n in present <==> from <= n < to
    ensures forall k :: 0 <= k < j ==> names[k] == from + k
  {
    if j > 0 {
      BatchPrefix(names, present, from, to, j - 1);
      var sought := from + j - 1;
      assert names[j - 1] in names && names[j - 1] in present;
      assert j > 1 ==> names[j - 2] < names[j - 1];
      assert sought <= names[j - 1] && sought in present;
      assert sought in names;
      var i :| 0 <= i < |names| && names[i] == sought;
    }
  }
}
