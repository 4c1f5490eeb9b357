/** The JSON text of a ledger, and its length as a sum over records. */
module LedgerBytes {
  import opened JsText
  import opened Ledger

  /** The UTF-8 JSON of one record; the record encodings themselves are left open. */
  datatype Encoders = Encoders(task: Task -> seq<Byte>, envelope: Envelope -> seq<Byte>, check: Text -> seq<Byte>)

  const COMMA: Byte := 44

  function Literal(s: string): (b: seq<Byte>)
    ensures |b| == |s|
  {
    seq(|s|, i requires 0 <= i < |s| => if s[i] as int < 128 then s[i] as int else 63)
  }

  function Join<T>(items: seq<T>, encode: T -> seq<Byte>): seq<Byte> {
    if items == [] then []
    else if |items| == 1 then encode(items[0])
    else encode(items[0]) + [COMMA] + Join(items[1..], encode)
  }

  function Serialize(j: Encoders, s: Snapshot): seq<Byte> {
    Literal("{\"version\":1")
    + (if s.objectiveChecks == [] then []
       else Literal(",\"objectiveChecks\":[") + Join(s.objectiveChecks, j.check) + Literal("]"))
    + Literal(",\"tasks\":[") + Join(s.tasks, j.task)
    + Literal("],\"resultEnvelopes\":[") + Join(s.envelopes, j.envelope) + Literal("]}")
  }

  function Total<T>(xs: seq<T>, weight: T -> int): int {
    if xs == [] then 0 else weight(xs[0]) + Total(xs[1..], weight)
  }

  function TaskSize(j: Encoders): Task -> int {
    (t: Task) => |j.task(t)|
  }

  function EnvelopeSize(j: Encoders): Envelope -> int {
    (e: Envelope) => |j.envelope(e)|
  }

  function Separators(count: int): int {
    if count - 1 > 0 then count - 1 else 0
  }

  lemma {:induction false} JoinLength<T>(items: seq<T>, encode: T -> seq<Byte>, size: T -> int)
    requires forall x :: x in items ==> size(x) == |encode(x)|
    ensures |Join(items, encode)| == Total(items, size) + Separators(|items|)
  {
    if |items| == 1 {
      assert Total(items[1..], size) == 0;
    } else if |items| > 1 {
      JoinLength(items[1..], encode, size);
    }
  }

  /** The text is the empty ledger's text plus the records and the commas between them. */
  lemma SerializedLength(j: Encoders, s: Snapshot)
    ensures |Serialize(j, s)| == |Serialize(j, Snapshot(s.objectiveChecks, [], []))|
                                 + Total(s.tasks, TaskSize(j)) + Separators(|s.tasks|)
                                 + Total(s.envelopes, EnvelopeSize(j)) + Separators(|s.envelopes|)
  {
    JoinLength(s.tasks, j.task, TaskSize(j));
    JoinLength(s.envelopes, j.envelope, EnvelopeSize(j));
  }

  // ---------- What counts toward the caps ----------

  function TombstoneIds(tasks: seq<Task>): set<TaskId> {
    set t | t in tasks && IsTombstone(t) :: t.taskId
  }

  function TombstoneTaskSize(j: Encoders): Task -> int {
    (t: Task) => if IsTombstone(t) then |j.task(t)| else 0
  }

  function ReleasedEnvelopeSize(j: Encoders, released: set<TaskId>): Envelope -> int {
    (e: Envelope) => if e.taskId in released then |j.envelope(e)| else 0
  }

  /** The bytes of the tombstoned records and of their envelopes. */
  function TombstoneBytes(j: Encoders, s: Snapshot): int {
    Total(s.tasks, TombstoneTaskSize(j)) + Total(s.envelopes, ReleasedEnvelopeSize(j, TombstoneIds(s.tasks)))
  }

  function CountedBytes(j: Encoders, s: Snapshot): int {
    |Serialize(j, s)| - TombstoneBytes(j, s)
  }

  function TerminalWeight(t: Task): int {
    if IsTerminal(t.status) && !IsTombstone(t) then 1 else 0
  }

  function CountedTerminal(s: Snapshot): int {
    Total(s.tasks, TerminalWeight)
  }

  // ---------- Sums ----------

  lemma {:induction false} TotalAppend<T>(a: seq<T>, b: seq<T>, weight: T -> int)
    ensures Total(a + b, weight) == Total(a, weight) + Total(b, weight)
  {
    if a == [] {
      assert a + b == b;
    } else {
      TotalAppend(a[1..], b, weight);
      assert (a + b)[1..] == a[1..] + b;
    }
  }

  lemma {:induction false} TotalCong<T>(xs: seq<T>, f: T -> int, g: T -> int)
    requires forall x :: x in xs ==> f(x) == g(x)
    ensures Total(xs, f) == Total(xs, g)
  {
    if xs != [] {
      TotalCong(xs[1..], f, g);
    }
  }

  /** Changing the weight of one occurrence changes the sum by exactly that difference. */
  lemma {:induction false} TotalChangesAt<T>(xs: seq<T>, f: T -> int, g: T -> int, k: nat)
    requires k < |xs|
    requires forall i :: 0 <= i < |xs| && i != k ==> f(xs[i]) == g(xs[i])
    ensures Total(xs, g) == Total(xs, f) - f(xs[k]) + g(xs[k])
  {
    if k == 0 {
      forall x | x in xs[1..]
        ensures f(x) == g(x)
      {
        var i :| 0 <= i < |xs| - 1 && xs[1..][i] == x;
        assert xs[i + 1] == x;
      }
      TotalCong(xs[1..], f, g);
    } else {
      TotalChangesAt(xs[1..], f, g, k - 1);
    }
  }

  function One<T>(): T -> int {
    (x: T) => 1
  }

  lemma {:induction false} TotalOfOnes<T>(xs: seq<T>)
    ensures Total(xs, One()) == |xs|
  {
    if xs != [] {
      TotalOfOnes(xs[1..]);
    }
  }
}
