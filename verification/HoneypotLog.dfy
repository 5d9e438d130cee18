/**
 The honeypot's connection log: a ring of 50 entries reported in batches (esp32-firmware/src/honeypot_service.cpp).
 */
module HoneypotLog {

  const MAX_LOGS := 50
  const MAX_BATCH := 10
  const MAX_DATA := 127

  datatype Entry = Entry(timestamp: nat, sourceIp: string, sourcePort: nat, destPort: nat, service: string,
      data: seq<bv8>)

  datatype Log = Log(entry: Entry, reported: bool)

  /** The stored form: data cut to the buffer. */
  function Stored(e: Entry): Entry {
    if |e.data| <= MAX_DATA then e else e.(data := e.data[..MAX_DATA])
  }

  /** Nothing of a connection is changed but that its data may be cut short, to 127 bytes. */
  lemma StoredKeeps(e: Entry)
    ensures Stored(e).(data := e.data) == e
    ensures Stored(e).data <= e.data && |Stored(e).data| == if |e.data| < 127 then |e.data| else 127
  {
    assert |e.data| == MAX_DATA ==> e.data[..MAX_DATA] == e.data;
  }

  // ---------- Which connections the ring holds ----------

  function RingSize(n: nat): nat {
    if n < MAX_LOGS then n else MAX_LOGS
  }

  lemma SomeIndex(n: nat, i: nat) returns (j: int)
    requires i < RingSize(n)
    ensures 0 <= j < n && n - RingSize(n) <= j && j % MAX_LOGS == i
  {
    j := if i < n % MAX_LOGS then n - n % MAX_LOGS + i else n - n % MAX_LOGS - MAX_LOGS + i;
  }

  /** After n connections, the number of the one in slot i: the latest congruent to i. */
  ghost function IndexAt(n: nat, i: nat): (j: int)
    requires i < RingSize(n)
    ensures 0 <= j < n && n - RingSize(n) <= j && j % MAX_LOGS == i
  {
    assert exists j :: IsIndex(n, i, j) by {
      var j := SomeIndex(n, i);
      assert IsIndex(n, i, j);
    }
    var j :| IsIndex(n, i, j);
    j
  }

  predicate IsIndex(n: nat, i: nat, j: int) {
    0 <= j < n && n - RingSize(n) <= j && j % MAX_LOGS == i
  }

  /** The slot of a connection that is still in the ring. */
  lemma SlotOf(n: nat, j: nat)
    requires n - RingSize(n) <= j < n
    ensures j % MAX_LOGS < RingSize(n) && IndexAt(n, j % MAX_LOGS) == j
  {
  }

  /** Slots hold different connections. */
  lemma IndexInjective(n: nat, i: nat, k: nat)
    requires i < RingSize(n) && k < RingSize(n)
    ensures IndexAt(n, i) == IndexAt(n, k) ==> i == k
  {
  }

  /** One more connection changes slot n % 50 only. */
  lemma IndexStep(n: nat, i: nat)
    requires i < RingSize(n + 1)
    ensures IndexAt(n + 1, i) == if i == n % MAX_LOGS then n else if i < RingSize(n) then IndexAt(n, i) else -1
  {
  }

  /** How head and count move. */
  lemma RingNext(n: nat)
    ensures (n % MAX_LOGS + 1) % MAX_LOGS == (n + 1) % MAX_LOGS
    ensures RingSize(n + 1) == if RingSize(n) < MAX_LOGS then RingSize(n) + 1 else RingSize(n)
    ensures RingSize(n) < MAX_LOGS ==> RingSize(n) == n % MAX_LOGS
  {
  }

  function Range(a: int, b: int): (r: set<int>)
    ensures forall j :: j in r <==> a <= j < b
    decreases b - a
  {
    if b <= a then {} else Range(a, b - 1) + {b - 1}
  }

  ghost predicate InRing(n: nat, j: int) {
    j >= 0 && j % MAX_LOGS < RingSize(n) && IndexAt(n, j % MAX_LOGS) == j
  }

  /** The ring holds exactly the last min(n, 50) connections. */
  lemma RingHoldsLast(n: nat)
    ensures forall j :: InRing(n, j) <==> j in Range(n - RingSize(n), n)
  {
    forall j | j in Range(n - RingSize(n), n)
      ensures InRing(n, j)
    {
      SlotOf(n, j);
    }
  }

  /** Still in the ring and not reported. */
  function Pending(n: nat, sent: set<int>): set<int> {
    Range(n - RingSize(n), n) - sent
  }

  /** Overwritten before being reported. */
  function Lost(n: nat, sent: set<int>): set<int> {
    Range(0, n - RingSize(n)) - sent
  }

  lemma {:induction false} RangeSize(a: int, b: int)
    requires a <= b
    ensures |Range(a, b)| == b - a
    decreases b - a
  {
    if a < b {
      RangeSize(a, b - 1);
    }
  }

  /** Every logged connection is exactly one of reported, lost and pending. */
  lemma Conservation(n: nat, sent: set<int>)
    requires sent <= Range(0, n)
    ensures sent + Lost(n, sent) + Pending(n, sent) == Range(0, n)
    ensures sent !! Lost(n, sent) && sent !! Pending(n, sent) && Lost(n, sent) !! Pending(n, sent)
    ensures n == |sent| + |Lost(n, sent)| + |Pending(n, sent)|
  {
    RangeSize(0, n);
    var a, b := Lost(n, sent), Pending(n, sent);
    assert sent + a + b == Range(0, n);
    assert |sent + a| == |sent| + |a|;
    assert |sent + a + b| == |sent + a| + |b|;
  }

  /** What one more connection loses: the oldest one, if the ring is full and it is unreported. */
  function Overwritten(n: nat, sent: set<int>): set<int> {
    if n >= MAX_LOGS && n - MAX_LOGS !in sent then {n - MAX_LOGS} else {}
  }

  lemma LostStep(n: nat, sent: set<int>)
    requires sent <= Range(0, n)
    ensures Lost(n + 1, sent) == Lost(n, sent) + Overwritten(n, sent) && Overwritten(n, sent) <= Pending(n, sent)
    ensures |Lost(n + 1, sent)| == |Lost(n, sent)| + if n >= MAX_LOGS && n - MAX_LOGS !in sent then 1 else 0
  {
    assert Range(0, n + 1 - RingSize(n + 1)) == Range(0, n - RingSize(n)) + if n >= MAX_LOGS then {n - MAX_LOGS}
      else {};
    assert Lost(n + 1, sent) == Lost(n, sent) + Overwritten(n, sent);
    assert Lost(n, sent) !! Overwritten(n, sent);
  }

  /** Reporting connections of the ring loses nothing. */
  lemma LostAfterReport(n: nat, sent: set<int>, numbers: seq<int>)
    requires forall k :: 0 <= k < |numbers| ==> numbers[k] in Pending(n, sent)
    ensures Lost(n, sent + AsSet(numbers)) == Lost(n, sent)
  {
  }

  /** Slot i holds the connection the ring says, and its mark is right. */
  ghost predicate Holds(log: Log, i: nat, logged: seq<Entry>, sent: set<int>)
    requires i < RingSize(|logged|)
  {
    log.entry == Stored(logged[IndexAt(|logged|, i)]) && (log.reported <==> IndexAt(|logged|, i) in sent)
  }

  lemma HoldsStep(log: Log, i: nat, logged: seq<Entry>, e: Entry, sent: set<int>)
    requires i < RingSize(|logged|) && Holds(log, i, logged, sent)
    ensures i != |logged| % MAX_LOGS ==> Holds(log, i, logged + [e], sent)
  {
    if i != |logged| % MAX_LOGS { IndexStep(|logged|, i); }
  }

  lemma HoldsNew(logged: seq<Entry>, e: Entry, sent: set<int>)
    requires sent <= Range(0, |logged|)
    ensures Holds(Log(Stored(e), false), |logged| % MAX_LOGS, logged + [e], sent)
  {
    IndexStep(|logged|, |logged| % MAX_LOGS);
  }

  function AsSet(numbers: seq<int>): set<int> {
    set j | j in numbers
  }

  lemma AsSetSnoc(numbers: seq<int>, j: int)
    ensures AsSet(numbers + [j]) == AsSet(numbers) + {j}
  {
  }

  /** The published entries are those of the numbers, pending before, in the order of their slots. */
  ghost predicate Reported(logged: seq<Entry>, pending: set<int>, batch: seq<Entry>, numbers: seq<int>) {
    && |batch| == |numbers| <= MAX_BATCH
    && (forall k :: 0 <= k < |numbers| ==>
          numbers[k] in pending && 0 <= numbers[k] < |logged| && batch[k] == Stored(logged[numbers[k]]))
    && (forall k, l :: 0 <= k < l < |numbers| ==> numbers[k] % MAX_LOGS < numbers[l] % MAX_LOGS)
  }

  lemma ReportedSnoc(logged: seq<Entry>, pending: set<int>, batch: seq<Entry>, numbers: seq<int>, j: int)
    requires Reported(logged, pending, batch, numbers) && |numbers| < MAX_BATCH && j in pending && 0 <= j < |logged|
    requires forall k :: 0 <= k < |numbers| ==> numbers[k] % MAX_LOGS < j % MAX_LOGS
    ensures Reported(logged, pending, batch + [Stored(logged[j])], numbers + [j])
  {
  }

  /** Whatever is left pending comes after the batch in slot order, and a batch short of ten leaves nothing. */
  ghost predicate TakesFirst(numbers: seq<int>, left: set<int>) {
    && (|numbers| < MAX_BATCH ==> left == {})
    && (forall j, k :: j in left && 0 <= k < |numbers| ==> numbers[k] % MAX_LOGS < j % MAX_LOGS)
  }

  /** The loop has passed i slots: their connections are reported, and the batch was taken from them. */
  ghost predicate Passed(n: nat, i: nat, sent: set<int>, numbers: seq<int>)
    requires i <= RingSize(n)
  {
    && (forall k :: 0 <= k < i ==> IndexAt(n, k) in sent)
    && (forall k :: 0 <= k < |numbers| ==> numbers[k] % MAX_LOGS < i)
  }

  lemma PassedStep(n: nat, i: nat, sent: set<int>, numbers: seq<int>, sent': set<int>, numbers': seq<int>)
    requires i < RingSize(n) && Passed(n, i, sent, numbers) && sent <= sent' && IndexAt(n, i) in sent'
    requires numbers' == numbers || numbers' == numbers + [IndexAt(n, i)]
    ensures Passed(n, i + 1, sent', numbers')
  {
  }

  lemma PassedAll(n: nat, i: nat, sent: set<int>, numbers: seq<int>)
    requires i <= RingSize(n) && Passed(n, i, sent, numbers) && (i == RingSize(n) || |numbers| >= MAX_BATCH)
    ensures TakesFirst(numbers, Pending(n, sent))
  {
    forall j | j in Pending(n, sent)
      ensures i <= j % MAX_LOGS < RingSize(n)
    {
      SlotOf(n, j);
    }
  }

  /** The pending connections of the first i slots. */
  function PendingBelow(n: nat, sent: set<int>, i: nat): set<int> {
    set j | j in Pending(n, sent) && j % MAX_LOGS < i
  }

  lemma PendingBelowStep(n: nat, sent: set<int>, i: nat)
    requires i < RingSize(n)
    ensures |PendingBelow(n, sent, i + 1)| == |PendingBelow(n, sent, i)| + if IndexAt(n, i) in sent then 0 else 1
  {
    var j := IndexAt(n, i);
    forall m | m in Pending(n, sent) && m % MAX_LOGS == i
      ensures m == j
    {
      SlotOf(n, m);
    }
    assert PendingBelow(n, sent, i + 1) == PendingBelow(n, sent, i) + if j in sent then {} else {j};
  }

  lemma PendingBelowAll(n: nat, sent: set<int>)
    ensures PendingBelow(n, sent, RingSize(n)) == Pending(n, sent)
  {
    forall j | j in Pending(n, sent)
      ensures j % MAX_LOGS < RingSize(n)
    {
      SlotOf(n, j);
    }
  }

  // ---------- The program ----------

  class LogRing {
    const logs: array<Log>
    var head: nat
    var count: nat
    /** Every connection logged so far, and the numbers of those marked reported. */
    ghost var logged: seq<Entry>
    ghost var sent: set<int>
    /** How often a slot was marked reported, and how often an unreported slot was overwritten. */
    ghost var marks: nat
    ghost var overwrites: nat

    ghost predicate Ring()
      reads `head, `count, `logged, `sent, logs
    {
      && logs.Length == MAX_LOGS && count == RingSize(|logged|) && head == |logged| % MAX_LOGS
      && sent <= Range(0, |logged|)
      && forall i :: 0 <= i < count ==> Holds(logs[i], i, logged, sent)
    }

    ghost predicate Valid()
      reads this, logs
    {
      Ring() && marks == |sent| && overwrites == |Lost(|logged|, sent)|
    }

    constructor ()
      ensures Valid() && fresh(logs) && logged == [] && sent == {} && marks == 0 && overwrites == 0
    {
      var blank := Log(Entry(0, "", 0, 0, "", []), false);
      logs := new Log[MAX_LOGS](_ => blank);
      head, count := 0, 0;
      logged, sent := [], {};
      marks, overwrites := 0, 0;
    }

    method AddLog(e: Entry)
      requires Valid()
      modifies this, logs
      ensures Valid() && logged == old(logged) + [e] && sent == old(sent) && marks == old(marks)
      ensures
        var lost := old(if count == MAX_LOGS && !logs[head].reported then {|logged| - MAX_LOGS} else {});
        && lost <= old(Pending(|logged|, sent)) && Lost(|logged|, sent) == old(Lost(|logged|, sent)) + lost
        && overwrites == old(overwrites) + |lost|
    {
      HeadIsOldest();
      LostStep(|logged|, sent);
      ghost var n, lost := |logged| + 1, Lost(|logged| + 1, sent);
      if count == MAX_LOGS && !logs[head].reported { overwrites := overwrites + 1; }
      assert overwrites == |lost|;
      Put(e);
      assert |logged| == n && Lost(|logged|, sent) == lost;
    }

    lemma HeadIsOldest()
      requires Ring()
      ensures count == MAX_LOGS && !logs[head].reported <==> |logged| >= MAX_LOGS && |logged| - MAX_LOGS !in sent
    {
      if count == MAX_LOGS {
        SlotOf(|logged|, |logged| - MAX_LOGS);
        assert Holds(logs[head], head, logged, sent);
      }
    }

    /** The assignments to the slot, the head and the count. */
    method Put(e: Entry)
      requires Ring()
      modifies logs, this`head, this`count, this`logged
      ensures Ring() && logged == old(logged) + [e]
    {
      ghost var after := logged + [e];
      RingNext(|logged|);
      HoldsNew(logged, e, sent);
      forall i | 0 <= i < count && i != head
        ensures Holds(logs[i], i, after, sent)
      {
        HoldsStep(logs[i], i, logged, e, sent);
      }
      logs[head] := Log(Stored(e), false);
      head := (head + 1) % MAX_LOGS;
      if count < MAX_LOGS { count := count + 1; }
      logged := after;
    }

    /**
     One report: nothing when disconnected; otherwise the first ten unreported slots in array order are
     published once and marked. Nothing is lost by reporting.
     */
    method ReportLogs(connected: bool) returns (batch: seq<Entry>, ghost numbers: seq<int>)
      requires Valid()
      modifies logs, this`sent, this`marks
      ensures Valid() && logged == old(logged) && marks == old(marks) + |batch|
      ensures Lost(|logged|, sent) == old(Lost(|logged|, sent))
      ensures !connected ==> numbers == []
      ensures Reported(logged, old(Pending(|logged|, sent)), batch, numbers)
      ensures sent == old(sent) + AsSet(numbers)
      ensures connected ==> TakesFirst(numbers, Pending(|logged|, sent))
    {
      batch, numbers := [], [];
      if !connected { return; }
      batch, numbers := Collect();
      LostAfterReport(|logged|, old(sent), numbers);
    }

    /** The loop over the slots. */
    method Collect() returns (batch: seq<Entry>, ghost numbers: seq<int>)
      requires Ring() && marks == |sent|
      modifies logs, this`sent, this`marks
      ensures Ring() && marks == |sent| == old(marks) + |batch|
      ensures Reported(logged, old(Pending(|logged|, sent)), batch, numbers)
      ensures sent == old(sent) + AsSet(numbers)
      ensures TakesFirst(numbers, Pending(|logged|, sent))
    {
      batch, numbers := [], [];
      var i := 0;
      ghost var start := sent;
      while i < count && |batch| < MAX_BATCH
        invariant i <= count && Ring() && marks == |sent| == old(marks) + |batch|
        invariant Reported(logged, Pending(|logged|, start), batch, numbers) && sent == start + AsSet(numbers)
        invariant Passed(|logged|, i, sent, numbers)
        decreases count - i
      {
        batch, numbers := Visit(i, start, batch, numbers);
        i := i + 1;
      }
      PassedAll(|logged|, i, sent, numbers);
    }

    /** One slot: published and marked unless it is reported already. */
    method Visit(i: nat, ghost start: set<int>, batch: seq<Entry>, ghost numbers: seq<int>)
      returns (batch': seq<Entry>, ghost numbers': seq<int>)
      requires Ring() && marks == |sent| && i < count && |batch| < MAX_BATCH
      requires Reported(logged, Pending(|logged|, start), batch, numbers) && sent == start + AsSet(numbers)
      requires Passed(|logged|, i, sent, numbers)
      modifies logs, this`sent, this`marks
      ensures Ring() && marks == |sent| == old(marks) + |batch'| - |batch|
      ensures Reported(logged, Pending(|logged|, start), batch', numbers') && sent == start + AsSet(numbers')
      ensures Passed(|logged|, i + 1, sent, numbers')
    {
      ghost var j, before := IndexAt(|logged|, i), sent;
      assert Holds(logs[i], i, logged, sent);
      batch', numbers' := batch, numbers;
      if !logs[i].reported {
        assert j in Pending(|logged|, start);
        ReportedSnoc(logged, Pending(|logged|, start), batch, numbers, j);
        AsSetSnoc(numbers, j);
        batch', numbers' := batch + [logs[i].entry], numbers + [j];
        MarkReported(i);
      }
      PassedStep(|logged|, i, before, numbers, sent, numbers');
    }

    method MarkReported(i: nat)
      requires Ring() && i < count && !logs[i].reported && marks == |sent|
      modifies logs, this`sent, this`marks
      ensures Ring() && sent == old(sent) + {IndexAt(|logged|, i)} && marks == |sent| == old(marks) + 1
      ensures forall k :: 0 <= k < count && k != i ==> logs[k] == old(logs[k])
    {
      assert Holds(logs[i], i, logged, sent);
      marks := marks + 1;
      logs[i] := logs[i].(reported := true);
      sent := sent + {IndexAt(|logged|, i)};
      forall k | 0 <= k < count
        ensures Holds(logs[k], k, logged, sent)
      {
        IndexInjective(|logged|, i, k);
      }
    }

    /** Over any run: logged = marked reported + overwritten unreported + what this counts. */
    method GetUnreportedLogs() returns (n: nat)
      requires Valid()
      ensures n == |Pending(|logged|, sent)|
      ensures |logged| == marks + overwrites + n
    {
      n := 0;
      for i := 0 to count
        invariant n == |PendingBelow(|logged|, sent, i)|
      {
        assert Holds(logs[i], i, logged, sent);
        PendingBelowStep(|logged|, sent, i);
        if !logs[i].reported { n := n + 1; }
      }
      PendingBelowAll(|logged|, sent);
      Conservation(|logged|, sent);
    }
  }
}
