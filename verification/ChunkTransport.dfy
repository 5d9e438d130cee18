/**
 Chunked test results: the firmware splits a payload (esp32-firmware/src/mqtt_client.cpp), the
 network loses, duplicates and reorders, the backend buffers per test and assembles
 (backend/src/mqtt/index.ts). The receiver carries the history of what it has been through, and
 its buffers are proved to be a summary of that history.
 */
module ChunkTransport {
  import opened Wrappers
  import opened Utf8

  // ---------- The sender ----------

  const MAX_DIRECT_BYTES := 3000
  const CHUNK_SIZE := 1200

  datatype WireChunk = WireChunk(chunkIndex: nat, chunkCount: nat, payload: Bytes)

  datatype Publication = Direct(payload: Bytes) | Chunks(chunks: seq<WireChunk>)
      | ChunksThenError(chunks: seq<WireChunk>) | Nothing

  /** The payload cut every CHUNK_SIZE bytes. */
  function Split(payload: Bytes): (pieces: seq<Bytes>)
    ensures Concat(pieces) == payload
    ensures forall i :: 0 <= i < |pieces| ==>
      0 < |pieces[i]| <= CHUNK_SIZE && (i < |pieces| - 1 ==> |pieces[i]| == CHUNK_SIZE)
    ensures |payload| <= |pieces| * CHUNK_SIZE && (pieces != [] ==> (|pieces| - 1) * CHUNK_SIZE < |payload|)
    decreases |payload|
  {
    if payload == [] then []
    else if |payload| <= CHUNK_SIZE then
      assert Concat([payload]) == payload + Concat([]) == payload;
      [payload]
    else
      var rest := Split(payload[CHUNK_SIZE..]);
      assert rest != [];
      [payload[..CHUNK_SIZE]] + rest
  }

  lemma SplitCount(payload: Bytes)
    ensures |Split(payload)| == (|payload| + CHUNK_SIZE - 1) / CHUNK_SIZE
  {
  }

  /** The piece at offset i * CHUNK_SIZE, as the firmware's loop computes it. */
  function Piece(payload: Bytes, i: nat): Bytes
    requires i * CHUNK_SIZE < |payload|
  {
    var remaining := |payload| - i * CHUNK_SIZE;
    var length := if remaining > CHUNK_SIZE then CHUNK_SIZE else remaining;
    payload[i * CHUNK_SIZE..i * CHUNK_SIZE + length]
  }

  lemma PieceShift(payload: Bytes, i: nat)
    requires (i + 1) * CHUNK_SIZE < |payload|
    ensures Piece(payload[CHUNK_SIZE..], i) == Piece(payload, i + 1)
  {
  }

  lemma {:induction false} SplitAt(payload: Bytes, i: nat)
    requires i < |Split(payload)|
    ensures i * CHUNK_SIZE < |payload| && Split(payload)[i] == Piece(payload, i)
    decreases i
  {
    if i > 0 {
      var rest := payload[CHUNK_SIZE..];
      assert Split(payload) == [payload[..CHUNK_SIZE]] + Split(rest);
      SplitAt(rest, i - 1);
      PieceShift(payload, i - 1);
    }
  }

  function WireChunks(pieces: seq<Bytes>): seq<WireChunk> {
    seq(|pieces|, i requires 0 <= i < |pieces| => WireChunk(i, |pieces|, pieces[i]))
  }

  /** One chunk's bytes: a full chunk, or what remains. */
  method ReadChunk(payload: Bytes, chunkIndex: nat) returns (chunkPayload: Bytes)
    requires chunkIndex < |Split(payload)|
    ensures chunkPayload == Split(payload)[chunkIndex]
  {
    SplitAt(payload, chunkIndex);
    var offset := chunkIndex * CHUNK_SIZE;
    var remaining := |payload| - offset;
    var length := if remaining > CHUNK_SIZE then CHUNK_SIZE else remaining;
    chunkPayload := payload[offset..offset + length];
  }

  /** `failAt` is the position of the publish call that fails, if any. */
  method PublishChunkedResults(connected: bool, payload: Bytes, failAt: Option<nat>)
    returns (ok: bool, sent: seq<WireChunk>)
    ensures ok <==> connected && (failAt.None? || failAt.value >= |Split(payload)|)
    ensures !connected ==> sent == []
    ensures connected ==> sent == WireChunks(Split(payload))[..if ok then |Split(payload)| else failAt.value]
  {
    sent := [];
    if !connected { return false, sent; }
    var totalLength := |payload|;
    var chunkCount := (totalLength + CHUNK_SIZE - 1) / CHUNK_SIZE;
    ghost var all := WireChunks(Split(payload));
    SplitCount(payload);
    for chunkIndex := 0 to chunkCount
      invariant |all| == chunkCount && sent == all[..chunkIndex]
      invariant failAt.Some? ==> failAt.value >= chunkIndex
    {
      assert all[..chunkIndex + 1] == all[..chunkIndex] + [all[chunkIndex]];
      var chunkPayload := ReadChunk(payload, chunkIndex);
      if failAt == Some(chunkIndex) {
        return false, sent;
      }
      sent := sent + [WireChunk(chunkIndex, chunkCount, chunkPayload)];
    }
    ok := true;
  }

  /** Small payloads go out whole; a failed chunked publish is followed by a transport error message. */
  method PublishResults(connected: bool, payload: Bytes, failAt: Option<nat>) returns (p: Publication)
    ensures p.Nothing? <==> !connected
    ensures p.Direct? <==> connected && |payload| <= MAX_DIRECT_BYTES
    ensures p.Direct? ==> p.payload == payload
    ensures p.Chunks? ==> p.chunks == WireChunks(Split(payload)) && |p.chunks| >= 3
    ensures p.ChunksThenError? ==> p.chunks < WireChunks(Split(payload))
  {
    SplitCount(payload);
    if !connected { return Nothing; }
    if |payload| <= MAX_DIRECT_BYTES { return Direct(payload); }
    var ok, sent := PublishChunkedResults(connected, payload, failAt);
    p := if ok then Chunks(sent) else ChunksThenError(sent);
  }

  // ---------- Messages and events at the receiver ----------

  /** Fields are absent when missing or of the wrong type. */
  datatype ChunkMessage = ChunkMessage(
    testId: Option<string>, chunkIndex: Option<int>, chunkCount: Option<int>, payload: Option<Text>,
    success: Option<bool>, error: Option<string>, duration: Option<int>)

  datatype Event =
    | Chunk(deviceId: string, message: ChunkMessage, now: int)
    | DirectResults(testId: string)
    | Sweep(now: int)
    | TimedOut(testId: string)

  predicate WellFormed(m: ChunkMessage) {
    && m.testId.Some? && m.testId.value != "" && m.chunkIndex.Some? && m.chunkCount.Some? && m.payload.Some?
    && 0 <= m.chunkIndex.value < m.chunkCount.value
  }

  predicate IsChunkFor(e: Event, t: string) {
    e.Chunk? && WellFormed(e.message) && e.message.testId.value == t
  }

  type ChunkEvent = e: Event | e.Chunk? && WellFormed(e.message)
    witness Chunk("", ChunkMessage(Some("t"), Some(0), Some(1), Some([]), None, None, None), 0)

  function Index(e: ChunkEvent): nat {
    e.message.chunkIndex.value
  }

  function Count(e: ChunkEvent): nat {
    e.message.chunkCount.value
  }

  // ---------- What the buffer of a test stands for ----------

  predicate Has(ms: seq<ChunkEvent>, i: nat) {
    exists k :: 0 <= k < |ms| && Index(ms[k]) == i
  }

  /** Every chunk of the announced number has arrived. */
  predicate Complete(ms: seq<ChunkEvent>)
    requires ms != []
  {
    forall i: nat :: i < Count(ms[|ms| - 1]) ==> Has(ms, i)
  }

  /** The messages behind test `t`'s buffer: those since it was created, none if there is no buffer. */
  ghost function Epoch(h: seq<Event>, t: string): seq<ChunkEvent> {
    if h == [] then []
    else
      var last := |h| - 1;
      var prior, e := Epoch(h[..last], t), h[last];
      if IsChunkFor(e, t) then
        var ms := Joined(prior, e);
        if Complete(ms) then [] else ms
      else if e.DirectResults? || e.TimedOut? then
        if e.testId == t then [] else prior
      else if e.Sweep? && prior != [] && e.now - prior[|prior| - 1].now > 60000 then []
      else prior
  }

  /** A new chunk joins the buffered ones when it announces the same number of chunks; otherwise it starts over. */
  function Joined(prior: seq<ChunkEvent>, e: ChunkEvent): (ms: seq<ChunkEvent>)
    ensures ms != [] && ms[|ms| - 1] == e
  {
    if prior != [] && Count(prior[|prior| - 1]) == Count(e) then prior + [e] else [e]
  }

  /** The payload received last for index `i`. */
  function Latest(ms: seq<ChunkEvent>, i: nat): Option<Text> {
    if ms == [] then None
    else
      var last := |ms| - 1;
      if Index(ms[last]) == i then Some(ms[last].message.payload.value) else Latest(ms[..last], i)
  }

  function JoinLatest(ms: seq<ChunkEvent>, n: nat): Text {
    if n == 0 then [] else JoinLatest(ms, n - 1) + Latest(ms, n - 1).GetOr([])
  }

  function LastGiven<T>(ms: seq<ChunkEvent>, field: ChunkMessage -> Option<T>): Option<T> {
    if ms == [] then None
    else
      var last := |ms| - 1;
      var v := field(ms[last].message);
      if v.Some? then v else LastGiven(ms[..last], field)
  }

  const SUCCESS := (m: ChunkMessage) => m.success
  const ERROR := (m: ChunkMessage) => m.error
  const DURATION := (m: ChunkMessage) => m.duration

  // ---------- The receiver ----------

  datatype ResultChunkBuffer = ResultChunkBuffer(
    deviceId: string, chunkCount: nat, chunks: seq<Option<Text>>, receivedChunks: set<nat>,
    success: Option<bool>, error: Option<string>, duration: Option<int>, updatedAt: int)

  datatype Assembled = Assembled(
    testId: string, deviceId: string, text: Text, chunkCount: nat, receivedChunks: nat,
    success: Option<bool>, error: Option<string>, duration: Option<int>)

  ghost predicate Summarises(b: ResultChunkBuffer, ms: seq<ChunkEvent>)
    requires ms != []
  {
    var e := ms[|ms| - 1];
    && b.chunkCount == |b.chunks| == Count(e) && b.updatedAt == e.now && b.deviceId == ms[0].deviceId
    && (forall k :: 0 <= k < |ms| ==> Count(ms[k]) == b.chunkCount)
    && (forall i: nat :: i in b.receivedChunks <==> Has(ms, i))
    && (forall i: nat :: i < b.chunkCount ==> b.chunks[i] == Latest(ms, i))
    && b.success == LastGiven(ms, SUCCESS) && b.error == LastGiven(ms, ERROR) && b.duration == LastGiven(ms, DURATION)
  }

  lemma {:induction false} LatestGiven(ms: seq<ChunkEvent>, i: nat)
    ensures Latest(ms, i).Some? <==> Has(ms, i)
  {
    if ms != [] {
      var last := |ms| - 1;
      LatestGiven(ms[..last], i);
      if Has(ms[..last], i) {
        var k :| 0 <= k < last && Index(ms[..last][k]) == i;
        assert Index(ms[k]) == i;
      }
      if Has(ms, i) && Index(ms[last]) != i {
        var k :| 0 <= k < |ms| && Index(ms[k]) == i;
        assert Index(ms[..last][k]) == i;
      }
    }
  }

  /** Array.join over the chunk slots; an empty slot contributes nothing. */
  function JoinSlots(chunks: seq<Option<Text>>): Text {
    if chunks == [] then [] else JoinSlots(chunks[..|chunks| - 1]) + chunks[|chunks| - 1].GetOr([])
  }

  lemma {:induction false} JoinSlotsIsJoinLatest(chunks: seq<Option<Text>>, ms: seq<ChunkEvent>)
    requires forall i: nat :: i < |chunks| ==> chunks[i] == Latest(ms, i)
    ensures JoinSlots(chunks) == JoinLatest(ms, |chunks|)
  {
    if chunks != [] {
      JoinSlotsIsJoinLatest(chunks[..|chunks| - 1], ms);
    }
  }

  function Fresh(deviceId: string, chunkCount: nat, now: int): ResultChunkBuffer {
    ResultChunkBuffer(deviceId, chunkCount, seq(chunkCount, _ => None), {}, None, None, None, now)
  }

  /** The in-place updates one accepted chunk makes to its buffer. */
  function Absorb(b: ResultChunkBuffer, e: ChunkEvent): ResultChunkBuffer
    requires Index(e) < |b.chunks|
  {
    var m := e.message;
    b.(chunks := b.chunks[Index(e) := m.payload], receivedChunks := b.receivedChunks + {Index(e)},
       success := if m.success.Some? then m.success else b.success,
       error := if m.error.Some? then m.error else b.error,
       duration := if m.duration.Some? then m.duration else b.duration,
       updatedAt := e.now)
  }

  lemma HasAppend(ms: seq<ChunkEvent>, e: ChunkEvent, i: nat)
    ensures Has(ms + [e], i) <==> Has(ms, i) || Index(e) == i
  {
    assert (ms + [e])[|ms|] == e;
    if k :| 0 <= k < |ms| && Index(ms[k]) == i {
      assert Index((ms + [e])[k]) == i;
    }
  }

  lemma AbsorbFresh(e: ChunkEvent)
    ensures Summarises(Absorb(Fresh(e.deviceId, Count(e), e.now), e), [e])
  {
    assert [e][..0] == [];
    assert forall i: nat :: Has([e], i) <==> i == Index(e) by {
      forall i: nat { HasAppend([], e, i); }
      assert [] + [e] == [e];
    }
  }

  lemma AbsorbNext(b: ResultChunkBuffer, ms: seq<ChunkEvent>, e: ChunkEvent)
    requires ms != [] && Summarises(b, ms) && Count(e) == b.chunkCount
    ensures Summarises(Absorb(b, e), ms + [e])
  {
    assert (ms + [e])[..|ms|] == ms;
    forall i: nat { HasAppend(ms, e, i); }
  }

  /** What holds of one test's buffer after history `h`. */
  ghost predicate BufferMeans(h: seq<Event>, t: string, buffers: map<string, ResultChunkBuffer>) {
    && (t in buffers <==> Epoch(h, t) != [])
    && (t in buffers ==> Summarises(buffers[t], Epoch(h, t)))
  }

  ghost predicate Touches(e: Event, t: string) {
    match e
    case Chunk(_, _, _) => IsChunkFor(e, t)
    case DirectResults(u) => u == t
    case TimedOut(u) => u == t
    case Sweep(_) => true
  }

  /** An event about other tests leaves a test's buffer and epoch alone. */
  lemma MeansUntouched(
    h: seq<Event>, e: Event, t: string, before: map<string, ResultChunkBuffer>,
    after: map<string, ResultChunkBuffer>)
    requires BufferMeans(h, t, before) && !Touches(e, t)
    requires (t in before <==> t in after) && (t in before ==> before[t] == after[t])
    ensures BufferMeans(h + [e], t, after)
  {
    assert (h + [e])[..|h|] == h;
  }

  lemma MeansStored(
    h: seq<Event>, e: ChunkEvent, t: string, b: ResultChunkBuffer, after: map<string, ResultChunkBuffer>)
    requires IsChunkFor(e, t) && Summarises(b, Joined(Epoch(h, t), e))
    requires if Complete(Joined(Epoch(h, t), e)) then t !in after else t in after && after[t] == b
    ensures BufferMeans(h + [e], t, after)
  {
    assert (h + [e])[..|h|] == h;
  }

  lemma MeansDropped(h: seq<Event>, e: Event, t: string, after: map<string, ResultChunkBuffer>)
    requires e == DirectResults(t) || e == TimedOut(t)
    requires t !in after
    ensures BufferMeans(h + [e], t, after)
  {
    assert (h + [e])[..|h|] == h;
  }

  lemma MeansSwept(
    h: seq<Event>, now: int, t: string, before: map<string, ResultChunkBuffer>,
    after: map<string, ResultChunkBuffer>)
    requires BufferMeans(h, t, before)
    requires t in after <==> t in before && now - before[t].updatedAt <= 60000
    requires t in after ==> after[t] == before[t]
    ensures BufferMeans(h + [Sweep(now)], t, after)
  {
    assert (h + [Sweep(now)])[..|h|] == h;
  }

  class MqttService {
    var resultChunkBuffers: map<string, ResultChunkBuffer>
    ghost var history: seq<Event>

    /** Every buffer is the summary of its test's epoch. */
    ghost predicate Valid()
      reads this
    {
      forall t :: BufferMeans(history, t, resultChunkBuffers)
    }

    constructor ()
      ensures Valid() && history == [] && resultChunkBuffers == map[]
    {
      resultChunkBuffers := map[];
      history := [];
    }

    /** Finds the test's buffer, or starts one when there is none for this number of chunks, and stores the chunk. */
    method Store(e: ChunkEvent) returns (buffer: ResultChunkBuffer)
      requires Valid()
      ensures Summarises(buffer, Joined(Epoch(history, e.message.testId.value), e))
    {
      var testId, chunkCount := e.message.testId.value, e.message.chunkCount.value;
      assert BufferMeans(history, testId, resultChunkBuffers);
      if testId in resultChunkBuffers && resultChunkBuffers[testId].chunkCount == chunkCount {
        buffer := resultChunkBuffers[testId];
        AbsorbNext(buffer, Epoch(history, testId), e);
      } else {
        buffer := Fresh(e.deviceId, chunkCount, e.now);
        AbsorbFresh(e);
      }
      buffer := Absorb(buffer, e);
    }

    /** One chunk message: validate, store, and assemble when all chunks are in. */
    method HandleChunkedTestResults(deviceId: string, message: ChunkMessage, now: int)
      returns (assembled: Option<Assembled>)
      requires Valid()
      modifies this
      ensures Valid() && history == old(history) + [Chunk(deviceId, message, now)]
      ensures !WellFormed(message) ==> assembled.None? && resultChunkBuffers == old(resultChunkBuffers)
      ensures WellFormed(message) ==>
        assembled == AssembledBy(Epoch(old(history), message.testId.value), Chunk(deviceId, message, now))
      ensures forall u :: u != message.testId.GetOr("") ==>
        (u in resultChunkBuffers <==> u in old(resultChunkBuffers))
          && (u in resultChunkBuffers ==> resultChunkBuffers[u] == old(resultChunkBuffers)[u])
    {
      ghost var event := Chunk(deviceId, message, now);
      assembled := None;
      if message.testId.None? || message.testId.value == "" || message.chunkIndex.None? || message.chunkCount.None?
        || message.payload.None? {
        Ignore(event);
        return;
      }
      var testId, chunkIndex, chunkCount := message.testId.value, message.chunkIndex.value, message.chunkCount.value;
      if chunkIndex < 0 || chunkCount <= 0 || chunkIndex >= chunkCount {
        Ignore(event);
        return;
      }
      ghost var ms := Joined(Epoch(history, testId), event);
      var buffer := Store(Chunk(deviceId, message, now));
      AllReceived(buffer, ms);
      if |buffer.receivedChunks| == buffer.chunkCount {
        JoinSlotsIsJoinLatest(buffer.chunks, ms);
        var rawPayload := JoinSlots(buffer.chunks);
        assembled := Some(Assembled(
          testId, deviceId, rawPayload, buffer.chunkCount, |buffer.receivedChunks|,
          buffer.success, buffer.error, buffer.duration));
        Put(event, buffer, resultChunkBuffers - {testId});
      } else {
        Put(event, buffer, resultChunkBuffers[testId := buffer]);
      }
    }

    /** Records an ignored message. */
    ghost method Ignore(e: Event)
      requires Valid() && e.Chunk? && !WellFormed(e.message)
      modifies this`history
      ensures Valid() && history == old(history) + [e]
    {
      forall t { MeansUntouched(history, e, t, resultChunkBuffers, resultChunkBuffers); }
      history := history + [e];
    }

    /** Replaces the buffers after an accepted chunk. */
    method Put(ghost e: ChunkEvent, ghost b: ResultChunkBuffer, buffers: map<string, ResultChunkBuffer>)
      requires Valid() && Summarises(b, Joined(Epoch(history, e.message.testId.value), e))
      requires var t := e.message.testId.value;
               if Complete(Joined(Epoch(history, t), e)) then t !in buffers else t in buffers && buffers[t] == b
      requires forall u :: u != e.message.testId.value ==>
                 (u in buffers <==> u in resultChunkBuffers) && (u in buffers ==> buffers[u] == resultChunkBuffers[u])
      modifies this
      ensures Valid() && history == old(history) + [e] && resultChunkBuffers == buffers
    {
      ghost var t := e.message.testId.value;
      forall u
        ensures BufferMeans(history + [e], u, buffers)
      {
        if u == t {
          MeansStored(history, e, t, b, buffers);
        } else {
          MeansUntouched(history, e, u, resultChunkBuffers, buffers);
        }
      }
      history := history + [e];
      resultChunkBuffers := buffers;
    }

    /** Drops one test's buffer: its unchunked results arrived, or its 100%-progress timeout completed it. */
    method Drop(testId: string, e: Event)
      requires Valid() && (e == DirectResults(testId) || e == TimedOut(testId))
      modifies this
      ensures Valid() && history == old(history) + [e] && resultChunkBuffers == old(resultChunkBuffers) - {testId}
    {
      ghost var before := resultChunkBuffers;
      resultChunkBuffers := resultChunkBuffers - {testId};
      forall u
        ensures BufferMeans(history + [e], u, resultChunkBuffers)
      {
        if u == testId {
          MeansDropped(history, e, u, resultChunkBuffers);
        } else {
          MeansUntouched(history, e, u, before, resultChunkBuffers);
        }
      }
      history := history + [e];
    }

    /** The synchronous start of handleTestResults. */
    method HandleTestResults(testId: string)
      requires Valid()
      modifies this
      ensures Valid() && history == old(history) + [DirectResults(testId)]
        && resultChunkBuffers == old(resultChunkBuffers) - {testId}
    {
      Drop(testId, DirectResults(testId));
    }

    /** The loop over the buffers that drops those untouched for a minute. */
    method SweepLoop(now: int) returns (kept: map<string, ResultChunkBuffer>)
      ensures forall t :: t in kept <==> t in resultChunkBuffers && now - resultChunkBuffers[t].updatedAt <= 60000
      ensures forall t :: t in kept ==> kept[t] == resultChunkBuffers[t]
    {
      kept := resultChunkBuffers;
      var todo := resultChunkBuffers.Keys;
      while todo != {}
        invariant todo <= resultChunkBuffers.Keys
        invariant forall t :: t in kept <==>
          t in resultChunkBuffers && (t in todo || now - resultChunkBuffers[t].updatedAt <= 60000)
        invariant forall t :: t in kept ==> kept[t] == resultChunkBuffers[t]
      {
        var t :| t in todo;
        if now - kept[t].updatedAt > 60000 {
          kept := kept - {t};
        }
        todo := todo - {t};
      }
    }

    method CleanupStaleChunkBuffers(now: int)
      requires Valid()
      modifies this
      ensures Valid() && history == old(history) + [Sweep(now)]
      ensures forall t :: t in resultChunkBuffers <==>
        t in old(resultChunkBuffers) && now - old(resultChunkBuffers)[t].updatedAt <= 60000
      ensures forall t :: t in resultChunkBuffers ==> resultChunkBuffers[t] == old(resultChunkBuffers)[t]
    {
      var kept := SweepLoop(now);
      forall t { MeansSwept(history, now, t, resultChunkBuffers, kept); }
      history := history + [Sweep(now)];
      resultChunkBuffers := kept;
    }

    /**
     The end of the 100%-progress timeout. It began with a sweep; by now the still running test has been read and
     completed in the database, and its buffer goes, with whatever chunks arrived in between.
     */
    method OnTimedOutCompleted(testId: string)
      requires Valid()
      modifies this
      ensures Valid() && history == old(history) + [TimedOut(testId)]
        && resultChunkBuffers == old(resultChunkBuffers) - {testId}
    {
      Drop(testId, TimedOut(testId));
    }
  }

  /** What a chunk leads to when it meets the buffered messages `prior`. */
  ghost function AssembledBy(prior: seq<ChunkEvent>, e: ChunkEvent): Option<Assembled> {
    var ms, n := Joined(prior, e), Count(e);
    if Complete(ms) then
      Some(Assembled(e.message.testId.value, e.deviceId, JoinLatest(ms, n), n, n, LastGiven(ms, SUCCESS),
        LastGiven(ms, ERROR), LastGiven(ms, DURATION)))
    else None
  }

  /** The position of the last message giving the field, -1 if none does. */
  lemma {:induction false} LastGivenAt<T>(ms: seq<ChunkEvent>, field: ChunkMessage -> Option<T>) returns (k: int)
    ensures -1 <= k < |ms| && forall j :: k < j < |ms| ==> field(ms[j].message).None?
    ensures if k < 0 then LastGiven(ms, field).None?
            else field(ms[k].message).Some? && LastGiven(ms, field) == field(ms[k].message)
  {
    if ms == [] {
      k := -1;
    } else {
      var last := |ms| - 1;
      if field(ms[last].message).Some? { k := last; } else { k := LastGivenAt(ms[..last], field); }
      assert forall j :: 0 <= j < last ==> ms[..last][j] == ms[j];
    }
  }

  lemma LastGivenIs<T>(ms: seq<ChunkEvent>, field: ChunkMessage -> Option<T>)
    ensures LastGiven(ms, field).None? <==> forall k :: 0 <= k < |ms| ==> field(ms[k].message).None?
    ensures LastGiven(ms, field).Some? ==>
      exists k :: 0 <= k < |ms| && field(ms[k].message) == LastGiven(ms, field)
                  && forall j :: k < j < |ms| ==> field(ms[j].message).None?
  {
    var k := LastGivenAt(ms, field);
    if k >= 0 { assert field(ms[k].message) == LastGiven(ms, field); }
  }

  /** The outcome is the one the last message to give any gave. */
  ghost predicate SaysLast(a: Assembled, ms: seq<ChunkEvent>) {
    && (a.success.None? <==> forall k :: 0 <= k < |ms| ==> ms[k].message.success.None?)
    && (a.success.Some? ==>
          exists k :: 0 <= k < |ms| && ms[k].message.success == a.success
                      && forall j :: k < j < |ms| ==> ms[j].message.success.None?)
    && (a.error.None? <==> forall k :: 0 <= k < |ms| ==> ms[k].message.error.None?)
    && (a.error.Some? ==>
          exists k :: 0 <= k < |ms| && ms[k].message.error == a.error
                      && forall j :: k < j < |ms| ==> ms[j].message.error.None?)
    && (a.duration.None? <==> forall k :: 0 <= k < |ms| ==> ms[k].message.duration.None?)
    && (a.duration.Some? ==>
          exists k :: 0 <= k < |ms| && ms[k].message.duration == a.duration
                      && forall j :: k < j < |ms| ==> ms[j].message.duration.None?)
  }

  /** What is assembled is of the completing message's test, device and count, and says what was last said. */
  lemma AssembledSays(prior: seq<ChunkEvent>, e: ChunkEvent)
    requires AssembledBy(prior, e).Some?
    ensures
      var a := AssembledBy(prior, e).value;
      && a.testId == e.message.testId.value && a.deviceId == e.deviceId
      && a.chunkCount == a.receivedChunks == e.message.chunkCount.value
      && SaysLast(a, Joined(prior, e))
  {
    var ms := Joined(prior, e);
    LastGivenIs(ms, SUCCESS);
    LastGivenIs(ms, ERROR);
    LastGivenIs(ms, DURATION);
  }

  /** So a failure that every chunk repeats is the failure reported. */
  lemma RepeatedOutcome(prior: seq<ChunkEvent>, e: ChunkEvent, v: bool)
    requires AssembledBy(prior, e).Some?
    requires e.message.success == Some(v) && forall k :: 0 <= k < |prior| ==> prior[k].message.success == Some(v)
    ensures AssembledBy(prior, e).value.success == Some(v)
  {
    AssembledSays(prior, e);
  }

  lemma AllReceived(b: ResultChunkBuffer, ms: seq<ChunkEvent>)
    requires ms != [] && Summarises(b, ms)
    ensures |b.receivedChunks| == b.chunkCount <==> Complete(ms)
  {
    forall i | i in b.receivedChunks
      ensures i < b.chunkCount
    {
      var k :| 0 <= k < |ms| && Index(ms[k]) == i;
    }
    FullSet(b.receivedChunks, b.chunkCount);
  }

  lemma {:induction false} FullSet(s: set<nat>, n: nat)
    requires forall i :: i in s ==> i < n
    ensures |s| <= n
    ensures |s| == n <==> forall i: nat :: i < n ==> i in s
  {
    if n > 0 {
      FullSet(s - {n - 1}, n - 1);
    } else {
      assert s == {};
    }
  }

  // ---------- Whole runs ----------

  function ConcatText(pieces: seq<Text>): Text {
    if pieces == [] then [] else ConcatText(pieces[..|pieces| - 1]) + pieces[|pieces| - 1]
  }

  /** The message carries one piece of this split, under its own index. */
  predicate FromSplit(e: ChunkEvent, pieces: seq<Text>) {
    Count(e) == |pieces| && Index(e) < |pieces| && e.message.payload.value == pieces[Index(e)]
  }

  ghost predicate AllFromSplit(h: seq<Event>, t: string, pieces: seq<Text>) {
    forall k :: 0 <= k < |h| && IsChunkFor(h[k], t) ==> FromSplit(h[k], pieces)
  }

  lemma {:induction false} EpochFromSplit(h: seq<Event>, t: string, pieces: seq<Text>)
    requires AllFromSplit(h, t, pieces)
    ensures forall k :: 0 <= k < |Epoch(h, t)| ==> FromSplit(Epoch(h, t)[k], pieces)
  {
    if h != [] {
      var last := |h| - 1;
      assert AllFromSplit(h[..last], t, pieces);
      EpochFromSplit(h[..last], t, pieces);
    }
  }

  lemma {:induction false} LatestFromSplit(ms: seq<ChunkEvent>, i: nat, pieces: seq<Text>)
    requires forall k :: 0 <= k < |ms| ==> FromSplit(ms[k], pieces)
    ensures Latest(ms, i).Some? ==> i < |pieces| && Latest(ms, i).value == pieces[i]
  {
    if ms != [] {
      LatestFromSplit(ms[..|ms| - 1], i, pieces);
    }
  }

  lemma {:induction false} JoinFromSplit(ms: seq<ChunkEvent>, n: nat, pieces: seq<Text>)
    requires n <= |pieces|
    requires forall k :: 0 <= k < |ms| ==> FromSplit(ms[k], pieces)
    requires forall i: nat :: i < n ==> Has(ms, i)
    ensures JoinLatest(ms, n) == ConcatText(pieces[..n])
  {
    if n > 0 {
      JoinFromSplit(ms, n - 1, pieces);
      LatestGiven(ms, n - 1);
      LatestFromSplit(ms, n - 1, pieces);
      assert pieces[..n][..n - 1] == pieces[..n - 1];
    }
  }

  /**
   Whatever was lost, duplicated, reordered, dropped as stale or interleaved with other tests:
   when all chunks of a test come from one split, anything assembled for it is that split, joined.
   */
  lemma AssembledIsTheSplit(h: seq<Event>, e: ChunkEvent, t: string, pieces: seq<Text>)
    requires IsChunkFor(e, t) && AllFromSplit(h + [e], t, pieces)
    ensures AssembledBy(Epoch(h, t), e).Some? ==> AssembledBy(Epoch(h, t), e).value.text == ConcatText(pieces)
  {
    assert (h + [e])[|h|] == e;
    assert AllFromSplit(h, t, pieces) by {
      forall k | 0 <= k < |h| && IsChunkFor(h[k], t)
        ensures FromSplit(h[k], pieces)
      {
        assert (h + [e])[k] == h[k];
      }
    }
    EpochFromSplit(h, t, pieces);
    var ms := Joined(Epoch(h, t), e);
    if Complete(ms) {
      JoinFromSplit(ms, |pieces|, pieces);
      assert pieces[..|pieces|] == pieces;
    }
  }

  /** The text the backend reads out of each wire chunk of a byte payload. */
  function ReadPieces(pieces: seq<Bytes>): (texts: seq<Text>)
    ensures |texts| == |pieces| && forall i :: 0 <= i < |pieces| ==> texts[i] == Decode(pieces[i])
  {
    seq(|pieces|, i requires 0 <= i < |pieces| => Decode(pieces[i]))
  }

  lemma {:induction false} ConcatTextPrepend(t: Text, texts: seq<Text>)
    ensures ConcatText([t] + texts) == t + ConcatText(texts)
  {
    if texts == [] {
      assert [t] + texts == [t];
      assert [t][..0] == [];
    } else {
      var n := |texts| - 1;
      ConcatTextPrepend(t, texts[..n]);
      assert ([t] + texts)[..n + 1] == [t] + texts[..n];
      assert (t + ConcatText(texts[..n])) + texts[n] == t + (ConcatText(texts[..n]) + texts[n]);
    }
  }

  lemma {:induction false} ReadPiecesJoin(pieces: seq<Bytes>)
    ensures ConcatText(ReadPieces(pieces)) == DecodePieces(pieces)
  {
    if pieces != [] {
      ReadPiecesJoin(pieces[1..]);
      assert ReadPieces(pieces) == [Decode(pieces[0])] + ReadPieces(pieces[1..]);
      ConcatTextPrepend(Decode(pieces[0]), ReadPieces(pieces[1..]));
    }
  }

  /**
   End to end: the text the device serialised is what the backend assembles exactly when no
   chunk after the first starts inside a multi-byte character.
   */
  lemma TransportDelivers(cs: Text, h: seq<Event>, e: ChunkEvent, t: string)
    requires IsChunkFor(e, t) && AllFromSplit(h + [e], t, ReadPieces(Split(EncodeAll(cs))))
    requires AssembledBy(Epoch(h, t), e).Some?
    ensures AssembledBy(Epoch(h, t), e).value.text == cs <==> CleanCuts(Split(EncodeAll(cs)))
  {
    var pieces := Split(EncodeAll(cs));
    AssembledIsTheSplit(h, e, t, ReadPieces(pieces));
    ReadPiecesJoin(pieces);
    PiecesDecodeIff(pieces, cs);
  }

  /** The byte at cut `k` of a payload belongs to a character that began before the cut. */
  predicate CutsInside(payload: Bytes, k: nat) {
    k * CHUNK_SIZE < |payload| && Continuation(payload[k * CHUNK_SIZE])
  }

  lemma PieceStart(payload: Bytes, k: nat)
    ensures k < |Split(payload)| <==> k * CHUNK_SIZE < |payload|
    ensures k < |Split(payload)| ==> Split(payload)[k][0] == payload[k * CHUNK_SIZE]
  {
    if k < |Split(payload)| { SplitAt(payload, k); }
  }

  /** The condition, as the device could test it before splitting: look at the byte at each cut. */
  lemma CleanCutsIff(payload: Bytes)
    ensures CleanCuts(Split(payload)) <==> forall k: nat :: 0 < k ==> !CutsInside(payload, k)
  {
    var pieces := Split(payload);
    if CleanCuts(pieces) {
      forall k: nat | 0 < k
        ensures !CutsInside(payload, k)
      {
        PieceStart(payload, k);
      }
    }
    if forall k: nat :: 0 < k ==> !CutsInside(payload, k) {
      forall k | 1 <= k < |pieces|
        ensures !Continuation(pieces[k][0])
      {
        PieceStart(payload, k);
        assert !CutsInside(payload, k);
      }
    }
  }

  /** ASCII payloads always arrive intact. */
  lemma {:induction false} AsciiEncodes(cs: Text)
    requires forall i :: 0 <= i < |cs| ==> cs[i] < 0x80
    ensures |EncodeAll(cs)| == |cs| && forall i :: 0 <= i < |cs| ==> EncodeAll(cs)[i] == cs[i]
  {
    if cs != [] {
      AsciiEncodes(cs[1..]);
    }
  }

  lemma AsciiIsClean(cs: Text)
    requires forall i :: 0 <= i < |cs| ==> cs[i] < 0x80
    ensures CleanCuts(Split(EncodeAll(cs)))
  {
    AsciiEncodes(cs);
    var payload := EncodeAll(cs);
    forall k: nat | 0 < k
      ensures !CutsInside(payload, k)
    {
      if k * CHUNK_SIZE < |payload| { assert payload[k * CHUNK_SIZE] == cs[k * CHUNK_SIZE]; }
    }
    CleanCutsIff(payload);
  }

  function Ascii(s: string): (cs: Text)
    requires forall i :: 0 <= i < |s| ==> s[i] as int < 0x80
    ensures |cs| == |s| && forall i :: 0 <= i < |cs| ==> cs[i] < 0x80
  {
    seq(|s|, i requires 0 <= i < |s| => s[i] as int as Scalar)
  }

  function As(n: nat): Text {
    seq(n, _ => 0x61 as Scalar)
  }

  /** A JSON object of one long string member, with a two-byte character across the first cut. */
  function Straddling(): Text {
    (Ascii("{\"result\":\"") + As(1188)) + ([0xE9 as Scalar] + (As(2000) + Ascii("\"}")))
  }

  lemma StraddlingIsCut(front: Text, back: Text)
    requires |front| == 1199 && |back| > 1900
    requires forall i :: 0 <= i < |front| ==> front[i] < 0x80
    requires forall i :: 0 <= i < |back| ==> back[i] < 0x80
    ensures
      var payload := EncodeAll(front + ([0xE9 as Scalar] + back));
      |payload| > MAX_DIRECT_BYTES && CutsInside(payload, 1)
  {
    AsciiEncodes(front);
    AsciiEncodes(back);
    EncodeAllAppend(front, [0xE9] + back);
    EncodeAllAppend([0xE9], back);
    var payload := EncodeAll(front + ([0xE9 as Scalar] + back));
    assert EncodeAll([0xE9]) == [0xC3, 0xA9] by { assert Encode(0xE9) == [0xC3, 0xA9]; }
    assert payload == EncodeAll(front) + (EncodeAll([0xE9]) + EncodeAll(back));
    assert payload[1200] == 0xA9;
  }

  /** It is sent in chunks, and what the backend puts together is another text. */
  lemma StraddlingIsGarbled()
    ensures |EncodeAll(Straddling())| > MAX_DIRECT_BYTES
    ensures !CleanCuts(Split(EncodeAll(Straddling())))
    ensures DecodePieces(Split(EncodeAll(Straddling()))) != Straddling()
  {
    StraddlingIsCut(Ascii("{\"result\":\"") + As(1188), As(2000) + Ascii("\"}"));
    var pieces := Split(EncodeAll(Straddling()));
    CleanCutsIff(EncodeAll(Straddling()));
    PiecesDecodeIff(pieces, Straddling());
  }

  ghost predicate InOrder(es: seq<ChunkEvent>, t: string) {
    forall i :: 0 <= i < |es| ==> IsChunkFor(es[i], t) && Index(es[i]) == i && Count(es[i]) == |es|
  }

  lemma FirstChunks(es: seq<ChunkEvent>, t: string, k: nat)
    requires InOrder(es, t) && k < |es|
    ensures Joined(es[..k], es[k]) == es[..k + 1]
    ensures Complete(es[..k + 1]) <==> k + 1 == |es|
  {
    var ms := es[..k + 1];
    forall i: nat
      ensures Has(ms, i) <==> i <= k
    {
      if i <= k { assert Index(ms[i]) == i; }
    }
    if k + 1 < |es| { assert !Has(ms, k + 1); }
  }

  /** Without loss or interruption the payload does arrive: the last chunk in order completes it, and no earlier one. */
  lemma {:induction false} InOrderDeliveryCompletes(h: seq<Event>, t: string, es: seq<ChunkEvent>, k: nat)
    requires Epoch(h, t) == [] && k < |es| && InOrder(es, t)
    ensures Epoch(h + es[..k], t) == es[..k]
    ensures AssembledBy(Epoch(h + es[..k], t), es[k]).Some? <==> k == |es| - 1
    decreases k
  {
    FirstChunks(es, t, k);
    assert h + es[..0] == h;
    if k > 0 {
      InOrderDeliveryCompletes(h, t, es, k - 1);
      FirstChunks(es, t, k - 1);
      EpochAfterChunk(h + es[..k - 1], es[k - 1], t);
      PrefixStep(h, es, k);
    }
  }

  lemma PrefixStep(h: seq<Event>, es: seq<ChunkEvent>, k: nat)
    requires 0 < k <= |es|
    ensures h + es[..k] == (h + es[..k - 1]) + [es[k - 1]]
  {
  }

  lemma EpochAfterChunk(h: seq<Event>, e: ChunkEvent, t: string)
    requires IsChunkFor(e, t)
    ensures Epoch(h + [e], t) == if Complete(Joined(Epoch(h, t), e)) then [] else Joined(Epoch(h, t), e)
  {
    assert (h + [e])[..|h|] == h;
  }
}
