/**
 The two-thread pipe of src/include/commpipe.h: one writer and one reader share a
 ring buffer, two sleep flags and three semaphores.  Every access to a shared
 variable is one atomic step of an interleaving (sequentially consistent memory),
 so the two functions become two program counters and a run is any sequence of
 steps of the two threads.
 */
module CommPipe {

  // ---------------------------------------------------------------- ring index

  /** The index after i: the source's (i + 1) % size. */
  function After(i: nat, size: nat): (r: nat)
    requires i < size
    ensures r == if i == size - 1 then 0 else i + 1
  {
    (i + 1) % size
  }

  /** The number of queued items as the source computes it: (wrp - rdp + size) % size. */
  function Distance(rdp: nat, wrp: nat, size: nat): (r: nat)
    requires rdp < size && wrp < size
    ensures r == if wrp >= rdp then wrp - rdp else wrp + size - rdp
  {
    OneTurn(wrp - rdp + size, size);
    (wrp - rdp + size) % size
  }

  lemma OneTurn(x: nat, size: nat)
    requires 0 < x < 2 * size
    ensures x % size == if x < size then x else x - size
  {
    if x >= size {
      var q := x / size;
      assert x == size * q + x % size;
      assert q >= 2 ==> size * q >= size * 2;
      assert q <= 0 ==> size * q <= 0;
    }
  }

  // --------------------------------------------------------------------- state

  /** Where the writer stands inside write_comm_pipe_pt.  `locked` tells the slow
      path (which holds the lock) from the unlocked fast path. */
  datatype Writer<T> =
    | WIdle
    | WBegin(v: T, noBuffer: bool)                   // about to test reader_waiting
    | WLock(v: T, noBuffer: bool)                    // sem_wait (lock)
    | WFull(v: T, noBuffer: bool)                    // about to compare nxwrp with rdp
    | WSetWaiting(v: T, noBuffer: bool)              // writer_waiting = 1
    | WRelease(v: T, noBuffer: bool)                 // sem_post (lock)
    | WSleep(v: T, noBuffer: bool)                   // sem_wait (writer_wait)
    | WRelock(v: T, noBuffer: bool)                  // sem_wait (lock)
    | WStore(v: T, noBuffer: bool, locked: bool)     // data[wrp] = v
    | WBump(v: T, noBuffer: bool, locked: bool)      // wrp = nxwrp
    | WTest(noBuffer: bool, locked: bool)            // maybe_wake_reader: test reader_waiting
    | WCount(noBuffer: bool, locked: bool)           // ... test no_buffer, then read rdp
    | WClear(locked: bool)                           // ... reader_waiting = 0
    | WPost(locked: bool)                            // ... sem_post (reader_wait)
    | WUnlock                                        // sem_post (lock)

  /** Where the reader stands inside read_comm_pipe_pt_blocking. */
  datatype Reader<T> =
    | RIdle
    | RLock                // sem_wait (lock)
    | REmpty               // about to compare rdp with wrp
    | RSetWaiting          // reader_waiting = 1
    | RRelease             // sem_post (lock)
    | RSleep               // sem_wait (reader_wait)
    | RRelock              // sem_wait (lock)
    | RFetch               // data = p->data[rdp]
    | RBump(d: T)          // rdp = (rdp + 1) % size
    | RTest(d: T)          // test writer_waiting
    | RClear(d: T)         // writer_waiting = 0
    | RPost(d: T)          // sem_post (writer_wait)
    | RUnlock(d: T)        // sem_post (lock), return d

  /** The pipe together with both threads.  `sent` lists the values handed to write
      calls and `got` the values returned by read calls, oldest first. */
  datatype Pipe<T> = Pipe(
    size: nat, chunks: int,
    data: seq<T>, rdp: nat, wrp: nat,
    readerWaiting: bool, writerWaiting: bool,
    lock: nat, readerWait: nat, writerWait: nat,
    w: Writer<T>, r: Reader<T>,
    sent: seq<T>, got: seq<T>)

  /** A pipe just after init_comm_pipe; the malloc'ed ring holds arbitrary values. */
  ghost predicate Init<T>(p: Pipe<T>) {
    && |p.data| == p.size
    && p.rdp == 0 && p.wrp == 0
    && !p.readerWaiting && !p.writerWaiting
    && p.lock == 1 && p.readerWait == 0 && p.writerWait == 0
    && p.w.WIdle? && p.r.RIdle?
    && p.sent == [] && p.got == []
  }

  /** The ring indices stay inside the buffer. */
  predicate Shape<T>(p: Pipe<T>) {
    |p.data| == p.size && p.rdp < p.size && p.wrp < p.size
  }

  // --------------------------------------------------------------------- steps

  /** A semaphore wait can only be passed when the semaphore is positive. */
  predicate WriterCanMove<T>(p: Pipe<T>) {
    match p.w
    case WIdle => false
    case WLock(_, _) => p.lock > 0
    case WRelock(_, _) => p.lock > 0
    case WSleep(_, _) => p.writerWait > 0
    case _ => true
  }

  predicate ReaderCanMove<T>(p: Pipe<T>) {
    match p.r
    case RIdle => false
    case RLock => p.lock > 0
    case RRelock => p.lock > 0
    case RSleep => p.readerWait > 0
    case _ => true
  }

  /** One shared access of the writer. */
  function WriterMove<T>(p: Pipe<T>): (q: Pipe<T>)
    requires Shape(p) && WriterCanMove(p)
    ensures Shape(q) && q.size == p.size && q.chunks == p.chunks
  {
    match p.w
    case WBegin(v, nb) =>
      if p.readerWaiting then p.(w := WStore(v, nb, false)) else p.(w := WLock(v, nb))
    case WLock(v, nb) => p.(lock := p.lock - 1, w := WFull(v, nb))
    case WFull(v, nb) =>
      if After(p.wrp, p.size) == p.rdp then p.(w := WSetWaiting(v, nb)) else p.(w := WStore(v, nb, true))
    case WSetWaiting(v, nb) => p.(writerWaiting := true, w := WRelease(v, nb))
    case WRelease(v, nb) => p.(lock := p.lock + 1, w := WSleep(v, nb))
    case WSleep(v, nb) => p.(writerWait := p.writerWait - 1, w := WRelock(v, nb))
    case WRelock(v, nb) => p.(lock := p.lock - 1, w := WStore(v, nb, true))
    case WStore(v, nb, locked) => p.(data := p.data[p.wrp := v], w := WBump(v, nb, locked))
    case WBump(v, nb, locked) => p.(wrp := After(p.wrp, p.size), w := WTest(nb, locked))
    case WTest(nb, locked) => if p.readerWaiting then p.(w := WCount(nb, locked)) else p.(w := Leave(locked))
    case WCount(nb, locked) =>
      if nb || Distance(p.rdp, p.wrp, p.size) >= p.chunks then p.(w := WClear(locked)) else p.(w := Leave(locked))
    case WClear(locked) => p.(readerWaiting := false, w := WPost(locked))
    case WPost(locked) => p.(readerWait := p.readerWait + 1, w := Leave(locked))
    case WUnlock => p.(lock := p.lock + 1, w := WIdle)
  }

  /** Leaving maybe_wake_reader: the slow path still has to post the lock. */
  function Leave<T>(locked: bool): Writer<T> {
    if locked then WUnlock else WIdle
  }

  /** One shared access of the reader. */
  function ReaderMove<T>(p: Pipe<T>): (q: Pipe<T>)
    requires Shape(p) && ReaderCanMove(p)
    ensures Shape(q) && q.size == p.size && q.chunks == p.chunks
  {
    match p.r
    case RLock => p.(lock := p.lock - 1, r := REmpty)
    case REmpty => if p.rdp == p.wrp then p.(r := RSetWaiting) else p.(r := RFetch)
    case RSetWaiting => p.(readerWaiting := true, r := RRelease)
    case RRelease => p.(lock := p.lock + 1, r := RSleep)
    case RSleep => p.(readerWait := p.readerWait - 1, r := RRelock)
    case RRelock => p.(lock := p.lock - 1, r := RFetch)
    case RFetch => p.(r := RBump(p.data[p.rdp]))
    case RBump(d) => p.(rdp := After(p.rdp, p.size), r := RTest(d))
    case RTest(d) => if p.writerWaiting then p.(r := RClear(d)) else p.(r := RUnlock(d))
    case RClear(d) => p.(writerWaiting := false, r := RPost(d))
    case RPost(d) => p.(writerWait := p.writerWait + 1, r := RUnlock(d))
    case RUnlock(d) => p.(lock := p.lock + 1, got := p.got + [d], r := RIdle)
  }

  /** What can happen next: a caller starts an operation, or a thread makes a step. */
  datatype Action<T> = BeginWrite(v: T, noBuffer: bool) | BeginRead | WriterStep | ReaderStep

  predicate Enabled<T>(p: Pipe<T>, a: Action<T>) {
    match a
    case BeginWrite(_, _) => p.w.WIdle?
    case BeginRead => p.r.RIdle?
    case WriterStep => WriterCanMove(p)
    case ReaderStep => ReaderCanMove(p)
  }

  function Apply<T>(p: Pipe<T>, a: Action<T>): (q: Pipe<T>)
    requires Shape(p) && Enabled(p, a)
    ensures Shape(q) && q.size == p.size && q.chunks == p.chunks
  {
    match a
    case BeginWrite(v, nb) => p.(w := WBegin(v, nb), sent := p.sent + [v])
    case BeginRead => p.(r := RLock)
    case WriterStep => WriterMove(p)
    case ReaderStep => ReaderMove(p)
  }

  /** The schedule can be executed from p: every action is enabled when its turn comes. */
  predicate Runnable<T>(p: Pipe<T>, acts: seq<Action<T>>)
    requires Shape(p)
    decreases |acts|
  {
    acts == [] || (Enabled(p, acts[0]) && Runnable(Apply(p, acts[0]), acts[1..]))
  }

  function Exec<T>(p: Pipe<T>, acts: seq<Action<T>>): (q: Pipe<T>)
    requires Shape(p) && Runnable(p, acts)
    ensures Shape(q) && q.size == p.size && q.chunks == p.chunks
    decreases |acts|
  {
    if acts == [] then p else Exec(Apply(p, acts[0]), acts[1..])
  }

  // ----------------------------------------------------------------- invariant

  function Count<T>(p: Pipe<T>): nat
    requires Shape(p)
  {
    Distance(p.rdp, p.wrp, p.size)
  }

  /** The ring slot that holds the k-th oldest queued item. */
  function Slot(rdp: nat, k: nat, size: nat): (r: nat)
    requires rdp < size && k < size
    ensures r < size
  {
    if rdp + k < size then rdp + k else rdp + k - size
  }

  /** The queued items, oldest first. */
  function Queue<T>(p: Pipe<T>): (q: seq<T>)
    requires Shape(p)
    ensures |q| == Count(p)
  {
    seq(Count(p), k requires 0 <= k < Count(p) => p.data[Slot(p.rdp, k, p.size)])
  }

  /** The value the reader has taken out of the ring but not yet returned. */
  function InReader<T>(p: Pipe<T>): seq<T> {
    match p.r
    case RTest(d) => [d]
    case RClear(d) => [d]
    case RPost(d) => [d]
    case RUnlock(d) => [d]
    case _ => []
  }

  /** The value the writer was given but has not yet made visible. */
  function InWriter<T>(p: Pipe<T>): seq<T> {
    match p.w
    case WBegin(v, _) => [v]
    case WLock(v, _) => [v]
    case WFull(v, _) => [v]
    case WSetWaiting(v, _) => [v]
    case WRelease(v, _) => [v]
    case WSleep(v, _) => [v]
    case WRelock(v, _) => [v]
    case WStore(v, _, _) => [v]
    case WBump(v, _, _) => [v]
    case _ => []
  }

  predicate WriterHolds<T>(p: Pipe<T>) {
    match p.w
    case WFull(_, _) => true
    case WSetWaiting(_, _) => true
    case WRelease(_, _) => true
    case WStore(_, _, locked) => locked
    case WBump(_, _, locked) => locked
    case WTest(_, locked) => locked
    case WCount(_, locked) => locked
    case WClear(locked) => locked
    case WPost(locked) => locked
    case WUnlock => true
    case _ => false
  }

  predicate ReaderHolds<T>(p: Pipe<T>) {
    !(p.r.RIdle? || p.r.RLock? || p.r.RSleep? || p.r.RRelock?)
  }

  function Bit(b: bool): nat { if b then 1 else 0 }

  predicate ReaderAsleep<T>(p: Pipe<T>) { p.r.RRelease? || p.r.RSleep? }
  predicate WriterAsleep<T>(p: Pipe<T>) { p.w.WRelease? || p.w.WSleep? }

  /** The lock is held by at most one thread. */
  predicate Mutex<T>(p: Pipe<T>) {
    p.lock + Bit(WriterHolds(p)) + Bit(ReaderHolds(p)) == 1
  }

  /** A reader going to sleep has exactly one wake-up token: the flag it raised, a
      post the writer is about to make, or a post already made.  Awake, it has none. */
  predicate ReaderToken<T>(p: Pipe<T>) {
    Bit(p.readerWaiting) + Bit(p.w.WPost?) + p.readerWait == Bit(ReaderAsleep(p))
  }

  predicate WriterToken<T>(p: Pipe<T>) {
    Bit(p.writerWaiting) + Bit(p.r.RPost?) + p.writerWait == Bit(WriterAsleep(p))
  }

  /** On the fast path, until it clears the flag, the writer is covered by reader_waiting;
      a flag about to be cleared is still set. */
  predicate FastPathCovered<T>(p: Pipe<T>) {
    && (p.w.WStore? && !p.w.locked ==> p.readerWaiting)
    && (p.w.WBump? && !p.w.locked ==> p.readerWaiting)
    && (p.w.WTest? && !p.w.locked ==> p.readerWaiting)
    && (p.w.WCount? ==> p.readerWaiting)
    && (p.w.WClear? ==> p.readerWaiting)
    && (p.r.RClear? ==> p.writerWaiting)
  }

  /** chunks == 0 (or less) wakes the reader at once, exactly like chunks == 1. */
  function Batch<T>(p: Pipe<T>): int { if p.chunks < 1 then 1 else p.chunks }

  /** How many items may be queued at each point of the two programs. */
  ghost predicate Bounds<T>(p: Pipe<T>)
    requires Shape(p)
  {
    && (p.readerWaiting ==> Count(p) <= Batch(p))
    && (p.readerWaiting && !p.w.WTest? && !p.w.WCount? && !p.w.WClear? ==> Count(p) < Batch(p))
    && (p.readerWaiting && (p.w.WTest? || p.w.WCount? || p.w.WClear?) ==> Count(p) > 0)
    && (p.w.WPost? ==> Count(p) > 0)
    && (p.readerWait > 0 ==> Count(p) > 0)
    && (p.w.WStore? || p.w.WBump? || p.w.WRelock? ==> Count(p) < p.size - 1)
    && (p.w.WSetWaiting? ==> Count(p) == p.size - 1)
    && (p.writerWaiting && !p.r.RTest? && !p.r.RClear? ==> Count(p) == p.size - 1)
    && (p.w.WSleep? && !p.writerWaiting ==> Count(p) < p.size - 1)
    && (p.w.WRelease? ==> p.writerWaiting)
    && (p.r.RTest? || p.r.RClear? || p.r.RPost? || p.r.RUnlock? ==> Count(p) < p.size - 1)
    && (p.r.RSetWaiting? ==> Count(p) == 0)
    && (p.r.RRelock? || p.r.RFetch? || p.r.RBump? ==> Count(p) > 0)
    && (p.r.RBump? ==> p.r.d == p.data[p.rdp])
    && (p.w.WBump? ==> p.data[p.wrp] == p.w.v)
  }

  /** Every value handed to a write call is returned, held or queued, in order. */
  ghost predicate Conserved<T>(p: Pipe<T>)
    requires Shape(p)
  {
    p.sent == p.got + InReader(p) + Queue(p) + InWriter(p)
  }

  predicate Control<T>(p: Pipe<T>) {
    Mutex(p) && ReaderToken(p) && WriterToken(p) && FastPathCovered(p)
  }

  ghost predicate Good<T>(p: Pipe<T>) {
    && Shape(p) && p.size >= 2 && p.chunks < p.size
    && Control(p)
    && Bounds(p) && Conserved(p)
  }

  // -------------------------------------------------------------- preservation

  lemma QueueAfterBump<T>(p: Pipe<T>, q: Pipe<T>, v: T)
    requires Shape(p) && Count(p) < p.size - 1 && p.data[p.wrp] == v
    requires q == p.(wrp := After(p.wrp, p.size), w := q.w)
    ensures Shape(q) && Queue(q) == Queue(p) + [v]
  {
  }

  lemma QueueAfterTake<T>(p: Pipe<T>, q: Pipe<T>)
    requires Shape(p) && Count(p) > 0
    requires q == p.(rdp := After(p.rdp, p.size), r := q.r)
    ensures Shape(q) && [p.data[p.rdp]] + Queue(q) == Queue(p)
  {
  }

  lemma QueueAfterStore<T>(p: Pipe<T>, q: Pipe<T>, v: T)
    requires Shape(p)
    requires q == p.(data := p.data[p.wrp := v], w := q.w)
    ensures Shape(q) && Queue(q) == Queue(p)
  {
  }

  /** The writer has got past the test for a full ring. */
  predicate Storing<T>(p: Pipe<T>) {
    p.w.WStore? || p.w.WBump? || p.w.WTest? || p.w.WCount? || p.w.WClear? || p.w.WPost? || p.w.WUnlock?
  }

  lemma WriterKeepsMutex<T>(p: Pipe<T>)
    requires Shape(p) && Control(p) && WriterCanMove(p)
    ensures Mutex(WriterMove(p))
  {
    WriterRing(p);
    WriterBalance(p);
    hide Control, WriterHolds, WriterMove, Distance, After, FastPathCovered, ReaderToken, WriterToken;
    assert Mutex(p) by { ControlParts(p); }
    assert ReaderHolds(WriterMove(p)) == ReaderHolds(p);
  }

  lemma ControlParts<T>(p: Pipe<T>)
    requires Control(p)
    ensures Mutex(p) && ReaderToken(p) && WriterToken(p) && FastPathCovered(p)
  {
    hide Mutex, ReaderToken, WriterToken, FastPathCovered;
  }

  /** What the writer takes from the lock it holds, and the other way round. */
  lemma WriterBalance<T>(p: Pipe<T>)
    requires Shape(p) && WriterCanMove(p)
    ensures WriterMove(p).lock + Bit(WriterHolds(WriterMove(p))) == p.lock + Bit(WriterHolds(p))
  {
    hide *;
    if Storing(p) {
      WriterBalanceLate(p);
    } else {
      WriterBalanceEarly(p);
    }
  }

  lemma WriterBalanceEarly<T>(p: Pipe<T>)
    requires Shape(p) && WriterCanMove(p) && !Storing(p)
    ensures WriterMove(p).lock + Bit(WriterHolds(WriterMove(p))) == p.lock + Bit(WriterHolds(p))
  {
    hide Distance, After;
  }

  lemma WriterBalanceLate<T>(p: Pipe<T>)
    requires Shape(p) && WriterCanMove(p) && Storing(p)
    ensures WriterMove(p).lock + Bit(WriterHolds(WriterMove(p))) == p.lock + Bit(WriterHolds(p))
  {
    hide Distance, After;
  }

  lemma WriterKeepsCover<T>(p: Pipe<T>)
    requires Shape(p) && Control(p) && WriterCanMove(p)
    ensures FastPathCovered(WriterMove(p))
  {
    hide Distance, After, Mutex, ReaderToken, WriterToken;
  }

  lemma WriterKeepsLocks<T>(p: Pipe<T>)
    requires Shape(p) && Control(p) && WriterCanMove(p)
    ensures Mutex(WriterMove(p)) && FastPathCovered(WriterMove(p))
  {
    hide *;
    WriterKeepsMutex(p);
    WriterKeepsCover(p);
  }

  lemma WriterKeepsReaderToken<T>(p: Pipe<T>)
    requires Shape(p) && Control(p) && WriterCanMove(p)
    ensures ReaderToken(WriterMove(p))
  {
    hide *;
    if Storing(p) {
      WriterKeepsReaderTokenLate(p);
    } else {
      WriterKeepsReaderTokenEarly(p);
    }
  }

  lemma WriterKeepsReaderTokenEarly<T>(p: Pipe<T>)
    requires Shape(p) && Control(p) && WriterCanMove(p) && !Storing(p)
    ensures ReaderToken(WriterMove(p))
  {
    hide Distance, After, Mutex, WriterToken;
  }

  lemma WriterKeepsReaderTokenLate<T>(p: Pipe<T>)
    requires Shape(p) && Control(p) && WriterCanMove(p) && Storing(p)
    ensures ReaderToken(WriterMove(p))
  {
    hide Distance, After, Mutex, WriterToken;
  }

  lemma WriterKeepsWriterToken<T>(p: Pipe<T>)
    requires Shape(p) && Control(p) && WriterCanMove(p)
    ensures WriterToken(WriterMove(p))
  {
    hide Distance, After, Mutex, ReaderToken, FastPathCovered;
  }

  lemma WriterKeepsTokens<T>(p: Pipe<T>)
    requires Shape(p) && Control(p) && WriterCanMove(p)
    ensures ReaderToken(WriterMove(p)) && WriterToken(WriterMove(p))
  {
    hide *;
    WriterKeepsReaderToken(p);
    WriterKeepsWriterToken(p);
  }

  lemma WriterKeepsBounds<T>(p: Pipe<T>)
    requires Good(p) && WriterCanMove(p)
    ensures Bounds(WriterMove(p))
  {
    hide *;
    if Storing(p) {
      WriterKeepsBoundsLate(p);
    } else {
      WriterKeepsBoundsEarly(p);
    }
  }

  lemma WriterKeepsBoundsEarly<T>(p: Pipe<T>)
    requires Good(p) && WriterCanMove(p) && !Storing(p)
    ensures Bounds(WriterMove(p))
  {
    hide Conserved, Queue, InReader, InWriter, Slot;
  }

  lemma WriterKeepsBoundsLate<T>(p: Pipe<T>)
    requires Good(p) && WriterCanMove(p) && Storing(p)
    ensures Bounds(WriterMove(p))
  {
    hide Conserved, Queue, InReader, InWriter, Slot;
  }

  lemma WriterConserves<T>(p: Pipe<T>)
    requires Shape(p) && WriterCanMove(p) && Conserved(p)
    requires p.w.WBump? ==> Count(p) < p.size - 1 && p.data[p.wrp] == p.w.v
    ensures Conserved(WriterMove(p))
  {
    var q := WriterMove(p);
    WriterFrame(p);
    hide WriterMove, Queue, InReader, InWriter;
    if p.w.WStore? {
      QueueAfterStore(p, q, p.w.v);
    } else if p.w.WBump? {
      QueueAfterBump(p, q, p.w.v);
      assert p.got + InReader(p) + (Queue(p) + [p.w.v]) + [] == p.got + InReader(p) + Queue(p) + [p.w.v];
    } else {
      SameQueue(p, q);
    }
  }

  /** What a step of the writer does to the ring and to what each side holds. */
  lemma WriterFrame<T>(p: Pipe<T>)
    requires Shape(p) && WriterCanMove(p)
    ensures var q := WriterMove(p);
            && InReader(q) == InReader(p) && q.got == p.got && q.sent == p.sent && q.size == p.size && q.rdp == p.rdp
            && (if p.w.WBump? then InWriter(p) == [p.w.v] && InWriter(q) == []
                && q == p.(wrp := After(p.wrp, p.size), w := q.w)
                else if p.w.WStore? then InWriter(q) == InWriter(p) && q == p.(data := p.data[p.wrp := p.w.v], w := q.w)
                else InWriter(q) == InWriter(p) && q.wrp == p.wrp && q.data == p.data)
  {
    WriterRing(p);
    WriterHand(p);
    hide WriterMove, Queue, InWriter, Distance, After;
  }

  lemma WriterRing<T>(p: Pipe<T>)
    requires Shape(p) && WriterCanMove(p)
    ensures var q := WriterMove(p);
            && q.r == p.r && q.got == p.got && q.sent == p.sent && q.size == p.size && q.rdp == p.rdp
            && (if p.w.WBump? then q == p.(wrp := After(p.wrp, p.size), w := q.w)
                else if p.w.WStore? then q == p.(data := p.data[p.wrp := p.w.v], w := q.w)
                else q.wrp == p.wrp && q.data == p.data)
  {
    hide Queue, InReader, InWriter, Distance, After;
  }

  lemma WriterHand<T>(p: Pipe<T>)
    requires Shape(p) && WriterCanMove(p)
    ensures var q := WriterMove(p);
            if p.w.WBump? then InWriter(p) == [p.w.v] && InWriter(q) == [] else InWriter(q) == InWriter(p)
  {
    hide Queue, InReader, Distance, After;
  }

  lemma SameQueue<T>(p: Pipe<T>, q: Pipe<T>)
    requires Shape(p) && Shape(q) && q.size == p.size && q.rdp == p.rdp && q.wrp == p.wrp && q.data == p.data
    ensures Queue(q) == Queue(p)
  {
  }

  /** Every step of the writer keeps the invariant. */
  lemma WriterKeeps<T>(p: Pipe<T>)
    requires Good(p) && WriterCanMove(p)
    ensures Good(WriterMove(p))
  {
    hide WriterMove;
    WriterKeepsLocks(p);
    WriterKeepsTokens(p);
    WriterKeepsBounds(p);
    WriterConserves(p);
  }

  lemma ReaderKeepsLocks<T>(p: Pipe<T>)
    requires Shape(p) && Control(p) && ReaderCanMove(p)
    ensures Mutex(ReaderMove(p)) && FastPathCovered(ReaderMove(p))
  {
    hide Distance, Queue, ReaderToken, WriterToken;
  }

  lemma ReaderKeepsTokens<T>(p: Pipe<T>)
    requires Shape(p) && Control(p) && ReaderCanMove(p)
    ensures ReaderToken(ReaderMove(p)) && WriterToken(ReaderMove(p))
  {
    hide Distance, Queue, Mutex;
  }

  /** Up to the point where the reader leaves the ring. */
  predicate Taking<T>(p: Pipe<T>) {
    !(p.r.RTest? || p.r.RClear? || p.r.RPost? || p.r.RUnlock? || p.r.RBump?)
  }

  lemma ReaderKeepsBounds<T>(p: Pipe<T>)
    requires Good(p) && ReaderCanMove(p)
    ensures Bounds(ReaderMove(p))
  {
    hide *;
    if Taking(p) {
      ReaderKeepsBoundsEarly(p);
    } else {
      ReaderKeepsBoundsLate(p);
    }
  }

  lemma ReaderKeepsBoundsEarly<T>(p: Pipe<T>)
    requires Good(p) && ReaderCanMove(p) && Taking(p)
    ensures Bounds(ReaderMove(p))
  {
    hide Conserved, Queue, InReader, InWriter, Slot, After;
  }

  lemma ReaderKeepsBoundsLate<T>(p: Pipe<T>)
    requires Good(p) && ReaderCanMove(p) && !Taking(p)
    ensures Bounds(ReaderMove(p))
  {
    hide Conserved, Queue, InReader, InWriter, Slot;
  }

  lemma ReaderConserves<T>(p: Pipe<T>)
    requires Shape(p) && ReaderCanMove(p) && Conserved(p)
    requires p.r.RBump? ==> Count(p) > 0 && p.r.d == p.data[p.rdp]
    ensures Conserved(ReaderMove(p))
  {
    var q := ReaderMove(p);
    ReaderFrame(p);
    hide ReaderMove, Queue, InReader, InWriter;
    if p.r.RBump? {
      QueueAfterTake(p, q);
      assert p.got + [] + Queue(p) == p.got + [p.r.d] + Queue(q);
    } else {
      SameQueue(p, q);
    }
  }

  /** What a step of the reader does to the ring and to what each side holds. */
  lemma ReaderFrame<T>(p: Pipe<T>)
    requires Shape(p) && ReaderCanMove(p)
    ensures var q := ReaderMove(p);
            && Shape(q) && InWriter(q) == InWriter(p) && q.sent == p.sent
            && q.size == p.size && q.wrp == p.wrp && q.data == p.data
            && (if p.r.RBump? then InReader(p) == [] && InReader(q) == [p.r.d]
                && q == p.(rdp := After(p.rdp, p.size), r := q.r)
                else q.rdp == p.rdp && q.got + InReader(q) == p.got + InReader(p))
  {
    ReaderRing(p);
    ReaderHand(p);
    hide ReaderMove, Queue, InReader, InWriter, Distance, After;
    SameWriter(p, ReaderMove(p));
  }

  lemma ReaderRing<T>(p: Pipe<T>)
    requires Shape(p) && ReaderCanMove(p)
    ensures var q := ReaderMove(p);
            && Shape(q) && q.w == p.w && q.sent == p.sent && q.size == p.size && q.wrp == p.wrp && q.data == p.data
            && (if p.r.RBump? then q == p.(rdp := After(p.rdp, p.size), r := q.r) else q.rdp == p.rdp)
  {
    hide Queue, InReader, InWriter, Distance, After;
  }

  lemma ReaderHand<T>(p: Pipe<T>)
    requires Shape(p) && ReaderCanMove(p)
    ensures var q := ReaderMove(p);
            if p.r.RBump? then InReader(p) == [] && InReader(q) == [p.r.d]
            else q.got + InReader(q) == p.got + InReader(p)
  {
    hide Queue, InWriter, Distance, After;
  }

  lemma SameWriter<T>(p: Pipe<T>, q: Pipe<T>)
    requires q.w == p.w
    ensures InWriter(q) == InWriter(p)
  {
  }

  /** Every step of the reader keeps the invariant. */
  lemma ReaderKeeps<T>(p: Pipe<T>)
    requires Good(p) && ReaderCanMove(p)
    ensures Good(ReaderMove(p))
  {
    hide ReaderMove;
    ReaderKeepsLocks(p);
    ReaderKeepsTokens(p);
    ReaderKeepsBounds(p);
    ReaderConserves(p);
  }

  lemma StepKeeps<T>(p: Pipe<T>, a: Action<T>)
    requires Good(p) && Enabled(p, a)
    ensures Good(Apply(p, a))
  {
    match a {
      case BeginWrite(v, nb) => assert Queue(Apply(p, a)) == Queue(p);
      case BeginRead => assert Queue(Apply(p, a)) == Queue(p);
      case WriterStep => WriterKeeps(p);
      case ReaderStep => ReaderKeeps(p);
    }
  }

  lemma {:induction false} RunKeeps<T>(p: Pipe<T>, acts: seq<Action<T>>)
    requires Good(p) && Runnable(p, acts)
    ensures Good(Exec(p, acts))
    decreases |acts|
  {
    if acts == [] {
    } else {
      StepKeeps(p, acts[0]);
      RunKeeps(Apply(p, acts[0]), acts[1..]);
    }
  }

  lemma InitIsGood<T>(p: Pipe<T>)
    requires Init(p) && p.size >= 2 && p.chunks < p.size
    ensures Good(p)
  {
    assert Queue(p) == [];
  }

  // ------------------------------------------------------------- main theorems

  /** Under every interleaving the values read are a prefix of the values written, in
      order; what is missing is exactly what the reader holds, the ring contents and what
      the writer holds. */
  lemma ReadsArePrefixOfWrites<T>(p: Pipe<T>, acts: seq<Action<T>>)
    requires Init(p) && p.size >= 2 && p.chunks < p.size && Runnable(p, acts)
    ensures var q := Exec(p, acts);
            && q.got <= q.sent
            && q.sent == q.got + InReader(q) + Queue(q) + InWriter(q)
  {
    InitIsGood(p);
    RunKeeps(p, acts);
  }

  /** A store never hits a slot that still holds an unread item, on the locked path or on
      the fast path that takes no lock and does no full check; nor does the reader touch
      the ring while a store or an index update is pending. */
  lemma NoUnreadSlotOverwritten<T>(p: Pipe<T>, acts: seq<Action<T>>, k: nat)
    requires Init(p) && p.size >= 2 && p.chunks < p.size && Runnable(p, acts)
    requires var q := Exec(p, acts); (q.w.WStore? || q.w.WBump?) && k < Count(q)
    ensures var q := Exec(p, acts);
            && Slot(q.rdp, k, q.size) != q.wrp
            && !q.r.RFetch? && !q.r.RBump?
  {
    InitIsGood(p);
    RunKeeps(p, acts);
  }

  /** The semaphores stay binary and the lock has at most one owner. */
  lemma SemaphoresStayBinary<T>(p: Pipe<T>, acts: seq<Action<T>>)
    requires Init(p) && p.size >= 2 && p.chunks < p.size && Runnable(p, acts)
    ensures var q := Exec(p, acts);
            && q.lock <= 1 && q.readerWait <= 1 && q.writerWait <= 1
            && !(WriterHolds(q) && ReaderHolds(q))
            && (WriterHolds(q) || ReaderHolds(q) ==> q.lock == 0)
  {
    InitIsGood(p);
    RunKeeps(p, acts);
  }

  /** Writer and reader are never asleep for good together.  When no thread can move, no
      operation is in progress, except that a reader may sleep on fewer than `chunks` items
      while the writer is idle, or a writer on a full ring while the reader is idle. */
  lemma NeverAsleepTogether<T>(p: Pipe<T>, acts: seq<Action<T>>)
    requires Init(p) && p.size >= 2 && p.chunks < p.size && Runnable(p, acts)
    ensures var q := Exec(p, acts);
            WriterCanMove(q) || ReaderCanMove(q)
            || (q.w.WIdle? && q.r.RIdle?)
            || (q.w.WIdle? && q.r.RSleep? && q.readerWaiting && Count(q) < Batch(q))
            || (q.r.RIdle? && q.w.WSleep? && q.writerWaiting && Count(q) == q.size - 1)
  {
    InitIsGood(p);
    RunKeeps(p, acts);
  }

  /** A writer blocked on a full pipe means the reader is not blocked, or its wake-up has
      already been posted. */
  lemma BlockedWriterHasLiveReader<T>(p: Pipe<T>, acts: seq<Action<T>>)
    requires Init(p) && p.size >= 2 && p.chunks < p.size && Runnable(p, acts)
    requires var q := Exec(p, acts); q.w.WSleep? && q.writerWait == 0
    ensures var q := Exec(p, acts);
            && (q.writerWaiting || q.r.RPost?)
            && (q.r.RSleep? ==> q.readerWait == 1)
  {
    InitIsGood(p);
    RunKeeps(p, acts);
  }

  // --------------------------------------------------------- urgent writes and batches

  /** Whether the write begun last was one with no_buffer. */
  function LastUrgent<T>(acts: seq<Action<T>>, before: bool): bool {
    if acts == [] then before
    else LastUrgent(acts[1..], if acts[0].BeginWrite? then acts[0].noBuffer else before)
  }

  /** The writer still knows whether its write is urgent. */
  predicate Knows<T>(p: Pipe<T>, urgent: bool) {
    match p.w
    case WBegin(_, nb) => nb == urgent
    case WLock(_, nb) => nb == urgent
    case WFull(_, nb) => nb == urgent
    case WSetWaiting(_, nb) => nb == urgent
    case WRelease(_, nb) => nb == urgent
    case WSleep(_, nb) => nb == urgent
    case WRelock(_, nb) => nb == urgent
    case WStore(_, nb, _) => nb == urgent
    case WBump(_, nb, _) => nb == urgent
    case WTest(nb, _) => nb == urgent
    case WCount(nb, _) => nb == urgent
    case _ => true
  }

  /** After an urgent write no reader is left asleep on an item. */
  ghost predicate Roused<T>(p: Pipe<T>, urgent: bool)
    requires Shape(p)
  {
    && Knows(p, urgent)
    && (urgent && (p.w.WIdle? || p.w.WUnlock? || p.w.WPost?) && p.readerWaiting ==> Count(p) == 0)
  }

  lemma WriterRouses<T>(p: Pipe<T>, urgent: bool)
    requires Good(p) && WriterCanMove(p) && Roused(p, urgent)
    ensures Roused(WriterMove(p), urgent)
  {
    WriterKeeps(p);
    hide Conserved, Queue, InReader, InWriter, Distance, After, Bounds, Good;
  }

  lemma ReaderRouses<T>(p: Pipe<T>, urgent: bool)
    requires Good(p) && ReaderCanMove(p) && Roused(p, urgent)
    ensures Roused(ReaderMove(p), urgent)
  {
    assert p.readerWaiting ==> ReaderAsleep(p);
    assert p.r.RSetWaiting? ==> Count(p) == 0;
    hide Conserved, Queue, InReader, InWriter, Distance, After, Bounds, Good;
  }

  lemma {:induction false} RunRouses<T>(p: Pipe<T>, acts: seq<Action<T>>, urgent: bool)
    requires Good(p) && Runnable(p, acts) && Roused(p, urgent)
    ensures Good(Exec(p, acts)) && Roused(Exec(p, acts), LastUrgent(acts, urgent))
    decreases |acts|
  {
    if acts != [] {
      StepKeeps(p, acts[0]);
      match acts[0] {
        case BeginWrite(v, nb) =>
        case BeginRead =>
        case WriterStep => WriterRouses(p, urgent);
        case ReaderStep => ReaderRouses(p, urgent);
      }
      assert Roused(Apply(p, acts[0]), LastUrgent([acts[0]], urgent));
      hide Good, Roused, Apply, Enabled;
      RunRouses(Apply(p, acts[0]), acts[1..], LastUrgent([acts[0]], urgent));
    }
  }

  /** In every run: once a write with no_buffer has returned, a reader that went to sleep has its wake-up posted, unless
      there is nothing to read; after any write this is so when at least `chunks` items are queued. */
  lemma UrgentWriteWakes<T>(p: Pipe<T>, acts: seq<Action<T>>)
    requires Init(p) && p.size >= 2 && p.chunks < p.size && Runnable(p, acts)
    ensures var q := Exec(p, acts);
            (q.w.WIdle? && (q.r.RRelease? || q.r.RSleep?) && Count(q) > 0
             && (LastUrgent(acts, false) || Count(q) >= q.chunks)) ==> q.readerWait == 1
  {
    InitIsGood(p);
    RunRouses(p, acts, false);
    hide Runnable, Exec, Conserved, Queue, InReader, InWriter, Distance;
  }

  /** Without urgent writes a wake-up is only on its way while at least `chunks` items are queued. */
  ghost predicate Batched<T>(p: Pipe<T>)
    requires Shape(p)
  {
    Knows(p, false) && (p.w.WClear? || p.w.WPost? || p.readerWait > 0 ==> Count(p) >= p.chunks)
  }

  lemma WriterBatches<T>(p: Pipe<T>)
    requires Good(p) && WriterCanMove(p) && Batched(p)
    ensures Batched(WriterMove(p))
  {
    WriterCounts(p);
    hide Conserved, Queue, InReader, InWriter, Distance, After, Bounds, Good;
  }

  lemma WriterCounts<T>(p: Pipe<T>)
    requires Good(p) && WriterCanMove(p)
    ensures Count(WriterMove(p)) == Count(p) + if p.w.WBump? then 1 else 0
  {
    hide Conserved, Queue, InReader, InWriter;
  }

  lemma ReaderBatches<T>(p: Pipe<T>)
    requires Good(p) && ReaderCanMove(p) && Batched(p)
    ensures Batched(ReaderMove(p))
  {
    assert p.w.WClear? ==> p.readerWaiting;
    assert p.readerWaiting || p.w.WPost? || p.readerWait > 0 ==> ReaderAsleep(p);
    assert Bit(p.readerWaiting) + Bit(p.w.WPost?) + p.readerWait <= 1;
    hide Conserved, Queue, InReader, InWriter, Distance, After, Bounds, Good, Mutex;
  }

  lemma {:induction false} RunBatches<T>(p: Pipe<T>, acts: seq<Action<T>>)
    requires Good(p) && Runnable(p, acts) && Batched(p)
    requires forall i :: 0 <= i < |acts| && acts[i].BeginWrite? ==> !acts[i].noBuffer
    ensures Good(Exec(p, acts)) && Batched(Exec(p, acts))
    decreases |acts|
  {
    if acts != [] {
      StepKeeps(p, acts[0]);
      match acts[0] {
        case BeginWrite(v, nb) =>
        case BeginRead =>
        case WriterStep => WriterBatches(p);
        case ReaderStep => ReaderBatches(p);
      }
      assert Batched(Apply(p, acts[0]));
      hide Good, Batched, Apply, Enabled;
      RunBatches(Apply(p, acts[0]), acts[1..]);
    }
  }

  /** In every run of buffered writes: a wake-up of the reader is only posted when at least `chunks` items are there
      for it. */
  lemma BufferedWritesWait<T>(p: Pipe<T>, acts: seq<Action<T>>)
    requires Init(p) && p.size >= 2 && p.chunks < p.size && Runnable(p, acts)
    requires forall i :: 0 <= i < |acts| && acts[i].BeginWrite? ==> !acts[i].noBuffer
    ensures var q := Exec(p, acts); q.readerWait > 0 ==> Count(q) >= q.chunks
  {
    InitIsGood(p);
    RunBatches(p, acts);
  }

  /** The fast path: a write that finds the reader asleep leaves the lock alone, from its first step to its last. */
  lemma FastPathTakesNoLock<T>(p: Pipe<T>)
    requires Shape(p) && WriterCanMove(p) && (Unlocked(p.w) || (p.w.WBegin? && p.readerWaiting))
    ensures WriterMove(p).lock == p.lock && (Unlocked(WriterMove(p).w) || WriterMove(p).w.WIdle?)
  {
    hide Distance, After;
  }

  predicate Unlocked<T>(w: Writer<T>) {
    match w
    case WStore(_, _, locked) => !locked
    case WBump(_, _, locked) => !locked
    case WTest(_, locked) => !locked
    case WCount(_, locked) => !locked
    case WClear(locked) => !locked
    case WPost(locked) => !locked
    case _ => false
  }

  // ------------------------------------------------------- operations terminate

  /** An upper bound on the steps left in the writer's current operation. */
  function WriterWork<T>(w: Writer<T>): nat {
    match w
    case WIdle => 0
    case WUnlock => 1
    case WPost(_) => 2
    case WClear(_) => 3
    case WCount(_, _) => 4
    case WTest(_, _) => 5
    case WBump(_, _, _) => 6
    case WStore(_, _, _) => 7
    case WRelock(_, _) => 8
    case WSleep(_, _) => 9
    case WRelease(_, _) => 10
    case WSetWaiting(_, _) => 11
    case WFull(_, _) => 12
    case WLock(_, _) => 13
    case WBegin(_, _) => 14
  }

  function ReaderWork<T>(r: Reader<T>): nat {
    match r
    case RIdle => 0
    case RUnlock(_) => 1
    case RPost(_) => 2
    case RClear(_) => 3
    case RTest(_) => 4
    case RBump(_) => 5
    case RFetch => 6
    case RRelock => 7
    case RSleep => 8
    case RRelease => 9
    case RSetWaiting => 10
    case REmpty => 11
    case RLock => 12
  }

  ghost predicate OnlySteps<T>(acts: seq<Action<T>>) {
    forall i :: 0 <= i < |acts| ==> acts[i].WriterStep? || acts[i].ReaderStep?
  }

  lemma WriterStepUsesWork<T>(p: Pipe<T>)
    requires Shape(p) && WriterCanMove(p)
    ensures WriterWork(WriterMove(p).w) < WriterWork(p.w) && WriterMove(p).r == p.r
  {
  }

  lemma ReaderStepUsesWork<T>(p: Pipe<T>)
    requires Shape(p) && ReaderCanMove(p)
    ensures ReaderWork(ReaderMove(p).r) < ReaderWork(p.r) && ReaderMove(p).w == p.w
  {
  }

  /** However the two threads are scheduled, the operations in progress finish (or fall
      asleep for one of the reasons above) within a bounded number of steps: there is no
      livelock and no retry loop. */
  lemma {:induction false} OperationsAreBounded<T>(p: Pipe<T>, acts: seq<Action<T>>)
    requires Shape(p) && Runnable(p, acts) && OnlySteps(acts)
    ensures |acts| + WriterWork(Exec(p, acts).w) + ReaderWork(Exec(p, acts).r)
            <= WriterWork(p.w) + ReaderWork(p.r) <= 26
    decreases |acts|
  {
    if acts == [] {
    } else {
      if acts[0].WriterStep? {
        WriterStepUsesWork(p);
      } else {
        assert acts[0].ReaderStep?;
        ReaderStepUsesWork(p);
      }
      OperationsAreBounded(Apply(p, acts[0]), acts[1..]);
    }
  }

  // ------------------------------------------- the batch size must be below size

  lemma {:induction false} Extend<T>(p: Pipe<T>, acts: seq<Action<T>>, a: Action<T>)
    requires Shape(p) && Runnable(p, acts) && Enabled(Exec(p, acts), a)
    ensures Runnable(p, acts + [a]) && Exec(p, acts + [a]) == Apply(Exec(p, acts), a)
    decreases |acts|
  {
    if acts == [] {
      assert acts + [a] == [a];
      assert Runnable(Apply(p, a), []);
    } else {
      assert (acts + [a])[1..] == acts[1..] + [a];
      Extend(Apply(p, acts[0]), acts[1..], a);
    }
  }

  /** n steps of one thread, all enabled, appended to a schedule. */
  lemma {:induction false} Chain<T>(p: Pipe<T>, acts: seq<Action<T>>, more: seq<Action<T>>)
    requires Shape(p) && Runnable(p, acts) && Runnable(Exec(p, acts), more)
    ensures Runnable(p, acts + more) && Exec(p, acts + more) == Exec(Exec(p, acts), more)
    decreases |more|
  {
    if more == [] {
      assert acts + more == acts;
    } else {
      Extend(p, acts, more[0]);
      assert acts + more == (acts + [more[0]]) + more[1..];
      Chain(p, acts + [more[0]], more[1..]);
    }
  }

  /** The reader sleeps with its flag up and the writer is idle. */
  predicate Sleeping<T>(p: Pipe<T>) {
    && Shape(p) && p.readerWaiting && !p.writerWaiting && p.w.WIdle? && p.r.RSleep?
    && p.lock == 1 && p.readerWait == 0 && p.rdp == 0 && p.got == []
  }

  lemma ReaderFallsAsleep<T>(p: Pipe<T>) returns (acts: seq<Action<T>>)
    requires Init(p) && p.size >= 1
    ensures Runnable(p, acts) && Sleeping(Exec(p, acts))
    ensures Exec(p, acts).wrp == 0 && Exec(p, acts).sent == []
  {
    acts := [];
    Extend(p, acts, BeginRead);
    acts := acts + [BeginRead];
    for i := 0 to 4
      invariant Runnable(p, acts)
      invariant var q := Exec(p, acts);
                && q == p.(r := q.r, lock := q.lock, readerWaiting := q.readerWaiting)
                && (i == 0 ==> q.r.RLock? && q.lock == 1)
                && (i == 1 ==> q.r.REmpty? && q.lock == 0)
                && (i == 2 ==> q.r.RSetWaiting? && q.lock == 0)
                && (i == 3 ==> q.r.RRelease? && q.lock == 0 && q.readerWaiting)
                && (i == 4 ==> q.r.RSleep? && q.lock == 1 && q.readerWaiting)
    {
      Extend(p, acts, ReaderStep);
      acts := acts + [ReaderStep];
    }
  }

  /** With chunks >= size a buffered write never wakes a sleeping reader, full ring or not. */
  lemma UnnoticedWrite<T>(p: Pipe<T>, acts: seq<Action<T>>, v: T) returns (acts': seq<Action<T>>)
    requires Shape(p) && Runnable(p, acts) && Sleeping(Exec(p, acts)) && p.chunks >= p.size
    ensures Runnable(p, acts') && Sleeping(Exec(p, acts'))
    ensures var q, q' := Exec(p, acts), Exec(p, acts');
            q'.wrp == After(q.wrp, p.size) && q'.sent == q.sent + [v]
  {
    var q := Exec(p, acts);
    Extend(p, acts, BeginWrite(v, false));
    acts' := acts + [BeginWrite(v, false)];
    for i := 0 to 5
      invariant Runnable(p, acts')
      invariant var s := Exec(p, acts');
                && s == q.(w := s.w, data := s.data, wrp := s.wrp, sent := q.sent + [v])
                && s.wrp == (if i < 3 then q.wrp else After(q.wrp, p.size))
                && (i == 0 ==> s.w == WBegin(v, false))
                && (i == 1 ==> s.w == WStore(v, false, false))
                && (i == 2 ==> s.w == WBump(v, false, false))
                && (i == 3 ==> s.w == WTest(false, false))
                && (i == 4 ==> s.w == WCount(false, false))
                && (i == 5 ==> s.w == WIdle)
    {
      Extend(p, acts', WriterStep);
      acts' := acts' + [WriterStep];
    }
  }

  /** A write with no_buffer into slot 0 wakes the reader, which then returns that value. */
  lemma FlushAndRead<T>(p: Pipe<T>, acts: seq<Action<T>>, v: T) returns (acts': seq<Action<T>>)
    requires Shape(p) && Runnable(p, acts) && Sleeping(Exec(p, acts)) && Exec(p, acts).wrp == 0
    ensures Runnable(p, acts')
    ensures Exec(p, acts').got == [v] && Exec(p, acts').sent == Exec(p, acts).sent + [v]
  {
    var q := Exec(p, acts);
    Extend(p, acts, BeginWrite(v, true));
    acts' := acts + [BeginWrite(v, true)];
    for i := 0 to 7
      invariant Runnable(p, acts')
      invariant var s := Exec(p, acts');
                && s == q.(w := s.w, data := s.data, wrp := s.wrp, readerWaiting := i < 6,
                           readerWait := if i < 7 then 0 else 1, sent := q.sent + [v])
                && (i >= 2 ==> s.data[0] == v)
                && (i <= 2 ==> s.wrp == 0)
                && (i == 0 ==> s.w == WBegin(v, true))
                && (i == 1 ==> s.w == WStore(v, true, false))
                && (i == 2 ==> s.w == WBump(v, true, false))
                && (i == 3 ==> s.w == WTest(true, false))
                && (i == 4 ==> s.w == WCount(true, false))
                && (i == 5 ==> s.w == WClear(false))
                && (i == 6 ==> s.w == WPost(false))
                && (i == 7 ==> s.w == WIdle)
    {
      Extend(p, acts', WriterStep);
      acts' := acts' + [WriterStep];
    }
    var u := Exec(p, acts');
    for i := 0 to 6
      invariant Runnable(p, acts')
      invariant var s := Exec(p, acts');
                && s.data == u.data && s.sent == u.sent && !s.writerWaiting
                && (i < 4 ==> s.rdp == 0)
                && s.got == (if i < 6 then [] else [v])
                && (i == 0 ==> s.r == RSleep && s.readerWait == 1 && s.lock == 1)
                && (i == 1 ==> s.r == RRelock && s.lock == 1)
                && (i == 2 ==> s.r == RFetch)
                && (i == 3 ==> s.r == RBump(v))
                && (i == 4 ==> s.r == RTest(v))
                && (i == 5 ==> s.r == RUnlock(v))
    {
      Extend(p, acts', ReaderStep);
      acts' := acts' + [ReaderStep];
    }
  }

  /** With chunks >= size the fast path overruns the ring: the reader sleeps, `size` writes
      go by unnoticed, and the next one replaces the oldest unread item. */
  lemma LargeBatchLosesData<T>(p: Pipe<T>, a: T, b: T) returns (acts: seq<Action<T>>)
    requires Init(p) && p.size >= 2 && p.chunks >= p.size && a != b
    ensures Runnable(p, acts) && !(Exec(p, acts).got <= Exec(p, acts).sent)
  {
    acts := ReaderFallsAsleep(p);
    for i := 0 to p.size
      invariant Runnable(p, acts) && Sleeping(Exec(p, acts))
      invariant Exec(p, acts).wrp == if i < p.size then i else 0
      invariant |Exec(p, acts).sent| == i && (i > 0 ==> Exec(p, acts).sent[0] == a)
    {
      acts := UnnoticedWrite(p, acts, a);
    }
    acts := FlushAndRead(p, acts, b);
    assert Exec(p, acts).got[0] == b && Exec(p, acts).sent[0] == a;
  }

  /** Nothing is ever lost or reordered exactly when chunks < size. */
  lemma LosslessIffBatchBelowSize<T(!new)>(p: Pipe<T>, a: T, b: T)
    requires Init(p) && p.size >= 2 && a != b
    ensures (forall acts :: Runnable(p, acts) ==> Exec(p, acts).got <= Exec(p, acts).sent)
            <==> p.chunks < p.size
  {
    if p.chunks < p.size {
      forall acts | Runnable(p, acts) ensures Exec(p, acts).got <= Exec(p, acts).sent {
        ReadsArePrefixOfWrites(p, acts);
      }
    } else {
      var acts := LargeBatchLosesData(p, a, b);
    }
  }
}
