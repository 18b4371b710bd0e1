/**
  * The file accessors of the hexite VS Code extension.
  *
  * `FileHandleContainer` owns at most one open file handle and lends it to
  * one queued operation at a time, opening it lazily and closing it after
  * a second of idleness. Its asynchronous drain loop (`process`) is
  * modelled as a state machine: `phase` records where the loop is
  * suspended, and each completion the loop awaits (the open, the running
  * operation, the idle timer) is a method the environment calls.
  * `NativeFileAccessor` turns each request into exactly one borrow;
  * `SimpleFileAccessor` reads from a memoised copy of the whole file.
  */
module FileSystemAdaptor {
  import opened Prelude
  import opened JsBuiltins

  /** The operations `NativeFileAccessor` lends the handle to. */
  datatype Op =
    | Stat                                // `fd.stat()`, for `getSize`
    | ReadInto(offset: nat, length: nat)  // `fd.read(target, 0, target.byteLength, offset)`

  datatype Error =
    | Disposed                  // "FileHandle was disposed"
    | OpenError(code: nat)      // what `fs.promises.open` threw
    | OperationError(code: nat)  // what the borrowed operation threw

  /** How one borrow's promise was settled. */
  datatype Settlement = Resolved(op: Op, value: int) | Rejected(op: Op, error: Error)

  /** How a running operation finished: it returned a value or threw. */
  datatype Completion = Returned(value: int) | Threw(code: nat)

  /**
    * Where the drain loop of `process` is suspended: not running, awaiting
    * `open`, or awaiting the operation at the head of the queue.
    */
  datatype Phase = Idle | Opening | Running

  /**
    * The borrow promise of `op` settles as the borrowed function did:
    * resolved with what it returned, or rejected with what it threw.
    */
  function Settle(op: Op, c: Completion): (s: Settlement)
    ensures s.op == op
    ensures s.Resolved? <==> c.Returned?
    ensures c.Returned? ==> s.value == c.value
    ensures c.Threw? ==> s.error == OperationError(c.code)
  {
    match c
    case Returned(v) => Resolved(op, v)
    case Threw(code) => Rejected(op, OperationError(code))
  }

  /**
    * What `rejectAll` settles: it pops the queue from the tail, so the last
    * operation is rejected first, and every queued operation exactly once.
    */
  function Rejections(queue: seq<Op>, e: Error): (r: seq<Settlement>)
    ensures |r| == |queue|
    ensures forall k :: 0 <= k < |queue| ==> r[k] == Rejected(queue[|queue| - 1 - k], e)
  {
    if queue == [] then [] else [Rejected(queue[|queue| - 1], e)] + Rejections(queue[..|queue| - 1], e)
  }

  /** Every operation that was queued is rejected with `e`, and nothing else is settled. */
  lemma RejectionsRejectEach(queue: seq<Op>, e: Error)
    ensures forall op :: op in queue <==> Rejected(op, e) in Rejections(queue, e)
    ensures forall s :: s in Rejections(queue, e) ==> s.Rejected? && s.error == e
  {
    var r := Rejections(queue, e);
    forall op | op in queue ensures Rejected(op, e) in r {
      var k :| 0 <= k < |queue| && queue[k] == op;
      assert r[|queue| - 1 - k] == Rejected(op, e);
    }
  }

  class FileHandleContainer {
    const path: string

    var borrowQueue: seq<Op>
    var handle: Option<nat>   // the open file descriptor, if any
    var timerArmed: bool      // the one-second idle close is pending
    var disposed: bool
    var phase: Phase
    /** The borrow promises settled so far, in the order they settled. */
    var settled: seq<Settlement>

    /** Every operation ever queued, in submission order. */
    ghost var accepted: seq<Op>
    /** Position in `accepted` of the operation last lent the handle; -1 before the first. */
    ghost var lastLent: int

    /** How many accepted operations have left the queue. */
    ghost function Served(): nat
      reads this
      requires |borrowQueue| <= |accepted|
    {
      |accepted| - |borrowQueue|
    }

    /** The queue is first-in first-out and operations start in submission order. */
    ghost predicate Fifo()
      reads this
    {
      && |borrowQueue| <= |accepted|
      // the queue is always the newest part of what was submitted
      && (forall i :: 0 <= i < |borrowQueue| ==> borrowQueue[i] == accepted[Served() + i])
      && lastLent < |accepted|
    }

    /** Invariants that hold at every suspension point of the drain loop. */
    ghost predicate Core()
      reads this
    {
      && Fifo()
      && (disposed ==> borrowQueue == [])
    }

    ghost predicate Valid()
      reads this
    {
      && Core()
      // a drain is active exactly while the queue is non-empty (or was emptied by dispose)
      && (phase == Idle ==> borrowQueue == [])
      && (phase != Idle && borrowQueue == [] ==> disposed)
      // a handle is opened only when there is none
      && (phase == Opening ==> handle == None)
      // the idle timer is armed only between drains and only with a handle open
      && (timerArmed ==> phase == Idle && handle.Some?)
      // the operation running is the head of the queue; otherwise the one
      // last lent has left the queue
      && (if phase == Running && borrowQueue != [] then lastLent == Served() else lastLent < Served())
    }

    constructor (path: string)
      ensures Valid()
      ensures this.path == path
      ensures borrowQueue == [] && handle == None && !timerArmed && !disposed
      ensures phase == Idle && settled == [] && accepted == [] && lastLent == -1
    {
      this.path := path;
      borrowQueue := [];
      handle := None;
      timerArmed := false;
      disposed := false;
      phase := Idle;
      settled := [];
      accepted := [];
      lastLent := -1;
    }

    /**
      * What `borrow(op)` does to the container, `rejectedNow` telling
      * whether it was rejected at once.
      */
    twostate predicate Borrowed(op: Op, rejectedNow: bool)
      reads this
    {
      && rejectedNow == old(disposed) && disposed == old(disposed)
      && (old(disposed) ==>
        && settled == old(settled) + [Rejected(op, Disposed)]
        && borrowQueue == old(borrowQueue) && accepted == old(accepted) && lastLent == old(lastLent)
        && phase == old(phase) && handle == old(handle) && timerArmed == old(timerArmed))
      && (!old(disposed) ==>
        && borrowQueue == old(borrowQueue) + [op] && accepted == old(accepted) + [op]
        && settled == old(settled) && handle == old(handle)
        // a drain was running exactly when the queue was not empty
        && (old(phase) == Idle <==> old(borrowQueue) == []))
      && (!old(disposed) && old(borrowQueue) == [] ==>
        && !timerArmed
        && phase == (if handle.Some? then Running else Opening)
        && lastLent == if handle.Some? then |old(accepted)| else old(lastLent))
      && (!old(disposed) && old(borrowQueue) != [] ==>
        phase == old(phase) && timerArmed == old(timerArmed) && lastLent == old(lastLent))
    }

    /**
      * `borrow(fn)`: rejected at once after `dispose`; otherwise `op` joins
      * the tail of the queue, and only when it is alone there does a new
      * drain start, which cancels the idle timer and either reuses the open
      * handle or starts opening one.
      */
    method Borrow(op: Op) returns (rejectedNow: bool)
      requires Valid()
      modifies this
      ensures Valid()
      ensures Borrowed(op, rejectedNow)
    {
      if disposed {
        settled := settled + [Rejected(op, Disposed)];
        return true;
      }
      rejectedNow := false;
      borrowQueue := borrowQueue + [op];
      accepted := accepted + [op];
      if |borrowQueue| == 1 {
        // process(): cancel the idle close, then enter the loop
        timerArmed := false;
        Continue();
      }
    }

    /**
      * One turn of the loop in `process`, up to its next suspension: open
      * a handle if none is held, else lend it to the head of the queue; when
      * the queue is empty, leave the loop and arm the idle timer if a handle
      * is held.
      */
    method Continue()
      requires Core() && !timerArmed && lastLent < Served()
      modifies this
      ensures Valid()
      ensures borrowQueue == old(borrowQueue) && accepted == old(accepted) && settled == old(settled)
      ensures handle == old(handle) && disposed == old(disposed)
      ensures phase == (if borrowQueue == [] then Idle else if handle == None then Opening else Running)
      ensures timerArmed == (borrowQueue == [] && handle.Some?)
      ensures lastLent == if phase == Running then Served() else old(lastLent)
    {
      if |borrowQueue| > 0 {
        if handle == None {
          phase := Opening;
        } else {
          phase := Running;
          lastLent := Served();
        }
      } else {
        timerArmed := handle.Some?;
        phase := Idle;
      }
    }

    /**
      * The awaited `open` succeeded. The loop stores the handle (even when
      * `dispose` ran meanwhile) and carries on: the head runs, or, with an
      * empty queue, the loop ends and arms the idle timer.
      */
    method OpenSucceeded(fd: nat)
      requires Valid() && phase == Opening
      modifies this
      ensures Valid()
      ensures handle == Some(fd)
      ensures borrowQueue == old(borrowQueue) && accepted == old(accepted) && settled == old(settled)
      ensures disposed == old(disposed)
      ensures phase == (if borrowQueue == [] then Idle else Running)
      ensures timerArmed == (borrowQueue == [])
      ensures lastLent == if borrowQueue == [] then old(lastLent) else Served()
    {
      handle := Some(fd);
      Continue();
    }

    /**
      * The awaited `open` threw: every queued operation, including those
      * queued while the open was pending, is rejected with that error and
      * the drain ends. The container is not disposed and no timer is armed,
      * so the next borrow tries to open again.
      */
    method OpenFailed(code: nat)
      requires Valid() && phase == Opening
      modifies this
      ensures Valid()
      ensures settled == old(settled) + Rejections(old(borrowQueue), OpenError(code))
      ensures borrowQueue == [] && phase == Idle && handle == None && !timerArmed
      ensures disposed == old(disposed) && accepted == old(accepted) && lastLent == old(lastLent)
    {
      RejectAll(OpenError(code));
      phase := Idle;
    }

    /**
      * The operation lent the handle finished. Its promise settles with its
      * result and it leaves the head of the queue; then the loop goes on.
      * If `dispose` already rejected it, the queue is empty and nothing
      * settles again.
      */
    method HeadCompleted(c: Completion)
      requires Valid() && phase == Running
      modifies this
      ensures Valid()
      ensures old(borrowQueue) != [] ==>
        settled == old(settled) + [Settle(old(borrowQueue)[0], c)] && borrowQueue == old(borrowQueue)[1..]
      ensures old(borrowQueue) == [] ==> settled == old(settled) && borrowQueue == []
      ensures handle == old(handle) && disposed == old(disposed) && accepted == old(accepted)
      ensures phase == (if borrowQueue == [] then Idle else if handle == None then Opening else Running)
      ensures timerArmed == (borrowQueue == [] && handle.Some?)
      ensures lastLent == if phase == Running then Served() else old(lastLent)
    {
      if |borrowQueue| > 0 {
        settled := settled + [Settle(borrowQueue[0], c)];
        borrowQueue := borrowQueue[1..];
      }
      Continue();
    }

    /** The idle timer fired: the handle is closed and forgotten. */
    method TimerFired()
      requires Valid() && timerArmed
      modifies this
      ensures Valid()
      ensures handle == None && !timerArmed
      ensures borrowQueue == old(borrowQueue) && settled == old(settled) && phase == old(phase)
      ensures disposed == old(disposed) && accepted == old(accepted) && lastLent == old(lastLent)
    {
      handle := None;
      timerArmed := false;
    }

    /** `close()`: closes the handle and cancels the timer; a later borrow reopens. */
    method Close()
      requires Valid()
      modifies this
      ensures Valid()
      ensures handle == None && !timerArmed && disposed == old(disposed)
      ensures borrowQueue == old(borrowQueue) && settled == old(settled) && phase == old(phase)
      ensures accepted == old(accepted) && lastLent == old(lastLent)
    {
      handle := None;
      timerArmed := false;
    }

    /**
      * `dispose()`: marks the container disposed for good, drops the handle
      * without closing it, cancels the timer and rejects every queued
      * operation. A suspended drain stays suspended.
      */
    method Dispose()
      requires Valid()
      modifies this
      ensures Valid()
      ensures disposed && handle == None && !timerArmed && borrowQueue == []
      ensures settled == old(settled) + Rejections(old(borrowQueue), Disposed)
      ensures phase == old(phase) && accepted == old(accepted) && lastLent == old(lastLent)
    {
      disposed := true;
      handle := None;
      timerArmed := false;
      RejectAll(Disposed);
    }

    /** `rejectAll(e)`: pops the queue until it is empty, rejecting each popped operation. */
    method RejectAll(e: Error)
      requires Fifo()
      modifies this
      ensures Core() && lastLent < Served()
      ensures borrowQueue == []
      ensures settled == old(settled) + Rejections(old(borrowQueue), e)
      ensures handle == old(handle) && timerArmed == old(timerArmed) && disposed == old(disposed)
      ensures phase == old(phase) && accepted == old(accepted) && lastLent == old(lastLent)
    {
      while |borrowQueue| > 0
        invariant |borrowQueue| <= |old(borrowQueue)|
        invariant borrowQueue == old(borrowQueue)[..|borrowQueue|]
        invariant settled + Rejections(borrowQueue, e) == old(settled) + Rejections(old(borrowQueue), e)
        invariant handle == old(handle) && timerArmed == old(timerArmed) && disposed == old(disposed)
        invariant phase == old(phase) && accepted == old(accepted) && lastLent == old(lastLent)
      {
        var last := borrowQueue[|borrowQueue| - 1];
        borrowQueue := borrowQueue[..|borrowQueue| - 1];
        settled := settled + [Rejected(last, e)];
      }
    }
  }

  /**
    * A read borrowed while another runs waits in the queue and then runs on
    * the same handle, without a second open.
    */
  method SecondReadSharesHandle() returns (openedAgain: bool, settled: seq<Settlement>)
    ensures !openedAgain
    ensures settled == [Resolved(ReadInto(0, 4), 4), Resolved(ReadInto(4, 4), 2)]
  {
    var c := new FileHandleContainer("/tmp/f");
    var _ := c.Borrow(ReadInto(0, 4));
    c.OpenSucceeded(3);
    var _ := c.Borrow(ReadInto(4, 4));
    openedAgain := c.phase == Opening;
    c.HeadCompleted(Returned(4));
    c.HeadCompleted(Returned(2));
    settled := c.settled;
  }

  /**
    * Once the queue drains the idle timer is armed; a borrow before it
    * fires cancels it and reuses the open handle.
    */
  method IdleHandleIsReused() returns (armedWhenIdle: bool, reused: bool)
    ensures armedWhenIdle && reused
  {
    var c := new FileHandleContainer("/tmp/f");
    var _ := c.Borrow(ReadInto(0, 4));
    c.OpenSucceeded(3);
    c.HeadCompleted(Returned(4));
    armedWhenIdle := c.phase == Idle && c.timerArmed;
    var _ := c.Borrow(Stat);
    reused := c.phase == Running && !c.timerArmed && c.handle == Some(3);
  }

  /** When the idle timer fires the handle is dropped and the next borrow opens again. */
  method TimerForcesReopen() returns (reopens: bool)
    ensures reopens
  {
    var c := new FileHandleContainer("/tmp/f");
    var _ := c.Borrow(Stat);
    c.OpenSucceeded(3);
    c.HeadCompleted(Returned(16));
    c.TimerFired();
    var _ := c.Borrow(Stat);
    reopens := c.phase == Opening && c.handle == None;
  }

  /**
    * A failed open rejects every queued operation, the one queued while
    * the open was pending included, last first; the container stays usable
    * and the next borrow opens again.
    */
  method OpenFailureRejectsQueue() returns (settled: seq<Settlement>, disposed: bool, retries: bool)
    ensures settled == [Rejected(Stat, OpenError(2)), Rejected(ReadInto(0, 8), OpenError(2))]
    ensures !disposed && retries
  {
    var c := new FileHandleContainer("/tmp/f");
    var _ := c.Borrow(ReadInto(0, 8));
    var _ := c.Borrow(Stat);
    c.OpenFailed(2);
    settled := c.settled;
    disposed := c.disposed;
    var _ := c.Borrow(Stat);
    retries := c.phase == Opening;
  }

  /**
    * Disposing with two operations queued behind a pending open rejects
    * both, the last first, and leaves the queue empty.
    */
  method DisposeRejectsQueue() returns (settled: seq<Settlement>, queued: nat, disposed: bool)
    ensures settled == [Rejected(Stat, Disposed), Rejected(ReadInto(0, 8), Disposed)]
    ensures queued == 0 && disposed
  {
    var c := new FileHandleContainer("/tmp/f");
    var _ := c.Borrow(ReadInto(0, 8));
    var _ := c.Borrow(Stat);
    assert Rejections([ReadInto(0, 8), Stat], Disposed)[0] == Rejected(Stat, Disposed);
    c.Dispose();
    settled := c.settled;
    queued := |c.borrowQueue|;
    disposed := c.disposed;
  }

  /**
    * The operation running when the container is disposed is rejected, and
    * settles nothing more when it finishes; a borrow afterwards is rejected
    * at once without being queued.
    */
  method BorrowAfterDispose() returns (settled: seq<Settlement>, queued: nat, rejectedNow: bool)
    ensures settled == [Rejected(ReadInto(0, 8), Disposed), Rejected(Stat, Disposed)]
    ensures queued == 0 && rejectedNow
  {
    var c := new FileHandleContainer("/tmp/f");
    var _ := c.Borrow(ReadInto(0, 8));
    c.OpenSucceeded(5);
    c.Dispose();
    c.HeadCompleted(Returned(8));
    rejectedNow := c.Borrow(Stat);
    settled := c.settled;
    queued := |c.borrowQueue|;
  }

  /**
    * The accessor for local files: every request is exactly one borrow of
    * its container's handle, and disposing it disposes the container.
    */
  class NativeFileAccessor {
    const uri: string
    const container: FileHandleContainer

    constructor (uri: string, fsPath: string)
      ensures this.uri == uri && fresh(container)
      ensures container.Valid() && container.path == fsPath
      ensures container.borrowQueue == [] && container.handle == None && !container.disposed
      ensures container.phase == Idle && !container.timerArmed && container.settled == []
      ensures container.accepted == [] && container.lastLent == -1
    {
      this.uri := uri;
      container := new FileHandleContainer(fsPath);
    }

    /** `getSize`: one borrow that stats the file. */
    method GetSize() returns (rejectedNow: bool)
      requires container.Valid()
      modifies container
      ensures container.Valid()
      ensures container.Borrowed(Stat, rejectedNow)
    {
      rejectedNow := container.Borrow(Stat);
    }

    /**
      * `read(offset, target)`: one borrow that reads `target.Length` bytes
      * at `offset` into `target`; the promise resolves with the count read.
      */
    method Read(offset: nat, target: array<byte>) returns (rejectedNow: bool)
      requires container.Valid()
      modifies container
      ensures container.Valid()
      ensures container.Borrowed(ReadInto(offset, target.Length), rejectedNow)
    {
      rejectedNow := container.Borrow(ReadInto(offset, target.Length));
    }

    /** `dispose()`: disposes the container, with everything that entails. */
    method Dispose()
      requires container.Valid()
      modifies container
      ensures container.Valid()
      ensures container.disposed && container.handle == None && !container.timerArmed
      ensures container.borrowQueue == []
      ensures container.settled == old(container.settled) + Rejections(old(container.borrowQueue), Disposed)
      ensures container.phase == old(container.phase) && container.accepted == old(container.accepted)
      ensures container.lastLent == old(container.lastLent)
    {
      container.Dispose();
    }
  }

  /** How a `readFile` promise settles: with the file's bytes, or with the error it threw. */
  datatype Fetch = Fetched(bytes: seq<byte>) | FetchFailed(code: nat)

  /** How a `SimpleFileAccessor.read` promise settles: with the count, or with the fetch's error. */
  datatype ReadOutcome = Copied(count: int) | ReadFailed(code: nat)

  /**
    * The accessor for everything else: it reads the whole file once,
    * memoises the `readFile` promise, and serves reads from it. A failed
    * fetch is memoised like a successful one.
    */
  class SimpleFileAccessor {
    const uri: string
    /** The memoised `readFile` promise, by how it settles; `None` when nothing is memoised. */
    var contents: Option<Fetch>

    constructor (uri: string)
      ensures this.uri == uri && contents == None
    {
      this.uri := uri;
      contents := None;
    }

    /**
      * `getContents`: fetches the file only when nothing is memoised;
      * `fetched` stands for how a `readFile` started now would settle.
      */
    method GetContents(fetched: Fetch) returns (f: Fetch)
      modifies this
      ensures contents == Some(f)
      ensures f == if old(contents).Some? then old(contents).value else fetched
    {
      if contents.None? {
        contents := Some(fetched);
      }
      f := contents.value;
    }

    /**
      * `read(offset, data)`: fails with the memoised fetch's error, without
      * touching `data`, when the fetch failed. Otherwise it copies as many
      * bytes from `offset` on as fit in `data` to its start and returns how
      * many. Past the end of the file nothing is copied and the count is
      * negative, `|contents| - offset`.
      */
    method Read(offset: nat, data: array<byte>, fetched: Fetch) returns (r: ReadOutcome)
      modifies this, data
      ensures contents == Some(if old(contents).Some? then old(contents).value else fetched)
      ensures contents.value.FetchFailed? ==> r == ReadFailed(contents.value.code) && data[..] == old(data[..])
      ensures contents.value.Fetched? ==>
        var c := contents.value.bytes;
        && r == Copied(Min(data.Length, |c| - offset))
        && (offset <= |c| ==> 0 <= r.count && data[..r.count] == c[offset..offset + r.count]
                              && data[r.count..] == old(data[r.count..]))
        && (offset > |c| ==> r.count < 0 && data[..] == old(data[..]))
    {
      var memo := GetContents(fetched);
      if memo.FetchFailed? {
        return ReadFailed(memo.code);
      }
      var c := memo.bytes;
      var cpy := Min(data.Length, |c| - offset);
      var src := Slice(c, offset, cpy + offset);
      // data.set(src): src goes to the start of data
      var i := 0;
      while i < |src|
        invariant contents == Some(memo)
        invariant |src| <= data.Length
        invariant 0 <= i <= |src|
        invariant data[..i] == src[..i]
        invariant data[i..] == old(data[i..])
      {
        data[i] := src[i];
        i := i + 1;
      }
      assert data[..|src|] == src;
      r := Copied(cpy);
    }

    /** `invalidate`: forget the memoised promise; the next read fetches again. */
    method Invalidate()
      modifies this
      ensures contents == None
    {
      contents := None;
    }

    method Dispose()
      modifies this
      ensures contents == None
    {
      contents := None;
    }
  }

  /**
    * A failed `readFile` fails the read that started it and every later
    * read, even when the file has become readable, until `invalidate`
    * forgets it.
    */
  method FailedFetchIsSticky() returns (first: ReadOutcome, second: ReadOutcome, afterInvalidate: ReadOutcome)
    ensures first == ReadFailed(5) && second == ReadFailed(5)
    ensures afterInvalidate == Copied(2)
  {
    var accessor := new SimpleFileAccessor("file:///f");
    var data := new byte[2](_ => 0);
    first := accessor.Read(0, data, FetchFailed(5));
    second := accessor.Read(0, data, Fetched([1, 2, 3]));
    accessor.Invalidate();
    afterInvalidate := accessor.Read(0, data, Fetched([1, 2, 3]));
  }
}
