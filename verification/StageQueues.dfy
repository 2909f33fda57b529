/**
 * The bounded FIFO between two stages. `Queue` is the value the pipeline machine steps on;
 * `StageQueue` is the mutable object, proved to move exactly as that value does.
 */
module StageQueues {
  import opened Sequences

  datatype Token<+T> = Item(value: T) | End

  /**
   * `buf` is the asyncio queue and `closed` its flag. `taken` and `ended` record what the consumer
   * has already received, so that the whole life of the queue can be spoken of.
   */
  datatype Queue<T> = Queue(buf: seq<Token<T>>, taken: seq<T>, closed: bool, ended: bool)

  function Items<T>(buf: seq<Token<T>>): seq<T> {
    if buf == [] then []
    else Items(buf[..|buf| - 1]) +
         match buf[|buf| - 1] { case Item(x) => [x] case End => [] }
  }

  lemma {:induction false} ItemsHead<T>(buf: seq<Token<T>>)
    requires buf != []
    ensures Items(buf) == (match buf[0] { case Item(x) => [x] case End => [] }) + Items(buf[1..])
  {
    if |buf| > 1 {
      ItemsHead(buf[..|buf| - 1]);
      assert buf[..|buf| - 1][1..] == buf[1..][..|buf| - 2];
    }
  }

  /** Everything ever put, received or still waiting. */
  function Sent<T>(q: Queue<T>): seq<T> {
    q.taken + Items(q.buf)
  }

  /** The end marker has been put, whether or not it has been received. */
  predicate Delivered<T>(q: Queue<T>) {
    q.ended || (q.buf != [] && q.buf[|q.buf| - 1].End?)
  }

  /** At most one end marker, nothing behind it, and none unless the queue was closed. */
  predicate WellFormed<T>(q: Queue<T>) {
    && (forall i :: 0 <= i < |q.buf| - 1 ==> q.buf[i].Item?)
    && (Delivered(q) ==> q.closed)
    && (q.ended ==> q.buf == [])
  }

  /** asyncio treats a non-positive maxsize as unbounded. */
  predicate Room<T>(maxsize: int, q: Queue<T>) {
    maxsize <= 0 || |q.buf| < maxsize
  }

  function Empty<T>(): (q: Queue<T>)
    ensures WellFormed(q) && Sent(q) == []
  {
    Queue([], [], false, false)
  }

  function Put<T>(q: Queue<T>, x: T): (r: Queue<T>)
    ensures Sent(r) == Sent(q) + [x]
    ensures WellFormed(q) && !q.closed ==> WellFormed(r) && !Delivered(r)
  {
    assert (q.buf + [Item(x)])[..|q.buf|] == q.buf;
    q.(buf := q.buf + [Item(x)])
  }

  /** `close` raises the flag before it waits for room. */
  function Seal<T>(q: Queue<T>): (r: Queue<T>)
    ensures Sent(r) == Sent(q) && (WellFormed(q) ==> WellFormed(r))
    ensures Delivered(r) == Delivered(q)
  {
    q.(closed := true)
  }

  function PutEnd<T>(q: Queue<T>): (r: Queue<T>)
    ensures Sent(r) == Sent(q) && Delivered(r)
    ensures WellFormed(q) && q.closed && !Delivered(q) ==> WellFormed(r)
  {
    assert (q.buf + [End])[..|q.buf|] == q.buf;
    q.(buf := q.buf + [End])
  }

  /** What the consumer's `get` does to the queue: the producer's view does not change. */
  function Pop<T>(q: Queue<T>): (r: Queue<T>)
    requires q.buf != []
    ensures WellFormed(q) ==> WellFormed(r) && Sent(r) == Sent(q) && Delivered(r) == Delivered(q)
    ensures r.closed == q.closed
    ensures r.ended <==> q.ended || q.buf[0].End?
  {
    ItemsHead(q.buf);
    match q.buf[0]
    case Item(x) =>
      assert q.taken + ([x] + Items(q.buf[1..])) == (q.taken + [x]) + Items(q.buf[1..]);
      q.(buf := q.buf[1..], taken := q.taken + [x])
    case End =>
      assert WellFormed(q) ==> q.buf[1..] == [];
      q.(buf := q.buf[1..], ended := true)
  }

  /** The queue object of one pipeline run. A call that would have to wait changes nothing and says so. */
  class StageQueue<T> {
    const maxsize: int
    var buf: seq<Token<T>>
    var closed: bool
    ghost var taken: seq<T>
    ghost var ended: bool

    ghost function Model(): Queue<T>
      reads this
    {
      Queue(buf, taken, closed, ended)
    }

    constructor (maxsize: int)
      ensures this.maxsize == maxsize && Model() == Empty()
    {
      this.maxsize := maxsize;
      buf, closed, taken, ended := [], false, [], false;
    }

    method TryPut(item: T) returns (done: bool)
      modifies this
      ensures done == Room(maxsize, old(Model()))
      ensures Model() == if done then Put(old(Model()), item) else old(Model())
      ensures WellFormed(old(Model())) && !old(closed) ==> WellFormed(Model())
    {
      done := maxsize <= 0 || |buf| < maxsize;
      if done {
        buf := buf + [Item(item)];
      }
    }

    /** Raises the flag; `waiting` says that the end marker has still to be put. */
    method BeginClose() returns (waiting: bool)
      modifies this
      ensures waiting == !old(closed)
      ensures Model() == Seal(old(Model()))
    {
      waiting := !closed;
      closed := true;
    }

    method TryPutEnd() returns (done: bool)
      modifies this
      ensures done == Room(maxsize, old(Model()))
      ensures Model() == if done then PutEnd(old(Model())) else old(Model())
      ensures WellFormed(old(Model())) && old(closed) && !Delivered(old(Model())) ==> WellFormed(Model())
    {
      done := maxsize <= 0 || |buf| < maxsize;
      if done {
        buf := buf + [End];
      }
    }

    /** None while the queue is empty; Some(None) at the end of the stream. */
    method TryGet() returns (got: Option<Option<T>>)
      modifies this
      ensures got.None? <==> old(buf) == []
      ensures got.None? ==> Model() == old(Model())
      ensures got.Some? ==> Model() == Pop(old(Model()))
      ensures got.Some? && WellFormed(old(Model())) ==>
        && WellFormed(Model())
        && (got.value.Some? ==> taken == old(taken) + [got.value.value] && taken <= Sent(old(Model())))
        && (got.value.None? ==> ended && buf == [] && taken == Sent(old(Model())))
    {
      if buf == [] {
        return None;
      }
      var head := buf[0];
      assert WellFormed(Model()) ==> WellFormed(Pop(Model())) && Sent(Pop(Model())) == Sent(Model());
      buf := buf[1..];
      match head
      case Item(x) =>
        taken := taken + [x];
        got := Some(Some(x));
      case End =>
        ended := true;
        got := Some(None);
        assert taken + [] == taken;
    }
  }
}
