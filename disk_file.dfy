/**
 * The output file: VRS's `DiskFile` as the WAV writer uses it (create,
 * write at the current position, seek, query the position, close).
 *
 * The operating system's answers are an input. Each file keeps the queue
 * of status codes the OS will return to its next calls (0 = success); a
 * call that reaches the OS takes the head of the queue, and an exhausted
 * queue answers success. A refused write or seek changes nothing; create
 * and close drop the old handle whatever the answer.
 */
module DiskFiles {
  import opened Bytes

  /** Status returned for a write or seek on a file that is not open. */
  const NotOpen: int := -1

  /** The contents after writing one byte at `pos`; a gap before `pos` reads as zeros. */
  function Put(d: seq<byte>, pos: nat, x: byte): (r: seq<byte>)
    ensures |r| == if pos < |d| then |d| else pos + 1
  {
    if pos < |d| then d[pos := x] else d + seq(pos - |d|, _ => 0) + [x]
  }

  /** The contents after writing `b` at `pos`, byte by byte. */
  function Splice(d: seq<byte>, pos: nat, b: seq<byte>): seq<byte>
    decreases |b|
  {
    if b == [] then d else Splice(Put(d, pos, b[0]), pos + 1, b[1..])
  }

  /** A write extends the file to its last byte, if it reaches past the end. */
  lemma {:induction false} SpliceLength(d: seq<byte>, pos: nat, b: seq<byte>)
    ensures |Splice(d, pos, b)| == if b == [] || pos + |b| <= |d| then |d| else pos + |b|
    decreases |b|
  {
    if b != [] {
      SpliceLength(Put(d, pos, b[0]), pos + 1, b[1..]);
    }
  }

  /** Byte `k` after a write: the written byte, else the old byte, else a zero of the gap. */
  lemma {:induction false} SpliceAt(d: seq<byte>, pos: nat, b: seq<byte>, k: nat)
    requires k < |Splice(d, pos, b)|
    ensures Splice(d, pos, b)[k] == if pos <= k < pos + |b| then b[k - pos] else if k < |d| then d[k] else 0
    decreases |b|
  {
    if b != [] {
      SpliceLength(Put(d, pos, b[0]), pos + 1, b[1..]);
      SpliceAt(Put(d, pos, b[0]), pos + 1, b[1..], k);
    }
  }

  /** Two consecutive writes are one write of both. */
  lemma {:induction false} SpliceAppend(d: seq<byte>, pos: nat, a: seq<byte>, b: seq<byte>)
    ensures Splice(Splice(d, pos, a), pos + |a|, b) == Splice(d, pos, a + b)
    decreases |a|
  {
    if a == [] {
      assert a + b == b;
    } else {
      assert (a + b)[0] == a[0] && (a + b)[1..] == a[1..] + b;
      SpliceAppend(Put(d, pos, a[0]), pos + 1, a[1..], b);
    }
  }

  /** A write right after an earlier one of `a`, seen from before `a`. */
  lemma WriteAfter(d: seq<byte>, pos: nat, a: seq<byte>, b: seq<byte>, mid: seq<byte>, after: seq<byte>)
    requires mid == Splice(d, pos, a) && after == Splice(mid, pos + |a|, b)
    ensures after == Splice(d, pos, a + b)
  {
    SpliceAppend(d, pos, a, b);
  }

  /** Writing at the end of a file appends. */
  lemma {:induction false} SpliceAtEnd(d: seq<byte>, b: seq<byte>)
    ensures Splice(d, |d|, b) == d + b
    decreases |b|
  {
    if b != [] {
      assert Put(d, |d|, b[0]) == d + [b[0]];
      SpliceAtEnd(d + [b[0]], b[1..]);
      assert d + [b[0]] + b[1..] == d + b;
    }
  }

  // ----- the OS's answers -----

  function Reply(rs: seq<int>): int
  {
    if rs == [] then 0 else rs[0]
  }

  function Rest(rs: seq<int>): seq<int>
  {
    if rs == [] then [] else rs[1..]
  }

  /** The queue after `n` calls. */
  function Drop(rs: seq<int>, n: nat): seq<int>
  {
    if n == 0 then rs else Drop(Rest(rs), n - 1)
  }

  /** The status of a sequence of `n` calls that stops at the first failure. */
  function FirstRefusal(rs: seq<int>, n: nat): int
  {
    if n == 0 then 0
    else if Reply(rs) != 0 then Reply(rs)
    else FirstRefusal(Rest(rs), n - 1)
  }

  /** How many of the next `n` calls succeed before the first failure. */
  function Granted(rs: seq<int>, n: nat): (g: nat)
    ensures g <= n
  {
    if n == 0 || Reply(rs) != 0 then 0 else 1 + Granted(Rest(rs), n - 1)
  }

  /** One more call takes one more answer off the queue. */
  lemma {:induction false} DropStep(rs: seq<int>, k: nat)
    ensures Drop(rs, k + 1) == Rest(Drop(rs, k))
  {
    if k > 0 {
      DropStep(Rest(rs), k - 1);
    }
  }

  /** After `k` granted calls, a granted call makes `k + 1`. */
  lemma Accepted(rs: seq<int>, k: nat)
    requires Granted(rs, k) == k && Reply(Drop(rs, k)) == 0
    ensures Granted(rs, k + 1) == k + 1 && Drop(rs, k + 1) == Rest(Drop(rs, k))
  {
    GrantedSplit(rs, k, 1);
    DropStep(rs, k);
  }

  /** After `k` granted calls, a refused call decides a run of `n > k` calls. */
  lemma Refused(rs: seq<int>, k: nat, n: nat)
    requires Granted(rs, k) == k && k < n && Reply(Drop(rs, k)) != 0
    ensures Granted(rs, n) == k && FirstRefusal(rs, n) == Reply(Drop(rs, k))
    ensures Drop(rs, k + 1) == Rest(Drop(rs, k))
  {
    GrantedSplit(rs, k, n - k);
    DropStep(rs, k);
  }

  /** A run of calls fails exactly when one of them is refused. */
  lemma {:induction false} GrantedAll(rs: seq<int>, n: nat)
    ensures FirstRefusal(rs, n) == 0 <==> Granted(rs, n) == n
    ensures Granted(rs, n) < n ==> FirstRefusal(rs, n) == Reply(Drop(rs, Granted(rs, n))) != 0
  {
    if n > 0 && Reply(rs) == 0 {
      GrantedAll(Rest(rs), n - 1);
    }
  }

  /** After `i` granted calls, the rest of a run is decided by the rest of the queue. */
  lemma {:induction false} GrantedSplit(rs: seq<int>, i: nat, m: nat)
    requires Granted(rs, i) == i
    ensures Granted(rs, i + m) == i + Granted(Drop(rs, i), m)
    ensures FirstRefusal(rs, i + m) == FirstRefusal(Drop(rs, i), m)
  {
    if i > 0 {
      GrantedSplit(Rest(rs), i - 1, m);
    }
  }

  /**
   * A run of `n` calls that stopped after `done` granted calls, either at
   * the end or at a refused call whose status it reports, granted exactly
   * `Granted(rs, n)` calls and reports `FirstRefusal(rs, n)`.
   */
  lemma StopsAtFirstRefusal(rs: seq<int>, n: nat, done: nat, status: int)
    requires done <= n && Granted(rs, done) == done
    requires status == 0 <==> done == n
    requires status != 0 ==> status == Reply(Drop(rs, done))
    ensures done == Granted(rs, n) && status == FirstRefusal(rs, n)
  {
    if done == n {
      GrantedAll(rs, n);
    } else {
      Refused(rs, done, n);
    }
  }

  /** An OS that refuses nothing grants every call. */
  lemma {:induction false} NoRefusals(n: nat)
    ensures Granted([], n) == n && FirstRefusal([], n) == 0 && Drop([], n) == []
  {
    if n > 0 {
      NoRefusals(n - 1);
    }
  }

  class DiskFile {
    var isOpen: bool
    var path: string
    /** The contents of the file at `path`, as last written. */
    var data: seq<byte>
    /** The current read/write position (`getPos`). */
    var pos: nat
    /** The OS's answers to this file's next calls. */
    var replies: seq<int>

    /** A file object that is not open yet. */
    constructor (osReplies: seq<int>)
      ensures !isOpen && path == "" && data == [] && pos == 0 && replies == osReplies
    {
      isOpen, path, data, pos, replies := false, "", [], 0, osReplies;
    }

    /** Opens `p` for writing, truncated; any previous handle is dropped. */
    method Create(p: string) returns (status: int)
      modifies this
      ensures status == Reply(old(replies)) && replies == Rest(old(replies))
      ensures path == p && pos == 0
      ensures status == 0 ==> isOpen && data == []
      ensures status != 0 ==> !isOpen && data == old(data)
    {
      status := Reply(replies);
      replies := Rest(replies);
      path, pos := p, 0;
      if status == 0 {
        isOpen, data := true, [];
      } else {
        isOpen := false;
      }
    }

    /** Writes `b` at the current position and advances past it. */
    method Write(b: seq<byte>) returns (status: int)
      modifies this
      ensures isOpen == old(isOpen) && path == old(path)
      ensures !old(isOpen) ==> status == NotOpen && replies == old(replies)
      ensures old(isOpen) ==> status == Reply(old(replies)) && replies == Rest(old(replies))
      ensures status == 0 ==> data == Splice(old(data), old(pos), b) && pos == old(pos) + |b|
      ensures status != 0 ==> data == old(data) && pos == old(pos)
    {
      if !isOpen {
        return NotOpen;
      }
      status := Reply(replies);
      replies := Rest(replies);
      if status == 0 {
        data := Splice(data, pos, b);
        pos := pos + |b|;
      }
    }

    /** Moves the current position to `p`. */
    method SetPos(p: nat) returns (status: int)
      modifies this
      ensures isOpen == old(isOpen) && path == old(path) && data == old(data)
      ensures !old(isOpen) ==> status == NotOpen && replies == old(replies) && pos == old(pos)
      ensures old(isOpen) ==> status == Reply(old(replies)) && replies == Rest(old(replies))
      ensures pos == if status == 0 then p else old(pos)
    {
      if !isOpen {
        return NotOpen;
      }
      status := Reply(replies);
      replies := Rest(replies);
      if status == 0 {
        pos := p;
      }
    }

    /** Releases the handle; the contents stay on disk. */
    method Close() returns (status: int)
      modifies this
      ensures !isOpen && pos == 0 && path == old(path) && data == old(data)
      ensures old(isOpen) ==> status == Reply(old(replies)) && replies == Rest(old(replies))
      ensures !old(isOpen) ==> status == 0 && replies == old(replies)
    {
      status := 0;
      if isOpen {
        status := Reply(replies);
        replies := Rest(replies);
      }
      isOpen, pos := false, 0;
    }
  }
}
