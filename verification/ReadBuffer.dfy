/** The parser's input buffer (src/core/buffer.hpp): a linear vector with a read head that is compacted lazily. */
module ReadBuffers {
  import opened Octets

  const INITIAL_CAPACITY: nat := 16 * 1024

  class ReadBuffer {
    var buf: array<Byte>
    var head: nat
    var size: nat

    ghost predicate Valid()
      reads this
    {
      head <= size <= buf.Length && (head == size ==> head == 0)
    }

    /** The byte queue that the buffer stands for. */
    function Readable(): Bytes
      requires Valid()
      reads this, buf
    {
      buf[head..size]
    }

    function WritableSize(): nat
      requires Valid()
      reads this
    {
      buf.Length - size
    }

    /** The exact condition under which `EnsureWritable(n)` delivers: the one failing case is a head in the lower
        half of the vector (so that compaction is skipped) together with a request that doubling cannot cover. */
    ghost predicate Satisfiable(n: nat)
      requires Valid()
      reads this
    {
      !(0 < head <= buf.Length / 2 && size + n > 2 * buf.Length)
    }

    constructor (initial: nat)
      ensures Valid() && fresh(buf)
      ensures Readable() == [] && buf.Length == initial && head == 0
    {
      buf := new Byte[initial](_ => 0);
      head, size := 0, 0;
    }

    /** The `n` bytes a socket read left in the writable area become readable. */
    method Committed(n: nat)
      requires Valid() && n <= WritableSize()
      modifies this`size
      ensures Valid()
      ensures Readable() == old(Readable()) + old(buf[size..size + n])
      ensures WritableSize() == old(WritableSize()) - n
    {
      size := size + n;
    }

    method Consume(n: nat)
      requires Valid()
      modifies this`head, this`size, buf
      ensures Valid() && buf == old(buf)
      ensures Readable() == old(Readable())[Min(n, |old(Readable())|)..]
      ensures WritableSize() >= old(WritableSize())
      ensures old(head) + n >= old(size) ==> head == size == 0
      ensures old(head) + n < old(size) ==>
                if old(head) + n > buf.Length / 2 then head == 0 && size == old(size) - (old(head) + n)
                else head == old(head) + n && size == old(size)
    {
      head := head + n;
      if head >= size {
        head, size := 0, 0;
      } else if head > buf.Length / 2 {
        Compact();
      }
    }

    /** `std::memmove` of the readable bytes to the front of the vector. */
    method Compact()
      requires head <= size <= buf.Length
      modifies this`head, this`size, buf
      ensures head == 0 && size == old(size - head) && buf == old(buf)
      ensures buf[..size] == old(buf[head..size])
    {
      forall i | 0 <= i < size - head {
        buf[i] := buf[head + i];
      }
      head, size := 0, size - head;
    }

    method EnsureWritable(n: nat)
      requires Valid()
      modifies this, buf
      ensures Valid()
      ensures buf == old(buf) || fresh(buf)
      ensures Readable() == old(Readable())
      ensures buf.Length >= old(buf.Length)
      ensures WritableSize() >= n <==> old(Satisfiable(n))
      ensures n <= old(buf.Length) ==> WritableSize() >= n
    {
      if WritableSize() >= n {
        return;
      }
      if head > 0 {
        Consume(0);
      }
      if WritableSize() >= n {
        return;
      }
      var need := size - head + n;
      Resize(if buf.Length * 2 >= need then buf.Length * 2 else need);
    }

    /** `buf_.resize(cap)`: the old contents keep their positions, the new tail is zero. */
    method Resize(cap: nat)
      requires Valid() && cap >= buf.Length
      modifies this`buf
      ensures Valid() && fresh(buf) && buf.Length == cap
      ensures Readable() == old(Readable())
    {
      var old_, n := buf, buf.Length;
      buf := new Byte[cap](i reads old_ requires 0 <= i requires n == old_.Length => if i < n then old_[i] else 0);
      assert buf[..n] == old_[..];
    }

    /** A socket read: the bytes land at `writable_ptr()` and are then committed. */
    method Fill(chunk: Bytes)
      requires Valid() && |chunk| <= WritableSize()
      modifies this`size, buf
      ensures Valid()
      ensures Readable() == old(Readable()) + chunk
    {
      var at := size;
      forall i | 0 <= i < |chunk| {
        buf[at + i] := chunk[i];
      }
      assert buf[at..at + |chunk|] == chunk;
      assert buf[head..at] == old(buf[head..size]);
      Committed(|chunk|);
    }
  }

  /** A request that `EnsureWritable` does not meet: 5 of 10 bytes consumed, the vector full, 30 more wanted.
      The vector grows to 35 although 40 would be needed. */
  method ShortGrowth() returns (rb: ReadBuffer)
    ensures rb.Valid() && rb.WritableSize() < 30
  {
    rb := new ReadBuffer(10);
    rb.Fill(seq(10, _ => 7));
    assert rb.head == 0;
    rb.Consume(5);
    rb.EnsureWritable(30);
  }
}
