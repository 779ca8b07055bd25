/** Reading, writing and flashing a partition of the non-volatile memory, in chunks, over a device that may fail. */
module Nvram {
  type Byte = x: int | 0 <= x < 256

  datatype Status = Ok | Failed

  /** What the firmware does with one request. A bad write leaves any bytes in the range it was given. */
  datatype Outcome = Works | Fails(left: nat -> Byte) | Corrupts(left: nat -> Byte)

  const ERASED: Byte := 255

  function Fill(n: nat, f: nat -> Byte): (s: seq<Byte>)
    ensures |s| == n
  {
    seq(n, i requires 0 <= i < n => f(i))
  }

  function Blank(n: nat): (s: seq<Byte>)
    ensures |s| == n
  {
    seq(n, i => ERASED)
  }

  /** A sequence with the bytes from `off` on replaced. */
  function Put(data: seq<Byte>, off: nat, bytes: seq<Byte>): (r: seq<Byte>)
    requires off + |bytes| <= |data|
    ensures |r| == |data| && r[off..off + |bytes|] == bytes
    ensures forall i :: 0 <= i < |r| && (i < off || off + |bytes| <= i) ==> r[i] == data[i]
  {
    data[..off] + bytes + data[off + |bytes|..]
  }

  function Min(a: nat, b: nat): nat {
    if a < b then a else b
  }

  /** A partition, and what the firmware will do with the requests to come. */
  class Partition {
    const plan: nat -> Outcome
    var time: nat
    var data: seq<Byte>

    constructor (plan: nat -> Outcome, data: seq<Byte>)
      ensures this.plan == plan && this.data == data
    {
      this.plan, this.data, time := plan, data, 0;
    }

    /** The firmware never reports success for a write that went wrong. */
    ghost predicate Honest() {
      forall t :: !plan(t).Corrupts?
    }

    /** Every request works. */
    ghost predicate Sound() {
      forall t :: plan(t).Works?
    }

    /** Erases the whole partition. */
    method Erase() returns (status: Status)
      modifies this
      ensures |data| == |old(data)|
      ensures status.Ok? && Honest() ==> data == Blank(|data|)
      ensures Sound() ==> status.Ok?
    {
      var o := plan(time);
      time := time + 1;
      match o {
        case Works => data, status := Blank(|data|), Ok;
        case Fails(left) => data, status := Fill(|data|, left), Failed;
        case Corrupts(left) => data, status := Fill(|data|, left), Ok;
      }
    }

    /** Writes one chunk. Whatever happens, nothing outside its range changes. */
    method WriteChunk(off: nat, bytes: seq<Byte>) returns (status: Status)
      modifies this
      ensures |data| == |old(data)|
      ensures forall i :: 0 <= i < |data| && (i < off || off + |bytes| <= i) ==> data[i] == old(data)[i]
      ensures status.Ok? ==> off + |bytes| <= |data|
      ensures status.Ok? && Honest() ==> data[off..off + |bytes|] == bytes
      ensures Sound() && off + |bytes| <= |data| ==> status.Ok?
    {
      var o := plan(time);
      time := time + 1;
      if off + |bytes| > |data| {
        return Failed;
      }
      match o {
        case Works => data, status := Put(data, off, bytes), Ok;
        case Fails(left) => data, status := Put(data, off, Fill(|bytes|, left)), Failed;
        case Corrupts(left) => data, status := Put(data, off, Fill(|bytes|, left)), Ok;
      }
    }

    /** Reads one chunk into a buffer. A read that fails leaves any bytes in that part of the buffer. */
    method ReadChunk(off: nat, buf: array<Byte>, at: nat, len: nat) returns (status: Status)
      requires at + len <= buf.Length
      modifies `time, buf
      ensures forall i :: 0 <= i < buf.Length && (i < at || at + len <= i) ==> buf[i] == old(buf[i])
      ensures status.Ok? ==> off + len <= |data| && buf[at..at + len] == data[off..off + len]
      ensures Sound() && off + len <= |data| ==> status.Ok?
    {
      var o := plan(time);
      time := time + 1;
      if off + len > |data| {
        return Failed;
      }
      var bytes := if o.Fails? then Fill(len, o.left) else data[off..off + len];
      forall i | 0 <= i < len {
        buf[at + i] := bytes[i];
      }
      status := if o.Fails? then Failed else Ok;
    }
  }

  /** What was read before and the next chunk make up what has been read. */
  lemma ReadJoins(buf: seq<Byte>, data: seq<Byte>, start: nat, done: nat, len: nat)
    requires done + len <= |buf| && start + done + len <= |data|
    requires buf[..done] == data[start..start + done]
    requires buf[done..done + len] == data[start + done..start + done + len]
    ensures buf[..done + len] == data[start..start + done + len]
  {
  }

  /**
   Reads `size` bytes from `start` on. The reported size is how much was read,
   except that it stays the size asked for when the access could not be started.
   */
  method NvramRead(p: Partition, begin: Status, chunk: nat, buf: array<Byte>, size: nat, start: nat)
    returns (status: Status, reported: nat)
    requires chunk > 0 && size <= buf.Length
    modifies p`time, buf
    ensures begin.Failed? ==> status.Failed? && reported == size && buf[..] == old(buf[..])
    ensures begin.Ok? ==> reported <= size && (status.Ok? <==> reported == size)
    ensures begin.Ok? && reported > 0 ==>
              start + reported <= |p.data| && buf[..reported] == p.data[start..start + reported]
    ensures begin.Ok? ==>
              forall i :: reported + Min(chunk, size - reported) <= i < buf.Length ==> buf[i] == old(buf[i])
    ensures begin.Ok? && p.Sound() && start + size <= |p.data| ==> status.Ok?
  {
    if begin.Failed? {
      return Failed, size;
    }
    var left := size;
    reported := 0;
    while left > 0
      invariant reported + left == size
      invariant reported > 0 ==> start + reported <= |p.data| && buf[..reported] == p.data[start..start + reported]
      invariant forall i :: reported <= i < buf.Length ==> buf[i] == old(buf[i])
    {
      var len := Min(chunk, left);
      ghost var before := buf[..reported];
      status := p.ReadChunk(start + reported, buf, reported, len);
      assert buf[..reported] == before;
      if status.Failed? {
        return Failed, reported;
      }
      ReadJoins(buf[..], p.data, start, reported, len);
      left := left - len;
      reported := reported + len;
    }
    status := Ok;
  }

  /** What a write that has got as far as `done` bytes may have changed: that much, and the chunk under way. */
  ghost predicate Written(was: seq<Byte>, data: seq<Byte>, bytes: seq<Byte>, done: nat, touched: nat, honest: bool) {
    && |data| == |was| && done <= |bytes| && done <= |data|
    && (honest ==> data[..done] == bytes[..done])
    && forall i :: touched <= i < |data| ==> data[i] == was[i]
  }

  lemma WriteJoins(was: seq<Byte>, before: seq<Byte>, data: seq<Byte>, bytes: seq<Byte>, done: nat, len: nat,
                   honest: bool)
    requires Written(was, before, bytes, done, done, honest) && done + len <= |bytes| && 0 < len
    requires |data| == |before|
    requires forall i :: 0 <= i < |data| && (i < done || done + len <= i) ==> data[i] == before[i]
    ensures done + len <= |data| && (honest ==> data[done..done + len] == bytes[done..done + len])
            ==> Written(was, data, bytes, done + len, done + len, honest)
    ensures Written(was, data, bytes, done, done + len, honest)
  {
  }

  /** Writes the first `size` bytes of the buffer, erasing the partition first if asked to. */
  method NvramWriteAll(p: Partition, begin: Status, chunk: nat, buf: array<Byte>, size: nat, erase: bool)
    returns (status: Status, reported: nat, ghost erased: bool)
    requires chunk > 0 && size <= buf.Length
    modifies p
    ensures begin.Failed? ==> status.Failed? && reported == size && p.data == old(p.data)
    ensures begin.Ok? ==> reported <= size && |p.data| == |old(p.data)|
    ensures begin.Ok? && !erase ==> erased
    ensures begin.Ok? ==> (status.Ok? <==> erased && reported == size)
    ensures begin.Ok? && !erased ==> reported == 0
    ensures begin.Ok? && erased && (p.Honest() || !erase) ==>
              var was := if erase then Blank(|p.data|) else old(p.data);
              var touched := if status.Ok? then size else reported + Min(chunk, size - reported);
              Written(was, p.data, buf[..size], reported, touched, p.Honest())
    ensures begin.Ok? && p.Sound() && size <= |p.data| ==> status.Ok?
  {
    erased := !erase;
    if begin.Failed? {
      return Failed, size, erased;
    }
    if erase {
      status := p.Erase();
      if status.Failed? {
        return Failed, 0, false;
      }
      erased := true;
    }
    ghost var was := p.data;
    var left := size;
    reported := 0;
    while left > 0
      invariant reported + left == size && |p.data| == |was|
      invariant Written(was, p.data, buf[..size], reported, reported, p.Honest())
    {
      var len := Min(chunk, left);
      ghost var before := p.data;
      assert buf[..size][reported..reported + len] == buf[reported..reported + len];
      status := p.WriteChunk(reported, buf[reported..reported + len]);
      WriteJoins(was, before, p.data, buf[..size], reported, len, p.Honest());
      if status.Failed? {
        return Failed, reported, erased;
      }
      left := left - len;
      reported := reported + len;
    }
    status := Ok;
  }

  /**
   What is written comes back, whatever the sizes of the chunks, when the
   firmware does not lie; and both calls succeed when every request works and
   there is room.
   */
  method WriteThenRead(p: Partition, chunk: nat, chunk': nat, buf: array<Byte>, out: array<Byte>, size: nat,
                       erase: bool)
    returns (written: Status, read: Status)
    requires chunk > 0 && chunk' > 0 && size <= buf.Length && size <= out.Length && buf != out && p.Honest()
    modifies p, out
    ensures written.Ok? && read.Ok? ==> out[..size] == buf[..size]
    ensures p.Sound() && size <= |old(p.data)| ==> written.Ok? && read.Ok?
  {
    var n, m;
    ghost var erased;
    written, n, erased := NvramWriteAll(p, Ok, chunk, buf, size, erase);
    read, m := NvramRead(p, Ok, chunk', out, size, 0);
    if written.Ok? && read.Ok? && size > 0 {
      assert p.data[0..size] == p.data[..size];
    }
  }

  /** Where the chunks of a flash start and how long they are. */
  datatype Range = Range(off: nat, len: nat)

  /** The ranges follow each other from 0 to `n` without a gap; none is empty or longer than a chunk. */
  predicate Tiles(rs: seq<Range>, n: nat, chunk: nat) {
    if rs == [] then n == 0
    else
      var r := rs[|rs| - 1];
      0 < r.len <= chunk && r.off + r.len == n && Tiles(rs[..|rs| - 1], r.off, chunk)
  }

  /** One chunk of a flash: it is written only if it differs, and read back. */
  method FlashChunk(p: Partition, buf: array<Byte>, off: nat, bytes: seq<Byte>) returns (status: Status)
    requires 0 < |bytes| <= buf.Length
    modifies p, buf
    ensures |p.data| == |old(p.data)|
    ensures forall i :: 0 <= i < |p.data| && (i < off || off + |bytes| <= i) ==> p.data[i] == old(p.data)[i]
    ensures status.Ok? ==> off + |bytes| <= |p.data| && p.data[off..off + |bytes|] == bytes
    ensures p.Sound() && off + |bytes| <= |p.data| ==> status.Ok?
  {
    status := p.ReadChunk(off, buf, 0, |bytes|);
    if status.Failed? {
      return;
    }
    if buf[..|bytes|] != bytes {
      status := p.WriteChunk(off, bytes);
      if status.Failed? {
        return;
      }
      status := p.ReadChunk(off, buf, 0, |bytes|);
      if status.Failed? {
        return;
      }
      if buf[..|bytes|] != bytes {
        status := Failed;
      }
    }
  }

  /**
   Erases the partition and writes the image over it. If it succeeds then the
   image is there, even over a firmware that reports bad writes as good ones.
   */
  method Flash(p: Partition, image: seq<Byte>, chunk: nat) returns (status: Status, ghost ranges: seq<Range>)
    requires chunk > 0
    modifies p
    ensures |p.data| == |old(p.data)|
    ensures status.Ok? ==> |image| <= |p.data| && p.data[..|image|] == image
    ensures status.Ok? ==> Tiles(ranges, |image|, chunk)
    ensures p.Sound() && |image| <= |p.data| ==> status.Ok?
    ensures status.Ok? && p.Honest() ==> forall i :: |image| <= i < |p.data| ==> p.data[i] == ERASED
  {
    var buf := new Byte[chunk];
    ranges := [];
    status := p.Erase();
    if status.Failed? {
      return;
    }
    var size, off := chunk, 0;
    while off < |image|
      invariant off <= |image| && (off < |image| ==> size == chunk) && |p.data| == |old(p.data)|
      invariant off <= |p.data| && p.data[..off] == image[..off]
      invariant Tiles(ranges, off, chunk)
      invariant p.Honest() ==> forall i :: off <= i < |p.data| ==> p.data[i] == ERASED
    {
      if off + size > |image| {
        size := |image| - off;
      }
      ghost var before := p.data;
      status := FlashChunk(p, buf, off, image[off..off + size]);
      if status.Failed? {
        return;
      }
      assert p.data[..off] == before[..off];
      ReadJoins(p.data, image, 0, off, size);
      ranges := ranges + [Range(off, size)];
      off := off + size;
    }
    status := Ok;
  }

  /** The format of an image, with what is written for it. */
  datatype Image = Signed(buffer: seq<Byte>) | Unsigned(payload: seq<Byte>) | Package(payload: seq<Byte>) | Other

  function Payload(image: Image): seq<Byte> {
    match image
    case Signed(b) => b
    case Unsigned(b) => b
    case Package(b) => b
    case Other => []
  }

  /** The update gives up, without having noted a failure. */
  predicate GivesUpQuietly(image: Image, size: nat) {
    image.Other? || (image.Unsigned? && |image.payload| > size)
  }

  /**
   The update ends without a failure although nothing is written: after the
   steps `before` went well the image is given up, or the access begins and
   there is no memory for the buffer to read chunks back into.
   */
  predicate EndsQuietly(image: Image, size: nat, before: Status, begin: Status, bufferOk: bool) {
    before.Ok? && (GivesUpQuietly(image, size) || (begin.Ok? && !bufferOk))
  }

  /** The three ways to end quietly, and there is no other. */
  lemma QuietEndings(image: Image, size: nat, before: Status, begin: Status, bufferOk: bool)
    ensures EndsQuietly(Other, size, Ok, begin, bufferOk)
    ensures EndsQuietly(Unsigned(Blank(size + 1)), size, Ok, begin, bufferOk)
    ensures EndsQuietly(image, size, Ok, Ok, false)
    ensures bufferOk && !image.Other? && !image.Unsigned? ==> !EndsQuietly(image, size, before, begin, bufferOk)
    ensures bufferOk && image.Unsigned? && |image.payload| <= size ==>
              !EndsQuietly(image, size, before, begin, bufferOk)
  {
  }

  /**
   An update. The outcomes of the steps before and after the flash are given.
   If it reports success then the image was flashed, or it ended quietly and
   nothing was written.
   */
  method PerformUpdate(p: Partition, image: Image, before: Status, begin: Status, bufferOk: bool, chunk: nat,
                       after: Status)
    returns (status: Status, ghost flashed: bool)
    requires chunk > 0
    modifies p
    ensures |p.data| == |old(p.data)|
    ensures flashed ==> |Payload(image)| <= |p.data| && p.data[..|Payload(image)|] == Payload(image)
    ensures flashed ==> status == after
    ensures flashed ==>
              match image
              case Signed(b) => b <= p.data
              case Unsigned(b) => b <= p.data
              case Package(b) => b <= p.data
              case Other => false
    ensures status.Ok? ==> (!flashed <==> EndsQuietly(image, |p.data|, before, begin, bufferOk))
    ensures EndsQuietly(image, |p.data|, before, begin, bufferOk) ==> status.Ok? && p.data == old(p.data)
    ensures p.Sound() && |Payload(image)| <= |p.data| && before.Ok? && begin.Ok? && after.Ok? ==> status.Ok?
    ensures before.Failed? || (!GivesUpQuietly(image, |p.data|) && begin.Failed?) ==>
              status.Failed? && p.data == old(p.data)
  {
    flashed := false;
    status := before;
    if status.Failed? {
      return;
    }
    if image.Other? || (image.Unsigned? && |image.payload| > |p.data|) {
      return;
    }
    status := begin;
    if status.Failed? || !bufferOk {
      return;
    }
    ghost var ranges;
    status, ranges := Flash(p, Payload(image), chunk);
    if status.Ok? {
      flashed := true;
      status := after;
    }
  }
}
