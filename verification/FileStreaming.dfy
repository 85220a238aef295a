/** Reading a range of a file at once and in chunks (litestar/file_system.py). */
module FileStreaming {
  import opened Outcomes

  type Byte = bv8
  type Bytes = seq<Byte>

  function Least(a: int, b: int): int {
    if a <= b then a else b
  }

  /** The bytes from start up to but not including end, -1 meaning the end of the file. */
  function Range(content: Bytes, start: nat, end: int): Bytes {
    if start >= |content| then []
    else if end == -1 then content[start..]
    else if end <= start then []
    else content[start..Least(end, |content|)]
  }

  /** The bytes at the offsets from start on, those ahead of end if there is one, as far as the file goes. */
  lemma {:induction false} RangeMeans(content: Bytes, start: nat, end: int)
    ensures var r := Range(content, start, end);
            var stop := if end == -1 || end > |content| then |content| else end;
            && |r| == (if start < stop then stop - start else 0)
            && forall i | 0 <= i < |r| :: r[i] == content[start + i]
  {
  }

  function Concat(chunks: seq<Bytes>): Bytes {
    if chunks == [] then [] else Concat(chunks[..|chunks| - 1]) + chunks[|chunks| - 1]
  }

  predicate Chunked(chunks: seq<Bytes>, chunksize: int) {
    forall i | 0 <= i < |chunks| :: 0 < |chunks[i]| <= chunksize
  }

  /** An open file. */
  class FileHandle {
    const content: Bytes
    var pos: nat

    constructor (content: Bytes)
      ensures this.content == content && pos == 0
    {
      this.content, pos := content, 0;
    }

    method Seek(to: nat)
      modifies this
      ensures pos == to
    {
      pos := to;
    }

    method Tell() returns (at: nat)
      ensures at == pos
    {
      at := pos;
    }

    /** Up to n bytes; it may come short, but is empty at the end of the file only. */
    method Read(n: nat) returns (chunk: Bytes)
      requires n > 0
      modifies this
      ensures |chunk| <= n
      ensures if old(pos) >= |content| then chunk == [] && pos == old(pos)
              else chunk != [] && pos == old(pos) + |chunk| <= |content| && chunk == content[old(pos)..pos]
    {
      if pos >= |content| {
        return [];
      }
      var size: nat :| 0 < size <= n && pos + size <= |content|;
      chunk := content[pos..pos + size];
      pos := pos + size;
    }

    /** A buffered read: -1 asks for all that is left, any other negative number raises. */
    method ReadFully(n: int) returns (data: Outcome<Bytes>)
      modifies this
      ensures data == Buffered(content, old(pos), n)
      ensures pos == old(pos) + if data.Ok? then |data.value| else 0
    {
      if n < -1 {
        return Err(VALUE_ERROR);
      }
      var read := if pos >= |content| then []
                  else if n == -1 then content[pos..]
                  else content[pos..Least(pos + n, |content|)];
      pos := pos + |read|;
      data := Ok(read);
    }
  }

  const VALUE_ERROR := Other("ValueError")

  function Buffered(content: Bytes, pos: nat, n: int): Outcome<Bytes> {
    if n < -1 then Err(VALUE_ERROR) else Ok(Range(content, pos, if n == -1 then -1 else pos + n))
  }

  // ----- BaseLocalFileSystem -----

  /** What `read_bytes` comes to: a length is read, which is negative when end comes before start. */
  function LocalBytes(content: Bytes, start: nat, end: int): Outcome<Bytes> {
    Buffered(content, start, if end == -1 then -1 else end - start)
  }

  method LocalReadBytes(content: Bytes, start: nat, end: int) returns (data: Outcome<Bytes>)
    ensures data == LocalBytes(content, start, end)
  {
    if start == 0 && end == -1 {
      return Ok(content);
    }
    var length := end;
    if end != -1 {
      length := end - start;
    }
    var fh := new FileHandle(content);
    if start != 0 {
      fh.Seek(start);
    }
    data := fh.ReadFully(length);
  }

  /** It raises exactly if end comes more than one before start. */
  lemma {:induction false} LocalBytesRaises(content: Bytes, start: nat, end: int)
    ensures LocalBytes(content, start, end) == Err(VALUE_ERROR) <==> end != -1 && end < start - 1
    ensures LocalBytes(content, start, end).Ok? <==> end == -1 || start - 1 <= end
  {
  }

  /** It is the range exactly unless end comes before start; by one it may, if nothing comes after start. */
  lemma {:induction false} LocalBytesIsRange(content: Bytes, start: nat, end: int)
    ensures LocalBytes(content, start, end) == Ok(Range(content, start, end))
       <==> end == -1 || start <= end || (end == start - 1 && start >= |content|)
  {
    if end != -1 && end == start - 1 && start < |content| {
      assert |Range(content, start, -1)| > 0;
    }
  }

  /** Up to one before the start: all that comes after it is read. */
  lemma {:induction false} ReadsOnPastEnd()
    ensures Range([1, 2, 3], 2, 1) == []
    ensures LocalBytes([1, 2, 3], 2, 1) == Ok([3])
  {
    var content: Bytes := [1, 2, 3];
    assert content[2..] == [3];
  }

  /** Further back it raises, while iterating over the same range ends without a chunk. */
  lemma {:induction false} NegativeLengthRaises()
    ensures Range([1, 2, 3], 5, 2) == [] && LocalBytes([1, 2, 3], 5, 2) == Err(VALUE_ERROR)
    ensures Range([1, 2, 3], 2, 0) == [] && LocalBytes([1, 2, 3], 2, 0) == Err(VALUE_ERROR)
  {
  }

  /** The next chunk, as long as there is one: what a turn of the loops does behind its test for the end. */
  method ReadChunk(fh: FileHandle, toRead: nat, sofar: seq<Bytes>, ghost start: nat, ghost end: int, ghost chunksize: nat)
    returns (chunks: seq<Bytes>, more: bool)
    requires 0 < toRead <= chunksize && (end != -1 ==> fh.pos + toRead <= end)
    requires Streaming(fh.content, start, end, sofar, fh.pos) && Chunked(sofar, chunksize)
    modifies fh
    ensures Streaming(fh.content, start, end, chunks, fh.pos) && Chunked(chunks, chunksize)
    ensures if more then old(fh.pos) < fh.pos <= |fh.content|
            else chunks == sofar && fh.pos == old(fh.pos) && fh.pos >= |fh.content|
  {
    var chunk := fh.Read(toRead);
    more := chunk != [];
    chunks := sofar;
    if more {
      ChunkAdded(fh.content, start, end, sofar, old(fh.pos), chunk);
      chunks := sofar + [chunk];
    }
  }

  method LocalIter(content: Bytes, chunksize: nat, start: nat, end: int) returns (chunks: seq<Bytes>)
    requires chunksize > 0
    ensures Concat(chunks) == Range(content, start, end) && Chunked(chunks, chunksize)
  {
    var fh := new FileHandle(content);
    if start != 0 {
      fh.Seek(start);
    }
    chunks := [];
    var currentPos := start;
    while true
      invariant fh.content == content && fh.pos == currentPos && start <= currentPos
      invariant Streaming(content, start, end, chunks, currentPos) && Chunked(chunks, chunksize)
      decreases |content| - currentPos
    {
      var toRead := chunksize;
      if end != -1 {
        if currentPos >= end {
          break;
        }
        toRead := Least(chunksize, end - currentPos);
      }
      var more: bool;
      chunks, more := ReadChunk(fh, toRead, chunks, start, end, chunksize);
      if !more {
        break;
      }
      currentPos := fh.Tell();
    }
    StreamEnds(content, start, end, chunks, currentPos);
  }

  // ----- FsspecSyncWrapper -----

  method SyncIter(content: Bytes, chunksize: nat, start: nat, end: int) returns (chunks: seq<Bytes>)
    requires chunksize > 0
    ensures Concat(chunks) == Range(content, start, end) && Chunked(chunks, chunksize)
  {
    var fh := new FileHandle(content);
    if start != 0 {
      fh.Seek(start);
    }
    chunks := [];
    var toRead := chunksize;
    while true
      invariant fh.content == content && start <= fh.pos
      invariant 0 < toRead <= chunksize && (end == -1 ==> toRead == chunksize)
      invariant Streaming(content, start, end, chunks, fh.pos) && Chunked(chunks, chunksize)
      decreases |content| - fh.pos
    {
      if end != -1 {
        var currentPos := fh.Tell();
        if currentPos >= end {
          break;
        }
        toRead := Least(chunksize, end - currentPos);
      }
      var more: bool;
      chunks, more := ReadChunk(fh, toRead, chunks, start, end, chunksize);
      if !more {
        break;
      }
    }
    StreamEnds(content, start, end, chunks, fh.pos);
  }

  // ----- FsspecAsyncWrapper -----

  /** What `cat_file` of the wrapped file system is asked for. */
  datatype Limits = Limits(start: Option<nat>, end: Option<int>)
  {
    function From(): nat {
      match start case Some(n) => n case None => 0
    }

    /** The range does not end before it starts. */
    predicate Forward() {
      end.Some? ==> From() <= end.value
    }
  }

  type CatFile = Limits -> Outcome<Bytes>

  /** It reads ranges that end where they start or later; what it makes of others is left open. */
  ghost predicate ReadsRanges(catFile: CatFile, content: Bytes) {
    forall l: Limits | l.Forward() :: catFile(l) == Ok(Slice(content, l.From(), l.end))
  }

  /** It takes slices, as its documentation says, whatever the limits. */
  ghost predicate Slices(catFile: CatFile, content: Bytes) {
    forall l: Limits :: catFile(l) == Ok(Slice(content, l.From(), l.end))
  }

  /** Where a slice up to `end` ends: negative offsets count from the end of the file. */
  function SliceEnd(length: nat, end: Option<int>): nat {
    match end
    case None => length
    case Some(e) => if e >= 0 then Least(e, length) else if length + e < 0 then 0 else length + e
  }

  function Slice(content: Bytes, start: nat, end: Option<int>): Bytes {
    var upTo := SliceEnd(|content|, end);
    if start <= upTo then content[start..upTo] else []
  }

  function FsspecLimits(start: nat, end: int): Limits {
    Limits(if start == 0 then None else Some(start), if end == -1 then None else Some(end))
  }

  /** What is asked for is the range, unless `end` counts from the end of the file and leaves something. */
  lemma {:induction false} SliceIsRange(content: Bytes, start: nat, end: int)
    ensures var l := FsspecLimits(start, end);
            Slice(content, l.From(), l.end) == Range(content, start, end) <==> end >= -1 || |content| + end <= start
  {
    if end < -1 && start < |content| + end {
      assert |Slice(content, start, Some(end))| > 0;
    }
  }

  /**
   `read_bytes` of both wrappers: the range, on every file system, if end does not
   come before start; on those that slice, exactly unless `end` counts from the end.
   */
  method FsspecReadBytes(catFile: CatFile, start: nat, end: int) returns (data: Outcome<Bytes>)
    ensures end == -1 || start <= end ==>
              forall content | ReadsRanges(catFile, content) :: data == Ok(Range(content, start, end))
    ensures forall content | Slices(catFile, content) ::
              data == Ok(Range(content, start, end)) <==> end >= -1 || |content| + end <= start
  {
    var limits := Limits(if start != 0 then Some(start) else None, if end != -1 then Some(end) else None);
    assert limits == FsspecLimits(start, end);
    data := catFile(limits);
    forall content {
      SliceIsRange(content, start, end);
    }
  }

  /** The whole file, by way of `open_async`. */
  method WholeFile(content: Bytes, chunksize: nat) returns (chunks: seq<Bytes>)
    requires chunksize > 0
    ensures Concat(chunks) == content && Chunked(chunks, chunksize)
  {
    chunks := [];
    var fh := new FileHandle(content);
    var chunk := fh.Read(chunksize);
    while chunk != []
      invariant fh.content == content && |chunk| <= chunksize
      invariant fh.pos == |Concat(chunks)| + |chunk|
      invariant if chunk == [] then Concat(chunks) == content
                else fh.pos <= |content| && Concat(chunks) + chunk == content[..fh.pos]
      invariant Chunked(chunks, chunksize)
      decreases chunk != [], |content| - fh.pos
    {
      ghost var before := chunks;
      chunks := chunks + [chunk];
      assert chunks[..|chunks| - 1] == before;
      chunk := fh.Read(chunksize);
    }
  }

  method NextRange(catFile: CatFile, ghost content: Bytes, currentPos: nat, toRead: nat) returns (chunk: Bytes)
    requires toRead > 0 && ReadsRanges(catFile, content)
    ensures |chunk| <= toRead && (chunk == [] <==> currentPos >= |content|)
    ensures chunk != [] ==> currentPos + |chunk| <= |content| && chunk == content[currentPos..currentPos + |chunk|]
  {
    var data := FsspecReadBytes(catFile, currentPos, currentPos + toRead);
    chunk := data.value;
  }

  /** Range after range, by way of `read_bytes`. */
  method RangeByRange(catFile: CatFile, ghost content: Bytes, chunksize: nat, start: nat, end: int)
    returns (chunks: seq<Bytes>)
    requires chunksize > 0 && ReadsRanges(catFile, content)
    ensures Concat(chunks) == Range(content, start, end) && Chunked(chunks, chunksize)
  {
    chunks := [];
    var toRead := chunksize;
    var currentPos := start;
    while true
      invariant start <= currentPos
      invariant 0 < toRead <= chunksize && (end == -1 ==> toRead == chunksize)
      invariant Streaming(content, start, end, chunks, currentPos) && Chunked(chunks, chunksize)
      decreases |content| - currentPos
    {
      if end != -1 {
        if currentPos >= end {
          break;
        }
        toRead := Least(chunksize, end - currentPos);
      }
      var chunk := NextRange(catFile, content, currentPos, toRead);
      if chunk == [] {
        break;
      }
      ChunkAdded(content, start, end, chunks, currentPos, chunk);
      currentPos := currentPos + |chunk|;
      chunks := chunks + [chunk];
    }
    StreamEnds(content, start, end, chunks, currentPos);
  }

  method AsyncIter(
    content: Bytes, catFile: CatFile, supportsOpenAsync: bool, chunksize: nat, start: nat, end: int)
    returns (chunks: seq<Bytes>)
    requires chunksize > 0 && ReadsRanges(catFile, content)
    ensures Concat(chunks) == Range(content, start, end) && Chunked(chunks, chunksize)
  {
    if start == 0 && end == -1 && supportsOpenAsync {
      chunks := WholeFile(content, chunksize);
    } else {
      chunks := RangeByRange(catFile, content, chunksize, start, end);
    }
  }

  // ----- what the loops keep -----

  /** What has been yielded is the range up to the current position. */
  ghost predicate Streaming(content: Bytes, start: nat, end: int, chunks: seq<Bytes>, currentPos: nat) {
    if start >= |content| || (end != -1 && end <= start) then chunks == [] && currentPos == start
    else
      && start <= currentPos <= |content| && (end != -1 ==> currentPos <= end)
      && Concat(chunks) == content[start..currentPos]
  }

  lemma {:induction false} ChunkAdded(
    content: Bytes, start: nat, end: int, chunks: seq<Bytes>, currentPos: nat, chunk: Bytes)
    requires Streaming(content, start, end, chunks, currentPos)
    requires currentPos + |chunk| <= |content| && chunk == content[currentPos..currentPos + |chunk|] && chunk != []
    requires end != -1 ==> currentPos + |chunk| <= end
    ensures Streaming(content, start, end, chunks + [chunk], currentPos + |chunk|)
  {
    assert (chunks + [chunk])[..|chunks|] == chunks;
  }

  lemma {:induction false} StreamEnds(content: Bytes, start: nat, end: int, chunks: seq<Bytes>, currentPos: nat)
    requires Streaming(content, start, end, chunks, currentPos)
    requires currentPos >= |content| || (end != -1 && currentPos >= end)
    ensures Concat(chunks) == Range(content, start, end)
  {
  }
}
