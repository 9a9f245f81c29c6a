/** The file-like guards: a cursor over the payload. */
module Guards {
  import opened Words
  import Machine

  type Byte = Machine.Byte

  datatype Result<+T> = Ok(value: T) | Released | TooLarge

  /** A `read` of all that is left. */
  predicate Everything(size: Option<int>) { size.None? || size.value < 0 }

  /** Where one `read` leaves the cursor: at the end for `None` or a negative size, else at most `size`
      bytes further, and where it was if that is past the end. */
  function NextCursor(len: nat, cursor: nat, size: Option<int>): nat {
    if cursor >= len then cursor
    else if size.Some? && 0 <= size.value < len - cursor then cursor + size.value
    else len
  }

  /** A Python read guard over the published bytes `data`; `live` until it is released. */
  class ReadGuard {
    const data: seq<Byte>
    var live: bool
    var cursor: nat

    constructor (data: seq<Byte>)
      ensures this.data == data && live && cursor == 0
    {
      this.data := data;
      live, cursor := true, 0;
    }

    method Read(size: Option<int>) returns (r: Result<seq<Byte>>)
      modifies this`cursor
      ensures !live ==> r == Released && cursor == old(cursor)
      ensures live ==> cursor == NextCursor(|data|, old(cursor), size)
      ensures live ==> r == Ok(if old(cursor) < |data| then data[old(cursor)..cursor] else [])
      ensures live ==> cursor == old(cursor) + |r.value|
      ensures live && old(cursor) < |data| && (Everything(size) || size.value >= |data| - old(cursor)) ==>
                r.value == data[old(cursor)..]
      ensures live && old(cursor) < |data| && !Everything(size) && size.value < |data| - old(cursor) ==>
                |r.value| == size.value
    {
      if !live {
        return Released;
      }
      if cursor >= |data| {
        return Ok([]);
      }
      var available := |data| - cursor;
      var toRead := if size.Some? && size.value >= 0 && size.value < available then size.value else available;
      r := Ok(data[cursor..cursor + toRead]);
      cursor := cursor + toRead;
    }

    method Seek(pos: nat) returns (p: nat)
      modifies this`cursor
      ensures p == cursor == pos
    {
      cursor, p := pos, pos;
    }

    method Tell() returns (p: nat)
      ensures p == cursor
    {
      p := cursor;
    }

    method Exit()
      modifies this`live
      ensures !live
    {
      live := false;
    }
  }

  /** A Python write guard over the shared buffer. */
  class WriteGuard {
    const buffer: array<Byte>
    var live: bool
    var cursor: nat

    constructor (buffer: array<Byte>)
      ensures this.buffer == buffer && live && cursor == 0
    {
      this.buffer := buffer;
      live, cursor := true, 0;
    }

    /** Copies `chunk` at the cursor, or refuses it whole and changes nothing. */
    method Write(chunk: seq<Byte>) returns (r: Result<nat>)
      modifies this`cursor, buffer
      ensures r == if !live then Released else if old(cursor) + |chunk| > buffer.Length then TooLarge else Ok(|chunk|)
      ensures !r.Ok? ==> cursor == old(cursor) && buffer[..] == old(buffer[..])
      ensures r.Ok? ==>
                && cursor == old(cursor) + |chunk| <= buffer.Length
                && buffer[..] == old(buffer[..cursor]) + chunk + old(buffer[cursor + |chunk|..])
    {
      if !live {
        return Released;
      }
      if cursor + |chunk| > buffer.Length {
        return TooLarge;
      }
      ghost var was := buffer[..];
      var i := 0;
      while i < |chunk|
        invariant 0 <= i <= |chunk| && cursor == old(cursor) && live
        invariant buffer[..] == was[..cursor] + chunk[..i] + was[cursor + i..]
      {
        buffer[cursor + i] := chunk[i];
        i := i + 1;
      }
      cursor := cursor + |chunk|;
      r := Ok(|chunk|);
    }

    method Seek(pos: nat) returns (p: nat)
      modifies this`cursor
      ensures p == cursor == pos
    {
      cursor, p := pos, pos;
    }

    /** Publishes the given size, by default everything up to the cursor; the guard is spent either way. A
        size beyond the capacity publishes nothing. */
    method Publish(size: Option<nat>) returns (r: Result<Option<seq<Byte>>>)
      modifies this`live
      ensures !live && (r == Released <==> !old(live))
      ensures old(live) ==>
                var n := if size.Some? then size.value else cursor;
                r == Ok(if n <= buffer.Length then Some(buffer[..n]) else None)
    {
      if !live {
        return Released;
      }
      live := false;
      var n := if size.Some? then size.value else cursor;
      if n > buffer.Length {
        return Ok(None);
      }
      return Ok(Some(buffer[..n]));
    }
  }

  // ---------- the round trip ----------

  function Concat(chunks: seq<seq<Byte>>): (all: seq<Byte>) {
    if chunks == [] then [] else Concat(chunks[..|chunks| - 1]) + chunks[|chunks| - 1]
  }

  /** Where a list of reads leaves the cursor of a new guard. */
  function LastCursor(len: nat, sizes: seq<Option<int>>): (end: nat)
    ensures end <= len
  {
    if sizes == [] then 0 else NextCursor(len, LastCursor(len, sizes[..|sizes| - 1]), sizes[|sizes| - 1])
  }

  /** One read of everything among them reaches the end. */
  lemma {:induction false} ReadsReachTheEnd(len: nat, sizes: seq<Option<int>>, k: nat)
    requires k < |sizes| && Everything(sizes[k])
    ensures LastCursor(len, sizes) == len
    decreases |sizes|
  {
    var n := |sizes| - 1;
    if k < n {
      ReadsReachTheEnd(len, sizes[..n], k);
    }
  }

  function Sum(sizes: seq<Option<int>>): int {
    if sizes == [] then 0
    else Sum(sizes[..|sizes| - 1]) + (if sizes[|sizes| - 1].Some? then sizes[|sizes| - 1].value else 0)
  }

  /** Reads of given sizes cover their sum, as far as there is data. */
  lemma {:induction false} ReadsCoverTheirSum(len: nat, sizes: seq<Option<int>>)
    requires forall k :: 0 <= k < |sizes| ==> !Everything(sizes[k])
    ensures Sum(sizes) >= 0 && LastCursor(len, sizes) == if Sum(sizes) <= len then Sum(sizes) else len
  {
    if sizes != [] {
      ReadsCoverTheirSum(len, sizes[..|sizes| - 1]);
    }
  }

  lemma {:induction false} PrefixFits(chunks: seq<seq<Byte>>, k: nat)
    requires k <= |chunks|
    ensures |Concat(chunks[..k])| <= |Concat(chunks)|
    decreases |chunks|
  {
    if k < |chunks| {
      var init := chunks[..|chunks| - 1];
      assert init[..k] == chunks[..k];
      PrefixFits(init, k);
    } else {
      assert chunks[..k] == chunks;
    }
  }

  /** Writes every chunk and publishes with the default size. */
  method WriteAll(buffer: array<Byte>, chunks: seq<seq<Byte>>) returns (published: seq<Byte>)
    requires |Concat(chunks)| <= buffer.Length
    modifies buffer
    ensures published == Concat(chunks)
  {
    var w := new WriteGuard(buffer);
    var i := 0;
    while i < |chunks|
      invariant 0 <= i <= |chunks| && w.live && w.buffer == buffer && fresh(w)
      invariant w.cursor == |Concat(chunks[..i])| <= buffer.Length && buffer[..w.cursor] == Concat(chunks[..i])
    {
      PrefixFits(chunks, i + 1);
      assert chunks[..i + 1][..i] == chunks[..i];
      var r := w.Write(chunks[i]);
      assert buffer[..w.cursor] == Concat(chunks[..i]) + chunks[i];
      i := i + 1;
    }
    assert chunks[..|chunks|] == chunks;
    var p := w.Publish(None);
    published := p.value.value;
  }

  /** Reads `data` back in any mix of sizes. */
  method ReadBack(data: seq<Byte>, sizes: seq<Option<int>>) returns (received: seq<Byte>, position: nat)
    ensures position == LastCursor(|data|, sizes) && received == data[..position]
  {
    var g := new ReadGuard(data);
    received := [];
    var j := 0;
    while j < |sizes|
      invariant 0 <= j <= |sizes| && g.live && g.data == data && fresh(g)
      invariant g.cursor == LastCursor(|data|, sizes[..j]) && received == data[..g.cursor]
    {
      assert sizes[..j + 1][..j] == sizes[..j];
      var from := g.Tell();
      var r := g.Read(sizes[j]);
      assert data[..from] + r.value == data[..g.cursor];
      received := received + r.value;
      j := j + 1;
    }
    assert sizes[..|sizes|] == sizes;
    position := g.Tell();
  }

  /** Chunks that fit, written without seeking and published with the default size, come back in order: any
      mix of reads yields the prefix of their concatenation that `tell` gives the length of; it is complete
      if one read asks for everything, and else as long as the sizes add up to. */
  method RoundTrip(buffer: array<Byte>, chunks: seq<seq<Byte>>, sizes: seq<Option<int>>)
    returns (received: seq<Byte>, position: nat)
    requires |Concat(chunks)| <= buffer.Length
    modifies buffer
    ensures position <= |Concat(chunks)| && received == Concat(chunks)[..position]
    ensures if exists k :: 0 <= k < |sizes| && Everything(sizes[k]) then received == Concat(chunks)
            else position == if Sum(sizes) <= |Concat(chunks)| then Sum(sizes) else |Concat(chunks)|
  {
    var published := WriteAll(buffer, chunks);
    received, position := ReadBack(published, sizes);
    ghost var all := exists k :: 0 <= k < |sizes| && Everything(sizes[k]);
    if all {
      ghost var k :| 0 <= k < |sizes| && Everything(sizes[k]);
      ReadsReachTheEnd(|published|, sizes, k);
    } else {
      ReadsCoverTheirSum(|published|, sizes);
    }
  }

  /** Seeking: a chunk written at any position and published comes back to a reader that seeks there and asks
      for as many bytes, the bytes around it are untouched, and a reader that seeks to the end or past it
      gets nothing however often it reads, and stays where it is. */
  method SeekRoundTrip(buffer: array<Byte>, pos: nat, chunk: seq<Byte>, size: nat, beyond: nat)
    returns (received: seq<Byte>, past: seq<Byte>, position: nat, again: seq<Byte>)
    requires pos + |chunk| <= size <= buffer.Length && size <= beyond
    modifies buffer
    ensures received == chunk && past == again == [] && position == beyond
    ensures buffer[..] == old(buffer[..pos]) + chunk + old(buffer[pos + |chunk|..])
  {
    var w := new WriteGuard(buffer);
    var _ := w.Seek(pos);
    var _ := w.Write(chunk);
    var p := w.Publish(Some(size));
    var published := p.value.value;
    assert published[pos..pos + |chunk|] == buffer[pos..pos + |chunk|] == chunk;
    var g := new ReadGuard(published);
    var _ := g.Seek(pos);
    var r := g.Read(Some(|chunk|));
    var _ := g.Seek(beyond);
    var e := g.Read(None);
    position := g.Tell();
    var f := g.Read(None);
    received, past, again := r.value, e.value, f.value;
  }

  /** Guards that are spent, one by publishing and one by leaving its `with` block, refuse every later call:
      the published bytes stay as they are, and the cursors where they were. */
  method SpentGuardsRefuse(w: WriteGuard, g: ReadGuard, late: seq<Byte>, size: Option<int>)
    returns (published: Result<Option<seq<Byte>>>, again: Result<Option<seq<Byte>>>, written: Result<nat>,
             read: Result<seq<Byte>>)
    modifies w, w.buffer, g
    ensures again == Released && written == Released && read == Released
    ensures w.buffer[..] == old(w.buffer[..]) && w.cursor == old(w.cursor) && g.cursor == old(g.cursor)
    ensures published.Ok? <==> old(w.live)
  {
    published := w.Publish(None);
    g.Exit();
    again := w.Publish(None);
    written := w.Write(late);
    read := g.Read(size);
  }
}
