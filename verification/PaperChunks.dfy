/**
 * Cutting a section of a paper into overlapping chunks. Nothing is lost, nothing is
 * reordered, and neighbours share exactly the configured overlap.
 */
module PaperChunks {
  import opened Common

  /** A token and the page it stands on. */
  datatype Piece = Piece(token: Id, page: nat)

  datatype Chunk = Chunk(
    index: nat, pieces: seq<Piece>, pageStart: nat, pageEnd: nat, previous: Option<nat>, next: Option<nat>)

  /** What `ingest` checks before it extracts anything. */
  predicate Accepted(size: int, overlap: int) {
    0 < size && 0 <= overlap < size
  }

  /** The first chunk, and of every later chunk what it adds. */
  function Rebuilt(chunks: seq<seq<Piece>>, overlap: nat): seq<Piece> {
    if chunks == [] then []
    else
      var k := |chunks| - 1;
      if k == 0 then chunks[0]
      else Rebuilt(chunks[..k], overlap) + chunks[k][if overlap <= |chunks[k]| then overlap else |chunks[k]|..]
  }

  predicate Overlaps(a: seq<Piece>, b: seq<Piece>, overlap: nat) {
    overlap <= |a| && overlap < |b| && a[|a| - overlap..] == b[..overlap]
  }

  predicate Sized(c: seq<Piece>, size: int) {
    0 < |c| <= size
  }

  /** A chunk with a successor is full and shares the overlap with it. */
  predicate Linked(chunks: seq<seq<Piece>>, k: nat, size: int, overlap: nat)
    requires k + 1 < |chunks|
  {
    |chunks[k]| == size && Overlaps(chunks[k], chunks[k + 1], overlap)
  }

  /** The last chunk ends where the chunks have got to. */
  predicate EndsAt(units: seq<Piece>, chunks: seq<seq<Piece>>, end: nat)
    requires end <= |units|
  {
    chunks == [] || (|chunks[|chunks| - 1]| <= end && chunks[|chunks| - 1] == units[end - |chunks[|chunks| - 1]|..end])
  }

  /** Chunks of a prefix of the units: all full but possibly the last. */
  ghost predicate Chunked(units: seq<Piece>, size: int, overlap: int, chunks: seq<seq<Piece>>, end: nat)
    requires Accepted(size, overlap)
  {
    && end <= |units| && Rebuilt(chunks, overlap) == units[..end] && EndsAt(units, chunks, end)
    && (forall k: nat {:trigger Sized(chunks[k], size)} :: k < |chunks| ==> Sized(chunks[k], size))
    && (forall k: nat {:trigger Linked(chunks, k, size, overlap)} :: k + 1 < |chunks| ==> Linked(chunks, k, size, overlap))
  }

  lemma RebuiltNext(units: seq<Piece>, overlap: nat, chunks: seq<seq<Piece>>, start: nat, end: nat, next: nat)
    requires end < next <= |units| && Rebuilt(chunks, overlap) == units[..end]
    requires if chunks == [] then start == end == 0 else start + overlap == end
    ensures Rebuilt(chunks + [units[start..next]], overlap) == units[..next]
  {
    var all, added := chunks + [units[start..next]], units[start..next];
    assert all[..|chunks|] == chunks && all[|chunks|] == added;
    if chunks == [] {
      assert units[..next] == added;
    } else {
      assert added[overlap..] == units[end..next];
      assert units[..end] + units[end..next] == units[..next];
    }
  }

  lemma LinkedNext(units: seq<Piece>, size: int, overlap: nat, c: seq<Piece>, start: nat, end: nat, next: nat)
    requires end < next <= |units| && overlap < size == |c| <= end && start == end - overlap && c == units[end - size..end]
    ensures Overlaps(c, units[start..next], overlap)
  {
    assert c[size - overlap..] == units[start..end];
    assert units[start..next][..overlap] == units[start..end];
  }

  /** One more chunk, reaching back by the overlap. */
  lemma ChunkAdded(units: seq<Piece>, size: int, overlap: int, chunks: seq<seq<Piece>>, start: nat, end: nat, next: nat)
    requires Accepted(size, overlap) && Chunked(units, size, overlap, chunks, end)
    requires end < next <= |units| && next - start <= size
    requires if chunks == [] then start == end == 0
             else |chunks[|chunks| - 1]| == size && size <= end && start == end - overlap
    ensures Chunked(units, size, overlap, chunks + [units[start..next]], next)
  {
    hide Rebuilt;
    hide Overlaps;
    var all := chunks + [units[start..next]];
    RebuiltNext(units, overlap, chunks, start, end, next);
    assert EndsAt(units, all, next);
    if chunks != [] { LinkedNext(units, size, overlap, chunks[|chunks| - 1], start, end, next); }
    forall k: nat | k < |all| ensures Sized(all[k], size) {
      if k < |chunks| { assert all[k] == chunks[k] && Sized(chunks[k], size); }
    }
    forall k: nat | k + 1 < |all| ensures Linked(all, k, size, overlap) {
      if k + 1 < |chunks| {
        assert Linked(chunks, k, size, overlap);
        assert all[k] == chunks[k] && all[k + 1] == chunks[k + 1];
      } else {
        assert all[k] == chunks[k] && all[k + 1] == units[start..next];
      }
    }
  }

  method Split(units: seq<Piece>, size: int, overlap: int) returns (chunks: seq<seq<Piece>>)
    requires Accepted(size, overlap)
    ensures Chunked(units, size, overlap, chunks, |units|)
    ensures Rebuilt(chunks, overlap) == units
  {
    chunks := [];
    var start := 0;
    ghost var reached := 0;
    while start < |units|
      invariant 0 <= start && Chunked(units, size, overlap, chunks, reached)
      invariant if chunks == [] then start == reached == 0
                else |chunks[|chunks| - 1]| == size && size <= reached < |units| && start == reached - overlap
      decreases |units| - start
    {
      var end := Min(|units|, start + size);
      ChunkAdded(units, size, overlap, chunks, start, reached, end);
      chunks := chunks + [units[start..end]];
      reached := end;
      if end == |units| { break; }
      start := Max(start + 1, end - overlap);
    }
    assert units[..|units|] == units;
  }

  predicate Spans(pieces: seq<Piece>, first: nat, last: nat) {
    && (forall k :: 0 <= k < |pieces| ==> first <= pieces[k].page <= last)
    && (exists k :: 0 <= k < |pieces| && pieces[k].page == first)
    && (exists k :: 0 <= k < |pieces| && pieces[k].page == last)
  }

  method PageSpan(pieces: seq<Piece>) returns (first: nat, last: nat)
    requires pieces != []
    ensures Spans(pieces, first, last)
  {
    first, last := pieces[0].page, pieces[0].page;
    for k := 1 to |pieces|
      invariant Spans(pieces[..k], first, last)
    {
      assert pieces[..k + 1] == pieces[..k] + [pieces[k]];
      assert pieces[..k + 1][k] == pieces[k];
      ghost var a :| 0 <= a < k && pieces[..k][a].page == first;
      ghost var b :| 0 <= b < k && pieces[..k][b].page == last;
      assert pieces[..k + 1][a].page == first && pieces[..k + 1][b].page == last;
      if pieces[k].page < first { first := pieces[k].page; }
      if pieces[k].page > last { last := pieces[k].page; }
    }
    assert pieces[..|pieces|] == pieces;
  }

  function Pieces(chunks: seq<Chunk>): (s: seq<seq<Piece>>)
    ensures |s| == |chunks| && forall k :: 0 <= k < |s| ==> s[k] == chunks[k].pieces
  {
    seq(|chunks|, k requires 0 <= k < |chunks| => chunks[k].pieces)
  }

  predicate Placed(chunks: seq<Chunk>, k: nat, count: nat)
    requires k < |chunks|
  {
    && chunks[k].index == k && Spans(chunks[k].pieces, chunks[k].pageStart, chunks[k].pageEnd)
    && chunks[k].previous == (if k == 0 then None else Some(k - 1))
    && chunks[k].next == (if k + 1 == count then None else Some(k + 1))
  }

  /** The chunks of a section, numbered, with their pages and linked to their neighbours. */
  method ChunkSection(units: seq<Piece>, size: int, overlap: int) returns (chunks: seq<Chunk>)
    requires Accepted(size, overlap)
    ensures Chunked(units, size, overlap, Pieces(chunks), |units|) && Rebuilt(Pieces(chunks), overlap) == units
    ensures forall k: nat :: k < |chunks| ==> Placed(chunks, k, |chunks|)
  {
    hide Chunked;
    hide Rebuilt;
    var parts := Split(units, size, overlap);
    SizedParts(units, size, overlap, parts);
    chunks := [];
    for k := 0 to |parts|
      invariant |chunks| == k && forall m :: 0 <= m < k ==> chunks[m].pieces == parts[m]
      invariant forall m: nat :: m < k ==> Placed(chunks, m, |parts|)
    {
      hide Spans;
      var first, last := PageSpan(parts[k]);
      ghost var before := chunks;
      chunks := chunks + [Chunk(k, parts[k], first, last, if k == 0 then None else Some(k - 1),
                                if k + 1 == |parts| then None else Some(k + 1))];
      forall m: nat | m < k + 1 ensures Placed(chunks, m, |parts|) {
        if m < k { assert Placed(before, m, |parts|); }
      }
    }
    assert Pieces(chunks) == parts;
  }

  lemma SizedParts(units: seq<Piece>, size: int, overlap: int, parts: seq<seq<Piece>>)
    requires Accepted(size, overlap) && Chunked(units, size, overlap, parts, |units|)
    ensures forall k :: 0 <= k < |parts| ==> parts[k] != []
  {
    forall k: nat | k < |parts| ensures parts[k] != [] { assert Sized(parts[k], size); }
  }

  /** How many chunks there are: the first, and one for each further stride begun. */
  lemma ChunkCount(units: seq<Piece>, size: int, overlap: int, chunks: seq<seq<Piece>>, end: nat)
    requires Accepted(size, overlap) && Chunked(units, size, overlap, chunks, end) && chunks != []
    ensures (|chunks| - 1) * (size - overlap) + |chunks[|chunks| - 1]| == end
    ensures |chunks| > 1 ==> overlap < |chunks[|chunks| - 1]|
  {
    var k := |chunks| - 1;
    RebuiltLength(units, size, overlap, chunks, end, k);
    assert chunks[..k + 1] == chunks;
    if k > 0 { assert Linked(chunks, k - 1, size, overlap); }
  }

  lemma {:induction false} RebuiltLength(units: seq<Piece>, size: int, overlap: int, chunks: seq<seq<Piece>>, end: nat, k: nat)
    requires Accepted(size, overlap) && Chunked(units, size, overlap, chunks, end) && k < |chunks|
    ensures |Rebuilt(chunks[..k + 1], overlap)| == k * (size - overlap) + |chunks[k]|
    decreases k
  {
    hide Chunked;
    assert chunks[..k + 1][..k] == chunks[..k];
    if k > 0 {
      RebuiltLength(units, size, overlap, chunks, end, k - 1);
      LinkAt(units, size, overlap, chunks, end, k - 1);
      Strides(k, size - overlap);
    }
  }

  lemma LinkAt(units: seq<Piece>, size: int, overlap: int, chunks: seq<seq<Piece>>, end: nat, k: nat)
    requires Accepted(size, overlap) && Chunked(units, size, overlap, chunks, end) && k + 1 < |chunks|
    ensures |chunks[k]| == size && overlap < |chunks[k + 1]|
  {
    assert Linked(chunks, k, size, overlap);
  }

  lemma Strides(k: nat, stride: int)
    requires k > 0
    ensures (k - 1) * stride + stride == k * stride
  {
  }
}
