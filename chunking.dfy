/** `chunk_content` and `doc_chunking` (GuruCool-API/utils/helpers.py). The
    list comprehension `[s[i:i+n] for i in range(0, len(s), n)]` is the same
    code for strings and for lists of topics, so `Chunks` is generic and the
    course planner reuses it. */
module Chunking {
  import opened Wrappers
  import Text

  /** The default `chunk_size` of every copy of `chunk_content`. */
  const DefaultChunkSize: nat := 1000

  /** The separator `doc_chunking` joins the page contents with. */
  const PageSeparator: string := "\n\n"

  function Flatten<T>(parts: seq<seq<T>>): (r: seq<T>)
    decreases |parts|
  {
    if parts == [] then [] else parts[0] + Flatten(parts[1..])
  }

  lemma {:induction false} FlattenAppend<T>(a: seq<seq<T>>, b: seq<seq<T>>)
    ensures Flatten(a + b) == Flatten(a) + Flatten(b)
    decreases |a|
  {
    if a != [] {
      assert (a + b)[1..] == a[1..] + b;
      FlattenAppend(a[1..], b);
    } else {
      assert a + b == b;
    }
  }

  /** The slices `s[i:i+size]` for `i` in `range(0, len(s), size)`. */
  function Chunks<T>(s: seq<T>, size: nat): (r: seq<seq<T>>)
    requires size > 0
    ensures Flatten(r) == s
    ensures forall k :: 0 <= k < |r| - 1 ==> |r[k]| == size
    ensures r != [] ==> 1 <= |r[|r| - 1]| <= size
    decreases |s|
  {
    if |s| == 0 then []
    else if |s| <= size then [s]
    else [s[..size]] + Chunks(s[size..], size)
  }

  lemma DivStep(a: nat, size: nat)
    requires size > 0
    ensures (a + size) / size == a / size + 1
  {
    var q, m := a / size, a % size;
    var q2, m2 := (a + size) / size, (a + size) % size;
    assert size * (q + 1) + m == size * q2 + m2;
    var x := q + 1 - q2;
    assert size * x == m2 - m by {
      assert size * (q + 1) - size * q2 == size * x;
    }
  }

  /** There are ceil(len / size) chunks, so none for an empty sequence. */
  lemma {:induction false} ChunkCount<T>(s: seq<T>, size: nat)
    requires size > 0
    ensures |Chunks(s, size)| == (|s| + size - 1) / size
    decreases |s|
  {
    if |s| > size {
      ChunkCount(s[size..], size);
      DivStep(|s| - size + size - 1, size);
    } else if |s| > 0 {
      DivStep(|s| - 1, size);
      assert (|s| - 1) / size == 0;
    }
  }

  /** The end of the `k`-th slice: `min((k + 1) * size, |s|)`. */
  function SliceEnd(n: nat, size: nat, k: nat): nat {
    if (k + 1) * size <= n then (k + 1) * size else n
  }

  /** Every chunk is the slice the comprehension takes at `k * size`. */
  lemma {:induction false} ChunkAt<T>(s: seq<T>, size: nat, k: nat)
    requires size > 0 && k < |Chunks(s, size)|
    ensures k * size < |s|
    ensures Chunks(s, size)[k] == s[k * size .. SliceEnd(|s|, size, k)]
    decreases |s|
  {
    if k == 0 {
      ChunkAtFirst(s, size);
    } else {
      ChunkAtLater(s, size, k);
      ChunkAt(s[size..], size, k - 1);
      ShiftSlice(s, size, k);
    }
  }

  lemma ChunkAtFirst<T>(s: seq<T>, size: nat)
    requires size > 0 && 0 < |Chunks(s, size)|
    ensures 0 < |s|
    ensures Chunks(s, size)[0] == s[0 .. SliceEnd(|s|, size, 0)]
  {
    assert (0 + 1) * size == size;
  }

  /** A later chunk is a chunk of what follows the first. */
  lemma ChunkAtLater<T>(s: seq<T>, size: nat, k: nat)
    requires size > 0 && 0 < k < |Chunks(s, size)|
    ensures |s| > size && k - 1 < |Chunks(s[size..], size)|
    ensures Chunks(s, size)[k] == Chunks(s[size..], size)[k - 1]
  {
    ChunksTail(s, size);
  }

  lemma ChunksTail<T>(s: seq<T>, size: nat)
    requires size > 0 && |s| > size
    ensures Chunks(s, size) == [s[..size]] + Chunks(s[size..], size)
  {
  }

  lemma ShiftSlice<T>(s: seq<T>, size: nat, k: nat)
    requires 0 < size < |s| && 0 < k
    requires (k - 1) * size < |s| - size
    ensures k * size < |s|
    ensures s[size..][(k - 1) * size .. SliceEnd(|s| - size, size, k - 1)]
         == s[k * size .. SliceEnd(|s|, size, k)]
  {
    var lo := (k - 1) * size;
    assert lo + size == k * size;
    assert k * size + size == (k + 1) * size;
    assert SliceEnd(|s| - size, size, k - 1) + size == SliceEnd(|s|, size, k);
  }

  /** How many items the first `c` slices of width `size` cover in a sequence of `n`. */
  function Covered(c: nat, size: nat, n: nat): (m: nat)
    requires size > 0
    ensures m == Min(c * size, n)
  {
    if c == 0 || n == 0 then 0
    else if n <= size then (assert c * size == (c - 1) * size + size; n)
    else (assert c * size == (c - 1) * size + size; size + Covered(c - 1, size, n - size))
  }

  /** The first `c` chunks hold exactly the first `c * size` items (or all). */
  lemma {:induction false} ChunkPrefix<T>(s: seq<T>, size: nat, c: nat)
    requires size > 0 && c <= |Chunks(s, size)|
    ensures Flatten(Chunks(s, size)[..c]) == s[..Covered(c, size, |s|)]
    decreases |s|
  {
    var r := Chunks(s, size);
    if c == 0 {
      assert r[..0] == [];
    } else if |s| <= size {
      ChunkPrefixSingle(s, size, c);
    } else {
      var t := s[size..];
      ChunksTail(s, size);
      FlattenConsPrefix(s[..size], Chunks(t, size), c);
      ChunkPrefix(t, size, c - 1);
      PrefixJoin(s, size, Covered(c - 1, size, |t|));
    }
  }

  lemma FlattenConsPrefix<T>(x: seq<T>, ys: seq<seq<T>>, c: nat)
    requires 0 < c <= |ys| + 1
    ensures Flatten(([x] + ys)[..c]) == x + Flatten(ys[..c - 1])
  {
    assert ([x] + ys)[..c] == [x] + ys[..c - 1];
    assert ([x] + ys[..c - 1])[1..] == ys[..c - 1];
  }

  lemma PrefixJoin<T>(s: seq<T>, size: nat, e: nat)
    requires size + e <= |s|
    ensures s[..size] + s[size..][..e] == s[..size + e]
  {
  }

  lemma ChunkPrefixSingle<T>(s: seq<T>, size: nat, c: nat)
    requires size > 0 && 0 < c <= |Chunks(s, size)| && |s| <= size
    ensures Flatten(Chunks(s, size)[..c]) == s
    ensures Covered(c, size, |s|) == |s|
  {
    assert Chunks(s, size) == [s];
    assert Chunks(s, size)[..c] == [s];
    FlattenOne(s);
  }

  function Min(a: int, b: int): int { if a <= b then a else b }

  lemma FlattenOne<T>(s: seq<T>)
    ensures Flatten([s]) == s
  {
    assert [s][1..] == [];
  }

  lemma {:induction false} ChunksNonEmpty<T>(s: seq<T>, size: nat)
    requires size > 0
    ensures forall k :: 0 <= k < |Chunks(s, size)| ==> Chunks(s, size)[k] != []
    decreases |s|
  {
    if |s| > size {
      ChunksNonEmpty(s[size..], size);
    }
  }

  /** `chunk_content(content, chunk_size)`: a zero step makes `range` raise
      ValueError, a negative step gives an empty range. */
  function ChunkContent(content: string, chunkSize: int): (r: Result<seq<string>>)
    ensures chunkSize == 0 <==> r == Err(ValueError)
    ensures chunkSize < 0 ==> r == Ok([])
    ensures chunkSize > 0 ==> r.Ok? && Flatten(r.value) == content
    ensures chunkSize > 0 ==> |r.value| == (|content| + chunkSize - 1) / chunkSize
  {
    if chunkSize == 0 then Err(ValueError)
    else if chunkSize < 0 then Ok([])
    else
      ChunkCount(content, chunkSize);
      Ok(Chunks(content, chunkSize))
  }

  /** What `doc_chunking` returns: the chunk list, or the empty dict `{}` it
      returns for an empty document list. Both have a length. */
  datatype Chunked = ChunkList(chunks: seq<string>) | EmptyDict {
    function Length(): nat {
      if ChunkList? then |chunks| else 0
    }
  }

  /** `doc_chunking(documents)`, documents given by their `page_content`. */
  function DocChunking(pages: seq<string>): (r: Chunked)
    ensures pages == [] <==> r == EmptyDict
    ensures pages != [] ==> Flatten(r.chunks) == Text.Join(PageSeparator, pages)
    ensures pages != [] ==> forall k :: 0 <= k < |r.chunks| - 1 ==> |r.chunks[k]| == DefaultChunkSize
  {
    if pages == [] then EmptyDict
    else ChunkList(Chunks(Text.Join(PageSeparator, pages), DefaultChunkSize))
  }
}
