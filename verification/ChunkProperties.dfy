/** What the chunking specification promises: the shape of the chunks, that the
    cuts determine them, and the locality deduplication rests on. */
module ChunkProperties {
  import opened Words
  import opened Chunker

  function Concat(pieces: seq<Bytes>): Bytes {
    if pieces == [] then [] else pieces[0] + Concat(pieces[1..])
  }

  lemma {:induction false} ConcatAppend(a: seq<Bytes>, b: seq<Bytes>)
    ensures Concat(a + b) == Concat(a) + Concat(b)
  {
    if a == [] {
      assert a + b == b;
    } else {
      assert (a + b)[1..] == a[1..] + b;
      ConcatAppend(a[1..], b);
    }
  }

  /* ---- shape ---- */

  ghost predicate WellShaped(c: Config, pieces: seq<Bytes>) {
    && (forall k :: 0 <= k < |pieces| ==> 1 <= |pieces[k]| <= c.maxSize)
    && (forall k :: 0 <= k < |pieces| - 1 ==> |pieces[k]| >= c.minSize)
  }

  /** Chunks concatenate to the input, none is empty or longer than the maximum,
      and all but the last have the minimum size. */
  lemma {:induction false} PiecesShape(c: Config, t: Table, data: Bytes, start: nat)
    requires c.Accepted() && start <= |data|
    ensures Concat(Pieces(c, t, data, start, true)) == data[start..]
    ensures WellShaped(c, Pieces(c, t, data, start, true))
    decreases |data| - start
  {
    hide Clears, Divides, Value, Direct, OfNat;
    if start < |data| {
      var e := NextEnd(c, t, data, start, start + 1);
      NextEndShort(c, t, data, start, start + 1);
      PiecesShape(c, t, data, e);
      if e < |data| {
        NextEndSkips(c, t, data, start, start + 1);
      }
      assert data[start..] == data[start..e] + data[e..];
    }
  }

  lemma {:induction false} NextEndShort(c: Config, t: Table, data: Bytes, start: nat, i: nat)
    requires c.Accepted() && start < i <= |data| && i <= start + c.maxSize
    ensures NextEnd(c, t, data, start, i) <= start + c.maxSize
    decreases |data| - i
  {
    hide Clears, Divides, Value, Direct, OfNat, Config.Accepted;
    if !(i == |data| || CutAt(c, t, data, start, i)) {
      NextEndShort(c, t, data, start, i + 1);
    }
  }

  lemma {:induction false} TotalBounds(c: Config, pieces: seq<Bytes>)
    requires c.minSize >= 1 && WellShaped(c, pieces)
    ensures |Concat(pieces)| <= |pieces| * c.maxSize
    ensures pieces != [] ==> (|pieces| - 1) * c.minSize < |Concat(pieces)|
  {
    if pieces != [] {
      var rest := pieces[1..];
      assert forall k :: 0 <= k < |rest| ==> rest[k] == pieces[k + 1];
      TotalBounds(c, rest);
      MulSucc(|rest|, c.maxSize);
      MulSucc(|rest| - 1, c.minSize);
      if rest == [] {
        assert (|pieces| - 1) * c.minSize == 0;
      }
    }
  }

  lemma MulSucc(n: int, m: int)
    ensures (n + 1) * m == n * m + m
  {
  }

  /** A stream of n bytes has at least ceil(n/MaxSize) and at most
      ceil(n/MinSize) chunks; an empty stream has none. */
  lemma ChunkCount(c: Config, t: Table, data: Bytes)
    requires c.Accepted()
    ensures var k := |Chunks(c, t, data)|;
            && (data == [] <==> k == 0)
            && |data| <= k * c.maxSize
            && (k > 0 ==> (k - 1) * c.minSize < |data|)
  {
    PiecesShape(c, t, data, 0);
    TotalBounds(c, Chunks(c, t, data));
    hide Chunks;
    assert data[0..] == data;
  }

  /* ---- the cuts determine the chunks ---- */

  function Offset(pieces: seq<Bytes>, k: nat): nat
    requires k <= |pieces|
  {
    |Concat(pieces[..k])|
  }

  /** `pieces` is data[start..] cut at every cut and nowhere else. */
  ghost predicate IsChunking(c: Config, t: Table, data: Bytes, start: nat, pieces: seq<Bytes>)
    requires c.Accepted() && start <= |data|
  {
    && Concat(pieces) == data[start..]
    && forall k :: 0 <= k < |pieces| ==>
         && pieces[k] != []
         && OffsetFits(data, start, pieces, k)
         && IsPiece(c, t, data, start + Offset(pieces, k), start + Offset(pieces, k + 1))
  }

  ghost predicate OffsetFits(data: Bytes, start: nat, pieces: seq<Bytes>, k: nat)
    requires k < |pieces|
  {
    start + Offset(pieces, k) <= start + Offset(pieces, k + 1) <= |data|
  }

  /** No cut inside data[from..to], and one at its end or the end of the data. */
  ghost predicate IsPiece(c: Config, t: Table, data: Bytes, from: nat, to: nat)
    requires c.Accepted() && from <= to <= |data|
  {
    && (forall j :: from < j < to ==> !CutAt(c, t, data, from, j))
    && (CutAt(c, t, data, from, to) || to == |data|)
  }

  lemma OffsetCons(p: Bytes, rest: seq<Bytes>, k: nat)
    requires k <= |rest|
    ensures Offset([p] + rest, k + 1) == |p| + Offset(rest, k)
    ensures Offset([p] + rest, 0) == 0
  {
    assert ([p] + rest)[..k + 1] == [p] + rest[..k];
    assert ([p] + rest[..k])[1..] == rest[..k];
  }

  lemma {:induction false} PiecesAreChunking(c: Config, t: Table, data: Bytes, start: nat)
    requires c.Accepted() && start <= |data|
    ensures IsChunking(c, t, data, start, Pieces(c, t, data, start, true))
    decreases |data| - start
  {
    hide CutAt, Config.Accepted, NextEnd, WellShaped, Offset;
    PiecesShape(c, t, data, start);
    if start < |data| {
      var e := NextEnd(c, t, data, start, start + 1);
      NextEndSkips(c, t, data, start, start + 1);
      PiecesAreChunking(c, t, data, e);
      var first, rest := data[start..e], Pieces(c, t, data, e, true);
      var all := [first] + rest;
      assert Pieces(c, t, data, start, true) == all;
      forall k | 0 <= k < |all|
        ensures all[k] != [] && OffsetFits(data, start, all, k)
        ensures IsPiece(c, t, data, start + Offset(all, k), start + Offset(all, k + 1))
      {
        OffsetCons(first, rest, k);
        if k > 0 {
          assert rest[k - 1] == all[k] && OffsetFits(data, e, rest, k - 1);
          OffsetCons(first, rest, k - 1);
        } else {
          NoOffset(rest);
        }
      }
    }
  }

  lemma NoOffset(pieces: seq<Bytes>)
    ensures Offset(pieces, 0) == 0
  {}

  lemma PieceInFront(c: Config, t: Table, data: Bytes, start: nat, first: Bytes, rest: seq<Bytes>)
    requires c.Accepted() && start <= |data| && IsChunking(c, t, data, start, [first] + rest)
    ensures first != [] && start + |first| <= |data| && first == data[start..start + |first|]
    ensures Concat(rest) == data[start + |first|..]
    ensures NextEnd(c, t, data, start, start + 1) == start + |first|
  {
    hide CutAt, Config.Accepted;
    var e := start + |first|;
    OffsetCons(first, rest, 0);
    assert ([first] + rest)[1..] == rest;
    assert OffsetFits(data, start, [first] + rest, 0) && rest[..0] == [];
    assert data[start..][..|first|] == first && data[start..][|first|..] == Concat(rest);
    NextEndIs(c, t, data, start, start + 1, e);
  }

  lemma RestIsChunking(c: Config, t: Table, data: Bytes, start: nat, first: Bytes, rest: seq<Bytes>)
    requires c.Accepted() && start <= |data| && IsChunking(c, t, data, start, [first] + rest)
    requires start + |first| <= |data| && Concat(rest) == data[start + |first|..]
    ensures IsChunking(c, t, data, start + |first|, rest)
  {
    hide CutAt, Config.Accepted, IsPiece, Offset, Concat;
    var e, pieces := start + |first|, [first] + rest;
    forall k | 0 <= k < |rest|
      ensures rest[k] != [] && OffsetFits(data, e, rest, k)
      ensures IsPiece(c, t, data, e + Offset(rest, k), e + Offset(rest, k + 1))
    {
      OffsetCons(first, rest, k);
      OffsetCons(first, rest, k + 1);
      assert rest[k] == pieces[k + 1];
      assert OffsetFits(data, start, pieces, k + 1);
    }
  }

  lemma {:induction false} ChunkingIsPieces(c: Config, t: Table, data: Bytes, start: nat, pieces: seq<Bytes>)
    requires c.Accepted() && start <= |data| && IsChunking(c, t, data, start, pieces)
    ensures pieces == Pieces(c, t, data, start, true)
    decreases |pieces|
  {
    hide CutAt, Config.Accepted, IsPiece, OffsetFits, Offset, NextEnd;
    if pieces != [] {
      var first, rest := pieces[0], pieces[1..];
      assert pieces == [first] + rest;
      var e := start + |first|;
      PieceInFront(c, t, data, start, first, rest);
      RestIsChunking(c, t, data, start, first, rest);
      ChunkingIsPieces(c, t, data, e, rest);
    }
  }

  /** The cuts determine the chunks: `Chunks` is the one sequence that cuts the
      data at every cut and nowhere else. */
  lemma ChunksUnique(c: Config, t: Table, data: Bytes, pieces: seq<Bytes>)
    requires c.Accepted()
    ensures pieces == Chunks(c, t, data) <==> IsChunking(c, t, data, 0, pieces)
  {
    PiecesAreChunking(c, t, data, 0);
    if IsChunking(c, t, data, 0, pieces) {
      ChunkingIsPieces(c, t, data, 0, pieces);
    }
  }

  /* ---- locality ---- */

  lemma SharedCut(c: Config, t: Table, u: Bytes, v: Bytes, w: Bytes, k: nat, j: nat)
    requires c.Accepted() && k <= j <= |w| && k + c.minSize >= c.window
    ensures CutAt(c, t, u + w, |u| + k, |u| + j) == CutAt(c, t, v + w, |v| + k, |v| + j)
  {
    hide Divides, Value, Direct, Clears, OfNat, Config.Accepted;
    AcceptedMeaning(c);
    if j - k >= c.minSize {
      assert (u + w)[|u| + j - c.window..|u| + j] == w[j - c.window..j];
      assert (v + w)[|v| + j - c.window..|v| + j] == w[j - c.window..j];
    }
  }

  /** The next end after offset k of the shared suffix is the same offset in
      both streams. */
  lemma SharedEnd(c: Config, t: Table, u: Bytes, v: Bytes, w: Bytes, k: nat) returns (j: nat)
    requires c.Accepted() && k < |w| && k + c.minSize >= c.window
    ensures k < j <= |w|
    ensures NextEnd(c, t, u + w, |u| + k, |u| + k + 1) == |u| + j
    ensures NextEnd(c, t, v + w, |v| + k, |v| + k + 1) == |v| + j
    ensures CutAt(c, t, u + w, |u| + k, |u| + j) || j == |w|
    ensures CutAt(c, t, v + w, |v| + k, |v| + j) || j == |w|
  {
    hide CutAt, Config.Accepted;
    var x, y, from, from' := u + w, v + w, |u| + k, |v| + k;
    var e := NextEnd(c, t, x, from, from + 1);
    NextEndSkips(c, t, x, from, from + 1);
    j := e - |u|;
    SharedCut(c, t, u, v, w, k, j);
    forall i | from' + 1 <= i < |v| + j
      ensures !CutAt(c, t, y, from', i)
    {
      SharedCut(c, t, u, v, w, k, i - |v|);
    }
    NextEndIs(c, t, y, from', from' + 1, |v| + j);
  }

  /** Boundaries resynchronize: two streams with a common suffix w that both have
      a boundary at the same offset k of it, with k + MinSize >= Window, have
      the same chunks from there on, whatever went before. */
  lemma {:induction false} Resynchronize(c: Config, t: Table, u: Bytes, v: Bytes, w: Bytes, k: nat)
    requires c.Accepted() && k <= |w| && k + c.minSize >= c.window
    ensures Pieces(c, t, u + w, |u| + k, true) == Pieces(c, t, v + w, |v| + k, true)
    decreases |w| - k
  {
    hide CutAt, Config.Accepted, NextEnd;
    if k < |w| {
      var j := SharedEnd(c, t, u, v, w, k);
      assert (u + w)[|u| + k..|u| + j] == w[k..j] == (v + w)[|v| + k..|v| + j];
      Resynchronize(c, t, u, v, w, j);
    }
  }

  /** `p` is the start of the data or the end of one of its chunks. */
  ghost predicate IsBoundary(c: Config, t: Table, data: Bytes, p: nat)
    requires c.Accepted()
  {
    exists n: nat :: n <= |Chunks(c, t, data)| && Offset(Chunks(c, t, data), n) == p
  }

  lemma FirstPiece(c: Config, t: Table, data: Bytes, start: nat)
    requires c.Accepted() && start < |data|
    ensures var e := NextEnd(c, t, data, start, start + 1);
            Pieces(c, t, data, start, true) == [data[start..e]] + Pieces(c, t, data, e, true)
  {
    hide CutAt, Config.Accepted, NextEnd;
  }

  /** The first chunk is the same in a + b and in a, if it ends in a. */
  lemma SameFirstEnd(c: Config, t: Table, a: Bytes, b: Bytes, start: nat, e: nat)
    requires c.Accepted() && start < e <= |a| && e == NextEnd(c, t, a + b, start, start + 1)
    ensures NextEnd(c, t, a, start, start + 1) == e
  {
    hide CutAt, Config.Accepted, NextEnd;
    var data := a + b;
    NextEndSkips(c, t, data, start, start + 1);
    forall j | start < j <= |a|
      ensures CutAt(c, t, data, start, j) == CutAt(c, t, a, start, j)
    {
      CutAtPrefix(c, t, data, start, j);
      CutAtPrefix(c, t, a, start, j);
      assert data[..j] == a[..j];
    }
    NextEndIs(c, t, a, start, start + 1, e);
  }

  /** Cutting at a boundary of a + b leaves the chunks before it as they were. */
  lemma {:induction false} PrefixPieces(c: Config, t: Table, a: Bytes, b: Bytes, start: nat, n: nat)
    requires c.Accepted() && start <= |a|
    requires var all := Pieces(c, t, a + b, start, true); n <= |all| && start + Offset(all, n) == |a|
    ensures Pieces(c, t, a + b, start, true)[..n] == Pieces(c, t, a, start, true)
    ensures Pieces(c, t, a + b, start, true)[n..] == Pieces(c, t, a + b, |a|, true)
    decreases |a| - start
  {
    hide CutAt, Config.Accepted, NextEnd, Offset, Pieces;
    var data := a + b;
    var all := Pieces(c, t, data, start, true);
    if n == 0 {
      NoOffset(all);
      NoPieces(c, t, a);
      assert all[..0] == [] && all[0..] == all;
    } else {
      SomePieces(c, t, data, start);
      var e := NextEnd(c, t, data, start, start + 1);
      var first, rest := data[start..e], Pieces(c, t, data, e, true);
      FirstPiece(c, t, data, start);
      OffsetCons(first, rest, n - 1);
      PrefixPieces(c, t, a, b, e, n - 1);
      SameFirstEnd(c, t, a, b, start, e);
      FirstPiece(c, t, a, start);
      assert a[start..e] == first;
      assert all[..n] == [first] + rest[..n - 1] && all[n..] == rest[n - 1..];
    }
  }

  lemma NoPieces(c: Config, t: Table, data: Bytes)
    requires c.Accepted()
    ensures Pieces(c, t, data, |data|, true) == []
  {}

  lemma SomePieces(c: Config, t: Table, data: Bytes, start: nat)
    requires c.Accepted() && start <= |data| && Pieces(c, t, data, start, true) != []
    ensures start < |data|
  {}

  /** With MinSize >= Window, splitting distributes over concatenation at every
      boundary, although `Split` never resets its window. */
  lemma SplitDistributes(c: Config, t: Table, a: Bytes, b: Bytes)
    requires c.Accepted() && c.minSize >= c.window && IsBoundary(c, t, a + b, |a|)
    ensures Chunks(c, t, a + b) == Chunks(c, t, a) + Chunks(c, t, b)
  {
    hide CutAt, Config.Accepted, NextEnd, Pieces;
    var n: nat :| n <= |Chunks(c, t, a + b)| && Offset(Chunks(c, t, a + b), n) == |a|;
    PrefixPieces(c, t, a, b, 0, n);
    Resynchronize(c, t, a, [], b, 0);
    assert [] + b == b;
  }
}
