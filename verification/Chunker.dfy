/** Content-defined chunking: the configuration check, a declarative account of
    where a stream is cut, and the ring-buffer splitter proved against it. */
module Chunker {
  import opened Words

  newtype byte = x: int | 0 <= x < 256
  type Bytes = seq<byte>

  /** A 64-bit machine integer. */
  type GoInt = x: int | -(Pow2(63) as int) <= x < Pow2(63)

  /** The random-looking word of every byte value. */
  type Table = t: seq<Word> | |t| >= 256 witness seq(256, i => 0)

  datatype Config = Config(window: GoInt, minSize: GoInt, targetSize: GoInt, maxSize: GoInt) {
    /** `Config.Validate` accepts this configuration. */
    predicate Accepted() {
      && window >= 1 && minSize >= 1 && minSize <= targetSize && targetSize <= maxSize
      && Clears(OfNat(targetSize), OfNat(targetSize - 1))
    }
  }

  /** The bitwise test in `Validate` asks for a power of two and nothing else. */
  lemma AcceptedMeaning(c: Config)
    ensures c.Accepted() <==>
              c.window >= 1 && 1 <= c.minSize <= c.targetSize <= c.maxSize && IsPow2(c.targetSize)
  {
    if 1 <= c.targetSize {
      PowerOfTwoTest(c.targetSize, 63);
    }
  }

  lemma AcceptedSizes(c: Config)
    requires c.Accepted()
    ensures c.window >= 1 && 1 <= c.minSize <= c.targetSize <= c.maxSize
  {}

  /* ---- where a stream is cut ---- */

  /** The fingerprint of a window, computed directly: every byte's word rotated
      by its distance from the end of the window, all xored together. */
  function Direct(t: Table, s: Bytes): Word {
    if s == [] then 0 else Xor(Rot(t[s[0]], |s| - 1), Direct(t, s[1..]))
  }

  /** The chunk that starts at `start` is cut at `end`: it has reached the
      maximum size, or it has the minimum size, a whole window has been seen,
      and the target size divides the fingerprint of the last window. */
  predicate CutAt(c: Config, t: Table, data: Bytes, start: nat, end: nat)
    requires c.Accepted() && start <= end <= |data|
  {
    || end - start >= c.maxSize
    || (&& end - start >= c.minSize
        && end >= c.window
        && Divides(c.targetSize, Value(Direct(t, data[end - c.window..end]))))
  }

  /** The first cut at or after `i`, or the end of the data. */
  function NextEnd(c: Config, t: Table, data: Bytes, start: nat, i: nat): (e: nat)
    requires c.Accepted() && start < i <= |data|
    ensures i <= e <= |data|
    decreases |data| - i
  {
    if i == |data| || CutAt(c, t, data, start, i) then i else NextEnd(c, t, data, start, i + 1)
  }

  /** The pieces of data[start..]; the piece left over at the end, which no cut
      closes, is among them only when `tail` is set. */
  function Pieces(c: Config, t: Table, data: Bytes, start: nat, tail: bool): seq<Bytes>
    requires c.Accepted() && start <= |data|
    decreases |data| - start
  {
    if start == |data| then [] else
      var e := NextEnd(c, t, data, start, start + 1);
      if CutAt(c, t, data, start, e) || tail
      then [data[start..e]] + Pieces(c, t, data, e, tail)
      else []
  }

  /** The chunks of a whole stream. */
  function Chunks(c: Config, t: Table, data: Bytes): seq<Bytes>
    requires c.Accepted()
  {
    Pieces(c, t, data, 0, true)
  }

  lemma {:induction false} NextEndIs(c: Config, t: Table, data: Bytes, start: nat, i: nat, e: nat)
    requires c.Accepted() && start < i <= e <= |data|
    requires forall j :: i <= j < e ==> !CutAt(c, t, data, start, j)
    requires CutAt(c, t, data, start, e) || e == |data|
    ensures NextEnd(c, t, data, start, i) == e
    decreases e - i
  {
    hide CutAt, Config.Accepted;
    if i < e {
      NextEndIs(c, t, data, start, i + 1, e);
    }
  }

  lemma {:induction false} NextEndSkips(c: Config, t: Table, data: Bytes, start: nat, i: nat)
    requires c.Accepted() && start < i <= |data|
    ensures var e := NextEnd(c, t, data, start, i);
            && (forall j :: i <= j < e ==> !CutAt(c, t, data, start, j))
            && (CutAt(c, t, data, start, e) || e == |data|)
    decreases |data| - i
  {
    hide CutAt, Config.Accepted;
    if !(i == |data| || CutAt(c, t, data, start, i)) {
      NextEndSkips(c, t, data, start, i + 1);
    }
  }

  /* ---- the rolling fingerprint ---- */

  lemma {:induction false} DirectSnoc(t: Table, s: Bytes, b: byte)
    ensures Direct(t, s + [b]) == Xor(Rot1(Direct(t, s)), t[b])
  {
    hide Xor, Rot1;
    if s == [] {
      assert ([b])[1..] == [];
      RotZero();
      XorZero(t[b]);
      assert Direct(t, [b]) == Xor(Rot(t[b], 0), Direct(t, []));
    } else {
      DirectSnoc(t, s[1..], b);
      assert (s + [b])[1..] == s[1..] + [b];
      Rot1Xor(Rot(t[s[0]], |s| - 1), Direct(t, s[1..]));
      XorAssoc(Rot(t[s[0]], |s|), Rot1(Direct(t, s[1..])), t[b]);
    }
  }

  lemma RotZero()
    ensures Rot1(0) == 0
  {}

  lemma XorZero(a: Word)
    ensures Xor(0, a) == a == Xor(a, 0)
  {}

  lemma XorAssoc(a: Word, b: Word, d: Word)
    ensures Xor(a, Xor(b, d)) == Xor(Xor(a, b), d)
  {
    assert a ^ (b ^ d) == (a ^ b) ^ d;
  }

  lemma XorCancel(a: Word, b: Word, d: Word)
    ensures Xor(Xor(Xor(a, b), d), a) == Xor(b, d)
  {
    hide Xor;
    XorComm(Xor(Xor(a, b), d), a);
    XorAssoc(a, b, d);
    XorAssoc(a, a, Xor(b, d));
    XorSelf(a);
    XorZero(Xor(b, d));
  }

  lemma XorComm(a: Word, b: Word)
    ensures Xor(a, b) == Xor(b, a)
  {}

  lemma XorSelf(a: Word)
    ensures Xor(a, a) == 0
  {}

  /** Sliding a full window by one byte: the update in `Split` removes the byte
      that leaves and adds the one that enters, for every window size. */
  lemma DirectSlide(t: Table, s: Bytes, b: byte)
    requires s != []
    ensures Direct(t, s[1..] + [b])
         == Xor(Xor(Rot1(Direct(t, s)), t[b]), Rot(t[s[0]], |s| % 64))
  {
    hide Xor, Rot1;
    var leaving, rest := Rot(t[s[0]], |s|), Direct(t, s[1..]);
    RotPeriodic(t[s[0]], |s|);
    Rot1Xor(Rot(t[s[0]], |s| - 1), rest);
    DirectSnoc(t, s[1..], b);
    XorCancel(leaving, Rot1(rest), t[b]);
  }

  /** The test `Split` makes after every byte. */
  predicate CutNow(c: Config, fill: nat, seen: nat, fingerprint: Word)
    requires c.Accepted()
  {
    || fill >= c.maxSize
    || (fill >= c.minSize && seen >= c.window && Clears(fingerprint, OfNat(c.targetSize - 1)))
  }

  lemma TargetFits(c: Config)
    ensures c.targetSize < Pow2(63)
  {}

  /** The masked test on the rolling fingerprint is the declarative cut. */
  lemma CutNowIsCutAt(c: Config, t: Table, data: Bytes, start: nat, seen: nat, fingerprint: Word)
    requires c.Accepted() && start <= |data|
    requires seen == Min(|data|, c.window) && fingerprint == Direct(t, data[|data| - seen..])
    ensures CutNow(c, |data| - start, seen, fingerprint) <==> CutAt(c, t, data, start, |data|)
  {
    hide Clears, Value, Divides, Direct, Config.Accepted, IsPow2, OfNat, Pow2;
    AcceptedMeaning(c);
    TargetFits(c);
    MaskIsModulus(fingerprint, c.targetSize);
    assert data[|data| - seen..|data|] == data[|data| - seen..];
  }

  function Min(a: int, b: int): int {
    if a < b then a else b
  }

  /** The contents of a ring buffer whose oldest byte is at `pos`. */
  ghost function Unwound(w: Bytes, pos: nat): Bytes
    requires pos <= |w|
  {
    w[pos..] + w[..pos]
  }

  lemma UnwoundZero(w: Bytes)
    ensures Unwound(w, 0) == w
  {}

  lemma RingStep(w: Bytes, pos: nat, b: byte)
    requires pos < |w|
    ensures Unwound(w[pos := b], (pos + 1) % |w|) == Unwound(w, pos)[1..] + [b]
    ensures Unwound(w, pos)[0] == w[pos]
  {
    if pos + 1 == |w| {
      assert (pos + 1) % |w| == 0;
      RingWraps(w, b);
    } else {
      assert (pos + 1) % |w| == pos + 1;
      RingTurns(w, pos, b);
    }
  }

  lemma RingWraps(w: Bytes, b: byte)
    requires w != []
    ensures Unwound(w[|w| - 1 := b], 0) == Unwound(w, |w| - 1)[1..] + [b]
  {
    var pos := |w| - 1;
    assert w[pos := b] == w[..pos] + [b];
    assert Unwound(w, pos) == [w[pos]] + w[..pos];
    UnwoundZero(w[pos := b]);
  }

  lemma RingTurns(w: Bytes, pos: nat, b: byte)
    requires pos + 1 < |w|
    ensures Unwound(w[pos := b], pos + 1) == Unwound(w, pos)[1..] + [b]
  {
    var v := w[pos := b];
    assert v[pos + 1..] == w[pos + 1..] && v[..pos + 1] == w[..pos] + [b];
    assert Unwound(w, pos) == [w[pos]] + (w[pos + 1..] + w[..pos]);
  }

  /** Ring buffer and fingerprint after a full window has moved on by one byte. */
  lemma SlideIs(t: Table, w: Bytes, pos: nat, consumed: Bytes, b: byte)
    requires pos < |w| <= |consumed| && Unwound(w, pos) == consumed[|consumed| - |w|..]
    ensures var next := (consumed + [b])[|consumed| + 1 - |w|..];
            && Unwound(w[pos := b], (pos + 1) % |w|) == next
            && Direct(t, next) == Xor(Xor(Rot1(Direct(t, consumed[|consumed| - |w|..])), t[b]),
                                      Rot(t[w[pos]], |w| % 64))
  {
    hide Xor, Rot1, Rot, Direct, Unwound;
    var tail := consumed[|consumed| - |w|..];
    DirectSlide(t, tail, b);
    RingStep(w, pos, b);
    assert (consumed + [b])[|consumed| + 1 - |w|..] == tail[1..] + [b];
  }

  /** `len` bytes at the front of a backing array. */
  datatype Slice = Slice(arr: array<byte>, len: nat)

  ghost predicate Holds(s: Slice, content: Bytes)
    reads s.arr
  {
    s.len <= s.arr.Length && s.arr[..s.len] == content
  }

  /* ---- reading and emitting ---- */

  datatype Ending = More | Eof | Broken

  /** One call to the reader: the bytes it delivered and what it said after them. */
  datatype Read = Read(bytes: Bytes, ending: Ending)

  datatype SplitResult = Done | BadConfig | ReadFailed | EmitFailed

  /** A reader that ends: its last call, and no earlier one, is not `More`. */
  ghost predicate Ends(calls: seq<Read>) {
    calls != [] && forall k :: 0 <= k < |calls| ==> (calls[k].ending.More? <==> k < |calls| - 1)
  }

  /** The stream, however the reader slices it. */
  function Stream(calls: seq<Read>): Bytes {
    if calls == [] then [] else calls[0].bytes + Stream(calls[1..])
  }

  /** One call more: it is the last one exactly if it says so. */
  lemma StreamNext(calls: seq<Read>, r: nat)
    requires Ends(calls) && r < |calls|
    ensures Stream(calls[r..]) == calls[r].bytes + Stream(calls[r + 1..])
    ensures calls[r].ending.More? ==> r + 1 < |calls|
    ensures !calls[r].ending.More? ==> r == |calls| - 1 && Stream(calls[r + 1..]) == []
  {
    assert calls[r..][1..] == calls[r + 1..];
  }

  lemma HasCalls(calls: seq<Read>)
    requires Ends(calls)
    ensures calls != []
  {}

  lemma StreamPart(consumed: Bytes, bytes: Bytes, rest: Bytes)
    ensures consumed + (bytes + rest) == consumed + bytes + rest
    ensures consumed + bytes <= consumed + (bytes + rest)
    ensures rest == [] ==> consumed + (bytes + rest) == consumed + bytes
  {}

  lemma CutAtPrefix(c: Config, t: Table, data: Bytes, start: nat, end: nat)
    requires c.Accepted() && start <= end <= |data|
    ensures CutAt(c, t, data[..end], start, end) == CutAt(c, t, data, start, end)
  {
    AcceptedMeaning(c);
    hide Divides, Value, Direct, Clears;
    if end >= c.window {
      assert data[..end][end - c.window..end] == data[end - c.window..end];
    }
  }

  lemma PiecesCut(c: Config, t: Table, data: Bytes, start: nat, end: nat, tail: bool)
    requires c.Accepted() && start < end <= |data|
    requires forall j :: start < j < end ==> !CutAt(c, t, data, start, j)
    requires CutAt(c, t, data, start, end) || (tail && end == |data|)
    ensures Pieces(c, t, data, start, tail) == [data[start..end]] + Pieces(c, t, data, end, tail)
  {
    NextEndIs(c, t, data, start, start + 1, end);
    hide CutAt;
  }

  lemma PiecesEnd(c: Config, t: Table, data: Bytes, start: nat)
    requires c.Accepted() && start <= |data|
    requires forall j :: start < j <= |data| ==> !CutAt(c, t, data, start, j)
    ensures Pieces(c, t, data, start, false) == []
  {
    if start < |data| {
      NextEndIs(c, t, data, start, start + 1, |data|);
      hide CutAt;
    }
  }

  /** What has been emitted so far is what the specification puts before the
      current chunk, and the current chunk has met no cut. */
  ghost predicate Progress(c: Config, t: Table, data: Bytes, tail: bool, outs: seq<Bytes>, start: nat, at: nat)
    requires c.Accepted()
  {
    && start <= at <= |data|
    && Pieces(c, t, data, 0, tail) == outs + Pieces(c, t, data, start, tail)
    && forall j :: start < j <= at ==> !CutAt(c, t, data, start, j)
  }

  lemma ProgressCut(c: Config, t: Table, data: Bytes, tail: bool, outs: seq<Bytes>, start: nat, at: nat)
    requires c.Accepted() && start < at <= |data|
    requires Progress(c, t, data, tail, outs, start, at - 1)
    requires CutAt(c, t, data, start, at) || (tail && at == |data|)
    ensures Progress(c, t, data, tail, outs + [data[start..at]], at, at)
    ensures outs + [data[start..at]] <= Pieces(c, t, data, 0, tail)
  {
    hide CutAt, Pieces, Config.Accepted;
    PiecesCut(c, t, data, start, at, tail);
    var next := Pieces(c, t, data, at, tail);
    assert outs + ([data[start..at]] + next) == (outs + [data[start..at]]) + next;
  }

  lemma ProgressGoesOn(c: Config, t: Table, data: Bytes, tail: bool, outs: seq<Bytes>, start: nat, at: nat)
    requires c.Accepted() && start < at <= |data| && !CutAt(c, t, data, start, at)
    requires Progress(c, t, data, tail, outs, start, at - 1)
    ensures Progress(c, t, data, tail, outs, start, at)
  {
    hide CutAt, Pieces, Config.Accepted;
  }

  lemma ProgressEnd(c: Config, t: Table, data: Bytes, outs: seq<Bytes>, start: nat)
    requires c.Accepted() && Progress(c, t, data, false, outs, start, |data|)
    ensures outs == Pieces(c, t, data, 0, false)
  {
    PiecesEnd(c, t, data, start);
    hide CutAt, Pieces;
  }

  /** Every piece before the k-th was accepted when it was emitted. */
  ghost predicate AllAccepted(accept: (seq<Bytes>, Bytes) -> bool, pieces: seq<Bytes>) {
    forall k :: 0 <= k < |pieces| ==> accept(pieces[..k], pieces[k])
  }

  lemma AcceptedSnoc(accept: (seq<Bytes>, Bytes) -> bool, pieces: seq<Bytes>, p: Bytes)
    requires AllAccepted(accept, pieces) && accept(pieces, p)
    ensures AllAccepted(accept, pieces + [p])
  {
    forall k | 0 <= k < |pieces + [p]|
      ensures accept((pieces + [p])[..k], (pieces + [p])[k])
    {
      assert (pieces + [p])[..k] == pieces[..k];
      assert pieces[..|pieces|] == pieces;
    }
  }

  lemma NothingEmitted(accept: (seq<Bytes>, Bytes) -> bool)
    ensures AllHold([], []) && Separate([]) && AllAccepted(accept, [])
  {}

  ghost predicate AllHold(slices: seq<Slice>, contents: seq<Bytes>)
    reads set s | s in slices :: s.arr
  {
    |slices| == |contents| && forall k :: 0 <= k < |slices| ==> Holds(slices[k], contents[k])
  }

  ghost predicate Separate(slices: seq<Slice>) {
    forall j, k :: 0 <= j < k < |slices| ==> slices[j].arr != slices[k].arr
  }

  /* ---- the splitter ---- */

  /** The state `Split` keeps between bytes. */
  class Splitter {
    const cfg: Config
    const table: Table
    var buf: array<byte>
    var fill: nat
    const window: array<byte>
    var seen: nat
    var pos: nat
    var fingerprint: Word
    const accept: (seq<Bytes>, Bytes) -> bool
    var emitted: seq<Slice>
    var outs: seq<Bytes>
    ghost var consumed: Bytes
    ghost var start: nat
    ghost var repr: set<object>

    ghost predicate Valid()
      reads `buf, `fill, `seen, `pos, `fingerprint, `consumed, `start, buf, window
    {
      cfg.Accepted() && buf != window && BufferValid() && WindowValid()
    }

    /** The buffer holds what was consumed since the last cut. */
    ghost predicate BufferValid()
      reads `buf, `fill, `consumed, `start, buf
    {
      && buf.Length == cfg.maxSize > 0
      && start + fill == |consumed|
      && fill <= buf.Length
      && buf[..fill] == consumed[start..]
    }

    /** The window holds the last bytes consumed, whether or not a cut lies
        among them, and the fingerprint is the fingerprint of those bytes. */
    ghost predicate WindowValid()
      reads `seen, `pos, `fingerprint, `consumed, window
    {
      && window.Length == cfg.window > 0
      && seen == Min(|consumed|, cfg.window)
      && pos < cfg.window
      && (seen < cfg.window ==> pos == 0)
      && Ring() == consumed[|consumed| - seen..]
      && fingerprint == Direct(table, consumed[|consumed| - seen..])
    }

    /** The window's bytes, oldest first. */
    ghost function Ring(): Bytes
      requires seen <= window.Length && pos <= window.Length
      requires seen < window.Length ==> pos == 0
      reads `seen, `pos, window
    {
      if seen < window.Length then window[..seen] else Unwound(window[..], pos)
    }

    /** The emitted slices hold the accepted chunks, in arrays of their own. */
    ghost predicate EmittedValid()
      reads this, repr
    {
      && this in repr && buf in repr && window in repr
      && (forall s :: s in emitted ==> s.arr in repr)
      && AllHold(emitted, outs)
      && Separate(emitted)
      && AllAccepted(accept, outs)
      && forall s :: s in emitted ==> s.arr != buf && s.arr != window
    }

    constructor (c: Config, t: Table, acc: (seq<Bytes>, Bytes) -> bool)
      requires c.Accepted()
      ensures Valid() && EmittedValid() && fresh(buf) && fresh(window)
      ensures cfg == c && table == t && accept == acc
      ensures consumed == [] && start == 0 && outs == [] && emitted == [] && fill < c.maxSize
      ensures fresh(repr)
    {
      hide *;
      AcceptedSizes(c);
      cfg, table, accept := c, t, acc;
      emitted, outs := [], [];
      buf := new byte[c.maxSize];
      fill := 0;
      window := new byte[c.window];
      seen, pos, fingerprint := 0, 0, 0;
      consumed, start := [], 0;
      repr := {this, buf, window};
      new;
      StartsValid();
    }

    lemma StartsValid()
      requires cfg.Accepted() && {this, buf, window} <= repr && buf != window
      requires buf.Length == cfg.maxSize && window.Length == cfg.window
      requires fill == 0 && seen == 0 && pos == 0 && fingerprint == 0
      requires consumed == [] && start == 0 && emitted == [] && outs == []
      ensures Valid() && EmittedValid() && fill < cfg.maxSize
    {
      hide Config.Accepted, BufferValid, WindowValid, AllHold, Separate, AllAccepted;
      AcceptedSizes(cfg);
      StartsWindow();
      StartsBuffer();
      NothingEmitted(accept);
    }

    lemma StartsWindow()
      requires window.Length == cfg.window > 0 && seen == 0 && pos == 0 && fingerprint == 0 && consumed == []
      ensures WindowValid()
    {
      hide Unwound;
    }

    lemma StartsBuffer()
      requires buf.Length == cfg.maxSize > 0 && fill == 0 && consumed == [] && start == 0
      ensures BufferValid()
    {}

    /** Moves the window on by one byte while it is still filling. */
    method Extend(b: byte)
      requires WindowValid() && seen < cfg.window
      modifies `seen, `fingerprint, `consumed, window
      ensures WindowValid() && consumed == old(consumed) + [b]
    {
      hide *;
      FillingIs();
      DirectSnoc(table, consumed, b);
      assert (window[..][seen := b])[..seen + 1] == window[..seen] + [b];
      window[seen] := b;
      assert window[..] == old(window[..])[old(seen) := b];
      seen := seen + 1;
      fingerprint := Xor(Rot1(fingerprint), table[b]);
      consumed := consumed + [b];
      FilledValid();
    }

    /** While the window fills, it holds everything consumed. */
    lemma FillingIs()
      requires WindowValid() && seen < cfg.window
      ensures seen == |consumed| < window.Length == cfg.window && pos == 0
      ensures window[..seen] == consumed && fingerprint == Direct(table, consumed)
    {
      hide Direct, Unwound;
      assert consumed[0..] == consumed;
    }

    lemma FilledValid()
      requires 0 < seen == |consumed| <= window.Length == cfg.window && pos == 0
      requires window[..seen] == consumed && fingerprint == Direct(table, consumed)
      ensures WindowValid()
    {
      hide Direct;
      assert consumed[0..] == consumed;
      assert Unwound(window[..], 0) == window[..] == window[..window.Length];
    }

    /** Moves a full window on by one byte: the oldest one leaves. */
    method Slide(b: byte)
      requires WindowValid() && seen == cfg.window
      modifies `pos, `fingerprint, `consumed, window
      ensures WindowValid() && consumed == old(consumed) + [b]
    {
      hide Xor, Rot1, Rot, Direct, Unwound;
      SlideIs(table, window[..], pos, consumed, b);
      var out := window[pos];
      window[pos] := b;
      pos := (pos + 1) % cfg.window;
      fingerprint := Xor(Xor(Rot1(fingerprint), table[b]), Rot(table[out], cfg.window % 64));
      consumed := consumed + [b];
      assert window[..] == old(window[..])[old(pos) := b];
    }

    method Roll(b: byte)
      requires WindowValid()
      modifies `seen, `pos, `fingerprint, `consumed, window
      ensures WindowValid() && consumed == old(consumed) + [b]
    {
      hide Unwound, Direct;
      if seen < cfg.window {
        Extend(b);
      } else {
        Slide(b);
      }
    }

    /** Appends one byte to the buffer. */
    method Append(b: byte)
      requires BufferValid() && fill < buf.Length
      modifies `fill, buf
      ensures buf.Length == cfg.maxSize && start + fill == |consumed| + 1 && fill <= buf.Length
      ensures buf[..fill] == (consumed + [b])[start..]
    {
      buf[fill] := b;
      fill := fill + 1;
    }

    /** Takes one byte; `cut` tells whether the current chunk ends with it. */
    method Feed(b: byte) returns (cut: bool)
      requires Valid() && fill < cfg.maxSize
      modifies `fill, `seen, `pos, `fingerprint, `consumed, buf, window
      ensures Valid() && buf == old(buf)
      ensures consumed == old(consumed) + [b] && start == old(start)
      ensures cut == CutAt(cfg, table, consumed, start, |consumed|)
      ensures !cut ==> fill < cfg.maxSize
    {
      hide CutAt, Direct, Config.Accepted, Unwound;
      Append(b);
      Roll(b);
      CutNowIsCutAt(cfg, table, consumed, start, seen, fingerprint);
      cut := CutNow(cfg, fill, seen, fingerprint);
    }

    /** Hands the buffer over and starts a new one. */
    method Flush() returns (s: Slice)
      requires Valid() && fill > 0
      modifies `buf, `fill, `start
      ensures Valid() && fresh(buf)
      ensures consumed == old(consumed) && start == |consumed| && fill == 0
      ensures s == Slice(old(buf), old(fill)) && Holds(s, old(consumed[start..]))
    {
      s := Slice(buf, fill);
      buf := new byte[cfg.maxSize];
      fill := 0;
      start := |consumed|;
    }

    /** `flush`: emits the current chunk; on an error nothing counts as emitted. */
    method Emit() returns (ok: bool)
      requires Valid() && EmittedValid() && fill > 0 && start <= |consumed|
      modifies `buf, `fill, `start, `emitted, `outs, `repr
      ensures Valid() && EmittedValid() && consumed == old(consumed) && fill == 0 && start == |consumed|
      ensures ok == accept(old(outs), old(consumed[start..]))
      ensures repr == old(repr) + {buf} && fresh(buf)
      ensures ok ==>
                outs == old(outs) + [old(consumed[start..])] && emitted == old(emitted) + [Slice(old(buf), old(fill))]
      ensures !ok ==> outs == old(outs) && emitted == old(emitted)
    {
      hide BufferValid, WindowValid, AllAccepted, Config.Accepted;
      var s := Flush();
      repr := repr + {buf};
      var piece := s.arr[..s.len];
      ok := accept(outs, piece);
      if ok {
        AcceptedSnoc(accept, outs, piece);
        emitted, outs := emitted + [s], outs + [piece];
      }
    }

    /** What both loops keep: `consumed` is the part of the stream `data` read
        so far and the emitted chunks are right for it. */
    ghost predicate Running(data: Bytes, tail: bool)
      reads this, repr
    {
      && EmittedValid() && Valid() && fill < cfg.maxSize
      && consumed <= data
      && Progress(cfg, table, data, tail, outs, start, |consumed|)
    }

    /** The next byte, with what has been emitted so far left alone. */
    method Next(b: byte) returns (cut: bool)
      requires Valid() && EmittedValid() && fill < cfg.maxSize
      modifies `fill, `seen, `pos, `fingerprint, `consumed, buf, window
      ensures Valid() && EmittedValid() && buf == old(buf)
      ensures consumed == old(consumed) + [b] && start == old(start) < |consumed| && fill > 0
      ensures cut == CutAt(cfg, table, consumed, start, |consumed|)
      ensures !cut ==> fill < cfg.maxSize
    {
      hide CutAt, Direct, Config.Accepted, WindowValid, AllAccepted, Separate;
      cut := Feed(b);
    }

    /** One turn of the inner loop: the next byte of the stream `data`. */
    method Take(b: byte, ghost data: Bytes, ghost tail: bool) returns (ok: bool)
      requires Running(data, tail) && consumed + [b] <= data
      modifies this, buf, window
      ensures EmittedValid() && {this, buf, window} <= repr && fresh(repr - old(repr))
      ensures ok ==> Running(data, tail) && consumed == old(consumed) + [b]
      ensures !ok ==> cfg.Accepted() && Refused(outs, Pieces(cfg, table, data, 0, tail))
    {
      hide *;
      RunningIs(data, tail);
      var cut := Next(b);
      assert data[..|consumed|] == consumed;
      StillAccepted();
      CutAtPrefix(cfg, table, data, start, |consumed|);
      ok := true;
      if cut {
        ProgressCut(cfg, table, data, tail, outs, start, |consumed|);
        assert data[start..|consumed|] == consumed[start..];
        ghost var before, piece, at := outs, consumed[start..], start;
        ok := Emit();
        StillAccepted();
        if !ok {
          RefusesNext(before, piece, Pieces(cfg, table, data, 0, tail));
        }
      } else {
        ProgressGoesOn(cfg, table, data, tail, outs, start, |consumed|);
      }
      if ok {
        IsRunning(data, tail);
      }
    }

    lemma RunningIs(data: Bytes, tail: bool)
      requires Running(data, tail)
      ensures EmittedValid() && Valid() && fill < cfg.maxSize && consumed <= data && cfg.Accepted()
      ensures start <= |consumed| && {this, buf, window} <= repr
      ensures Progress(cfg, table, data, tail, outs, start, |consumed|)
    {
      hide CutAt, Config.Accepted, BufferValid, WindowValid, AllHold, Separate, AllAccepted, Pieces;
    }

    lemma IsRunning(data: Bytes, tail: bool)
      requires EmittedValid() && Valid() && fill < cfg.maxSize && consumed <= data && cfg.Accepted()
      requires Progress(cfg, table, data, tail, outs, start, |consumed|)
      ensures Running(data, tail)
    {
      hide EmittedValid, Valid, Progress;
    }

    lemma StillAccepted()
      requires Valid() && EmittedValid()
      ensures cfg.Accepted() && cfg.maxSize > 0 && {this, buf, window} <= repr
    {
      hide BufferValid, WindowValid, AllHold, Separate, AllAccepted;
      AcceptedSizes(cfg);
    }

    lemma RefusesNext(before: seq<Bytes>, piece: Bytes, all: seq<Bytes>)
      requires before + [piece] <= all && !accept(before, piece)
      ensures Refused(before, all)
    {}

    /** The inner loop: the bytes one call to the reader delivered. */
    method TakeAll(bytes: Bytes, ghost data: Bytes, ghost tail: bool) returns (ok: bool)
      requires Running(data, tail) && EmittedValid() && {this, buf, window} <= repr
      requires consumed + bytes <= data
      modifies repr
      ensures EmittedValid() && {this, buf, window} <= repr && fresh(repr - old(repr))
      ensures ok ==> Running(data, tail) && consumed == old(consumed) + bytes
      ensures !ok ==> cfg.Accepted() && Refused(outs, Pieces(cfg, table, data, 0, tail))
    {
      hide *;
      ok := true;
      var j := 0;
      while j < |bytes|
        invariant 0 <= j <= |bytes|
        invariant Running(data, tail) && EmittedValid()
        invariant {this, buf, window} <= repr && fresh(repr - old(repr))
        invariant consumed == old(consumed) + bytes[..j]
      {
        assert consumed + [bytes[j]] <= data;
        ok := Take(bytes[j], data, tail);
        if !ok {
          return;
        }
        j := j + 1;
      }
    }

    /** The flush at the end of the stream. */
    method Finish(ghost data: Bytes) returns (ok: bool)
      requires Running(data, true) && consumed == data
      modifies this
      ensures EmittedValid() && {this, buf, window} <= repr && fresh(repr - old(repr))
      ensures cfg.Accepted()
      ensures ok ==> outs == Pieces(cfg, table, data, 0, true)
      ensures !ok ==> Refused(outs, Pieces(cfg, table, data, 0, true))
    {
      hide CutAt, Direct, Config.Accepted;
      ok := true;
      if fill > 0 {
        assert Progress(cfg, table, data, true, outs, start, |data| - 1);
        ProgressCut(cfg, table, data, true, outs, start, |data|);
        assert data[start..|data|] == consumed[start..];
        ok := Emit();
      }
    }

    lemma Started(data: Bytes, tail: bool)
      requires EmittedValid() && Valid() && fill < cfg.maxSize
      requires consumed == [] && outs == [] && start == 0
      ensures Running(data, tail)
    {}

    /** A failed read ends the stream: the unfinished chunk is not emitted. */
    lemma Stopped(data: Bytes)
      requires Running(data, false) && consumed == data
      ensures EmittedValid() && cfg.Accepted() && outs == Pieces(cfg, table, data, 0, false)
    {
      ProgressEnd(cfg, table, data, outs, start);
      hide CutAt, Direct, Pieces, Progress;
    }

    /** The chunks emitted are the first of `all`, and the callback refuses the next. */
    ghost predicate Refused(outs: seq<Bytes>, all: seq<Bytes>) {
      outs < all && !accept(outs, all[|outs|])
    }

    /** What has been emitted agrees with how the call ended. */
    ghost predicate EndsRight(result: SplitResult, all: seq<Bytes>, last: Ending)
      reads this
    {
      match result
      case Done => outs == all && last.Eof?
      case ReadFailed => outs == all && last.Broken?
      case EmitFailed => Refused(outs, all)
      case BadConfig => false
    }

    /** The outer loop, over the calls to the reader. */
    method Run(calls: seq<Read>) returns (result: SplitResult)
      requires Ends(calls) && Running(Stream(calls), calls[|calls| - 1].ending.Eof?) && consumed == []
      modifies repr
      ensures EmittedValid() && fresh(repr - old(repr)) && cfg.Accepted()
      ensures EndsRight(result, Pieces(cfg, table, Stream(calls), 0, calls[|calls| - 1].ending.Eof?),
                        calls[|calls| - 1].ending)
    {
      hide *;
      HasCalls(calls);
      ghost var data, tail := Stream(calls), calls[|calls| - 1].ending.Eof?;
      RunningIs(data, tail);
      var r := 0;
      assert calls[0..] == calls;
      while true
        invariant 0 <= r < |calls|
        invariant Running(data, tail) && EmittedValid() && {this, buf, window} <= repr && fresh(repr - old(repr))
        invariant data == consumed + Stream(calls[r..])
        decreases |calls| - r
      {
        StreamNext(calls, r);
        StreamPart(consumed, calls[r].bytes, Stream(calls[r + 1..]));
        ghost var before := consumed;
        var ok := TakeAll(calls[r].bytes, data, tail);
        if !ok {
          RightEnd(EmitFailed, Pieces(cfg, table, data, 0, tail), calls[|calls| - 1].ending);
          return EmitFailed;
        }
        RunningIs(data, tail);
        if calls[r].ending.Eof? {
          ok := Finish(data);
          result := if ok then Done else EmitFailed;
          RightEnd(result, Pieces(cfg, table, data, 0, tail), calls[|calls| - 1].ending);
          return;
        }
        if calls[r].ending.Broken? {
          Stopped(data);
          RightEnd(ReadFailed, Pieces(cfg, table, data, 0, tail), calls[|calls| - 1].ending);
          return ReadFailed;
        }
        r := r + 1;
      }
    }

    lemma RightEnd(result: SplitResult, all: seq<Bytes>, last: Ending)
      requires result.Done? ==> outs == all && last.Eof?
      requires result.ReadFailed? ==> outs == all && last.Broken?
      requires result.EmitFailed? ==> Refused(outs, all)
      requires !result.BadConfig?
      ensures EndsRight(result, all, last)
    {}

    lemma EmittedIs()
      requires EmittedValid()
      ensures AllHold(emitted, outs) && Separate(emitted) && AllAccepted(accept, outs)
      ensures forall s :: s in emitted ==> s.arr in repr
    {
      hide AllHold, Separate, AllAccepted;
    }
  }

  /** Splits the stream that the reader's calls deliver. `accept` stands for the
      callback: given the chunks emitted before, does it take this one without
      an error? The emitted slices are fresh, share no backing array, and still
      hold their chunks when `Split` returns: no emitted buffer is written again. */
  method Split(calls: seq<Read>, c: Config, t: Table, accept: (seq<Bytes>, Bytes) -> bool)
    returns (emitted: seq<Slice>, outs: seq<Bytes>, result: SplitResult)
    requires Ends(calls)
    ensures result.BadConfig? <==> !c.Accepted()
    ensures result.BadConfig? ==> emitted == []
    ensures AllHold(emitted, outs) && Separate(emitted)
    ensures forall s :: s in emitted ==> fresh(s.arr)
    ensures AllAccepted(accept, outs)
    ensures c.Accepted() ==>
              var all := Pieces(c, t, Stream(calls), 0, calls[|calls| - 1].ending.Eof?);
              && (result.Done? ==> outs == all && calls[|calls| - 1].ending.Eof?)
              && (result.ReadFailed? ==> outs == all && calls[|calls| - 1].ending.Broken?)
              && (result.EmitFailed? ==> outs < all && !accept(outs, all[|outs|]))
  {
    hide CutAt, Config.Accepted, AllHold, Separate, AllAccepted, Pieces, Splitter.Valid, Splitter.EmittedValid,
      Splitter.Running;
    if !c.Accepted() {
      NothingEmitted(accept);
      return [], [], BadConfig;
    }
    var sp := new Splitter(c, t, accept);
    sp.StillAccepted();
    sp.Started(Stream(calls), calls[|calls| - 1].ending.Eof?);
    result := sp.Run(calls);
    sp.EmittedIs();
    return sp.emitted, sp.outs, result;
  }
}
