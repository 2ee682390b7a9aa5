/// The bitmap run by one thread: chunks, the chunkmap that summarises them, and
/// the searches. Retries of a lost compare-and-swap do not arise.

module Bitmap {
  import opened Wrappers
  import opened Words
  import opened Bits
  import opened Chunk

  /// The chunk holding bit `i` may be skipped only if it is empty.
  ghost predicate Sound(words: seq<Word>, map_: seq<Word>, cc: nat)
    requires |words| == 8 * cc && |map_| == 8 && cc <= 512
  {
    forall c: nat :: c < cc ==> Summarised(words, map_, c)
  }

  ghost predicate Summarised(words: seq<Word>, map_: seq<Word>, c: nat)
    requires 8 * c + 8 <= |words| && |map_| == 8 && c < 512
  {
    AllClear(words, 512 * c, 512) || BitAt(map_, c)
  }

  /// The summary is exact: a chunk's bit is set iff the chunk is not empty.
  ghost predicate Exact(words: seq<Word>, map_: seq<Word>, cc: nat)
    requires |words| == 8 * cc && |map_| == 8 && cc <= 512
  {
    forall c: nat :: c < cc ==> (BitAt(map_, c) <==> !AllClear(words, 512 * c, 512))
  }

  ghost predicate ExactBut(words: seq<Word>, map_: seq<Word>, cc: nat, but: nat)
    requires |words| == 8 * cc && |map_| == 8 && cc <= 512
  {
    forall c: nat :: c < cc && c != but ==> (BitAt(map_, c) <==> !AllClear(words, 512 * c, 512))
  }

  lemma OtherChunkKept(a: seq<Word>, a': seq<Word>, c: nat, lo: nat, n: nat, d: nat)
    requires WithSet(a, a', lo, n) || WithClear(a, a', lo, n)
    requires 512 * c <= lo && lo + n <= 512 * c + 512 && d != c && 8 * d + 8 <= |a|
    ensures AllClear(a', 512 * d, 512) <==> AllClear(a, 512 * d, 512)
  {
    forall i: nat | 512 * d <= i < 512 * d + 512 ensures BitAt(a', i) == BitAt(a, i) {
    }
  }

  lemma ChunkWords(a: seq<Word>, a': seq<Word>, m: seq<Word>, cc: nat, c: nat, lo: nat, n: nat)
    requires |a| == 8 * cc && |m| == 8 && c < cc <= 512
    requires WithSet(a, a', lo, n) || WithClear(a, a', lo, n)
    requires 512 * c <= lo && lo + n <= 512 * c + 512
    requires Exact(a, m, cc)
    ensures ExactBut(a', m, cc, c)
  {
    forall d: nat | d < cc && d != c ensures BitAt(m, d) <==> !AllClear(a', 512 * d, 512) {
      OtherChunkKept(a, a', c, lo, n, d);
    }
  }

  lemma MapBit(a: seq<Word>, m: seq<Word>, m': seq<Word>, cc: nat, c: nat)
    requires |a| == 8 * cc && |m| == |m'| == 8 && c < cc <= 512
    requires ExactBut(a, m, cc, c)
    requires forall d: nat :: d < 512 && d != c ==> (BitAt(m', d) <==> BitAt(m, d))
    requires BitAt(m', c) <==> !AllClear(a, 512 * c, 512)
    ensures Exact(a, m', cc)
  {
    forall d: nat | d < cc ensures BitAt(m', d) <==> !AllClear(a, 512 * d, 512) {
      if d != c { assert BitAt(m', d) == BitAt(m, d); }
    }
  }

  class Bitmap {
    const cc: nat
    const words: array<Word>
    const chunkmap: array<Word>

    ghost predicate Valid()
      reads words, chunkmap
    {
      && 1 <= cc <= CHUNK_BITS
      && words.Length == 8 * cc && chunkmap.Length == 8 && words != chunkmap
      && Exact(words[..], chunkmap[..], cc)
    }

    constructor (cc: nat)
      requires 1 <= cc <= CHUNK_BITS
      ensures Valid() && fresh(words) && fresh(chunkmap) && this.cc == cc
      ensures AllClear(words[..], 0, 512 * cc)
    {
      this.cc := cc;
      words := new Word[8 * cc](_ => 0);
      chunkmap := new Word[8](_ => 0);
      new;
      forall i: nat | i < 64 * (8 * cc) ensures !BitAt(words[..], i) { BitOfZero(i % 64); }
      forall i: nat | i < 512 ensures !BitAt(chunkmap[..], i) { BitOfZero(i % 64); }
    }

    method ChunkmapSet(c: nat)
      requires 1 <= cc <= CHUNK_BITS && words.Length == 8 * cc && chunkmap.Length == 8 && words != chunkmap
      requires c < cc && ExactBut(words[..], chunkmap[..], cc, c) && !AllClear(words[..], 512 * c, 512)
      modifies chunkmap
      ensures Valid()
    {
      ghost var m := chunkmap[..];
      var _ := SetMask(chunkmap, c / 64, 1, c % 64);
      assert 64 * (c / 64) + c % 64 == c;
      MapBit(words[..], m, chunkmap[..], cc, c);
    }

    /// Makes the summary of chunk `c` exact. The re-check after clearing the bit
    /// finds nothing new when run alone.
    method ChunkmapClearIfEmpty(c: nat)
      requires 1 <= cc <= CHUNK_BITS && words.Length == 8 * cc && chunkmap.Length == 8 && words != chunkmap
      requires c < cc && Summarised(words[..], chunkmap[..], c)
      modifies chunkmap
      ensures BitAt(chunkmap[..], c) <==> !AllClear(words[..], 512 * c, 512)
      ensures forall d: nat :: d < 512 && d != c ==> (BitAt(chunkmap[..], d) <==> BitAt(old(chunkmap[..]), d))
    {
      var empty := IsAllClear(words, c);
      if !empty {
        return;
      }
      assert 64 * (c / 64) + c % 64 == c;
      ghost var m := chunkmap[..];
      var cleared := TryClearMask(chunkmap, c / 64, 1, c % 64);
      if cleared {
        // The re-check; a chunk that filled up meanwhile would get its bit back.
        empty := IsAllClear(words, c);
        assert empty;
      } else {
        assert !BitAt(m, c);
      }
    }

    /// Set a run within one chunk; tells whether it was all clear before.
    method SetBits(idx: nat, n: nat) returns (wasClear: bool)
      requires Valid() && n >= 1 && idx % 512 + n <= 512 && idx + n <= 512 * cc
      modifies words, chunkmap
      ensures Valid() && WithSet(old(words[..]), words[..], idx, n)
      ensures wasClear <==> AllClear(old(words[..]), idx, n)
    {
      var c, b := idx / 512, idx % 512;
      ghost var was := words[..];
      wasClear := IsClearN(words, c, b, n);
      SetN(words, c, b, n);
      assert 512 * c + b == idx;
      ChunkWords(was, words[..], chunkmap[..], cc, c, idx, n);
      assert BitAt(words[..], idx);
      ChunkmapSet(c);
    }

    /// Set a run that may cross chunks (initialisation only).
    method UnsafeSetN(idx: nat, n: nat)
      requires Valid() && idx + n <= 512 * cc
      modifies words, chunkmap
      ensures Valid() && WithSet(old(words[..]), words[..], idx, n)
    {
      ghost var was := words[..];
      var remaining: nat, bit: nat := n, idx;
      while remaining > 0
        invariant bit + remaining == idx + n && idx <= bit
        invariant Valid() && WithSet(was, words[..], idx, bit - idx)
      {
        var here := Min(remaining, 512 - bit % 512);
        ghost var before := words[..];
        var _ := SetBits(bit, here);
        SetJoins(was, before, words[..], idx, bit - idx, here);
        bit, remaining := bit + here, remaining - here;
      }
      assert bit - idx == n;
    }

    /// Is the whole run within one chunk, and set?
    method AreSet(idx: nat, n: nat) returns (all: bool)
      requires Valid() && idx < 512 * cc
      ensures all <==> idx % 512 + n <= 512 && AllSet(words[..], idx, n)
    {
      var c, b := idx / 512, idx % 512;
      if b + n > CHUNK_BITS { return false; }
      all := IsSetN(words, c, b, n);
      assert 512 * c + b == idx;
    }

    /// Is the whole run within one chunk, and clear?
    method AreClear(idx: nat, n: nat) returns (all: bool)
      requires Valid() && idx < 512 * cc
      ensures all <==> idx % 512 + n <= 512 && AllClear(words[..], idx, n)
    {
      var c, b := idx / 512, idx % 512;
      if b + n > CHUNK_BITS { return false; }
      all := IsClearN(words, c, b, n);
      assert 512 * c + b == idx;
    }

    /// Clear a run within one chunk, all or nothing.
    method ClearBits(idx: nat, n: nat) returns (ok: bool)
      requires Valid() && idx % 512 + n <= 512 && idx < 512 * cc
      modifies words, chunkmap
      ensures Valid()
      ensures ok <==> AllSet(old(words[..]), idx, n)
      ensures if ok then WithClear(old(words[..]), words[..], idx, n) else words[..] == old(words[..])
    {
      var c, b := idx / 512, idx % 512;
      ghost var was := words[..];
      ok := TryClearN(words, c, b, n);
      assert 512 * c + b == idx;
      if ok {
        ClearedChunk(was, words[..], chunkmap[..], cc, c, idx, n);
        ghost var m := chunkmap[..];
        ChunkmapClearIfEmpty(c);
        MapBit(words[..], m, chunkmap[..], cc, c);
      }
    }

    /// Try one chunk, unless the summary says it is empty.
    method TryChunk(c: nat, n: nat) returns (r: Option<nat>)
      requires Valid() && c < cc && 1 <= n <= CHUNK_BITS
      modifies words, chunkmap
      ensures Valid()
      ensures r.Some? <==> HasRun(old(words[..]), c, n)
      ensures r.Some? ==>
        && r.value / 512 == c && r.value % 512 + n <= 512
        && AllSet(old(words[..]), r.value, n) && WithClear(old(words[..]), words[..], r.value, n)
        && BestRun(old(words[..]), c, n, r.value % 512)
      ensures r.None? ==> words[..] == old(words[..])
    {
      ghost var was := words[..];
      TestAt(chunkmap[..], c / 64, 1, c % 64);
      assert 64 * (c / 64) + c % 64 == c;
      if And(chunkmap[c / 64], MaskWord(1, c % 64)) != MaskWord(1, c % 64) {
        assert !BitAt(chunkmap[..], c);
        EmptyHasNoRun(was, c, n);
        return None;
      }
      r := FindAndClearN(words, c, n);
      if r.Some? {
        ClearedChunk(was, words[..], chunkmap[..], cc, c, 512 * c + r.value, n);
        ghost var m := chunkmap[..];
        ChunkmapClearIfEmpty(c);
        MapBit(words[..], m, chunkmap[..], cc, c);
        r := Some(512 * c + r.value);
      }
    }

    /// `try_find_and_clear_n` for a run within one chunk. Exact: it succeeds iff
    /// some chunk has the run, takes it from the first such chunk after `tseq`,
    /// and clears that run and nothing else.
    method TryFindAndClearN(n: nat, tseq: nat) returns (r: Option<nat>)
      requires Valid() && n <= CHUNK_BITS
      modifies words, chunkmap
      ensures Valid()
      ensures r.Some? ==>
        && n >= 1 && r.value % 512 + n <= 512 && r.value < 512 * cc
        && AllSet(old(words[..]), r.value, n) && WithClear(old(words[..]), words[..], r.value, n)
        && FirstFrom(old(words[..]), cc, n, tseq % cc, r.value / 512)
        && BestRun(old(words[..]), r.value / 512, n, r.value % 512)
      ensures r.None? ==> words[..] == old(words[..])
      ensures n >= 1 ==> (r.Some? <==> SomeRun(old(words[..]), cc, n))
    {
      if n == 0 { return None; }
      ghost var was := words[..];
      var start := tseq % cc;
      var k := 0;
      while k < cc
        invariant k <= cc && Valid() && words[..] == was
        invariant NoneBefore(was, cc, n, start, k)
      {
        r := TryChunk(Rotated(start, k, cc), n);
        if r.Some? {
          assert FirstFrom(was, cc, n, start, r.value / 512);
          return;
        }
        k := k + 1;
      }
      NoneAtAll(was, cc, n, start);
      return None;
    }

    // ----- runs that cross chunks -------------------------------------------

    method RangeIsSet(idx: nat, n: nat) returns (all: bool)
      requires Valid() && idx + n <= 512 * cc
      ensures all <==> AllSet(words[..], idx, n)
    {
      var remaining: nat, bit: nat := n, idx;
      while remaining > 0
        invariant bit + remaining == idx + n && idx <= bit
        invariant AllSet(words[..], idx, bit - idx)
      {
        var here := Min(remaining, 512 - bit % 512);
        assert 512 * (bit / 512) + bit % 512 == bit;
        var there := IsSetN(words, bit / 512, bit % 512, here);
        if !there { return false; }
        bit, remaining := bit + here, remaining - here;
      }
      return true;
    }

    /// Put back the first `done` bits of a partial cross-chunk claim.
    method PutBack(idx: nat, done: nat, ghost was: seq<Word>)
      requires words.Length == 8 * cc && words != chunkmap && idx + done <= 512 * cc && |was| == 8 * cc
      requires AllSet(was, idx, done) && WithClear(was, words[..], idx, done)
      modifies words
      ensures words[..] == was
    {
      var rb: nat, rbit: nat := done, idx;
      while rb > 0
        invariant rbit + rb == idx + done && idx <= rbit
        invariant WithClear(was, words[..], rbit, rb)
      {
        var here := Min(rb, 512 - rbit % 512);
        assert 512 * (rbit / 512) + rbit % 512 == rbit;
        ghost var before := words[..];
        SetN(words, rbit / 512, rbit % 512, here);
        forall i: nat | rbit <= i < rbit + rb ensures BitAt(was, i) {
        }
        SetUndoesClear(was, before, words[..], rbit, here, rb - here);
        rbit, rb := rbit + here, rb - here;
      }
      SameBits(was, words[..]);
    }

    /// The clearing half of `range_try_clear`: chunk by chunk, all or nothing.
    method RangeClearWords(idx: nat, n: nat) returns (ok: bool)
      requires words.Length == 8 * cc && words != chunkmap && idx + n <= 512 * cc
      modifies words
      ensures ok <==> AllSet(old(words[..]), idx, n)
      ensures if ok then WithClear(old(words[..]), words[..], idx, n) else words[..] == old(words[..])
    {
      ghost var was := words[..];
      var remaining: nat, bit: nat := n, idx;
      while remaining > 0
        invariant bit + remaining == idx + n && idx <= bit
        invariant AllSet(was, idx, bit - idx) && WithClear(was, words[..], idx, bit - idx)
      {
        var here := Min(remaining, 512 - bit % 512);
        assert 512 * (bit / 512) + bit % 512 == bit;
        ghost var before := words[..];
        var cleared := TryClearN(words, bit / 512, bit % 512, here);
        if !cleared {
          ClearFails(was, before, idx, bit - idx, here, n);
          PutBack(idx, bit - idx, was);
          return false;
        }
        ClearProgress(was, before, words[..], idx, bit - idx, here);
        bit, remaining := bit + here, remaining - here;
      }
      assert bit - idx == n;
      return true;
    }

    method RangeTryClear(idx: nat, n: nat) returns (ok: bool)
      requires Valid() && n >= 1 && idx + n <= 512 * cc
      modifies words, chunkmap
      ensures Valid()
      ensures ok <==> AllSet(old(words[..]), idx, n)
      ensures if ok then WithClear(old(words[..]), words[..], idx, n) else words[..] == old(words[..])
    {
      ghost var was := words[..];
      ok := RangeClearWords(idx, n);
      if !ok { return; }
      var first, last := idx / 512, idx / 512 + (n + 511) / 512 + 1;
      RangeSummary(was, words[..], chunkmap[..], cc, idx, n, first, last);
      var c := first;
      while c < last
        modifies chunkmap
        invariant first <= c <= last
        invariant Sound(words[..], chunkmap[..], cc)
        invariant ExactOutside(words[..], chunkmap[..], cc, c, last)
      {
        if c < cc {
          assert Summarised(words[..], chunkmap[..], c);
          ghost var m := chunkmap[..];
          ChunkmapClearIfEmpty(c);
          SummaryStep(words[..], m, chunkmap[..], cc, c, last);
        }
        c := c + 1;
      }
    }

    /// `try_find_and_clear_n` for more than a chunk: the first run anywhere.
    method TryFindAndClearHuge(n: nat) returns (r: Option<nat>)
      requires Valid() && n > CHUNK_BITS
      modifies words, chunkmap
      ensures Valid()
      ensures r.Some? ==>
        && AllSet(old(words[..]), r.value, n) && WithClear(old(words[..]), words[..], r.value, n)
        && forall s: nat :: s < r.value ==> !RunAt(old(words[..]), 0, s, n)
      ensures r.None? ==> words[..] == old(words[..]) && forall s: nat :: !RunAt(words[..], 0, s, n)
    {
      var start := 0;
      while start + n <= 512 * cc
        invariant Valid() && words[..] == old(words[..])
        invariant forall s: nat :: s < start ==> !RunAt(words[..], 0, s, n)
      {
        var there := RangeIsSet(start, n);
        if there {
          var ok := RangeTryClear(start, n);
          assert ok;
          return Some(start);
        }
        start := start + 1;
      }
      return None;
    }

    /// `try_find_and_claim`: `claim` tells for which index the ownership claim
    /// succeeds; bits where it fails stay set.
    method TryFindAndClaim(tseq: nat, claim: nat -> bool) returns (r: Option<nat>)
      requires Valid()
      modifies words, chunkmap
      ensures Valid()
      ensures r.Some? ==>
        && r.value < 512 * cc && BitAt(old(words[..]), r.value) && claim(r.value)
        && WithClear(old(words[..]), words[..], r.value, 1)
        && FirstClaim(old(words[..]), cc, tseq % cc, claim, r.value)
      ensures r.None? ==>
        && words[..] == old(words[..])
        && forall i: nat :: i < 512 * cc && BitAt(words[..], i) ==> !claim(i)
    {
      ghost var was := words[..];
      var start := tseq % cc;
      var k := 0;
      while k < cc
        invariant k <= cc && Valid() && words[..] == was
        invariant forall j: nat :: j < k ==> NothingToClaim(was, Rotated(start, j, cc), claim)
      {
        var c := Rotated(start, k, cc);
        r := ClaimInChunk(c, claim);
        if r.Some? {
          assert FirstClaim(was, cc, start, claim, r.value);
          return;
        }
        k := k + 1;
      }
      forall i: nat | i < 512 * cc && BitAt(was, i) ensures !claim(i) {
        var j := Rotation(start, cc, i / 512);
        assert NothingToClaim(was, Rotated(start, j, cc), claim);
      }
      return None;
    }

    method ClaimInChunk(c: nat, claim: nat -> bool) returns (r: Option<nat>)
      requires Valid() && c < cc
      modifies words, chunkmap
      ensures Valid()
      ensures r.Some? ==>
        && r.value < 512 * cc && BitAt(old(words[..]), r.value) && claim(r.value)
        && WithClear(old(words[..]), words[..], r.value, 1)
        && r.value / 512 == c && NothingBelow(old(words[..]), c, claim, r.value)
      ensures r.None? ==> words[..] == old(words[..]) && NothingToClaim(words[..], c, claim)
    {
      TestAt(chunkmap[..], c / 64, 1, c % 64);
      assert 64 * (c / 64) + c % 64 == c;
      if And(chunkmap[c / 64], MaskWord(1, c % 64)) != MaskWord(1, c % 64) {
        assert !BitAt(chunkmap[..], c);
        return None;
      }
      var b := 0;
      while b < CHUNK_BITS
        invariant b <= 512 && Valid() && words[..] == old(words[..])
        invariant forall i: nat :: 512 * c <= i < 512 * c + b && BitAt(words[..], i) ==> !claim(i)
      {
        var there := IsSetN(words, c, b, 1);
        assert there <==> BitAt(words[..], 512 * c + b);
        if there && claim(512 * c + b) {
          ChunkOf(c, b);
          var ok := ClearBits(512 * c + b, 1);
          return Some(512 * c + b);
        }
        b := b + 1;
      }
      return None;
    }
  }

  lemma ChunkOf(c: nat, b: nat)
    requires b < 512
    ensures (512 * c + b) / 512 == c && (512 * c + b) % 512 == b
  {
  }

  /// No bit of chunk `c` below `limit` could be claimed.
  ghost predicate NothingBelow(a: seq<Word>, c: nat, claim: nat -> bool, limit: nat)
    requires limit <= 64 * |a|
  {
    forall i: nat :: 512 * c <= i < limit && BitAt(a, i) ==> !claim(i)
  }

  /// Bit `i` is the first, going round the chunks from `start`, that could be
  /// claimed.
  ghost predicate FirstClaim(a: seq<Word>, cc: nat, start: nat, claim: nat -> bool, i: nat)
    requires cc > 0 && |a| == 8 * cc && i < 512 * cc
  {
    NothingBelow(a, i / 512, claim, i) &&
    exists k: nat :: k < cc && i / 512 == Rotated(start, k, cc)
      && forall j: nat :: j < k ==> NothingToClaim(a, Rotated(start, j, cc), claim)
  }

  ghost predicate NothingToClaim(a: seq<Word>, c: nat, claim: nat -> bool)
    requires 8 * c + 8 <= |a|
  {
    forall i: nat :: 512 * c <= i < 512 * c + 512 && BitAt(a, i) ==> !claim(i)
  }

  ghost predicate ExactOutside(words: seq<Word>, map_: seq<Word>, cc: nat, lo: nat, hi: nat)
    requires |words| == 8 * cc && |map_| == 8 && cc <= 512
  {
    forall c: nat :: c < cc && !(lo <= c < hi) ==> (BitAt(map_, c) <==> !AllClear(words, 512 * c, 512))
  }

  lemma RangeSummary(a: seq<Word>, a': seq<Word>, m: seq<Word>, cc: nat, idx: nat, n: nat, first: nat, last: nat)
    requires |a| == 8 * cc && |m| == 8 && 1 <= cc <= 512 && Exact(a, m, cc)
    requires WithClear(a, a', idx, n) && n >= 1 && idx + n <= 512 * cc
    requires first == idx / 512 && last == first + (n + 511) / 512 + 1
    ensures Sound(a', m, cc) && ExactOutside(a', m, cc, first, last)
  {
    forall c: nat | c < cc ensures Summarised(a', m, c) {
      if !BitAt(m, c) {
        forall i: nat | 512 * c <= i < 512 * c + 512 ensures !BitAt(a', i) { assert !BitAt(a, i); }
      }
    }
    forall c: nat | c < cc && !(first <= c < last)
      ensures BitAt(m, c) <==> !AllClear(a', 512 * c, 512)
    {
      forall i: nat | 512 * c <= i < 512 * c + 512 ensures BitAt(a', i) == BitAt(a, i) {
      }
    }
  }

  lemma SummaryStep(a: seq<Word>, m: seq<Word>, m': seq<Word>, cc: nat, c: nat, hi: nat)
    requires |a| == 8 * cc && |m| == |m'| == 8 && c < cc <= 512
    requires Sound(a, m, cc) && ExactOutside(a, m, cc, c, hi)
    requires BitAt(m', c) <==> !AllClear(a, 512 * c, 512)
    requires forall d: nat :: d < 512 && d != c ==> (BitAt(m', d) <==> BitAt(m, d))
    ensures Sound(a, m', cc) && ExactOutside(a, m', cc, c + 1, hi)
  {
    forall d: nat | d < cc ensures Summarised(a, m', d) { assert Summarised(a, m, d); }
  }

  lemma TurnsOnce(start: nat, k: nat, cc: nat)
    requires cc > 0
    ensures start < cc && k < cc ==> (start + k) % cc == if start + k < cc then start + k else start + k - cc
  {
    if start < cc && k < cc {
      if start + k < cc { StaysBelow(start + k, cc); } else { WrapsOnce(start + k, cc); }
    }
  }

  /// The `k`-th chunk from `start` on, upwards and round.
  function Rotated(start: nat, k: nat, cc: nat): (c: nat)
    requires cc > 0
    ensures c < cc
    ensures start < cc && k < cc ==> c == if start + k < cc then start + k else start + k - cc
  {
    TurnsOnce(start, k, cc);
    (start + k) % cc
  }

  /// None of the first `k` chunks after `start` has the run.
  ghost predicate NoneBefore(a: seq<Word>, cc: nat, n: nat, start: nat, k: nat)
    requires cc > 0
  {
    forall j: nat :: j < k ==> !HasRun(a, Rotated(start, j, cc), n)
  }

  /// Chunk `c` is the first, going round from `start`, that has the run.
  ghost predicate FirstFrom(a: seq<Word>, cc: nat, n: nat, start: nat, c: nat)
    requires cc > 0
  {
    HasRun(a, c, n) &&
    exists k: nat :: k < cc && c == Rotated(start, k, cc) && NoneBefore(a, cc, n, start, k)
  }

  lemma NoneAtAll(a: seq<Word>, cc: nat, n: nat, start: nat)
    requires start < cc && NoneBefore(a, cc, n, start, cc)
    ensures !SomeRun(a, cc, n)
  {
    forall c: nat | c < cc ensures !HasRun(a, c, n) {
      var k := Rotation(start, cc, c);
      assert !HasRun(a, Rotated(start, k, cc), n);
    }
  }

  /// Some chunk holds a run of `n` set bits.
  ghost predicate SomeRun(a: seq<Word>, cc: nat, n: nat)  {
    exists c: nat :: c < cc && HasRun(a, c, n)
  }

  lemma EmptyHasNoRun(a: seq<Word>, c: nat, n: nat)
    requires 8 * c + 8 <= |a| && AllClear(a, 512 * c, 512) && 1 <= n
    ensures !HasRun(a, c, n)
  {
    forall s: nat | s + n <= CHUNK_BITS ensures !RunAt(a, 512 * c, s, n) {
      assert !BitAt(a, 512 * c + s);
    }
  }

  lemma StaysBelow(x: nat, cc: nat)
    requires x < cc
    ensures x % cc == x
  {
  }

  lemma WrapsOnce(x: nat, cc: nat)
    requires cc <= x < cc + cc
    ensures x % cc == x - cc
  {
    var q := x / cc;
    assert x == q * cc + x % cc;
    if q >= 2 { Scale(2, q, cc); }
  }

  /// The rotation reaches every chunk.
  lemma Rotation(start: nat, cc: nat, c: nat) returns (k: nat)
    requires start < cc && c < cc
    ensures k < cc && (start + k) % cc == c
  {
    if c >= start {
      k := c - start;
      StaysBelow(c, cc);
    } else {
      k := c + cc - start;
      WrapsOnce(c + cc, cc);
    }
  }

  /// After clearing within chunk `c` only its own summary bit may be stale.
  lemma ClearedChunk(a: seq<Word>, a': seq<Word>, m: seq<Word>, cc: nat, c: nat, lo: nat, n: nat)
    requires |a| == 8 * cc && |m| == 8 && c < cc <= 512
    requires WithClear(a, a', lo, n) && 512 * c <= lo && lo + n <= 512 * c + 512
    requires Exact(a, m, cc)
    ensures ExactBut(a', m, cc, c)
    ensures Summarised(a', m, c)
  {
    ChunkWords(a, a', m, cc, c, lo, n);
    if AllClear(a, 512 * c, 512) {
      forall i: nat | 512 * c <= i < 512 * c + 512 ensures !BitAt(a', i) { assert !BitAt(a, i); }
    }
  }
}
