/// Free-list links, stored encoded in the first word of each free block
/// (hardened builds).

module FreeList {
  import opened Words

  datatype Keys = Keys(k0: Word, k1: Word)

  function Encode(p: Word, k: Keys): Word {
    if p == 0 then 0 else Add(Rotl(Xor(p, k.k1), k.k0), k.k0)
  }

  function Decode(x: Word, k: Keys): Word {
    if x == 0 then 0 else Xor(Rotr(Sub(x, k.k0), k.k0), k.k1)
  }

  /// The one address whose code is the end-of-list mark.
  function Lost(k: Keys): Word { Xor(Rotr(Sub(0, k.k0), k.k0), k.k1) }

  lemma CodeIsZero(p: Word, k: Keys)
    requires p != 0
    ensures Encode(p, k) == 0 <==> p == Lost(k)
  {
    var n := k.k0 % 64;
    var x := Xor(p, k.k1);
    XorUndone(p, k.k1);
    RotrUndoesRotl(x, n);
    SubUndoesAdd(Rotl(x, k.k0), k.k0);
    SubUndoesAdd(0, k.k0);
    RotlUndoesRotr(Sub(0, k.k0), n);
    if p == Lost(k) {
      XorUndone(Rotr(Sub(0, k.k0), k.k0), k.k1);
    }
  }

  /// Decoding undoes encoding exactly for the addresses whose code is not zero.
  lemma DecodeUndoesEncode(p: Word, k: Keys)
    ensures Decode(Encode(p, k), k) == p <==> p == 0 || p != Lost(k)
  {
    if p != 0 {
      var x := Xor(p, k.k1);
      CodeIsZero(p, k);
      XorUndone(p, k.k1);
      RotrUndoesRotl(x, k.k0 % 64);
      SubUndoesAdd(Rotl(x, k.k0), k.k0);
    }
  }

  lemma EncodeInjective(p: Word, p': Word, k: Keys)
    requires p != 0 && p' != 0 && Encode(p, k) == Encode(p', k)
    ensures p == p'
  {
    var x, x' := Xor(p, k.k1), Xor(p', k.k1);
    XorUndone(p, k.k1);
    XorUndone(p', k.k1);
    RotrUndoesRotl(x, k.k0 % 64);
    RotrUndoesRotl(x', k.k0 % 64);
    SubUndoesAdd(Rotl(x, k.k0), k.k0);
    SubUndoesAdd(Rotl(x', k.k0), k.k0);
  }

  // ----- lists --------------------------------------------------------------

  type Memory = map<Word, Word>

  function Head(s: seq<Word>): Word { if s == [] then 0 else s[0] }

  /// Memory after threading the blocks at `s` into a list, last link first.
  function Threaded(m: Memory, s: seq<Word>, k: Keys): Memory {
    if s == [] then m else Threaded(m, s[1..], k)[s[0] := Encode(Head(s[1..]), k)]
  }

  /// Follow at most `fuel` links from `p`.
  function Walk(m: Memory, p: Word, k: Keys, fuel: nat): seq<Word>
    decreases fuel
  {
    if p == 0 || p !in m || fuel == 0 then [] else [p] + Walk(m, Decode(m[p], k), k, fuel - 1)
  }

  /// Addresses of distinct blocks.
  predicate Blocks(s: seq<Word>) {
    s == [] || (s[0] != 0 && s[0] !in s[1..] && Blocks(s[1..]))
  }

  /// The part of `s` before its second or later block that encodes to zero.
  function UpToLost(s: seq<Word>, k: Keys): (r: seq<Word>)
    ensures r <= s
    ensures r == s <==> s == [] || Lost(k) !in s[1..]
  {
    if |s| <= 1 then s
    else if s[1] == Lost(k) then s[..1]
    else
      assert s[1..] == [s[1]] + s[2..];
      [s[0]] + UpToLost(s[1..], k)
  }

  /// Links outside `s` do not matter to the walk along `s`.
  ghost predicate Threads(m: Memory, s: seq<Word>, k: Keys) {
    s == [] || (s[0] in m && m[s[0]] == Encode(Head(s[1..]), k) && Threads(m, s[1..], k))
  }

  lemma {:induction false} ThreadsFrame(m: Memory, a: Word, v: Word, s: seq<Word>, k: Keys)
    requires Threads(m, s, k) && a !in s
    ensures Threads(m[a := v], s, k)
  {
    if s != [] {
      ThreadsFrame(m, a, v, s[1..], k);
    }
  }

  lemma {:induction false} ThreadedThreads(m: Memory, s: seq<Word>, k: Keys)
    requires Blocks(s)
    ensures Threads(Threaded(m, s, k), s, k)
  {
    if s != [] {
      ThreadedThreads(m, s[1..], k);
      ThreadsFrame(Threaded(m, s[1..], k), s[0], Encode(Head(s[1..]), k), s[1..], k);
    }
  }

  lemma {:induction false} WalkThreads(m: Memory, s: seq<Word>, k: Keys, fuel: nat)
    requires Blocks(s) && Threads(m, s, k) && fuel >= |s|
    ensures Walk(m, Head(s), k, fuel) == UpToLost(s, k)
    decreases |s|
  {
    if s != [] {
      var next := Head(s[1..]);
      if |s| > 1 {
        DecodeUndoesEncode(next, k);
        CodeIsZero(next, k);
      }
      WalkThreads(m, s[1..], k, fuel - 1);
    }
  }

  /// A list reads back exactly as built, and ends there however many links are
  /// followed, iff none of its blocks but the first encodes to zero; otherwise it
  /// is cut off before the first that does.
  lemma ReadsBack(m: Memory, s: seq<Word>, k: Keys, fuel: nat)
    requires Blocks(s) && fuel >= |s|
    ensures Walk(Threaded(m, s, k), Head(s), k, fuel) == UpToLost(s, k)
    ensures Walk(Threaded(m, s, k), Head(s), k, fuel) == s <==> s == [] || Lost(k) !in s[1..]
  {
    ThreadedThreads(m, s, k);
    WalkThreads(Threaded(m, s, k), s, k, fuel);
  }

  /// Such a block exists: with these keys the block at 0x100 ends every list it
  /// is linked into.
  lemma LostBlockExample()
    ensures var k := Keys(0, 0x100); Lost(k) == 0x100 && Encode(0x100, k) == 0
    ensures var k := Keys(0, 0x100);
            Walk(Threaded(map[], [0x200, 0x100, 0x300], k), 0x200, k, 3) == [0x200]
  {
    var k := Keys(0, 0x100);
    var s: seq<Word> := [0x200, 0x100, 0x300];
    assert Rotr(0, 0) == 0;
    XorZero(0x100);
    CodeIsZero(0x100, k);
    assert s[1..] == [0x100, 0x300] && s[2..] == [0x300] && s[1..][1..] == [0x300];
    assert Blocks([0x300]);
    assert Blocks(s[1..]);
    ReadsBack(map[], s, k, 3);
  }

  lemma {:induction false} XorZero(b: Word)
    ensures XorBits(0, b) == b
  {
    if b != 0 { XorZero(b / 2); }
  }
}
