/** The incremental SHA-256 of sha224_256.c: a context that absorbs a message in pieces, and the
    helper class that the rest of the system hashes with.

    The context is proved to compute the function of Sha256Spec of everything it absorbed, however
    the message was cut into pieces. */
module Sha256 {

  import opened Collections
  import opened Sha256Spec

  /** Return codes. An overflow of the length is recorded as 1, the code of a null pointer. */
  datatype Code = Success | Null | StateError

  const TWO32: nat := 0x1_0000_0000
  const TWO64: nat := 0x1_0000_0000_0000_0000

  /** A trigger, true of everything. A quantified fact whose only trigger is `Mark(x)` lies idle until a proof
      mentions `Mark`. The definition of the compression function, sixty-four rounds on bit vectors, is kept
      behind it: proofs about contexts and padding treat the step of a context as an unknown function, and
      the few that need to know which one it is say `assert Mark(0)`. */
  predicate Mark(x: int) { true }

  /** The compression function as the step of a context. */
  type Compression = step: Step | forall x {:trigger Mark(x)} :: Mark(x) ==> step == Compress
    witness Compress

  /******* Processing one block *******/

  /** The words from 16 on: each from four earlier ones. */
  method ExpandWords(block: seq<bv8>, w: array<bv32>)
    requires |block| == BLOCK && w.Length == |K| && w[..16] == Schedule(block, 16)
    modifies w
    ensures w[..] == Schedule(block, |K|)
  {
    for t := 16 to |K|
      invariant w[..t] == Schedule(block, t)
    {
      ghost var done := w[..t];
      assert done[t - 2] == w[t - 2] && done[t - 7] == w[t - 7] && done[t - 15] == w[t - 15]
             && done[t - 16] == w[t - 16];
      var next := Expand(w[t - 2], w[t - 7], w[t - 15], w[t - 16]);
      assert next == NextWord(done);
      w[t] := next;
      assert w[..t + 1] == done + [next];
    }
    assert w[..|K|] == w[..];
  }

  method ScheduleWords(block: seq<bv8>) returns (w: array<bv32>)
    requires |block| == BLOCK
    ensures fresh(w) && w.Length == |K| && w[..] == Schedule(block, |K|)
  {
    w := new bv32[64];
    for t := 0 to 16
      invariant w[..t] == Schedule(block, t)
    {
      w[t] := Word(block[4 * t], block[4 * t + 1], block[4 * t + 2], block[4 * t + 3]);
      assert w[..t + 1] == w[..t] + [w[t]];
    }
    ExpandWords(block, w);
  }

  /** One round: the eight variables move on by one place. */
  method OneRound(v: Vars, k: bv32, w: bv32) returns (r: Vars)
    ensures r == Round(v, k, w)
  {
    var a, b, c, d, e, f, g, h := v.a, v.b, v.c, v.d, v.e, v.f, v.g, v.h;
    var temp1 := Temp1(e, f, g, h, k, w);
    var temp2 := Temp2(a, b, c);
    h := g;
    g := f;
    f := e;
    e := Add(d, temp1);
    d := c;
    c := b;
    b := a;
    a := Add(temp1, temp2);
    r := Vars(a, b, c, d, e, f, g, h);
  }

  method ProcessBlock(v: Vars, block: seq<bv8>) returns (r: Vars)
    requires |block| == BLOCK
    ensures r == Compress(v, block)
  {
    var w := ScheduleWords(block);
    ghost var words := Schedule(block, |K|);
    var u := v;
    for t := 0 to |K|
      invariant w[..] == words && u == Rounds(v, words, t)
    {
      assert w[t] == words[t];
      u := OneRound(u, K[t], w[t]);
    }
    r := Vars(Add(v.a, u.a), Add(v.b, u.b), Add(v.c, u.c), Add(v.d, u.d), Add(v.e, u.e), Add(v.f, u.f),
        Add(v.g, u.g), Add(v.h, u.h));
  }

  method StepBlock(v: Vars, block: seq<bv8>, ghost step: Compression) returns (r: Vars)
    requires |block| == BLOCK
    ensures r == step(v, block)
  {
    r := ProcessBlock(v, block);
    assert Mark(0);
  }

  /******* Lengths and padding *******/

  lemma HighWord(high: nat, low: nat)
    requires low < TWO32
    ensures var bits := high * TWO32 + low;
            && bits / 0x100_0000_0000_0000 == high / 0x100_0000
            && bits / 0x1_0000_0000_0000 == high / 0x1_0000
            && bits / 0x100_0000_0000 == high / 0x100
            && bits / 0x1_0000_0000 == high
  {
  }

  lemma LowWord(high: nat, low: nat)
    ensures var bits := high * TWO32 + low;
            && bits / 0x100_0000 % 256 == low / 0x100_0000 % 256
            && bits / 0x1_0000 % 256 == low / 0x1_0000 % 256
            && bits / 0x100 % 256 == low / 0x100 % 256
            && bits % 256 == low % 256
  {
    var bits := high * TWO32 + low;
    assert bits / 0x100_0000 == low / 0x100_0000 + 256 * high;
    assert bits / 0x1_0000 == low / 0x1_0000 + 256 * (0x100 * high);
    assert bits / 0x100 == low / 0x100 + 256 * (0x1_0000 * high);
    SameLowByte(low / 0x100_0000, high);
    SameLowByte(low / 0x1_0000, 0x100 * high);
    SameLowByte(low / 0x100, 0x1_0000 * high);
    SameLowByte(low, 0x100_0000 * high);
  }

  lemma SameLowByte(x: nat, c: nat)
    ensures (x + 256 * c) % 256 == x % 256
  {
  }

  /** The bytes stored at the end of the last block are the 64-bit length. */
  lemma LengthFromWords(high: nat, low: nat)
    requires low < TWO32
    ensures LengthBytes(high * TWO32 + low)
         == [LowByte(high / 0x100_0000), LowByte(high / 0x1_0000), LowByte(high / 0x100), LowByte(high),
             LowByte(low / 0x100_0000), LowByte(low / 0x1_0000), LowByte(low / 0x100), LowByte(low)]
  {
    HighWord(high, low);
    LowWord(high, low);
  }

  /** The hash after the padded rest `tail` of a message, which fills one block or two. */
  ghost function PadHash(step: Step, v: Vars, tail: Bytes, first: bv8, bits: nat): Vars
    requires |tail| < BLOCK
  {
    if |tail| < 56 then step(v, tail + [first] + Zeros(55 - |tail|) + LengthBytes(bits))
    else step(step(v, tail + [first] + Zeros(63 - |tail|)), Zeros(56) + LengthBytes(bits))
  }

  lemma PadHashFolds(step: Step, v: Vars, tail: Bytes, first: bv8, bits: nat)
    requires |tail| < BLOCK
    ensures PadHash(step, v, tail, first, bits) == Fold(step, v, PadWith(tail, first, bits))
  {
    if |tail| < 56 {
      FoldOne(step, v, PadWith(tail, first, bits));
    } else {
      var b := tail + [first] + Zeros(63 - |tail|);
      var c := Zeros(56) + LengthBytes(bits);
      assert PadWith(tail, first, bits) == b + c;
      FoldAppend(step, v, b, c);
      FoldOne(step, v, b);
      FoldOne(step, step(v, b), c);
    }
  }

  /** All of `msg` is absorbed: whole blocks in the hash `v`, the rest in the first `i` bytes of the block. */
  ghost predicate Absorbs(step: Step, v: Vars, block: Bytes, i: nat, msg: Bytes) {
    forall x {:trigger Mark(x)} :: Mark(x) ==>
      && |block| == BLOCK && i == |msg| % BLOCK
      && block[..i] == msg[|msg| - i..]
      && v == Fold(step, H0, msg[..|msg| - i])
  }

  lemma AbsorbNothing(step: Step, block: Bytes)
    requires |block| == BLOCK
    ensures Absorbs(step, H0, block, 0, [])
  {
  }

  lemma AbsorbLast(step: Step, v: Vars, block: Bytes, msg: Bytes, b: bv8)
    requires Absorbs(step, v, block, BLOCK - 1, msg) && |block| == BLOCK
    ensures var next := block[BLOCK - 1 := b]; Absorbs(step, step(v, next), next, 0, msg + [b])
  {
    assert Mark(0);
    var next, whole := block[BLOCK - 1 := b], msg[..|msg| - (BLOCK - 1)];
    assert msg + [b] == whole + next;
    FoldAppend(step, H0, whole, next);
    FoldOne(step, v, next);
    assert (msg + [b])[..|msg| + 1] == msg + [b];
  }

  lemma AbsorbByte(step: Step, v: Vars, block: Bytes, i: nat, msg: Bytes, b: bv8)
    requires Absorbs(step, v, block, i, msg) && i < |block| == BLOCK
    ensures var next := block[i := b];
            if i + 1 < BLOCK then Absorbs(step, v, next, i + 1, msg + [b])
            else Absorbs(step, step(v, next), next, 0, msg + [b])
  {
    if i + 1 < BLOCK {
      assert Mark(0);
      var next, whole := block[i := b], msg[..|msg| - i];
      assert msg + [b] == whole + next[..i + 1];
      assert (msg + [b])[..|msg| - i] == whole;
    } else {
      AbsorbLast(step, v, block, msg, b);
    }
  }

  /** Padding what is left in the block is padding the message. */
  lemma AbsorbPadding(step: Step, v: Vars, block: Bytes, i: nat, msg: Bytes, first: bv8, bits: nat)
    requires Absorbs(step, v, block, i, msg) && i < |block| == BLOCK
    ensures PadHash(step, v, block[..i], first, bits) == Finish(step, msg, first, bits)
  {
    assert Mark(0);
    PadHashFolds(step, v, block[..i], first, bits);
    var whole := msg[..|msg| - i];
    assert msg == whole + block[..i];
    PadSuffix(whole, block[..i], first, bits);
    FoldAppend(step, H0, whole, PadWith(block[..i], first, bits));
  }

  lemma FinishIsSha256(step: Compression, msg: Bytes)
    ensures DigestOf(Finish(step, msg, 0x80, 8 * |msg|)) == Sha256(msg)
  {
    assert Mark(0);
  }

  /******* The context *******/

  class Context {
    ghost const step: Compression
    var hash: Vars
    var low: nat
    var high: nat
    const block: array<bv8>
    var index: nat
    var computed: bool
    var corrupted: Code
    ghost var msg: Bytes

    ghost predicate Shape()
      reads this
    {
      block.Length == BLOCK && index <= BLOCK && low < TWO32 && high < TWO32
    }

    ghost predicate Absorbed(bits: nat)
      reads this, block
    {
      Shape() && index < BLOCK && bits == high * TWO32 + low && Absorbs(step, hash, block[..], index, msg)
    }

    ghost predicate Valid()
      reads this, block
    {
      && Shape()
      && (corrupted == Success && !computed ==> Absorbed(8 * |msg|))
    }

    constructor ()
      ensures Valid() && msg == [] && !computed && corrupted == Success && fresh(block)
    {
      step := Compress;
      hash, low, high, index, computed, corrupted := H0, 0, 0, 0, false, Success;
      block := new bv8[64];
      msg := [];
      new;
      AbsorbNothing(step, block[..]);
    }

    /** Forget everything absorbed. */
    method Reset()
      requires Shape()
      modifies this
      ensures Valid() && msg == [] && !computed && corrupted == Success
    {
      hash, low, high, index, computed, corrupted := H0, 0, 0, 0, false, Success;
      msg := [];
      AbsorbNothing(step, block[..]);
    }

    /** Process the full block. */
    method ProcessMessageBlock()
      requires Shape()
      modifies `hash, `index
      ensures Shape() && index == 0 && hash == step(old(hash), block[..])
    {
      hash := StepBlock(hash, block[..], step);
      index := 0;
    }

    /** Add to the length in bits; a carry out of 64 bits corrupts the context. */
    method AddLength(n: nat)
      requires Shape() && 0 < n <= 8
      modifies `low, `high, `corrupted
      ensures Shape()
      ensures var bits := old(high) * TWO32 + old(low) + n;
              if bits < TWO64 then corrupted == Success && high * TWO32 + low == bits else corrupted == Null
    {
      var addTemp := low;
      low := (low + n) % TWO32;
      corrupted := Success;
      if low < addTemp {
        high := (high + 1) % TWO32;
        if high == 0 { corrupted := Null; }
      }
    }

    /** Absorb one byte. */
    method InputByte(b: bv8)
      requires Absorbed(8 * |msg|)
      modifies `hash, `low, `high, `index, `corrupted, `msg, block
      ensures Shape()
      ensures if 8 * |old(msg)| + 8 < TWO64 then corrupted == Success && msg == old(msg) + [b] && Absorbed(8 * |msg|)
              else corrupted == Null
    {
      AbsorbByte(step, hash, block[..], index, msg, b);
      block[index] := b;
      assert block[..] == old(block[..])[index := b];
      index := index + 1;
      AddLength(8);
      msg := msg + [b];
      if corrupted == Success && index == BLOCK { ProcessMessageBlock(); }
    }

    /** Absorb bytes until the length overflows. */
    method Absorb(data: seq<bv8>)
      requires Absorbed(8 * |msg|) && corrupted == Success
      modifies `hash, `low, `high, `index, `corrupted, `msg, block
      ensures Shape()
      ensures if 8 * |old(msg) + data| < TWO64 || data == []
              then corrupted == Success && msg == old(msg) + data && Absorbed(8 * |msg|)
              else corrupted == Null
    {
      var i := 0;
      while i < |data| && corrupted == Success
        invariant 0 <= i <= |data| && Shape() && (i > 0 ==> corrupted == Null || 8 * |old(msg)| + 8 * i < TWO64)
        invariant corrupted == Success ==> msg == old(msg) + data[..i] && Absorbed(8 * |msg|)
        invariant corrupted != Success ==> i > 0 && corrupted == Null && 8 * |old(msg)| + 8 * |data| >= TWO64
      {
        InputByte(data[i]);
        assert data[..i + 1] == data[..i] + [data[i]];
        i := i + 1;
      }
      assert data[..|data|] == data;
    }

    /** Absorb the next piece of the message. */
    method Input(data: seq<bv8>) returns (r: Code)
      requires Valid()
      modifies `hash, `low, `high, `index, `corrupted, `msg, block
      ensures Valid()
      ensures data == [] ==> r == Success && msg == old(msg) && corrupted == old(corrupted)
      ensures data != [] && computed ==> r == StateError == corrupted
      ensures data != [] && !computed && old(corrupted) != Success ==> r == corrupted == old(corrupted)
      ensures data != [] && !computed && old(corrupted) == Success ==>
                && r == Success
                && if 8 * |old(msg) + data| < TWO64 then corrupted == Success && msg == old(msg) + data
                   else corrupted == Null
    {
      if data == [] { return Success; }
      if computed {
        corrupted := StateError;
        return StateError;
      }
      if corrupted != Success { return corrupted; }
      Absorb(data);
      r := Success;
    }

    /** Fill the block with zeros as far as `n`. */
    method FillZeros(n: nat)
      requires Shape() && index <= n <= BLOCK
      modifies `index, block
      ensures Shape() && index == n && block[..n] == old(block[..index]) + Zeros(n - old(index))
    {
      ghost var start, prefix := index, block[..index];
      while index < n
        invariant start <= index <= n && Shape()
        invariant block[..index] == prefix + Zeros(index - start)
      {
        block[index] := 0;
        index := index + 1;
        assert block[..index] == block[..index - 1] + [0];
      }
    }

    method StoreWord(at: nat, b: Bytes)
      requires Shape() && |b| == 4 && at + 4 <= BLOCK
      modifies block
      ensures block[..] == old(block[..at]) + b + old(block[at + 4..])
    {
      block[at] := b[0];
      block[at + 1] := b[1];
      block[at + 2] := b[2];
      block[at + 3] := b[3];
    }

    /** Store the length in the last eight bytes of the block. */
    method StoreLength()
      requires Shape()
      modifies block
      ensures block[..] == old(block[..56]) + LengthBytes(high * TWO32 + low)
    {
      LengthFromWords(high, low);
      var upper := [LowByte(high / 0x100_0000), LowByte(high / 0x1_0000), LowByte(high / 0x100), LowByte(high)];
      var lower := [LowByte(low / 0x100_0000), LowByte(low / 0x1_0000), LowByte(low / 0x100), LowByte(low)];
      assert LengthBytes(high * TWO32 + low) == upper + lower;
      StoreWord(56, upper);
      StoreWord(60, lower);
      assert block[..] == old(block[..56]) + (upper + lower);
    }

    /** Write the first byte of padding and zeros as far as `n`. */
    method StartPadding(first: bv8, n: nat)
      requires Shape() && index < n <= BLOCK
      modifies `index, block
      ensures Shape() && index == n
      ensures block[..n] == old(block[..index]) + [first] + Zeros(n - 1 - old(index))
    {
      block[index] := first;
      index := index + 1;
      assert block[..index] == old(block[..index]) + [first];
      FillZeros(n);
    }

    /** Padding that needs a second block: the rest of the first one, and the zeros of the second. */
    method PadFirstBlock(first: bv8)
      requires Shape() && 56 <= index < BLOCK
      modifies `hash, `index, block
      ensures Shape() && index == 56 && block[..56] == Zeros(56)
      ensures hash == step(old(hash), old(block[..index]) + [first] + Zeros(63 - old(index)))
    {
      StartPadding(first, BLOCK);
      assert block[..] == block[..BLOCK];
      ProcessMessageBlock();
      FillZeros(56);
      assert block[..56] == Zeros(56);
    }

    method LastBlock(ghost prefix: Bytes)
      requires Shape() && |prefix| == 56 && block[..56] == prefix
      modifies `hash, `index, block
      ensures Shape() && hash == step(old(hash), prefix + LengthBytes(high * TWO32 + low))
    {
      StoreLength();
      ProcessMessageBlock();
    }

    /** Pad the message and process what is left of it. */
    method PadMessage(first: bv8)
      requires Shape() && index < BLOCK
      modifies `hash, `index, block
      ensures Shape()
      ensures hash == PadHash(step, old(hash), old(block[..index]), first, high * TWO32 + low)
    {
      ghost var tail := block[..index];
      if index >= 56 {
        PadFirstBlock(first);
        LastBlock(Zeros(56));
      } else {
        StartPadding(first, 56);
        LastBlock(tail + [first] + Zeros(55 - |tail|));
      }
    }

    method WipeBlock()
      requires Shape()
      modifies block
      ensures block[..] == Zeros(BLOCK)
    {
      for i := 0 to BLOCK
        invariant block[..i] == Zeros(i)
      {
        block[i] := 0;
        assert block[..i + 1] == block[..i] + [0];
      }
      assert block[..] == block[..BLOCK];
    }

    /** Pad, process, and wipe the message from the context. */
    method Finalize(first: bv8, ghost bits: nat)
      requires Absorbed(bits)
      modifies `hash, `low, `high, `index, `computed, block
      ensures Shape() && computed && hash == Finish(step, msg, first, bits)
    {
      AbsorbPadding(step, hash, block[..], index, msg, first, bits);
      assert block[..][..index] == block[..index];
      PadMessage(first);
      WipeBlock();
      low, high := 0, 0;
      computed := true;
    }

    /** Absorb a last few bits and finish. */
    method FinalBits(bits: bv8, n: nat) returns (r: Code)
      requires Valid()
      modifies `hash, `low, `high, `index, `computed, `corrupted, block
      ensures Valid()
      ensures n == 0 ==> r == Success && computed == old(computed) && corrupted == old(corrupted)
      ensures n > 0 && (old(computed) || n >= 8) ==> r == corrupted == StateError
      ensures 0 < n < 8 && !old(computed) && old(corrupted) != Success ==> r == corrupted == old(corrupted)
      ensures 0 < n < 8 && !old(computed) && old(corrupted) == Success ==>
                && r == Success && computed && corrupted == (if 8 * |msg| + n < TWO64 then Success else Null)
                && (corrupted == Success ==> hash == Finish(step, msg, LastByte(bits, n), 8 * |msg| + n))
    {
      if n == 0 { return Success; }
      if computed || n >= 8 {
        corrupted := StateError;
        return StateError;
      }
      if corrupted != Success { return corrupted; }
      var last := PadByte(bits, n);
      FinishBits(last, n);
      r := Success;
    }

    method FinishBits(last: bv8, n: nat)
      requires Absorbed(8 * |msg|) && 0 < n < 8
      modifies `hash, `low, `high, `index, `computed, `corrupted, block
      ensures Shape() && computed && corrupted == (if 8 * |msg| + n < TWO64 then Success else Null)
      ensures corrupted == Success ==> hash == Finish(step, msg, last, 8 * |msg| + n)
    {
      AddLength(n);
      Finalize(last, high * TWO32 + low);
    }

    /** The digest of everything absorbed; a finished context gives the same digest again. */
    method Result() returns (r: Code, digest: Bytes)
      requires Valid()
      modifies `hash, `low, `high, `index, `computed, block
      ensures Valid()
      ensures corrupted != Success ==> r == corrupted && computed == old(computed)
      ensures corrupted == Success ==> r == Success && computed && digest == DigestOf(hash)
      ensures corrupted == Success && old(computed) ==> hash == old(hash)
      ensures corrupted == Success && !old(computed) ==> digest == Sha256(msg)
    {
      if corrupted != Success { return corrupted, []; }
      if !computed {
        Finalize(0x80, 8 * |msg|);
        FinishIsSha256(step, msg);
      }
      r, digest := Success, DigestOf(hash);
    }
  }

  /** The tables of masks give the bits, a one, and zeros. */
  method PadByte(bits: bv8, n: nat) returns (r: bv8)
    requires 0 < n < 8
    ensures r == LastByte(bits, n)
  {
    var masks: seq<bv8> := [0x00, 0x80, 0xC0, 0xE0, 0xF0, 0xF8, 0xFC, 0xFE];
    var markbit: seq<bv8> := [0x80, 0x40, 0x20, 0x10, 0x08, 0x04, 0x02, 0x01];
    r := (bits & masks[n]) | markbit[n];
  }

  lemma FinishIsSha256Bits(step: Compression, msg: Bytes, bits: bv8, n: nat)
    requires 0 < n < 8
    ensures DigestOf(Finish(step, msg, LastByte(bits, n), 8 * |msg| + n)) == Sha256Bits(msg, bits, n)
  {
    assert Mark(0);
  }

  /******* Users of the context *******/

  /** However a message is cut into pieces, the digest is that of the message. */
  method HashPieces(pieces: seq<Bytes>) returns (r: Code, digest: Bytes)
    ensures 8 * |Concat(pieces)| < TWO64 ==> r == Success && digest == Sha256(Concat(pieces))
    ensures 8 * |Concat(pieces)| >= TWO64 ==> r == Null
  {
    var ctx := new Context();
    for i := 0 to |pieces|
      invariant ctx.Valid() && fresh(ctx) && fresh(ctx.block) && !ctx.computed
      invariant if 8 * |Concat(pieces[..i])| < TWO64 then ctx.corrupted == Success && ctx.msg == Concat(pieces[..i])
                else ctx.corrupted == Null
    {
      assert pieces[..i + 1][..i] == pieces[..i];
      var code := ctx.Input(pieces[i]);
    }
    assert pieces[..|pieces|] == pieces;
    r, digest := ctx.Result();
  }

  /** The hash of two nodes of the Merkle tree. */
  method HashPair(left: Bytes, right: Bytes) returns (r: Code, digest: Bytes)
    requires |left| == |right| == 32
    ensures r == Success && digest == Sha256(left + right)
  {
    var ctx := new Context();
    AbsorbPair(ctx, left, right);
    r, digest := ctx.Result();
  }

  method AbsorbPair(ctx: Context, left: Bytes, right: Bytes)
    requires ctx.Valid() && ctx.msg == [] && !ctx.computed && ctx.corrupted == Success && |left| == |right| == 32
    modifies ctx, ctx.block
    ensures ctx.Valid() && ctx.msg == left + right && !ctx.computed && ctx.corrupted == Success
  {
    var r := ctx.Input(left);
    assert ctx.msg == left;
    r := ctx.Input(right);
  }

  /******* The hash helper *******/

  class Helper {
    const ctx: Context

    ghost predicate Valid()
      reads this, ctx, ctx.block
    {
      ctx.Valid() && !ctx.computed
    }

    constructor ()
      ensures Valid() && fresh(ctx) && fresh(ctx.block) && ctx.msg == [] && ctx.corrupted == Success
    {
      ctx := new Context();
    }

    method Reset() returns (ok: bool)
      requires Valid()
      modifies ctx
      ensures ok && Valid() && ctx.msg == [] && ctx.corrupted == Success
    {
      ctx.Reset();
      ok := true;
    }

    /** Absorb a string. Its size is cut to 32 bits on the way to the context. */
    method Append(data: Bytes) returns (ok: bool)
      requires Valid()
      modifies ctx, ctx.block
      ensures Valid()
      ensures var taken := data[..|data| % TWO32];
              old(ctx.corrupted) == Success && 8 * |old(ctx.msg) + taken| < TWO64 ==>
                ok && ctx.corrupted == Success && ctx.msg == old(ctx.msg) + taken
      ensures |data| % TWO32 != 0 && old(ctx.corrupted) == Success && 8 * (|old(ctx.msg)| + |data| % TWO32) >= TWO64 ==>
                ok && ctx.corrupted == Null
      ensures old(ctx.corrupted) != Success ==> ctx.corrupted == old(ctx.corrupted) && (ok <==> |data| % TWO32 == 0)
    {
      var length := |data| % TWO32;
      var code := ctx.Input(data[..length]);
      ok := code == Success;
    }

    /** The digest of everything appended since the last digest; the context starts afresh. */
    method Execute() returns (ok: bool, digest: Bytes)
      requires Valid()
      modifies ctx, ctx.block
      ensures old(ctx.corrupted) == Success ==>
                ok && digest == Sha256(old(ctx.msg)) && Valid() && ctx.msg == [] && ctx.corrupted == Success
      ensures old(ctx.corrupted) != Success ==> !ok && Valid() && ctx.corrupted == old(ctx.corrupted)
    {
      var code, d := ctx.Result();
      digest := d;
      if code != Success { return false, digest; }
      ctx.Reset();
      ok := true;
    }

    /** The digest of a string, whatever was appended before. */
    method Hash(data: Bytes) returns (ok: bool, digest: Bytes)
      requires Valid()
      modifies ctx, ctx.block
      ensures ok && Valid() && digest == Sha256(data[..|data| % TWO32])
      ensures ctx.msg == [] && ctx.corrupted == Success
    {
      ok := Reset();
      ok := Append(data);
      assert ctx.msg == data[..|data| % TWO32];
      ok, digest := Execute();
    }
  }

  /** The helper hashes the whole string exactly when its size fits 32 bits. */
  lemma WholeString(data: Bytes)
    ensures data[..|data| % TWO32] == data <==> |data| < TWO32
  {
    assert |data[..|data| % TWO32]| < TWO32;
    assert |data| < TWO32 ==> data[..|data|] == data;
  }
}
