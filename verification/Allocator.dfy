/**
 The over-aligned allocator inside any_completion_handler_impl: it asks the
 handler's allocator for more bytes than needed, hands out an aligned pointer
 into them, and hides the distance to the start right behind the user's bytes.
 Memory is bytes at addresses; users may overwrite every byte that is theirs.
 */
module Allocator {

  import opened Bits

  type Address = nat
  type Byte = b: nat | b < 256

  type Memory = map<Address, Byte>

  function At(m: Memory, a: Address): Byte {
    if a in m then m[a] else 0
  }

  // -------------------------------------------------------- words in memory

  function ToBytes(value: nat, n: nat): (bytes: seq<Byte>)
    ensures |bytes| == n
  {
    if n == 0 then [] else [value % 256] + ToBytes(value / 256, n - 1)
  }

  function FromBytes(bytes: seq<Byte>): (value: nat)
    ensures value < Pow256(|bytes|)
  {
    if bytes == [] then 0 else bytes[0] + 256 * FromBytes(bytes[1..])
  }

  type Positive = n: nat | n > 0 witness 1

  function Pow256(n: nat): Positive {
    if n == 0 then 1 else 256 * Pow256(n - 1)
  }

  lemma {:induction false} WordRoundTrip(value: nat, n: nat)
    requires value < Pow256(n)
    ensures FromBytes(ToBytes(value, n)) == value
  {
    if n > 0 {
      WordRoundTrip(value / 256, n - 1);
    }
  }

  function Write(m: Memory, a: Address, bytes: seq<Byte>): Memory
    decreases |bytes|
  {
    if bytes == [] then m else Write(m[a := bytes[0]], a + 1, bytes[1..])
  }

  function Read(m: Memory, a: Address, n: nat): (bytes: seq<Byte>)
    ensures |bytes| == n && forall i :: 0 <= i < n ==> bytes[i] == At(m, a + i)
    decreases n
  {
    if n == 0 then [] else [At(m, a)] + Read(m, a + 1, n - 1)
  }

  lemma {:induction false} WriteAt(m: Memory, a: Address, bytes: seq<Byte>, x: Address)
    ensures At(Write(m, a, bytes), x) == if a <= x < a + |bytes| then bytes[x - a] else At(m, x)
    decreases |bytes|
  {
    if bytes != [] {
      WriteAt(m[a := bytes[0]], a + 1, bytes[1..], x);
    }
  }

  // ------------------------------------------------------- size_t arithmetic

  lemma {:induction false} Pow256Grows(n: nat)
    ensures Pow256(n) == Pow2(8 * n) && n < Pow256(n)
    ensures n > 0 ==> 2 * n < Pow256(n)
  {
    if n > 0 {
      Pow256Grows(n - 1);
      EightBits(8 * (n - 1));
    }
  }

  lemma EightBits(n: nat)
    ensures Pow2(n + 8) == 256 * Pow2(n)
  {
    assert Pow2(n + 2) == 4 * Pow2(n);
    assert Pow2(n + 4) == 4 * Pow2(n + 2);
    assert Pow2(n + 6) == 4 * Pow2(n + 4);
    assert Pow2(n + 8) == 4 * Pow2(n + 6);
  }

  /** x as it fits into arithmetic modulo m: its remainder. */
  function Wrapped(x: nat, m: Positive): (r: nat)
    ensures r < m && r <= x
  {
    if x < m then x else Wrapped(x - m, m)
  }

  lemma {:induction false} WrappedOnce(x: nat, m: Positive)
    requires x < 2 * m
    ensures Wrapped(x, m) == if x < m then x else x - m
  {
  }

  lemma {:induction false} Times(m: Positive, d: nat)
    ensures m * d >= d && (d > 0 ==> m * d >= m)
  {
    if d > 0 {
      Times(m, d - 1);
      assert m * d == m * (d - 1) + m;
    }
  }

  lemma QuotientUnique(m: Positive, q: int, r: nat, k: int, t: nat)
    requires m * q + r == m * k + t && r < m && t < m
    ensures r == t
  {
    assert m * (q - k) == t - r && m * (k - q) == r - t;
    if q > k {
      Times(m, q - k);
    } else if k > q {
      Times(m, k - q);
    }
  }

  lemma OneMore(m: Positive, q: nat, r: nat, x: nat)
    requires m * q + r == x - m
    ensures m * (q + 1) + r == x
  {
    assert m * (q + 1) == m * q + m;
  }

  lemma {:induction false} WrappedIsRemainder(x: nat, m: Positive)
    ensures Wrapped(x, m) == x % m
  {
    if x < m {
      QuotientUnique(m, x / m, x % m, 0, x);
    } else {
      WrappedIsRemainder(x - m, m);
      OneMore(m, (x - m) / m, (x - m) % m, x);
      QuotientUnique(m, x / m, x % m, (x - m) / m + 1, (x - m) % m);
    }
  }

  /** The bytes a block needs, as a number of any size. */
  function RawSize(word: nat, size: nat, align: Positive): nat {
    size + align - 1 + word
  }

  /** The bytes allocate asks the handler's allocator for: RawSize in size_t. `word` is sizeof(std::ptrdiff_t). */
  function RawRequest(word: nat, size: nat, align: Positive): nat {
    Wrapped(RawSize(word, size, align), Pow256(word))
  }

  /** The room align() is told of. */
  function Space(word: nat, size: nat, align: Positive): nat {
    Wrapped(size + align - 1, Pow256(word))
  }

  // -------------------------------------------------------------- alignment

  /** A multiple of the alignment: nothing remains. */
  predicate Aligned(p: Address, align: Positive) {
    Wrapped(p, align) == 0
  }

  lemma {:induction false} MultipleAligned(k: nat, align: Positive)
    ensures Aligned(k * align, align)
  {
    if k > 0 {
      MultipleAligned(k - 1, align);
      assert k * align - align == (k - 1) * align;
    }
  }

  /** `(base - 1 + align) & -align`. */
  function AlignUp(word: nat, base: Address, align: Positive): (p: Address)
    requires align < Pow256(word)
  {
    And(Wrapped(base + align - 1, Pow256(word)), Pow256(word) - align)
  }

  /** `aligned - base`, in size_t. */
  function Padding(word: nat, base: Address, align: Positive): nat
    requires align < Pow256(word) && base < Pow256(word)
  {
    Wrapped(AlignUp(word, base, align) + Pow256(word) - base, Pow256(word))
  }

  /** Whether align() returns a pointer: std::align compares without wrap-around, the fallback in size_t. */
  predicate Found(word: nat, stdAlign: bool, base: Address, size: nat, align: Positive)
    requires align < Pow256(word) && base < Pow256(word)
  {
    var needed := size + Padding(word, base, align);
    (if stdAlign then needed else Wrapped(needed, Pow256(word))) <= Space(word, size, align)
  }

  /** Where the distance to the start is hidden. */
  function FooterAt(word: nat, base: Address, size: nat, align: Positive): Address
    requires align < Pow256(word)
  {
    Wrapped(AlignUp(word, base, align) + size, Pow256(word))
  }

  datatype Block = Block(base: Address, size: nat, align: Positive)

  /** Any size_t arguments with a legal alignment, and raw bytes at addresses that exist. */
  ghost predicate Request(word: nat, b: Block) {
    && 0 < b.base && b.base + RawRequest(word, b.size, b.align) <= Pow256(word) && b.base < Pow256(word)
    && b.size < Pow256(word) && b.align < Pow256(word) && PowerOfTwo(b.align)
  }

  lemma AlignmentIsPower(align: Positive, word: nat) returns (k: nat)
    requires PowerOfTwo(align) && align < Pow256(word)
    ensures Pow2(k) == align && k < 8 * word && 2 * align <= Pow256(word)
  {
    Pow256Grows(word);
    k :| Pow2(k) == align;
    if 8 * word <= k {
      Pow2Grows(8 * word, k);
    }
    Pow2Grows(k, 8 * word);
  }

  /** Masking an address rounds it down. */
  lemma MaskRounds(word: nat, x: nat, align: Positive)
    requires PowerOfTwo(align) && align < Pow256(word) && x < Pow256(word)
    ensures var p := And(x, Pow256(word) - align); Aligned(p, align) && p <= x < p + align
  {
    var k := AlignmentIsPower(align, word);
    Pow256Grows(word);
    MaskClears(x, 8 * word, k);
    MultipleAligned(Shifted(x, k), align);
  }

  /** The distance from base to an address above it, or to one behind the wrap. */
  lemma PaddingIs(word: nat, base: Address, align: Positive)
    requires align < Pow256(word) && base < Pow256(word) && AlignUp(word, base, align) < Pow256(word)
    ensures var p := AlignUp(word, base, align);
            Padding(word, base, align) == if base <= p then p - base else p + Pow256(word) - base
  {
    WrappedOnce(AlignUp(word, base, align) + Pow256(word) - base, Pow256(word));
  }

  /** The first aligned address from base on, as long as it exists. */
  lemma AlignUpFirst(word: nat, base: Address, align: Positive)
    requires PowerOfTwo(align) && align < Pow256(word) && base + align - 1 < Pow256(word)
    ensures var p := AlignUp(word, base, align);
            Aligned(p, align) && base <= p < base + align && Padding(word, base, align) == p - base
  {
    WrappedOnce(base + align - 1, Pow256(word));
    MaskRounds(word, base + align - 1, align);
    PaddingIs(word, base, align);
  }

  /** Otherwise masking gives an address in front of it. */
  lemma AlignUpBehindWrap(word: nat, base: Address, align: Positive)
    requires PowerOfTwo(align) && align < Pow256(word) && base < Pow256(word) <= base + align - 1
    ensures var p := AlignUp(word, base, align);
            p + Pow256(word) <= base + align - 1 && Padding(word, base, align) == p + Pow256(word) - base
  {
    WrappedOnce(base + align - 1, Pow256(word));
    MaskRounds(word, base + align - 1 - Pow256(word), align);
    PaddingIs(word, base, align);
  }

  lemma PaddingSmall(word: nat, base: Address, align: Positive)
    requires PowerOfTwo(align) && align < Pow256(word) && base < Pow256(word)
    ensures Padding(word, base, align) < align
    ensures var p := AlignUp(word, base, align);
            p == base + Padding(word, base, align) || p + Pow256(word) == base + Padding(word, base, align)
    ensures AlignUp(word, base, align) < Pow256(word)
  {
    if base + align - 1 < Pow256(word) {
      AlignUpFirst(word, base, align);
    } else {
      AlignUpBehindWrap(word, base, align);
    }
  }

  /** align() succeeds exactly when its room does not wrap or, in the fallback, when its own sum wraps as well. */
  lemma FoundIff(word: nat, stdAlign: bool, b: Block)
    requires Request(word, b)
    ensures Found(word, stdAlign, b.base, b.size, b.align) <==>
            (b.size + b.align - 1 < Pow256(word)
             || (!stdAlign && b.size + Padding(word, b.base, b.align) >= Pow256(word)))
  {
    PaddingSmall(word, b.base, b.align);
    WrappedOnce(b.size + b.align - 1, Pow256(word));
    WrappedOnce(b.size + Padding(word, b.base, b.align), Pow256(word));
  }

  // ----------------------------------------------- which blocks lie in their bytes

  predicate Inside(a: Address, n: nat, base: Address, raw: nat) {
    base <= a && a + n <= base + raw
  }

  /** A returned pointer's bytes and footer lie in the raw bytes exactly when the size of the request does not wrap. */
  lemma BlockInsideIff(word: nat, stdAlign: bool, b: Block)
    requires word > 0 && Request(word, b) && Found(word, stdAlign, b.base, b.size, b.align)
    ensures Inside(AlignUp(word, b.base, b.align), b.size + word, b.base, RawRequest(word, b.size, b.align)) <==>
            RawSize(word, b.size, b.align) < Pow256(word)
  {
    if RawSize(word, b.size, b.align) < Pow256(word) {
      AlignUpFirst(word, b.base, b.align);
    }
  }

  /** A size wraps at most once. */
  lemma RawSizeBounded(word: nat, b: Block)
    requires word > 0 && Request(word, b)
    ensures RawSize(word, b.size, b.align) < 2 * Pow256(word)
    ensures var raw := RawSize(word, b.size, b.align);
            RawRequest(word, b.size, b.align) == if raw < Pow256(word) then raw else raw - Pow256(word)
  {
    Pow256Grows(word);
    var _ := AlignmentIsPower(b.align, word);
    WrappedOnce(RawSize(word, b.size, b.align), Pow256(word));
  }

  /** Its footer alone does in one more case: where the fallback's sum of size and padding wraps. */
  lemma FooterInsideIff(word: nat, stdAlign: bool, b: Block)
    requires word > 0 && Request(word, b) && Found(word, stdAlign, b.base, b.size, b.align)
    ensures Inside(FooterAt(word, b.base, b.size, b.align), word, b.base, RawRequest(word, b.size, b.align)) <==>
            (RawSize(word, b.size, b.align) < Pow256(word)
             || (!stdAlign && b.size + Padding(word, b.base, b.align) >= Pow256(word)))
  {
    FoundIff(word, stdAlign, b);
    PaddingSmall(word, b.base, b.align);
    RawSizeBounded(word, b);
    WrappedOnce(AlignUp(word, b.base, b.align) + b.size, Pow256(word));
  }

  /** A request of 2^64 - 8 bytes asks for none at all, is granted, and has its footer in front of the block. */
  lemma WrappedRequest(stdAlign: bool, base: Address)
    requires 8 <= base < Pow256(8)
    ensures var size := Pow256(8) - 8;
            && Pow256(8) == 0x1_0000_0000_0000_0000
            && Request(8, Block(base, size, 1)) && RawRequest(8, size, 1) == 0
            && Found(8, stdAlign, base, size, 1)
            && AlignUp(8, base, 1) == base && FooterAt(8, base, size, 1) == base - 8
  {
    assert Pow2(0) == 1;
    AlignUpFirst(8, base, 1);
    WrappedSums(base, 8, Pow256(8));
  }

  lemma WrappedSums(base: nat, word: nat, m: Positive)
    requires word <= base < m
    ensures Wrapped(m - word + 1 - 1 + word, m) == 0
    ensures Wrapped(base + (m - word), m) == base - word
  {
  }

  // ------------------------------------------------------------------ states

  datatype State = State(word: nat, stdAlign: bool, memory: Memory, live: map<Address, Block>)

  predicate Disjoint(a: Address, n: nat, b: Address, m: nat) {
    a + n <= b || b + m <= a
  }

  predicate RawDisjoint(word: nat, b: Block, c: Block) {
    Disjoint(b.base, RawRequest(word, b.size, b.align), c.base, RawRequest(word, c.size, c.align))
  }

  datatype Step =
    | Allocate(base: Address, size: nat, align: Positive)
    | Deallocate(p: Address)
    | UserWrite(p: Address, i: nat, byte: Byte)

  /** The handler's allocator hands out fresh bytes; users write their own bytes and give back what they got. */
  ghost predicate Enabled(s: State, step: Step) {
    match step
    case Allocate(base, size, align) =>
      && Request(s.word, Block(base, size, align))
      && forall p <- s.live :: RawDisjoint(s.word, Block(base, size, align), s.live[p])
    case Deallocate(p) => p in s.live
    case UserWrite(p, i, _) => p in s.live && i < s.live[p].size
  }

  /** The state with one more block, whose distance is written at `footer`. */
  function Hidden(s: State, p: Address, b: Block, footer: Address, distance: nat): State {
    s.(memory := Write(s.memory, footer, ToBytes(distance, s.word)), live := s.live[p := b])
  }

  /** allocate's effect: a block with its footer, or bad_alloc and nothing. */
  function Allocated(s: State, base: Address, size: nat, align: Positive): State
    requires align < Pow256(s.word) && base < Pow256(s.word)
  {
    if Found(s.word, s.stdAlign, base, size, align) then
      Hidden(s, AlignUp(s.word, base, align), Block(base, size, align),
             FooterAt(s.word, base, size, align), Padding(s.word, base, align))
    else
      s
  }

  /** What deallocate hands back to the handler's allocator: the hidden distance is read from memory. */
  function GivenBack(s: State, p: Address, size: nat, align: Positive): (Address, nat) {
    var distance := FromBytes(Read(s.memory, Wrapped(p + size, Pow256(s.word)), s.word));
    (Wrapped(p + Pow256(s.word) - distance, Pow256(s.word)), RawRequest(s.word, size, align))
  }

  ghost function Apply(s: State, step: Step): State
    requires Enabled(s, step)
  {
    match step
    case Allocate(base, size, align) => Allocated(s, base, size, align)
    case Deallocate(p) => s.(live := s.live - {p})
    case UserWrite(p, i, byte) => s.(memory := s.memory[p + i := byte])
  }

  /** A block's place: aligned, and with its footer inside its raw bytes. */
  ghost predicate Placed(word: nat, p: Address, b: Block) {
    && 0 < b.base && b.base + RawRequest(word, b.size, b.align) <= Pow256(word)
    && Aligned(p, b.align) && Inside(p, b.size + word, b.base, RawRequest(word, b.size, b.align))
  }

  /** One live block: well placed, and its distance still behind it. */
  ghost predicate BlockOk(word: nat, m: Memory, p: Address, b: Block) {
    Placed(word, p, b) && Read(m, p + b.size, word) == ToBytes(p - b.base, word)
  }

  ghost predicate AllOk(s: State) {
    forall p <- s.live :: BlockOk(s.word, s.memory, p, s.live[p])
  }

  ghost predicate AllApart(s: State) {
    forall p <- s.live, q <- s.live :: p != q ==> RawDisjoint(s.word, s.live[p], s.live[q])
  }

  ghost predicate Inv(s: State) {
    AllOk(s) && AllApart(s)
  }

  predicate Init(s: State) {
    s.word > 0 && s.memory == map[] && s.live == map[]
  }

  /** What a caller has to see to: a request whose size does not wrap, unless it ends in bad_alloc. */
  predicate Fits(s: State, step: Step)
    requires step.Allocate? ==> step.align < Pow256(s.word) && step.base < Pow256(s.word)
  {
    step.Allocate? && Found(s.word, s.stdAlign, step.base, step.size, step.align) ==>
      RawSize(s.word, step.size, step.align) < Pow256(s.word)
  }

  // ------------------------------------------------------------- preservation

  lemma ReadElsewhere(m: Memory, a: Address, bytes: seq<Byte>, x: Address, n: nat)
    requires Disjoint(a, |bytes|, x, n)
    ensures Read(Write(m, a, bytes), x, n) == Read(m, x, n)
  {
    forall i | 0 <= i < n
      ensures Read(Write(m, a, bytes), x, n)[i] == Read(m, x, n)[i]
    {
      WriteAt(m, a, bytes, x + i);
    }
  }

  lemma ReadWritten(m: Memory, a: Address, bytes: seq<Byte>)
    ensures Read(Write(m, a, bytes), a, |bytes|) == bytes
  {
    forall i | 0 <= i < |bytes|
      ensures Read(Write(m, a, bytes), a, |bytes|)[i] == bytes[i]
    {
      WriteAt(m, a, bytes, a + i);
    }
  }

  lemma WriteOutside(word: nat, m: Memory, p: Address, b: Block, a: Address, bytes: seq<Byte>)
    requires BlockOk(word, m, p, b) && Disjoint(a, |bytes|, p + b.size, word)
    ensures BlockOk(word, Write(m, a, bytes), p, b)
  {
    ReadElsewhere(m, a, bytes, p + b.size, word);
  }

  /** Two well placed blocks with disjoint raw bytes have different pointers, and nothing of theirs overlaps. */
  lemma BlocksApart(word: nat, p: Address, b: Block, q: Address, c: Block)
    requires word > 0 && Placed(word, p, b) && Placed(word, q, c) && RawDisjoint(word, b, c)
    ensures p != q && Disjoint(p, b.size + word, q, c.size + word)
  {
  }

  /** What a fitting request gets. */
  lemma RequestPlaced(word: nat, stdAlign: bool, b: Block)
    requires word > 0 && Request(word, b) && Found(word, stdAlign, b.base, b.size, b.align)
    requires RawSize(word, b.size, b.align) < Pow256(word)
    ensures var p := AlignUp(word, b.base, b.align);
            Placed(word, p, b) && FooterAt(word, b.base, b.size, b.align) == p + b.size
            && Padding(word, b.base, b.align) == p - b.base
  {
    var p := AlignUp(word, b.base, b.align);
    BlockInsideIff(word, stdAlign, b);
    AlignUpFirst(word, b.base, b.align);
  }

  lemma FooterWritten(word: nat, m: Memory, p: Address, b: Block)
    requires Placed(word, p, b)
    ensures BlockOk(word, Write(m, p + b.size, ToBytes(p - b.base, word)), p, b)
  {
    ReadWritten(m, p + b.size, ToBytes(p - b.base, word));
  }

  /** A footer behind fresh user bytes leaves another block as it is. */
  lemma FreshFooterOutside(word: nat, m: Memory, q: Address, c: Block, p: Address, b: Block)
    requires word > 0 && BlockOk(word, m, q, c) && Placed(word, p, b) && RawDisjoint(word, b, c)
    ensures q != p && BlockOk(word, Write(m, p + b.size, ToBytes(p - b.base, word)), q, c)
  {
    BlocksApart(word, p, b, q, c);
    WriteOutside(word, m, q, c, p + b.size, ToBytes(p - b.base, word));
  }

  /** The state with one more block, its distance right behind it. */
  ghost function Granted(s: State, p: Address, b: Block): State
    requires b.base <= p
  {
    Hidden(s, p, b, p + b.size, p - b.base)
  }

  lemma GrantedAllOk(s: State, p: Address, b: Block)
    requires AllOk(s) && s.word > 0 && Placed(s.word, p, b)
    requires forall q <- s.live :: RawDisjoint(s.word, b, s.live[q])
    ensures AllOk(Granted(s, p, b)) && p !in s.live
  {
    var m := Write(s.memory, p + b.size, ToBytes(p - b.base, s.word));
    FooterWritten(s.word, s.memory, p, b);
    forall q <- s.live
      ensures q != p && BlockOk(s.word, m, q, s.live[q])
    {
      assert BlockOk(s.word, s.memory, q, s.live[q]) && RawDisjoint(s.word, b, s.live[q]);
      FreshFooterOutside(s.word, s.memory, q, s.live[q], p, b);
    }
  }

  lemma GrantedAllApart(s: State, p: Address, b: Block)
    requires AllApart(s) && b.base <= p
    requires forall q <- s.live :: RawDisjoint(s.word, b, s.live[q])
    ensures AllApart(Granted(s, p, b))
  {
  }

  lemma GrantedKeepsInv(s: State, p: Address, b: Block)
    requires Inv(s) && s.word > 0 && Placed(s.word, p, b)
    requires forall q <- s.live :: RawDisjoint(s.word, b, s.live[q])
    ensures Inv(Granted(s, p, b)) && p !in s.live
  {
    GrantedAllOk(s, p, b);
    GrantedAllApart(s, p, b);
  }

  lemma GrantedKeepsByte(s: State, p: Address, b: Block, q: Address, i: nat)
    requires s.word > 0 && Placed(s.word, p, b)
    requires q in s.live && Placed(s.word, q, s.live[q]) && i < s.live[q].size && RawDisjoint(s.word, b, s.live[q])
    ensures q != p && At(Granted(s, p, b).memory, q + i) == At(s.memory, q + i)
  {
    BlocksApart(s.word, p, b, q, s.live[q]);
    WriteAt(s.memory, p + b.size, ToBytes(p - b.base, s.word), q + i);
  }

  lemma AllocatedIsGranted(s: State, b: Block)
    requires s.word > 0 && Request(s.word, b) && Found(s.word, s.stdAlign, b.base, b.size, b.align)
    requires RawSize(s.word, b.size, b.align) < Pow256(s.word)
    ensures var p := AlignUp(s.word, b.base, b.align);
            Placed(s.word, p, b) && Allocated(s, b.base, b.size, b.align) == Granted(s, p, b)
  {
    RequestPlaced(s.word, s.stdAlign, b);
  }

  /** A granted request whose size wraps leaves a block that is not sound. */
  lemma WrappedBreaksInv(s: State, b: Block)
    requires s.word > 0 && Request(s.word, b) && Found(s.word, s.stdAlign, b.base, b.size, b.align)
    requires RawSize(s.word, b.size, b.align) >= Pow256(s.word)
    ensures !Inv(Allocated(s, b.base, b.size, b.align))
  {
    BlockInsideIff(s.word, s.stdAlign, b);
    var p := AlignUp(s.word, b.base, b.align);
    assert p in Allocated(s, b.base, b.size, b.align).live && !Placed(s.word, p, b);
  }

  /** A request leaves all blocks sound exactly when its size does not wrap or it ends in bad_alloc. */
  lemma AllocateKeepsInvIff(s: State, b: Block)
    requires Inv(s) && s.word > 0 && Request(s.word, b) && forall q <- s.live :: RawDisjoint(s.word, b, s.live[q])
    ensures Inv(Allocated(s, b.base, b.size, b.align)) <==>
            (Found(s.word, s.stdAlign, b.base, b.size, b.align) ==>
               RawSize(s.word, b.size, b.align) < Pow256(s.word))
  {
    if Found(s.word, s.stdAlign, b.base, b.size, b.align) {
      if RawSize(s.word, b.size, b.align) < Pow256(s.word) {
        AllocatedIsGranted(s, b);
        GrantedKeepsInv(s, AlignUp(s.word, b.base, b.align), b);
      } else {
        WrappedBreaksInv(s, b);
      }
    }
  }

  lemma UserWriteKeepsBlock(s: State, p: Address, i: nat, byte: Byte, q: Address)
    requires Inv(s) && s.word > 0 && p in s.live && i < s.live[p].size && q in s.live
    ensures BlockOk(s.word, Write(s.memory, p + i, [byte]), q, s.live[q])
  {
    assert BlockOk(s.word, s.memory, p, s.live[p]) && BlockOk(s.word, s.memory, q, s.live[q]);
    if q != p {
      BlocksApart(s.word, q, s.live[q], p, s.live[p]);
    }
    WriteOutside(s.word, s.memory, q, s.live[q], p + i, [byte]);
  }

  lemma UserWriteKeepsInv(s: State, p: Address, i: nat, byte: Byte)
    requires Inv(s) && s.word > 0 && p in s.live && i < s.live[p].size
    ensures Inv(s.(memory := s.memory[p + i := byte]))
  {
    var m := s.memory[p + i := byte];
    assert Write(s.memory, p + i, [byte]) == Write(m, p + i + 1, [byte][1..]) == m;
    forall q <- s.live
      ensures BlockOk(s.word, m, q, s.live[q])
    {
      UserWriteKeepsBlock(s, p, i, byte, q);
    }
  }

  lemma DeallocateKeepsInv(s: State, p: Address)
    requires Inv(s)
    ensures Inv(s.(live := s.live - {p}))
  {
  }

  /** A step leaves all blocks sound exactly when it fits. */
  lemma StepKeepsInvIff(s: State, step: Step)
    requires Inv(s) && s.word > 0 && Enabled(s, step)
    ensures Inv(Apply(s, step)) <==> Fits(s, step)
    ensures Apply(s, step).word == s.word && Apply(s, step).stdAlign == s.stdAlign
  {
    match step
    case Allocate(base, size, align) =>
      AllocateKeepsInvIff(s, Block(base, size, align));
    case Deallocate(p) => DeallocateKeepsInv(s, p);
    case UserWrite(p, i, byte) => UserWriteKeepsInv(s, p, i, byte);
  }

  // --------------------------------------------------------------- every run

  ghost predicate ValidRun(s: State, steps: seq<Step>)
    decreases |steps|
  {
    steps == [] || (Enabled(s, steps[0]) && ValidRun(Apply(s, steps[0]), steps[1..]))
  }

  ghost function Run(s: State, steps: seq<Step>): State
    requires ValidRun(s, steps)
    decreases |steps|
  {
    if steps == [] then s else Run(Apply(s, steps[0]), steps[1..])
  }

  /** Every request of the run fits. */
  ghost predicate AllFit(s: State, steps: seq<Step>)
    requires ValidRun(s, steps)
    decreases |steps|
  {
    steps == [] || (Fits(s, steps[0]) && AllFit(Apply(s, steps[0]), steps[1..]))
  }

  /** All blocks are sound before, between and after the steps. */
  ghost predicate SoundThroughout(s: State, steps: seq<Step>)
    requires ValidRun(s, steps)
    decreases |steps|
  {
    Inv(s) && (steps == [] || SoundThroughout(Apply(s, steps[0]), steps[1..]))
  }

  /** In a run of any requests all blocks stay sound exactly when every request fits. */
  lemma {:induction false} RunSoundIff(s: State, steps: seq<Step>)
    requires Inv(s) && s.word > 0 && ValidRun(s, steps)
    ensures SoundThroughout(s, steps) <==> AllFit(s, steps)
    decreases |steps|
  {
    if steps != [] {
      StepKeepsInvIff(s, steps[0]);
      if Fits(s, steps[0]) {
        RunSoundIff(Apply(s, steps[0]), steps[1..]);
      }
    }
  }

  lemma {:induction false} RunKeepsInv(s: State, steps: seq<Step>)
    requires Inv(s) && s.word > 0 && ValidRun(s, steps) && AllFit(s, steps)
    ensures Inv(Run(s, steps)) && Run(s, steps).word == s.word
    decreases |steps|
  {
    if steps != [] {
      StepKeepsInvIff(s, steps[0]);
      RunKeepsInv(Apply(s, steps[0]), steps[1..]);
    }
  }

  /** What deallocate makes of a sound block. */
  lemma GivesBack(s: State, p: Address, b: Block)
    requires s.word > 0 && BlockOk(s.word, s.memory, p, b)
    ensures GivenBack(s, p, b.size, b.align) == (b.base, RawRequest(s.word, b.size, b.align))
  {
    WordRoundTrip(p - b.base, s.word);
    WrappedOnce(p + b.size, Pow256(s.word));
    WrappedOnce(b.base + Pow256(s.word), Pow256(s.word));
  }

  /**
   After any interleaving of requests, deallocations and writes by users: every
   live block is aligned, its bytes and footer lie in the raw block, and
   deallocating it hands back exactly what was obtained.
   */
  lemma EveryBlockSound(init: State, steps: seq<Step>, p: Address)
    requires Init(init) && ValidRun(init, steps) && AllFit(init, steps) && p in Run(init, steps).live
    ensures var s := Run(init, steps);
            var b := s.live[p];
            && Aligned(p, b.align)
            && Inside(p, b.size + s.word, b.base, RawRequest(s.word, b.size, b.align))
            && GivenBack(s, p, b.size, b.align) == (b.base, RawRequest(s.word, b.size, b.align))
  {
    var s := Run(init, steps);
    RunKeepsInv(init, steps);
    GivesBack(s, p, s.live[p]);
  }

  /** ... and no byte or footer of one block overlaps another's. */
  lemma BlocksDisjoint(init: State, steps: seq<Step>, p: Address, q: Address)
    requires Init(init) && ValidRun(init, steps) && AllFit(init, steps)
    requires p in Run(init, steps).live && q in Run(init, steps).live && p != q
    ensures var s := Run(init, steps);
            Disjoint(p, s.live[p].size + s.word, q, s.live[q].size + s.word)
  {
    var s := Run(init, steps);
    RunKeepsInv(init, steps);
    assert BlockOk(s.word, s.memory, p, s.live[p]) && BlockOk(s.word, s.memory, q, s.live[q]);
    BlocksApart(s.word, p, s.live[p], q, s.live[q]);
  }

  /** A user reads back what it last wrote, whatever is allocated, freed or written elsewhere in between. */
  lemma {:induction false} UserBytesKept(s: State, steps: seq<Step>, p: Address, i: nat)
    requires Inv(s) && s.word > 0 && ValidRun(s, steps) && AllFit(s, steps) && p in s.live && i < s.live[p].size
    requires forall k :: 0 <= k < |steps| ==> LeavesAlone(steps[k], p, i)
    ensures p in Run(s, steps).live && Run(s, steps).live[p] == s.live[p]
    ensures At(Run(s, steps).memory, p + i) == At(s.memory, p + i)
    decreases |steps|
  {
    if steps != [] {
      StepKeepsInvIff(s, steps[0]);
      StepKeepsByte(s, steps[0], p, i);
      UserBytesKept(Apply(s, steps[0]), steps[1..], p, i);
    }
  }

  predicate LeavesAlone(step: Step, p: Address, i: nat) {
    step != Deallocate(p) && !(step.UserWrite? && step.p == p && step.i == i)
  }

  lemma AllocateKeepsByte(s: State, b: Block, p: Address, i: nat)
    requires s.word > 0 && p in s.live && BlockOk(s.word, s.memory, p, s.live[p]) && i < s.live[p].size
    requires Request(s.word, b) && RawDisjoint(s.word, b, s.live[p]) && Fits(s, Allocate(b.base, b.size, b.align))
    ensures var t := Allocated(s, b.base, b.size, b.align);
            p in t.live && t.live[p] == s.live[p] && At(t.memory, p + i) == At(s.memory, p + i)
  {
    if Found(s.word, s.stdAlign, b.base, b.size, b.align) {
      AllocatedIsGranted(s, b);
      GrantedKeepsByte(s, AlignUp(s.word, b.base, b.align), b, p, i);
    }
  }

  lemma WriteKeepsByte(s: State, q: Address, j: nat, byte: Byte, p: Address, i: nat)
    requires Inv(s) && s.word > 0 && p in s.live && i < s.live[p].size
    requires q in s.live && j < s.live[q].size && LeavesAlone(UserWrite(q, j, byte), p, i)
    ensures At(s.memory[q + j := byte], p + i) == At(s.memory, p + i)
  {
    if q != p {
      assert BlockOk(s.word, s.memory, p, s.live[p]) && BlockOk(s.word, s.memory, q, s.live[q]);
      BlocksApart(s.word, p, s.live[p], q, s.live[q]);
    }
  }

  lemma StepKeepsByte(s: State, step: Step, p: Address, i: nat)
    requires p in s.live && i < s.live[p].size && LeavesAlone(step, p, i)
    requires s.word > 0 && Inv(s) && Enabled(s, step) && Fits(s, step)
    ensures p in Apply(s, step).live && Apply(s, step).live[p] == s.live[p]
    ensures At(Apply(s, step).memory, p + i) == At(s.memory, p + i)
  {
    match step
    case Allocate(base, size, align) => AllocateKeepsByte(s, Block(base, size, align), p, i);
    case Deallocate(_) =>
    case UserWrite(q, j, byte) => WriteKeepsByte(s, q, j, byte, p, i);
  }

  lemma UserWriteStored(s: State, p: Address, i: nat, byte: Byte)
    requires p in s.live && i < s.live[p].size
    ensures var t := Apply(s, UserWrite(p, i, byte));
            t.live == s.live && t.word == s.word && At(t.memory, p + i) == byte
  {
  }

  /** So whatever a user writes into its block it reads back later. */
  lemma UserReadsBack(s: State, p: Address, i: nat, byte: Byte, t: State, steps: seq<Step>)
    requires Inv(s) && s.word > 0 && p in s.live && i < s.live[p].size
    requires t == Apply(s, UserWrite(p, i, byte)) && ValidRun(t, steps) && AllFit(t, steps)
    requires forall k :: 0 <= k < |steps| ==> LeavesAlone(steps[k], p, i)
    ensures p in Run(t, steps).live && Run(t, steps).live[p] == s.live[p] && At(Run(t, steps).memory, p + i) == byte
  {
    UserWriteStored(s, p, i, byte);
    StepKeepsInvIff(s, UserWrite(p, i, byte));
    UserBytesKept(t, steps, p, i);
  }

  // ------------------------------------------------------ which blocks are live

  /** A request that is granted, with this pointer. */
  predicate Grants(word: nat, stdAlign: bool, step: Step, p: Address) {
    && step.Allocate? && step.align < Pow256(word) && step.base < Pow256(word)
    && Found(word, stdAlign, step.base, step.size, step.align) && AlignUp(word, step.base, step.align) == p
  }

  /** From step `from` on nothing gives the pointer back. */
  predicate KeptFrom(steps: seq<Step>, from: nat, p: Address) {
    forall k :: from <= k < |steps| ==> steps[k] != Deallocate(p)
  }

  ghost predicate GrantedAndKept(word: nat, stdAlign: bool, steps: seq<Step>, p: Address) {
    exists j: nat :: j < |steps| && Grants(word, stdAlign, steps[j], p) && KeptFrom(steps, j + 1, p)
  }

  lemma StepLive(s: State, step: Step, p: Address)
    requires Enabled(s, step)
    ensures Apply(s, step).word == s.word && Apply(s, step).stdAlign == s.stdAlign
    ensures p in Apply(s, step).live <==> (p in s.live && step != Deallocate(p)) || Grants(s.word, s.stdAlign, step, p)
  {
  }

  lemma KeptStep(steps: seq<Step>, p: Address, j: nat)
    requires steps != []
    ensures KeptFrom(steps, j + 1, p) <==> KeptFrom(steps[1..], j, p)
    ensures KeptFrom(steps, 0, p) <==> steps[0] != Deallocate(p) && KeptFrom(steps, 1, p)
  {
    assert forall k :: 1 <= k < |steps| ==> steps[k] == steps[1..][k - 1];
  }

  lemma GrantedStep(word: nat, stdAlign: bool, steps: seq<Step>, p: Address)
    requires steps != []
    ensures GrantedAndKept(word, stdAlign, steps, p) <==>
            || (Grants(word, stdAlign, steps[0], p) && KeptFrom(steps, 1, p))
            || GrantedAndKept(word, stdAlign, steps[1..], p)
  {
    if GrantedAndKept(word, stdAlign, steps, p) {
      var j: nat :| j < |steps| && Grants(word, stdAlign, steps[j], p) && KeptFrom(steps, j + 1, p);
      if j > 0 {
        KeptStep(steps, p, j);
        assert steps[1..][j - 1] == steps[j];
      }
    }
    if GrantedAndKept(word, stdAlign, steps[1..], p) {
      var j: nat :| j < |steps[1..]| && Grants(word, stdAlign, steps[1..][j], p) && KeptFrom(steps[1..], j + 1, p);
      KeptStep(steps, p, j + 1);
      assert steps[j + 1] == steps[1..][j];
    }
  }

  /** A block is live exactly when a granted request handed it out and no deallocation behind that gave it back. */
  lemma {:induction false} LiveIff(s: State, steps: seq<Step>, p: Address)
    requires ValidRun(s, steps)
    ensures p in Run(s, steps).live <==>
            (p in s.live && KeptFrom(steps, 0, p)) || GrantedAndKept(s.word, s.stdAlign, steps, p)
    decreases |steps|
  {
    if steps != [] {
      StepLive(s, steps[0], p);
      KeptStep(steps, p, 0);
      GrantedStep(s.word, s.stdAlign, steps, p);
      LiveIff(Apply(s, steps[0]), steps[1..], p);
    }
  }

  lemma AllocateLive(s: State, b: Block)
    requires Inv(s) && s.word > 0 && Enabled(s, Allocate(b.base, b.size, b.align))
    requires Fits(s, Allocate(b.base, b.size, b.align)) && Found(s.word, s.stdAlign, b.base, b.size, b.align)
    ensures var p := AlignUp(s.word, b.base, b.align);
            p !in s.live && Allocated(s, b.base, b.size, b.align).live == s.live[p := b]
  {
    AllocatedIsGranted(s, b);
    GrantedKeepsInv(s, AlignUp(s.word, b.base, b.align), b);
  }

  /** A granted request adds its block, and giving it back at once undoes that: the same bytes can be handed out again. */
  lemma DeallocateUndoesAllocate(s: State, b: Block)
    requires Inv(s) && s.word > 0 && Enabled(s, Allocate(b.base, b.size, b.align))
    requires Fits(s, Allocate(b.base, b.size, b.align)) && Found(s.word, s.stdAlign, b.base, b.size, b.align)
    ensures var p := AlignUp(s.word, b.base, b.align);
            var t := Apply(s, Allocate(b.base, b.size, b.align));
            && p !in s.live && t.live == s.live[p := b] && Enabled(t, Deallocate(p))
            && Apply(t, Deallocate(p)).live == s.live
            && Enabled(Apply(t, Deallocate(p)), Allocate(b.base, b.size, b.align))
  {
    AllocateLive(s, b);
    var p := AlignUp(s.word, b.base, b.align);
    assert s.live[p := b] - {p} == s.live;
  }

  // ------------------------------------------------- how many bytes are needed

  lemma {:induction false} NotAligned(k: nat, align: Positive, p: nat)
    requires k * align < p < (k + 1) * align
    ensures !Aligned(p, align)
    decreases k
  {
    if k > 0 {
      assert k * align == (k - 1) * align + align && (k + 1) * align == k * align + align;
      NotAligned(k - 1, align, p - align);
    }
  }

  /** Behind a multiple of the alignment the next one is furthest away, and the footer ends with the raw bytes: none is spare. */
  lemma NoByteSpare(word: nat, k: nat, size: nat, align: Positive)
    requires word > 0 && PowerOfTwo(align) && align < Pow256(word) && RawSize(word, size, align) < Pow256(word)
    requires k * align + 1 + RawSize(word, size, align) <= Pow256(word)
    ensures var base := k * align + 1;
            AlignUp(word, base, align) + size + word == base + RawRequest(word, size, align)
  {
    var base := k * align + 1;
    AlignUpFirst(word, base, align);
    var p := AlignUp(word, base, align);
    assert (k + 1) * align == k * align + align == base + align - 1;
    if p < (k + 1) * align {
      NotAligned(k, align, p);
    }
  }

  // ---------------------------------------------------------------- the class

  class HandlerAllocator {
    const word: nat
    const stdAlign: bool
    var memory: Memory
    ghost var live: map<Address, Block>

    ghost function Value(): State
      reads this
    {
      State(word, stdAlign, memory, live)
    }

    /** Every live block is sound. */
    ghost predicate Valid()
      reads this
    {
      word > 0 && Inv(Value())
    }

    constructor (word: nat, stdAlign: bool)
      requires word > 0
      ensures this.word == word && this.stdAlign == stdAlign && Init(Value()) && Valid()
    {
      this.word, this.stdAlign := word, stdAlign;
      memory, live := map[], map[];
    }

    /** std::memcpy into the block. */
    method CopyIn(a: Address, bytes: seq<Byte>)
      modifies `memory
      ensures memory == Write(old(memory), a, bytes)
    {
      var i := 0;
      while i < |bytes|
        invariant 0 <= i <= |bytes|
        invariant Write(memory, a + i, bytes[i..]) == Write(old(memory), a, bytes)
      {
        assert bytes[i..][0] == bytes[i] && bytes[i..][1..] == bytes[i + 1..];
        memory := memory[a + i := bytes[i]];
        i := i + 1;
      }
    }

    /** detail::align: std::align, or the fallback's masking. */
    method Align(align: Positive, size: nat, base: Address, space: nat) returns (p: Address, found: bool)
      requires Request(word, Block(base, size, align)) && space == Space(word, size, align)
      ensures p == AlignUp(word, base, align) && found == Found(word, stdAlign, base, size, align)
      ensures found <==> size + align - 1 < Pow256(word)
                         || (!stdAlign && size + Padding(word, base, align) >= Pow256(word))
    {
      FoundIff(word, stdAlign, Block(base, size, align));
      var limit := Pow256(word);
      p := And(Wrapped(base + align - 1, limit), limit - align);
      var padding := Wrapped(p + limit - base, limit);
      found := (if stdAlign then size + padding else Wrapped(size + padding, limit)) <= space;
    }

    /** `base` is what the handler's allocator returned for RawRequest bytes; !found is bad_alloc. */
    method AllocateBlock(base: Address, size: nat, align: Positive) returns (p: Address, found: bool)
      requires word > 0 && Enabled(Value(), Allocate(base, size, align))
      modifies this
      ensures found <==> size + align - 1 < Pow256(word)
                         || (!stdAlign && size + Padding(word, base, align) >= Pow256(word))
      ensures found ==> p == AlignUp(word, base, align)
      ensures Value() == Apply(old(Value()), Allocate(base, size, align))
    {
      var limit := Pow256(word);
      var space := Wrapped(size + align - 1, limit);
      p, found := Align(align, size, base, space);
      if found {
        CopyIn(Wrapped(p + size, limit), ToBytes(Wrapped(p + limit - base, limit), word));
        live := live[p := Block(base, size, align)];
      }
    }

    /** Nothing for a null pointer; otherwise what goes back to the handler's allocator. */
    method DeallocateBlock(p: Address, size: nat, align: Positive) returns (freed: bool, base: Address, bytes: nat)
      requires Valid() && (p == 0 || (p in live && live[p].size == size && live[p].align == align))
      modifies this
      ensures freed <==> p != 0
      ensures freed ==> base == old(live)[p].base && bytes == RawRequest(word, old(live)[p].size, old(live)[p].align)
      ensures Value() == if freed then Apply(old(Value()), Deallocate(p)) else old(Value())
      ensures Valid()
    {
      freed, base, bytes := p != 0, 0, 0;
      if freed {
        GivesBack(Value(), p, live[p]);
        var distance := FromBytes(Read(memory, Wrapped(p + size, Pow256(word)), word));
        base := Wrapped(p + Pow256(word) - distance, Pow256(word));
        bytes := Wrapped(size + align - 1 + word, Pow256(word));
        live := live - {p};
      }
    }
  }
}
