/**
 The Base64 codec of server/main.cpp (and its copy in the client's
 TaskManager.cpp): the RFC 4648 section 4 alphabet, groups of three bytes
 encoded as four symbols, '=' padding. Text is modelled as bytes.
 */
module Base64 {
  import opened Text

  const PAD: bv8 := 61 // '='
  const NPOS: bv8 := 255 // std::string::npos stored in an unsigned char

  /** base64_chars[i]: A-Z, a-z, 0-9, '+', '/'. */
  function Symbol(i: bv8): bv8
    requires i < 64
  {
    if i < 26 then i + 65 else if i < 52 then i + 71 else if i < 62 then i - 4 else if i == 62 then 43 else 47
  }

  predicate IsSymbol(c: bv8) {
    // isalnum(c) || c == '+' || c == '/'
    65 <= c <= 90 || 97 <= c <= 122 || 48 <= c <= 57 || c == 43 || c == 47
  }

  /** base64_chars.find(c), cut down to an unsigned char. */
  function IndexOf(c: bv8): bv8 {
    if 65 <= c <= 90 then c - 65 else if 97 <= c <= 122 then c - 71
    else if 48 <= c <= 57 then c + 4 else if c == 43 then 62 else if c == 47 then 63 else NPOS
  }

  lemma SymbolIndex(i: bv8)
    requires i < 64
    ensures IsSymbol(Symbol(i)) && IndexOf(Symbol(i)) == i
  {
  }

  lemma IndexSymbol(c: bv8)
    requires IsSymbol(c)
    ensures IndexOf(c) < 64 && Symbol(IndexOf(c)) == c
  {
  }

  // ------------------------------------------------ the bit masks of one group

  function Sextet0(a: bv8): (s: bv8) ensures s < 64 { (a & 0xfc) >> 2 }
  function Sextet1(a: bv8, b: bv8): (s: bv8) ensures s < 64 { ((a & 0x03) << 4) + ((b & 0xf0) >> 4) }
  function Sextet2(b: bv8, c: bv8): (s: bv8) ensures s < 64 { ((b & 0x0f) << 2) + ((c & 0xc0) >> 6) }
  function Sextet3(c: bv8): (s: bv8) ensures s < 64 { c & 0x3f }

  function Octet0(p: bv8, q: bv8): bv8 { (p << 2) + ((q & 0x30) >> 4) }
  function Octet1(q: bv8, r: bv8): bv8 { ((q & 0xf) << 4) + ((r & 0x3c) >> 2) }
  function Octet2(r: bv8, s: bv8): bv8 { ((r & 0x3) << 6) + s }

  lemma OctetsOfSextets(a: bv8, b: bv8, c: bv8)
    ensures Octet0(Sextet0(a), Sextet1(a, b)) == a
    ensures Octet1(Sextet1(a, b), Sextet2(b, c)) == b
    ensures Octet2(Sextet2(b, c), Sextet3(c)) == c
  {
  }

  lemma SextetsOfOctets(p: bv8, q: bv8, r: bv8, s: bv8)
    requires p < 64 && q < 64 && r < 64 && s < 64
    ensures Sextet0(Octet0(p, q)) == p
    ensures Sextet1(Octet0(p, q), Octet1(q, r)) == q
    ensures Sextet2(Octet1(q, r), Octet2(r, s)) == r
    ensures Sextet3(Octet2(r, s)) == s
    ensures q & 0xf == 0 ==> Sextet1(Octet0(p, q), 0) == q
    ensures r & 0x3 == 0 ==> Sextet2(Octet1(q, r), 0) == r
  {
  }

  // ------------------------------------------------------------- specification

  /** The four symbols of three bytes. */
  function GroupSymbols(a: bv8, b: bv8, c: bv8): (g: seq<bv8>)
    ensures |g| == 4
  {
    [Symbol(Sextet0(a)), Symbol(Sextet1(a, b)), Symbol(Sextet2(b, c)), Symbol(Sextet3(c))]
  }

  /** One or two left-over bytes, completed with zero bytes, keep one symbol more than they have bytes. */
  function TailSymbols(b: seq<bv8>): (g: seq<bv8>)
    requires 1 <= |b| <= 2
    ensures |g| == 4
  {
    if |b| == 1 then GroupSymbols(b[0], 0, 0)[..2] + [PAD, PAD]
    else GroupSymbols(b[0], b[1], 0)[..3] + [PAD]
  }

  /** The text for a byte string. */
  function Encode(b: seq<bv8>): seq<bv8> {
    if |b| == 0 then []
    else if |b| < 3 then TailSymbols(b)
    else GroupSymbols(b[0], b[1], b[2]) + Encode(b[3..])
  }

  /** The characters that the decoder looks at: alphabet symbols before the first '='. */
  function Significant(s: seq<bv8>): (t: seq<bv8>)
    ensures forall i :: 0 <= i < |t| ==> IsSymbol(t[i])
  {
    if s == [] || s[0] == PAD then []
    else if IsSymbol(s[0]) then [s[0]] + Significant(s[1..])
    else Significant(s[1..])
  }

  /** The three bytes of four sextets. */
  function GroupOctets(p: bv8, q: bv8, r: bv8, s: bv8): (g: seq<bv8>)
    ensures |g| == 3
  {
    [Octet0(p, q), Octet1(q, r), Octet2(r, s)]
  }

  function Indices(t: seq<bv8>): (r: seq<bv8>)
    ensures |r| == |t| && forall i :: 0 <= i < |t| ==> r[i] == IndexOf(t[i])
  {
    seq(|t|, i requires 0 <= i < |t| => IndexOf(t[i]))
  }

  /** The three bytes of four symbols. */
  function DecodeFour(t: seq<bv8>): (g: seq<bv8>)
    requires |t| == 4
    ensures |g| == 3
  {
    GroupOctets(IndexOf(t[0]), IndexOf(t[1]), IndexOf(t[2]), IndexOf(t[3]))
  }

  /** Up to three left-over symbols give one byte fewer than there are symbols. */
  function TailOctets(t: seq<bv8>): seq<bv8>
    requires 1 <= |t| <= 3
  {
    if |t| == 1 then []
    else if |t| == 2 then [Octet0(IndexOf(t[0]), IndexOf(t[1]))]
    else [Octet0(IndexOf(t[0]), IndexOf(t[1])), Octet1(IndexOf(t[1]), IndexOf(t[2]))]
  }

  function DecodeSymbols(t: seq<bv8>): seq<bv8> {
    if |t| == 0 then []
    else if |t| < 4 then TailOctets(t)
    else DecodeFour(t[..4]) + DecodeSymbols(t[4..])
  }

  function Decode(s: seq<bv8>): seq<bv8> {
    DecodeSymbols(Significant(s))
  }

  // ---------------------------------------------------------------- the loops

  method Base64Encode(input: seq<bv8>) returns (ret: seq<bv8>)
    ensures ret == Encode(input)
  {
    ret := [];
    var i := 0;
    var three := new bv8[3];
    assert three[..i] + input[0..] == input;
    for n := 0 to |input|
      invariant 0 <= i < 3
      invariant ret + Encode(three[..i] + input[n..]) == Encode(input)
    {
      ret, i := EncodeByte(three, i, input, n, ret);
    }
    if i != 0 {
      var tail := EncodeTail(three, i);
      ret := ret + tail;
    }
  }

  /** One round of the encoder's loop. */
  method EncodeByte(three: array<bv8>, i: nat, input: seq<bv8>, n: nat, ret: seq<bv8>)
    returns (ret': seq<bv8>, i': nat)
    requires three.Length == 3 && i < 3 && n < |input|
    modifies three
    ensures i' < 3
    ensures ret' + Encode(three[..i'] + input[n + 1..]) == ret + Encode(old(three[..i]) + input[n..])
  {
    ghost var pending, rest := three[..i], input[n + 1..];
    three[i] := input[n];
    i' := i + 1;
    ret' := ret;
    assert three[..i'] == pending + [input[n]] && input[n..] == [input[n]] + rest;
    Associate(pending, [input[n]], rest);
    if i' == 3 {
      var group := EncodeGroup(three);
      EncodeOfGroup(three[..i'], rest);
      Associate(ret, group, Encode(rest));
      ret' := ret + group;
      i' := 0;
      assert three[..i'] + rest == rest;
    }
  }

  lemma Associate(a: seq<bv8>, b: seq<bv8>, c: seq<bv8>)
    ensures a + b + c == a + (b + c)
  {
  }

  lemma {:induction false} EncodeOfGroup(group: seq<bv8>, rest: seq<bv8>)
    requires |group| == 3
    ensures Encode(group + rest) == GroupSymbols(group[0], group[1], group[2]) + Encode(rest)
  {
    assert (group + rest)[3..] == rest;
  }

  /** `ret += base64_chars[char_array_4[i]]` for the first `count`. */
  method EmitSymbols(four: array<bv8>, count: nat) returns (group: seq<bv8>)
    requires count <= four.Length && forall k :: 0 <= k < count ==> four[k] < 64
    ensures |group| == count && forall k :: 0 <= k < count ==> group[k] == Symbol(four[k])
  {
    group := [];
    for i := 0 to count
      invariant |group| == i && forall k :: 0 <= k < i ==> group[k] == Symbol(four[k])
    {
      group := group + [Symbol(four[i])];
    }
  }

  /** The body of the encoder's `if (i == 3)`. */
  method EncodeGroup(three: array<bv8>) returns (group: seq<bv8>)
    requires three.Length == 3
    ensures group == GroupSymbols(three[0], three[1], three[2])
  {
    var four := new bv8[4];
    four[0] := Sextet0(three[0]);
    four[1] := Sextet1(three[0], three[1]);
    four[2] := Sextet2(three[1], three[2]);
    four[3] := Sextet3(three[2]);
    group := EmitSymbols(four, 4);
  }

  function Padding(n: nat): (p: seq<bv8>)
    ensures |p| == n && forall i :: 0 <= i < n ==> p[i] == PAD
  {
    seq(n, _ => PAD)
  }

  lemma TailSymbolsAre(b: seq<bv8>, g: seq<bv8>)
    requires 1 <= |b| <= 2 && |g| == |b| + 1 && g[0] == Symbol(Sextet0(b[0]))
    requires g[1] == Symbol(Sextet1(b[0], if |b| == 2 then b[1] else 0))
    requires |b| == 2 ==> g[2] == Symbol(Sextet2(b[1], 0))
    ensures TailSymbols(b) == g + Padding(3 - |b|)
  {
  }

  /** The encoder's final `if (i)`: zero-fill, emit i + 1 symbols, then pad. */
  method EncodeTail(three: array<bv8>, i: nat) returns (tail: seq<bv8>)
    requires three.Length == 3 && 1 <= i <= 2
    modifies three
    ensures tail == TailSymbols(old(three[..i]))
  {
    ghost var pending := three[..i];
    for j := i to 3
      invariant forall k :: 0 <= k < i ==> three[k] == pending[k]
      invariant forall k :: i <= k < j ==> three[k] == 0
    {
      three[j] := 0;
    }
    var four := new bv8[4];
    four[0] := Sextet0(three[0]);
    four[1] := Sextet1(three[0], three[1]);
    four[2] := Sextet2(three[1], three[2]);
    tail := EmitSymbols(four, i + 1);
    TailSymbolsAre(pending, tail);
    tail := Pad(tail, i);
  }

  /** `while (i++ < 3) ret += '='`. */
  method Pad(symbols: seq<bv8>, i: nat) returns (tail: seq<bv8>)
    requires i <= 3
    ensures tail == symbols + Padding(3 - i)
  {
    tail := symbols;
    var filled := i;
    while filled < 3
      invariant i <= filled <= 3 && tail == symbols + Padding(filled - i)
    {
      tail := tail + [PAD];
      filled := filled + 1;
    }
  }

  method Base64Decode(input: seq<bv8>) returns (ret: seq<bv8>)
    ensures ret == Decode(input)
  {
    ret := [];
    var i := 0;
    var four := new bv8[4];
    var n := 0;
    assert four[..i] + Significant(input[n..]) == Significant(input) by { assert input[n..] == input; }
    while n < |input| && input[n] != PAD
      invariant 0 <= n <= |input| && 0 <= i < 4
      invariant ret + DecodeSymbols(four[..i] + Significant(input[n..])) == Decode(input)
    {
      if IsSymbol(input[n]) {
        ret, i := DecodeByte(four, i, input, n, ret);
      }
      n := n + 1;
    }
    if i != 0 {
      var tail := DecodeTail(four, i);
      ret := ret + tail;
    }
  }

  /** One round of the decoder's loop on an alphabet character. */
  method DecodeByte(four: array<bv8>, i: nat, input: seq<bv8>, n: nat, ret: seq<bv8>)
    returns (ret': seq<bv8>, i': nat)
    requires four.Length == 4 && i < 4 && n < |input| && IsSymbol(input[n])
    modifies four
    ensures i' < 4
    ensures ret' + DecodeSymbols(four[..i'] + Significant(input[n + 1..]))
         == ret + DecodeSymbols(old(four[..i]) + Significant(input[n..]))
  {
    ghost var pending, rest := four[..i], Significant(input[n + 1..]);
    SignificantSymbol(input, n);
    Associate(pending, [input[n]], rest);
    four[i] := input[n];
    i' := i + 1;
    ret' := ret;
    assert four[..i'] == pending + [input[n]];
    if i' == 4 {
      DecodeOfGroup(four[..], rest);
      var group := DecodeGroup(four);
      Associate(ret, group, DecodeSymbols(rest));
      ret' := ret + group;
      i' := 0;
      assert four[..i'] + rest == rest;
    }
  }

  lemma {:induction false} SignificantSymbol(input: seq<bv8>, n: nat)
    requires n < |input| && IsSymbol(input[n])
    ensures Significant(input[n..]) == [input[n]] + Significant(input[n + 1..])
  {
    assert input[n..][1..] == input[n + 1..];
  }

  lemma {:induction false} DecodeOfGroup(group: seq<bv8>, rest: seq<bv8>)
    requires |group| == 4
    ensures DecodeSymbols(group + rest) == DecodeFour(group) + DecodeSymbols(rest)
  {
    assert (group + rest)[4..] == rest && (group + rest)[..4] == group;
  }

  /** `for (i = 0; ...) char_array_4[i] = base64_chars.find(char_array_4[i])`, in place. */
  method LookUp(four: array<bv8>)
    requires four.Length == 4
    modifies four
    ensures four[..] == Indices(old(four[..]))
  {
    for i := 0 to 4
      invariant forall k :: 0 <= k < i ==> four[k] == IndexOf(old(four[k]))
      invariant forall k :: i <= k < 4 ==> four[k] == old(four[k])
    {
      four[i] := IndexOf(four[i]);
    }
  }

  /** The body of the decoder's `if (i == 4)`: symbols become indices in place. */
  method DecodeGroup(four: array<bv8>) returns (group: seq<bv8>)
    requires four.Length == 4
    modifies four
    ensures group == DecodeFour(old(four[..]))
  {
    LookUp(four);
    var indices := four[..];
    group := EmitOctets(indices, 3);
    assert group == GroupOctets(indices[0], indices[1], indices[2], indices[3]);
  }

  method EmitOctets(indices: seq<bv8>, count: nat) returns (octets: seq<bv8>)
    requires |indices| == 4 && count <= 3
    ensures octets == GroupOctets(indices[0], indices[1], indices[2], indices[3])[..count]
  {
    var three := new bv8[3];
    three[0] := Octet0(indices[0], indices[1]);
    three[1] := Octet1(indices[1], indices[2]);
    three[2] := Octet2(indices[2], indices[3]);
    octets := [];
    for i := 0 to count
      invariant octets == three[..i]
    {
      octets := octets + [three[i]];
    }
    assert three[..] == GroupOctets(indices[0], indices[1], indices[2], indices[3]);
    assert three[..count] == three[..][..count];
  }

  /** The decoder's final `if (i)`: NUL-fill, look everything up, emit i - 1 bytes. */
  method DecodeTail(four: array<bv8>, i: nat) returns (tail: seq<bv8>)
    requires four.Length == 4 && 1 <= i <= 3
    modifies four
    ensures tail == TailOctets(old(four[..i]))
  {
    for j := i to 4
      invariant forall k :: 0 <= k < i ==> four[k] == old(four[k])
    {
      four[j] := 0;
    }
    ghost var filled := four[..];
    assert forall k :: 0 <= k < i ==> filled[k] == old(four[..i])[k];
    LookUp(four);
    tail := EmitOctets(four[..], i - 1);
  }

  // ------------------------------------------------------------ the properties

  /** How many '=' follow the symbols of n bytes. */
  function PadCount(n: nat): nat { (3 - n % 3) % 3 }

  lemma GroupIsSymbols(a: bv8, b: bv8, c: bv8)
    ensures forall i :: 0 <= i < 4 ==> IsSymbol(GroupSymbols(a, b, c)[i])
  {
    SymbolIndex(Sextet0(a));
    SymbolIndex(Sextet1(a, b));
    SymbolIndex(Sextet2(b, c));
    SymbolIndex(Sextet3(c));
  }

  lemma TailIsPadded(b: seq<bv8>)
    requires 1 <= |b| <= 2
    ensures PaddedBy(TailSymbols(b), 3 - |b|)
  {
    GroupIsSymbols(b[0], if |b| == 2 then b[1] else 0, 0);
  }

  /** `pad` characters '=' after nothing but symbols. */
  predicate PaddedBy(s: seq<bv8>, pad: nat) {
    && pad <= |s|
    && (forall i :: 0 <= i < |s| - pad ==> IsSymbol(s[i]))
    && (forall i :: |s| - pad <= i < |s| ==> s[i] == 61)
  }

  lemma PaddedAfterSymbols(g: seq<bv8>, s: seq<bv8>, pad: nat)
    requires (forall i :: 0 <= i < |g| ==> IsSymbol(g[i])) && PaddedBy(s, pad)
    ensures PaddedBy(g + s, pad)
  {
  }

  lemma {:induction false} EncodeStarts(b: seq<bv8>)
    requires |b| >= 3
    ensures Encode(b) == GroupSymbols(b[0], b[1], b[2]) + Encode(b[3..])
  {
  }

  lemma {:induction false} EncodedLength(b: seq<bv8>)
    ensures |Encode(b)| == (|b| + 2) / 3 * 4
  {
    if |b| >= 3 {
      EncodeStarts(b);
      EncodedLength(b[3..]);
    }
  }

  lemma {:induction false} EncodedPadded(b: seq<bv8>)
    ensures PaddedBy(Encode(b), PadCount(|b|))
  {
    if 1 <= |b| <= 2 {
      TailIsPadded(b);
    } else if |b| >= 3 {
      EncodeStarts(b);
      EncodedPadded(b[3..]);
      PadCountOfRest(b);
      GroupIsSymbols(b[0], b[1], b[2]);
      PaddedAfterSymbols(GroupSymbols(b[0], b[1], b[2]), Encode(b[3..]), PadCount(|b|));
    }
  }

  lemma PadCountOfRest(b: seq<bv8>)
    requires |b| >= 3
    ensures PadCount(|b[3..]|) == PadCount(|b|)
  {
  }

  /** RFC 4648 section 4: symbols, then exactly the padding the length calls for. */
  lemma EncodedShape(b: seq<bv8>)
    ensures |Encode(b)| == (|b| + 2) / 3 * 4
    ensures PaddedBy(Encode(b), PadCount(|b|))
  {
    EncodedLength(b);
    EncodedPadded(b);
  }

  lemma {:induction false} SignificantOfSymbols(t: seq<bv8>, rest: seq<bv8>)
    requires forall i :: 0 <= i < |t| ==> IsSymbol(t[i])
    ensures Significant(t + rest) == t + Significant(rest)
  {
    if t == [] {
      assert t + rest == rest;
    } else {
      SignificantOfSymbols(t[1..], rest);
      assert (t + rest)[1..] == t[1..] + rest;
    }
  }

  /** The encoded text without its padding. */
  function Unpadded(b: seq<bv8>): seq<bv8>
  {
    EncodedPadded(b);
    Encode(b)[..|Encode(b)| - PadCount(|b|)]
  }

  lemma DecodeOfTail(b: seq<bv8>)
    requires 1 <= |b| <= 2
    ensures DecodeSymbols(TailSymbols(b)[..|b| + 1]) == b
  {
    if |b| == 1 {
      SymbolIndex(Sextet0(b[0]));
      SymbolIndex(Sextet1(b[0], 0));
      OctetsOfSextets(b[0], 0, 0);
    } else {
      SymbolIndex(Sextet0(b[0]));
      SymbolIndex(Sextet1(b[0], b[1]));
      SymbolIndex(Sextet2(b[1], 0));
      OctetsOfSextets(b[0], b[1], 0);
    }
  }

  lemma DecodeOfEncodedGroup(a: bv8, b: bv8, c: bv8, rest: seq<bv8>)
    ensures DecodeSymbols(GroupSymbols(a, b, c) + rest) == [a, b, c] + DecodeSymbols(rest)
  {
    var g := GroupSymbols(a, b, c);
    DecodeOfGroup(g, rest);
    SymbolIndex(Sextet0(a));
    SymbolIndex(Sextet1(a, b));
    SymbolIndex(Sextet2(b, c));
    SymbolIndex(Sextet3(c));
    OctetsOfSextets(a, b, c);
  }

  lemma UnpaddedOfTail(b: seq<bv8>)
    requires 1 <= |b| <= 2
    ensures Unpadded(b) == TailSymbols(b)[..|b| + 1]
  {
  }

  lemma UnpaddedOfGroup(b: seq<bv8>)
    requires |b| >= 3
    ensures Unpadded(b) == GroupSymbols(b[0], b[1], b[2]) + Unpadded(b[3..])
  {
    EncodeStarts(b);
    EncodedPadded(b[3..]);
    PadCountOfRest(b);
    DropBehind(GroupSymbols(b[0], b[1], b[2]), Encode(b[3..]), PadCount(|b|));
  }

  lemma DropBehind(a: seq<bv8>, b: seq<bv8>, n: nat)
    requires n <= |b|
    ensures (a + b)[..|a + b| - n] == a + b[..|b| - n]
  {
  }

  lemma FirstThree(b: seq<bv8>)
    requires |b| >= 3
    ensures b == [b[0], b[1], b[2]] + b[3..]
  {
  }

  lemma {:induction false} DecodeSymbolsOfUnpadded(b: seq<bv8>)
    ensures DecodeSymbols(Unpadded(b)) == b
  {
    if |b| == 0 {
    } else if |b| < 3 {
      DecodeOfTail(b);
      UnpaddedOfTail(b);
    } else {
      UnpaddedOfGroup(b);
      DecodeOfEncodedGroup(b[0], b[1], b[2], Unpadded(b[3..]));
      DecodeSymbolsOfUnpadded(b[3..]);
      FirstThree(b);
    }
  }

  /** Decoding what was encoded gives back every byte string, padding or no padding. */
  lemma RoundTrip(b: seq<bv8>)
    ensures Decode(Encode(b)) == b
    ensures Decode(Unpadded(b)) == b
  {
    EncodedPadded(b);
    var t := Unpadded(b);
    var pad := Encode(b)[|t|..];
    assert Encode(b) == t + pad;
    SignificantOfSymbols(t, pad);
    SignificantOfSymbols(t, []);
    assert t + [] == t;
    DecodeSymbolsOfUnpadded(b);
  }

  /** Anything outside the alphabet may be inserted anywhere, and anything at all after the first '=', which is 61. */
  lemma {:induction false} NoiseIgnored(s: seq<bv8>, noise: seq<bv8>, t: seq<bv8>)
    requires forall i :: 0 <= i < |noise| ==> !IsSymbol(noise[i])
    requires 61 in noise ==> 61 in s
    ensures Decode(s + noise + t) == Decode(s + t)
    ensures 61 in s ==> Decode(s + t) == Decode(s)
  {
    SignificantNoise(s, noise, t);
  }

  lemma {:induction false} SignificantNoise(s: seq<bv8>, noise: seq<bv8>, t: seq<bv8>)
    requires forall i :: 0 <= i < |noise| ==> !IsSymbol(noise[i])
    requires PAD in noise ==> PAD in s
    ensures Significant(s + noise + t) == Significant(s + t)
    ensures PAD in s ==> Significant(s + t) == Significant(s)
    decreases |s| + |noise|
  {
    if s != [] {
      assert (s + noise + t)[1..] == s[1..] + noise + t && (s + t)[1..] == s[1..] + t;
      if s[0] != PAD {
        SignificantNoise(s[1..], noise, t);
      }
    } else if noise != [] {
      assert (s + noise + t)[1..] == s + noise[1..] + t;
      SignificantNoise(s, noise[1..], t);
    } else {
      assert s + noise + t == s + t;
    }
  }

  /** Text that RFC 4648 calls canonical: whole groups, right padding, zero pad bits. */
  predicate Canonical(s: seq<bv8>) {
    && |s| % 4 == 0
    && ( || PaddedBy(s, 0)
         || (|s| > 0 && PaddedBy(s, 1) && IndexOf(s[|s| - 2]) & 0x3 == 0)
         || (|s| > 0 && PaddedBy(s, 2) && IndexOf(s[|s| - 3]) & 0xf == 0))
  }

  lemma EncodeOfDecodedGroup(t: seq<bv8>, rest: seq<bv8>)
    requires |t| == 4 && PaddedBy(t, 0)
    ensures Encode(DecodeSymbols(t + rest)) == t + Encode(DecodeSymbols(rest))
  {
    DecodeOfGroup(t, rest);
    EncodeOfGroup(DecodeFour(t), DecodeSymbols(rest));
    EncodeOfDecodedFour(t);
  }

  lemma EncodeOfDecodedFour(t: seq<bv8>)
    requires |t| == 4 && PaddedBy(t, 0)
    ensures var g := DecodeFour(t); GroupSymbols(g[0], g[1], g[2]) == t
  {
    IndexSymbol(t[0]);
    IndexSymbol(t[1]);
    IndexSymbol(t[2]);
    IndexSymbol(t[3]);
    SextetsOfOctets(IndexOf(t[0]), IndexOf(t[1]), IndexOf(t[2]), IndexOf(t[3]));
  }

  lemma TailOfTwoSymbols(x: bv8, y: bv8)
    requires IsSymbol(x) && IsSymbol(y) && IndexOf(y) & 0xf == 0
    ensures TailSymbols([Octet0(IndexOf(x), IndexOf(y))]) == [x, y, PAD, PAD]
  {
    IndexSymbol(x);
    IndexSymbol(y);
    SextetsOfOctets(IndexOf(x), IndexOf(y), 0, 0);
  }

  lemma TailOfThreeSymbols(x: bv8, y: bv8, z: bv8)
    requires IsSymbol(x) && IsSymbol(y) && IsSymbol(z) && IndexOf(z) & 0x3 == 0
    ensures TailSymbols([Octet0(IndexOf(x), IndexOf(y)), Octet1(IndexOf(y), IndexOf(z))]) == [x, y, z, PAD]
  {
    IndexSymbol(x);
    IndexSymbol(y);
    IndexSymbol(z);
    SextetsOfOctets(IndexOf(x), IndexOf(y), IndexOf(z), 0);
  }

  /** The pad bits of an incomplete last group are zero. */
  predicate ZeroPadBits(t: seq<bv8>) {
    && (|t| % 4 == 2 ==> IndexOf(t[|t| - 1]) & 0xf == 0)
    && (|t| % 4 == 3 ==> IndexOf(t[|t| - 1]) & 0x3 == 0)
  }

  function PadTo4(t: seq<bv8>): nat { (4 - |t| % 4) % 4 }

  lemma EncodeOfDecodedTail(t: seq<bv8>)
    requires 2 <= |t| <= 3 && PaddedBy(t, 0) && ZeroPadBits(t)
    ensures Encode(TailOctets(t)) == t + Padding(4 - |t|)
  {
    if |t| == 2 {
      TailOfTwoSymbols(t[0], t[1]);
    } else {
      TailOfThreeSymbols(t[0], t[1], t[2]);
    }
  }

  lemma {:induction false} EncodeOfDecodedSymbols(t: seq<bv8>)
    requires PaddedBy(t, 0) && |t| % 4 != 1 && ZeroPadBits(t)
    ensures Encode(DecodeSymbols(t)) == t + Padding(PadTo4(t))
  {
    if 0 < |t| < 4 {
      EncodeOfDecodedTail(t);
    } else if |t| > 0 {
      DropGroup(t);
      EncodeOfDecodedSymbols(t[4..]);
      EncodeOfSplit(t);
      Regroup(t, 4, Padding(PadTo4(t)), Encode(DecodeSymbols(t[4..])));
    }
  }

  lemma EncodeOfSplit(t: seq<bv8>)
    requires |t| >= 4 && PaddedBy(t, 0)
    ensures Encode(DecodeSymbols(t)) == t[..4] + Encode(DecodeSymbols(t[4..]))
  {
    assert t == t[..4] + t[4..];
    EncodeOfDecodedGroup(t[..4], t[4..]);
  }

  lemma Regroup(t: seq<bv8>, k: nat, padding: seq<bv8>, tail: seq<bv8>)
    requires k <= |t| && tail == t[k..] + padding
    ensures t[..k] + tail == t + padding
  {
  }

  lemma DropGroup(t: seq<bv8>)
    requires |t| >= 4 && PaddedBy(t, 0) && ZeroPadBits(t)
    ensures PaddedBy(t[4..], 0) && ZeroPadBits(t[4..]) && PadTo4(t[4..]) == PadTo4(t) && |t[4..]| % 4 == |t| % 4
  {
  }

  lemma CanonicalPad(s: seq<bv8>) returns (pad: nat)
    requires Canonical(s)
    ensures pad <= 2 && PaddedBy(s, pad) && |s[..|s| - pad]| % 4 != 1
    ensures ZeroPadBits(s[..|s| - pad]) && PadTo4(s[..|s| - pad]) == pad
  {
    pad := if PaddedBy(s, 0) then 0 else if PaddedBy(s, 1) then 1 else 2;
  }

  lemma SplitPadding(s: seq<bv8>, pad: nat)
    requires PaddedBy(s, pad)
    ensures s == s[..|s| - pad] + Padding(pad)
    ensures PaddedBy(s[..|s| - pad], 0)
    ensures Significant(s) == s[..|s| - pad]
  {
    SignificantOfSymbols(s[..|s| - pad], Padding(pad));
  }

  lemma CanonicalIsEncoded(s: seq<bv8>)
    requires Canonical(s)
    ensures Encode(Decode(s)) == s
  {
    var pad := CanonicalPad(s);
    SplitPadding(s, pad);
    EncodeOfDecodedSymbols(s[..|s| - pad]);
  }

  lemma TailPadBits(b: seq<bv8>)
    requires 1 <= |b| <= 2
    ensures IndexOf(TailSymbols(b)[|b|]) & (if |b| == 1 then 0xf else 0x3) == 0
  {
    SymbolIndex(Sextet1(b[0], 0));
    if |b| == 2 {
      SymbolIndex(Sextet2(b[1], 0));
    }
  }

  lemma CanonicalAfterGroup(g: seq<bv8>, s: seq<bv8>)
    requires |g| == 4 && PaddedBy(g, 0) && Canonical(s)
    ensures Canonical(g + s)
  {
    var pad: nat := if PaddedBy(s, 0) then 0 else if PaddedBy(s, 1) then 1 else 2;
    PaddedAfterSymbols(g, s, pad);
  }

  lemma CanonicalTail(b: seq<bv8>)
    requires 1 <= |b| <= 2
    ensures Canonical(TailSymbols(b))
  {
    TailIsPadded(b);
    TailPadBits(b);
  }

  lemma {:induction false} EncodedIsCanonical(b: seq<bv8>)
    ensures Canonical(Encode(b))
  {
    if 1 <= |b| <= 2 {
      CanonicalTail(b);
    } else if |b| > 2 {
      EncodedIsCanonical(b[3..]);
      GroupIsSymbols(b[0], b[1], b[2]);
      CanonicalAfterGroup(GroupSymbols(b[0], b[1], b[2]), Encode(b[3..]));
    }
  }

  /** Encoding inverts decoding on the canonical texts and on no others. */
  lemma EncodeInvertsDecodeIff(s: seq<bv8>)
    ensures Encode(Decode(s)) == s <==> Canonical(s)
  {
    EncodedIsCanonical(Decode(s));
    if Canonical(s) {
      CanonicalIsEncoded(s);
    }
  }

  // -------------------------------------------------- which text an encoding is

  /** base64_chars, and Table 1 of RFC 4648. */
  const ALPHABET := "ABCDEFGHIJKLMNOPQRSTUVWXYZ" + "abcdefghijklmnopqrstuvwxyz" + "0123456789" + "+/"

  /** The position of a character in an alphabet; the alphabet's length if it is not in it. */
  function Position(alphabet: string, c: bv8): nat {
    IndexOfChar(alphabet, c as int as char)
  }

  /** Four symbols, read as the digits of a number to the base 64. */
  function Digits4(alphabet: string, t: seq<bv8>): nat
    requires |t| == 4
  {
    Position(alphabet, t[0]) * 0x4_0000 + Position(alphabet, t[1]) * 0x1000
    + Position(alphabet, t[2]) * 0x40 + Position(alphabet, t[3])
  }

  /** Three bytes, read as the digits of a number to the base 256. */
  function Bytes3(b: seq<bv8>): nat
    requires |b| == 3
  {
    b[0] as int * 0x1_0000 + b[1] as int * 0x100 + b[2] as int
  }

  /** One or two bytes, with zero bits behind them; '=' stands for the digits that are not needed. */
  predicate TailIs(alphabet: string, t: seq<bv8>, b: seq<bv8>)
    requires |t| == 4 && 1 <= |b| <= 2
  {
    if |b| == 1 then
      && t[2] == 61 && t[3] == 61
      && Position(alphabet, t[0]) * 0x40 + Position(alphabet, t[1]) == b[0] as int * 0x10
    else
      && t[3] == 61
      && Position(alphabet, t[0]) * 0x1000 + Position(alphabet, t[1]) * 0x40 + Position(alphabet, t[2])
         == (b[0] as int * 0x100 + b[1] as int) * 4
  }

  /** The bytes of an incomplete last group: the bits that fill no byte are dropped, whatever they are. */
  predicate BytesOfTail(alphabet: string, d: seq<bv8>, t: seq<bv8>)
    requires 1 <= |t| <= 3
  {
    && |d| == |t| - 1
    && (|t| == 2 ==> d[0] as int == (Position(alphabet, t[0]) * 0x40 + Position(alphabet, t[1])) / 0x10)
    && (|t| == 3 ==>
          d[0] as int * 0x100 + d[1] as int
          == (Position(alphabet, t[0]) * 0x1000 + Position(alphabet, t[1]) * 0x40 + Position(alphabet, t[2])) / 4)
  }

  /** Symbol and its inverse follow this alphabet. */
  ghost predicate Follows(alphabet: string) {
    && (forall i: bv8 | i < 64 :: Position(alphabet, Symbol(i)) == i as int)
    && (forall c: bv8 | IsSymbol(c) :: Position(alphabet, c) == IndexOf(c) as int)
  }

  // ... the codec's table is the alphabet

  /** n characters from c on. */
  function Range(c: char, n: nat): string
    requires c as int + n < 0x80
  {
    seq(n, i requires 0 <= i < n => (c as int + i) as char)
  }

  lemma AlphabetRanges()
    ensures ALPHABET == Range('A', 26) + Range('a', 26) + Range('0', 10) + "+/"
  {
    UpperRange();
    LowerRange();
    DigitRange();
  }

  lemma UpperRange()
    ensures "ABCDEFGHIJKLMNOPQRSTUVWXYZ" == Range('A', 26)
  {
  }

  lemma LowerRange()
    ensures "abcdefghijklmnopqrstuvwxyz" == Range('a', 26)
  {
  }

  lemma DigitRange()
    ensures "0123456789" == Range('0', 10)
  {
  }

  /** Character i of an alphabet of these ranges. */
  lemma RangesAt(alphabet: string, i: nat)
    requires alphabet == Range('A', 26) + Range('a', 26) + Range('0', 10) + "+/" && i < 64
    ensures |alphabet| == 64
    ensures alphabet[i] as int ==
            if i < 26 then i + 65 else if i < 52 then i + 71 else if i < 62 then i - 4 else if i == 62 then 43 else 47
  {
  }

  lemma SymbolCode(i: bv8)
    requires i < 64
    ensures var n := i as int;
            n < 64 && Symbol(i) as int ==
            if n < 26 then n + 65 else if n < 52 then n + 71 else if n < 62 then n - 4 else if n == 62 then 43 else 47
  {
  }

  lemma FirstAt(s: string, c: char, n: nat)
    requires n < |s| && s[n] == c && forall j :: 0 <= j < n ==> s[j] != c
    ensures IndexOfChar(s, c) == n
  {
    var p := IndexOfChar(s, c);
    assert forall j :: 0 <= j < p ==> s[j] == s[..p][j];
  }

  lemma PositionOfSymbol(alphabet: string, i: bv8)
    requires alphabet == Range('A', 26) + Range('a', 26) + Range('0', 10) + "+/" && i < 64
    ensures Position(alphabet, Symbol(i)) == i as int
  {
    var n := i as int;
    SymbolCode(i);
    RangesAt(alphabet, n);
    forall j: nat | j < n
      ensures alphabet[j] != alphabet[n]
    {
      RangesAt(alphabet, j);
    }
    FirstAt(alphabet, Symbol(i) as int as char, n);
  }

  lemma RangesFollow(alphabet: string)
    requires alphabet == Range('A', 26) + Range('a', 26) + Range('0', 10) + "+/"
    ensures Follows(alphabet)
  {
    forall i: bv8 | i < 64
      ensures Position(alphabet, Symbol(i)) == i as int
    {
      PositionOfSymbol(alphabet, i);
    }
    forall c: bv8 | IsSymbol(c)
      ensures Position(alphabet, c) == IndexOf(c) as int
    {
      IndexSymbol(c);
      PositionOfSymbol(alphabet, IndexOf(c));
    }
  }

  lemma FollowsAlphabet()
    ensures Follows(ALPHABET)
  {
    AlphabetRanges();
    RangesFollow(ALPHABET);
  }

  lemma InRanges(alphabet: string, c: bv8)
    requires alphabet == Range('A', 26) + Range('a', 26) + Range('0', 10) + "+/"
    ensures |alphabet| == 64 && (IsSymbol(c) <==> Position(alphabet, c) < 64)
  {
    RangesAt(alphabet, 0);
    if IsSymbol(c) {
      IndexSymbol(c);
      SymbolCode(IndexOf(c));
      PositionOfSymbol(alphabet, IndexOf(c));
    } else if Position(alphabet, c) < 64 {
      RangesAt(alphabet, Position(alphabet, c));
    }
  }

  /** The decoder takes exactly the characters of the alphabet for symbols. */
  lemma IsSymbolIff(c: bv8)
    ensures IsSymbol(c) <==> Position(ALPHABET, c) < |ALPHABET|
  {
    AlphabetRanges();
    InRanges(ALPHABET, c);
  }

  // ... and its bit masks are arithmetic

  lemma ByteParts(a: bv8)
    ensures a as int == Sextet0(a) as int * 4 + (a & 0x03) as int
    ensures a as int == ((a & 0xf0) >> 4) as int * 16 + (a & 0x0f) as int
    ensures a as int == ((a & 0xc0) >> 6) as int * 64 + Sextet3(a) as int
  {
  }

  lemma SextetParts(a: bv8, b: bv8)
    ensures Sextet1(a, b) as int == (a & 0x03) as int * 16 + ((b & 0xf0) >> 4) as int
    ensures Sextet2(a, b) as int == (a & 0x0f) as int * 4 + ((b & 0xc0) >> 6) as int
  {
  }

  lemma SextetsValue(a: bv8, b: bv8, c: bv8)
    ensures Sextet0(a) as int * 0x4_0000 + Sextet1(a, b) as int * 0x1000 + Sextet2(b, c) as int * 0x40 + Sextet3(c) as int
         == a as int * 0x1_0000 + b as int * 0x100 + c as int
  {
    ByteParts(a);
    ByteParts(b);
    ByteParts(c);
    SextetParts(a, b);
    SextetParts(b, c);
  }

  /** The same for one byte and for two. */
  lemma TailSextetsValue(a: bv8, b: bv8)
    ensures Sextet0(a) as int * 0x40 + Sextet1(a, 0) as int == a as int * 0x10
    ensures Sextet0(a) as int * 0x1000 + Sextet1(a, b) as int * 0x40 + Sextet2(b, 0) as int
         == (a as int * 0x100 + b as int) * 4
  {
    ByteParts(a);
    ByteParts(b);
    SextetParts(a, b);
    SextetParts(a, 0);
    SextetParts(b, 0);
  }

  lemma OctetParts(p: bv8, q: bv8)
    requires p < 64 && q < 64
    ensures Octet0(p, q) as int == p as int * 4 + ((q & 0x30) >> 4) as int
    ensures Octet1(p, q) as int == (p & 0x0f) as int * 16 + ((q & 0x3c) >> 2) as int
    ensures Octet2(p, q) as int == (p & 0x03) as int * 64 + q as int
  {
  }

  lemma DigitParts(q: bv8)
    requires q < 64
    ensures q as int == ((q & 0x30) >> 4) as int * 16 + (q & 0x0f) as int && (q & 0x0f) as int < 16
    ensures q as int == ((q & 0x3c) >> 2) as int * 4 + (q & 0x03) as int && (q & 0x03) as int < 4
  {
  }

  lemma OctetsValue(p: bv8, q: bv8, r: bv8, s: bv8)
    requires p < 64 && q < 64 && r < 64 && s < 64
    ensures Octet0(p, q) as int * 0x1_0000 + Octet1(q, r) as int * 0x100 + Octet2(r, s) as int
         == p as int * 0x4_0000 + q as int * 0x1000 + r as int * 0x40 + s as int
  {
    OctetParts(p, q);
    OctetParts(q, r);
    OctetParts(r, s);
    DigitParts(q);
    DigitParts(r);
    OctetSums(p as int, ((q & 0x30) >> 4) as int, (q & 0x0f) as int, ((r & 0x3c) >> 2) as int, (r & 0x03) as int, s as int);
  }

  /** Regrouping bits: p, then q as q1 and q0, then r as r1 and r0, then s. */
  lemma OctetSums(p: int, q1: int, q0: int, r1: int, r0: int, s: int)
    ensures (p * 4 + q1) * 0x1_0000 + (q0 * 16 + r1) * 0x100 + (r0 * 64 + s)
         == p * 0x4_0000 + (q1 * 16 + q0) * 0x1000 + (r1 * 4 + r0) * 0x40 + s
    ensures 0 <= q0 < 16 ==> p * 4 + q1 == (p * 0x40 + (q1 * 16 + q0)) / 0x10
    ensures 0 <= r0 < 4 ==> (p * 4 + q1) * 0x100 + (q0 * 16 + r1) == (p * 0x1000 + (q1 * 16 + q0) * 0x40 + (r1 * 4 + r0)) / 4
  {
  }

  lemma FirstOctetValue(p: bv8, q: bv8)
    requires p < 64 && q < 64
    ensures Octet0(p, q) as int == (p as int * 0x40 + q as int) / 0x10
  {
    OctetParts(p, q);
    DigitParts(q);
    OctetSums(p as int, ((q & 0x30) >> 4) as int, (q & 0x0f) as int, 0, 0, 0);
  }

  lemma TwoOctetsValue(p: bv8, q: bv8, r: bv8)
    requires p < 64 && q < 64 && r < 64
    ensures Octet0(p, q) as int * 0x100 + Octet1(q, r) as int == (p as int * 0x1000 + q as int * 0x40 + r as int) / 4
  {
    OctetParts(p, q);
    OctetParts(q, r);
    DigitParts(q);
    DigitParts(r);
    OctetSums(p as int, ((q & 0x30) >> 4) as int, (q & 0x0f) as int, ((r & 0x3c) >> 2) as int, (r & 0x03) as int, 0);
  }

  lemma TailOctetsValue(p: bv8, q: bv8, r: bv8)
    requires p < 64 && q < 64 && r < 64
    ensures Octet0(p, q) as int == (p as int * 0x40 + q as int) / 0x10
    ensures Octet0(p, q) as int * 0x100 + Octet1(q, r) as int == (p as int * 0x1000 + q as int * 0x40 + r as int) / 4
  {
    FirstOctetValue(p, q);
    TwoOctetsValue(p, q, r);
  }

  lemma GroupValue(alphabet: string, a: bv8, b: bv8, c: bv8)
    requires Follows(alphabet)
    ensures Digits4(alphabet, GroupSymbols(a, b, c)) == Bytes3([a, b, c])
  {
    SextetsValue(a, b, c);
  }

  lemma TailValue(alphabet: string, b: seq<bv8>)
    requires Follows(alphabet) && 1 <= |b| <= 2
    ensures TailIs(alphabet, TailSymbols(b), b)
  {
    TailSextetsValue(b[0], if |b| == 2 then b[1] else 0);
  }

  lemma FourValue(alphabet: string, t: seq<bv8>)
    requires Follows(alphabet) && |t| == 4 && PaddedBy(t, 0)
    ensures Bytes3(DecodeFour(t)) == Digits4(alphabet, t)
  {
    IndexSymbol(t[0]);
    IndexSymbol(t[1]);
    IndexSymbol(t[2]);
    IndexSymbol(t[3]);
    OctetsValue(IndexOf(t[0]), IndexOf(t[1]), IndexOf(t[2]), IndexOf(t[3]));
  }

  lemma TailBytes(alphabet: string, t: seq<bv8>)
    requires Follows(alphabet) && 1 <= |t| <= 3 && PaddedBy(t, 0)
    ensures BytesOfTail(alphabet, TailOctets(t), t)
  {
    if |t| >= 2 {
      IndexSymbol(t[0]);
      IndexSymbol(t[1]);
      if |t| == 3 {
        IndexSymbol(t[2]);
      }
      TailOctetsValue(IndexOf(t[0]), IndexOf(t[1]), if |t| == 3 then IndexOf(t[2]) else 0);
    }
  }

  // ... group by group

  lemma LaterGroup(g: seq<bv8>, s: seq<bv8>, from: nat, to: nat)
    requires |g| <= from <= to <= |g| + |s|
    ensures (g + s)[from..to] == s[from - |g|..to - |g|]
  {
  }

  lemma LaterSlice(s: seq<bv8>, n: nat, from: nat, to: nat)
    requires n <= from <= to <= |s|
    ensures s[n..][from - n..to - n] == s[from..to]
  {
  }

  lemma FirstSlice(g: seq<bv8>, s: seq<bv8>)
    ensures (g + s)[..|g|] == g
  {
  }

  lemma {:induction false} EncodedGroup(b: seq<bv8>, k: nat)
    requires 3 * k + 3 <= |b|
    ensures 4 * k + 4 <= |Encode(b)|
    ensures Encode(b)[4 * k..4 * k + 4] == GroupSymbols(b[3 * k], b[3 * k + 1], b[3 * k + 2])
  {
    EncodeStarts(b);
    EncodedLength(b);
    if k == 0 {
      FirstSlice(GroupSymbols(b[0], b[1], b[2]), Encode(b[3..]));
    } else {
      EncodedGroup(b[3..], k - 1);
      LaterGroup(GroupSymbols(b[0], b[1], b[2]), Encode(b[3..]), 4 * k, 4 * k + 4);
    }
  }

  lemma {:induction false} EncodedTail(b: seq<bv8>, k: nat)
    requires 3 * k < |b| < 3 * k + 3
    ensures |Encode(b)| == 4 * k + 4 && Encode(b)[4 * k..] == TailSymbols(b[3 * k..])
    decreases k
  {
    if k == 0 {
      assert Encode(b)[0..] == Encode(b) && b[0..] == b;
    } else {
      EncodeStarts(b);
      EncodedTail(b[3..], k - 1);
      LaterGroup(GroupSymbols(b[0], b[1], b[2]), Encode(b[3..]), 4 * k, 4 * k + 4);
      LaterSlice(b, 3, 3 * k, |b|);
    }
  }

  lemma {:induction false} DecodeStarts(t: seq<bv8>)
    requires |t| >= 4
    ensures DecodeSymbols(t) == DecodeFour(t[..4]) + DecodeSymbols(t[4..])
  {
  }

  lemma {:induction false} DecodedGroup(t: seq<bv8>, k: nat)
    requires 4 * k + 4 <= |t|
    ensures 3 * k + 3 <= |DecodeSymbols(t)|
    ensures DecodeSymbols(t)[3 * k..3 * k + 3] == DecodeFour(t[4 * k..4 * k + 4])
  {
    DecodeStarts(t);
    if k == 0 {
      FirstSlice(DecodeFour(t[..4]), DecodeSymbols(t[4..]));
    } else {
      DecodedGroup(t[4..], k - 1);
      LaterGroup(DecodeFour(t[..4]), DecodeSymbols(t[4..]), 3 * k, 3 * k + 3);
      LaterSlice(t, 4, 4 * k, 4 * k + 4);
    }
  }

  lemma {:induction false} DecodedTail(t: seq<bv8>, k: nat)
    requires 4 * k < |t| < 4 * k + 4
    ensures 3 * k <= |DecodeSymbols(t)| && DecodeSymbols(t)[3 * k..] == TailOctets(t[4 * k..])
    decreases k
  {
    if k == 0 {
      assert DecodeSymbols(t)[0..] == DecodeSymbols(t) && t[0..] == t;
    } else {
      DecodeStarts(t);
      DecodedTail(t[4..], k - 1);
      var g, rest := DecodeFour(t[..4]), DecodeSymbols(t[4..]);
      LaterGroup(g, rest, 3 * k, |g + rest|);
      LaterSlice(t, 4, 4 * k, |t|);
    }
  }

  /** Group k of an encoding and group k of the bytes are digits of the same number. */
  lemma EncodedGroupIs(b: seq<bv8>, k: nat)
    requires 3 * k + 3 <= |b|
    ensures 4 * k + 4 <= |Encode(b)|
    ensures Digits4(ALPHABET, Encode(b)[4 * k..4 * k + 4])
         == b[3 * k] as int * 0x1_0000 + b[3 * k + 1] as int * 0x100 + b[3 * k + 2] as int
  {
    FollowsAlphabet();
    EncodedGroup(b, k);
    GroupValue(ALPHABET, b[3 * k], b[3 * k + 1], b[3 * k + 2]);
  }

  /** So the last, incomplete group is its one or two bytes, filled up with zero bits. */
  lemma EncodedTailIs(b: seq<bv8>, k: nat)
    requires 3 * k < |b| < 3 * k + 3
    ensures |Encode(b)| == 4 * k + 4 && TailIs(ALPHABET, Encode(b)[4 * k..], b[3 * k..])
  {
    FollowsAlphabet();
    EncodedTail(b, k);
    TailValue(ALPHABET, b[3 * k..]);
  }

  lemma PaddedSlice(t: seq<bv8>, from: nat, to: nat)
    requires PaddedBy(t, 0) && from <= to <= |t|
    ensures PaddedBy(t[from..to], 0)
  {
  }

  lemma SignificantPadded(s: seq<bv8>)
    ensures PaddedBy(Significant(s), 0)
  {
  }

  lemma SymbolsGroupIs(alphabet: string, t: seq<bv8>, k: nat)
    requires Follows(alphabet) && PaddedBy(t, 0) && 4 * k + 4 <= |t|
    ensures 3 * k + 3 <= |DecodeSymbols(t)|
    ensures Bytes3(DecodeSymbols(t)[3 * k..3 * k + 3]) == Digits4(alphabet, t[4 * k..4 * k + 4])
  {
    PaddedSlice(t, 4 * k, 4 * k + 4);
    DecodedGroup(t, k);
    FourValue(alphabet, t[4 * k..4 * k + 4]);
  }

  lemma SymbolsTailIs(alphabet: string, t: seq<bv8>, k: nat)
    requires Follows(alphabet) && PaddedBy(t, 0) && 4 * k < |t| < 4 * k + 4
    ensures 3 * k <= |DecodeSymbols(t)| && BytesOfTail(alphabet, DecodeSymbols(t)[3 * k..], t[4 * k..])
  {
    PaddedSlice(t, 4 * k, |t|);
    DecodedTail(t, k);
    TailBytes(alphabet, t[4 * k..]);
  }

  /** Group k of what is decoded and group k of the significant characters are digits of the same number. */
  lemma DecodedGroupIs(s: seq<bv8>, k: nat)
    requires 4 * k + 4 <= |Significant(s)|
    ensures 3 * k + 3 <= |Decode(s)|
    ensures Bytes3(Decode(s)[3 * k..3 * k + 3]) == Digits4(ALPHABET, Significant(s)[4 * k..4 * k + 4])
  {
    FollowsAlphabet();
    SignificantPadded(s);
    SymbolsGroupIs(ALPHABET, Significant(s), k);
  }

  /** Of an incomplete last group come the whole bytes. */
  lemma DecodedTailIs(s: seq<bv8>, k: nat)
    requires 4 * k < |Significant(s)| < 4 * k + 4
    ensures 3 * k <= |Decode(s)| && BytesOfTail(ALPHABET, Decode(s)[3 * k..], Significant(s)[4 * k..])
  {
    FollowsAlphabet();
    SignificantPadded(s);
    SymbolsTailIs(ALPHABET, Significant(s), k);
  }
}
