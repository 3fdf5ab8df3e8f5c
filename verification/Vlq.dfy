/**
 Variable length quantities (blockchain/compress.go): base 128, most significant group first, with an
 offset of one subtracted at every group so that no number has two encodings.
 */
module Vlq {
  const UINT64: int := 0x1_0000_0000_0000_0000

  /** The groups before the last one; each carries the continuation bit. */
  function High(n: nat): (r: seq<int>)
    ensures |r| > 0
  {
    if n < 128 then [n + 128] else High(n / 128 - 1) + [n % 128 + 128]
  }

  /** The encoding of n. */
  function Encode(n: nat): (r: seq<int>)
    ensures |r| > 0
  {
    if n < 128 then [n] else High(n / 128 - 1) + [n % 128]
  }

  /** What deserializeVLQ computes from byte i on, when it has read n so far: a value and a size. */
  function DecodeFrom(s: seq<int>, i: nat, n: nat): (int, nat)
    requires i <= |s|
    decreases |s| - i
  {
    if i == |s| then (n, i)
    else
      var m := (n * 128 + s[i] % 128) % UINT64;
      if s[i] / 128 % 2 == 0 then (m, i + 1) else DecodeFrom(s, i + 1, (m + 1) % UINT64)
  }

  function Decode(s: seq<int>): (int, nat) { DecodeFrom(s, 0, 0) }

  /** The encodings of the format's description. */
  lemma Examples()
    ensures Encode(0) == [0x00] && Encode(127) == [0x7f] && Encode(128) == [0x80, 0x00] && Encode(129) == [0x80, 0x01]
    ensures Encode(255) == [0x80, 0x7f] && Encode(256) == [0x81, 0x00] && Encode(16511) == [0xff, 0x7f]
    ensures Encode(16512) == [0x80, 0x80, 0x00] && Encode(32895) == [0x80, 0xff, 0x7f]
    ensures Encode(2113663) == [0xff, 0xff, 0x7f] && Encode(270549119) == [0xff, 0xff, 0xff, 0x7f]
  {
    assert High(0) == [0x80] && High(1) == [0x81] && High(127) == [0xff];
    assert High(128) == [0x80, 0x80] && High(255) == [0x80, 0xff] && High(16511) == [0xff, 0xff];
    assert High(2113663) == High(16511) + [0xff];
  }

  // ------------------------------------------------------------------ round trip

  /** One byte with the continuation bit, and one without. */
  lemma ReadGroup(s: seq<int>, i: nat, n: nat, d: nat)
    requires i < |s| && d < 128 && n * 128 + d + 1 < UINT64
    ensures s[i] == d + 128 ==> DecodeFrom(s, i, n) == DecodeFrom(s, i + 1, n * 128 + d + 1)
    ensures s[i] == d ==> DecodeFrom(s, i, n) == (n * 128 + d, i + 1)
  {
  }

  lemma LastByte(s: seq<int>, i: nat, n: nat, d: nat)
    requires i < |s| && d < 128 && n * 128 + d < UINT64 && s[i] == d
    ensures DecodeFrom(s, i, n) == (n * 128 + d, i + 1)
  {
  }

  /** High, one group at a time from the end. */
  lemma HighCons(h: nat, d: nat)
    requires d < 128
    ensures High((h + 1) * 128 + d) == High(h) + [d + 128]
    ensures Encode((h + 1) * 128 + d) == High(h) + [d]
  {
    Digits(h, d);
  }

  /** Reading the leading groups of a number leaves one more than the number they make up. */
  lemma {:induction false} ReadHigh(n: nat, rest: seq<int>)
    requires n + 1 < UINT64
    ensures DecodeFrom(High(n) + rest, 0, 0) == DecodeFrom(High(n) + rest, |High(n)|, n + 1)
  {
    var s := High(n) + rest;
    if n < 128 {
      ReadGroup(s, 0, 0, n);
    } else {
      var m, d := n / 128 - 1, n % 128;
      assert n == (m + 1) * 128 + d;
      HighCons(m, d);
      ReadHigh(m, [d + 128] + rest);
      hide High, DecodeFrom;
      assert s == High(m) + ([d + 128] + rest);
      ReadGroup(s, |High(m)|, m + 1, d);
    }
  }

  /** Decoding undoes encoding, whatever follows, and reads exactly the encoding. */
  lemma RoundTrip(n: nat, rest: seq<int>)
    requires n < UINT64
    ensures Decode(Encode(n) + rest) == (n, |Encode(n)|)
  {
    var s := Encode(n) + rest;
    if n < 128 {
      LastByte(s, 0, 0, n);
    } else {
      var m, d := n / 128 - 1, n % 128;
      assert n == (m + 1) * 128 + d;
      HighCons(m, d);
      ReadHigh(m, [d] + rest);
      hide High, DecodeFrom, Encode;
      assert s == High(m) + ([d] + rest);
      LastByte(s, |High(m)|, m + 1, d);
    }
  }

  /** No encoding is the beginning of another. */
  lemma PrefixFree(m: nat, n: nat, rest: seq<int>)
    requires m < UINT64 && n < UINT64 && Encode(m) + rest == Encode(n)
    ensures m == n && rest == []
  {
    RoundTrip(m, rest);
    RoundTrip(n, []);
    assert Encode(n) + [] == Encode(n);
  }

  // ------------------------------------------------------------------ every terminated string is an encoding

  ghost predicate Bytes(s: seq<int>) {
    forall i :: 0 <= i < |s| ==> 0 <= s[i] < 256
  }

  /** A string that ends with its first byte without the continuation bit. */
  ghost predicate Terminated(s: seq<int>) {
    |s| > 0 && Bytes(s) && s[|s| - 1] < 128 && forall i :: 0 <= i < |s| - 1 ==> s[i] >= 128
  }

  /** The number that a string of leading groups makes up, and that of a terminated string. */
  function HighValue(s: seq<int>): int
    requires |s| > 0
  {
    if |s| == 1 then s[0] % 128 else (HighValue(s[..|s| - 1]) + 1) * 128 + s[|s| - 1] % 128
  }

  lemma {:induction false} HighOf(s: seq<int>)
    requires |s| > 0 && Bytes(s) && forall i :: 0 <= i < |s| ==> s[i] >= 128
    ensures HighValue(s) >= 0 && High(HighValue(s)) == s
  {
    if |s| == 1 {
      assert s[0] % 128 == s[0] - 128;
      assert s == [s[0]];
    } else {
      var init, last := s[..|s| - 1], s[|s| - 1];
      HighOf(init);
      HighCons(HighValue(init), last - 128);
      assert last % 128 == last - 128;
      hide High;
      assert s == init + [last];
    }
  }

  lemma Digits(h: nat, d: nat)
    requires d < 128
    ensures ((h + 1) * 128 + d) / 128 - 1 == h && ((h + 1) * 128 + d) % 128 == d && (h + 1) * 128 + d >= 128
  {
  }

  /** Every terminated string is the encoding of exactly one number, its HighValue. */
  lemma Onto(s: seq<int>)
    requires Terminated(s)
    ensures HighValue(s) >= 0 && Encode(HighValue(s)) == s
  {
    if |s| == 1 {
      assert s == [s[0]];
    } else {
      var init, last := s[..|s| - 1], s[|s| - 1];
      HighOf(init);
      HighCons(HighValue(init), last);
      assert last % 128 == last;
      hide High, Encode;
      assert s == init + [last];
    }
  }

  lemma {:induction false} ValueOfHigh(n: nat)
    ensures HighValue(High(n)) == n
  {
    if n >= 128 {
      var m, d := n / 128 - 1, n % 128;
      ValueOfHigh(m);
      assert n == (m + 1) * 128 + d;
      HighCons(m, d);
      var s := High(m) + [d + 128];
      assert s[..|s| - 1] == High(m) && (d + 128) % 128 == d;
    }
  }

  lemma ValueOfEncode(n: nat)
    ensures HighValue(Encode(n)) == n
  {
    if n >= 128 {
      var m, d := n / 128 - 1, n % 128;
      ValueOfHigh(m);
      assert n == (m + 1) * 128 + d;
      HighCons(m, d);
      var s := High(m) + [d];
      assert s[..|s| - 1] == High(m) && d % 128 == d;
    }
  }

  /** A terminated string survives decoding and encoding exactly when its number fits 64 bits. */
  lemma DecodeExact(s: seq<int>)
    requires Terminated(s)
    ensures 0 <= Decode(s).0 < UINT64
    ensures Encode(Decode(s).0) == s <==> HighValue(s) < UINT64
  {
    Onto(s);
    DecodeBelow(s, 0, 0);
    ValueOfEncode(Decode(s).0);
    if HighValue(s) < UINT64 {
      RoundTrip(HighValue(s), []);
      assert s + [] == s;
    }
  }

  lemma {:induction false} HighBytes(n: nat)
    ensures Bytes(High(n)) && forall i :: 0 <= i < |High(n)| ==> High(n)[i] >= 128
  {
    if n >= 128 {
      HighBytes(n / 128 - 1);
    }
  }

  /** Encodings are terminated, those of numbers beyond 64 bits too. */
  lemma EncodeTerminated(n: nat)
    ensures Terminated(Encode(n))
  {
    if n >= 128 {
      HighBytes(n / 128 - 1);
    }
  }

  ghost predicate Survives(s: seq<int>) {
    0 <= Decode(s).0 && Encode(Decode(s).0) == s
  }

  /** An encoding survives decoding if and only if its number fits 64 bits. */
  lemma EncodingSurvives(n: nat)
    ensures Survives(Encode(n)) <==> n < UINT64
  {
    hide Encode, Decode, Terminated;
    EncodeTerminated(n);
    ValueOfEncode(n);
    DecodeExact(Encode(n));
  }

  /** The encoding of 2^64: a terminated string that is read as zero. */
  const TOO_LARGE: seq<int> := [0x80, 0xfe, 0xfe, 0xfe, 0xfe, 0xfe, 0xfe, 0xfe, 0xff, 0x00]

  lemma TooLarge()
    ensures Terminated(TOO_LARGE) && Decode(TOO_LARGE) == (0, 10) && !Survives(TOO_LARGE)
  {
    hide DecodeFrom;
    var s := TOO_LARGE;
    ReadGroup(s, 0, 0, 0);
    ReadGroup(s, 1, 1, 0x7e);
    ReadGroup(s, 2, 0xff, 0x7e);
    ReadGroup(s, 3, 0x7fff, 0x7e);
    ReadGroup(s, 4, 0x3fffff, 0x7e);
    ReadGroup(s, 5, 0x1fffffff, 0x7e);
    ReadGroup(s, 6, 0xfffffffff, 0x7e);
    ReadGroup(s, 7, 0x7ffffffffff, 0x7e);
    ReadGroup(s, 8, 0x3ffffffffffff, 0x7f);
    ReadLast();
    assert Encode(0) == [0];
  }

  lemma ReadLast()
    ensures DecodeFrom(TOO_LARGE, 9, 0x200000000000000) == (0, 10)
  {
  }

  lemma {:induction false} DecodeBelow(s: seq<int>, i: nat, n: nat)
    requires i <= |s| && n < UINT64
    ensures 0 <= DecodeFrom(s, i, n).0 < UINT64
    decreases |s| - i
  {
    if i < |s| {
      var m := (n * 128 + s[i] % 128) % UINT64;
      DecodeBelow(s, i + 1, (m + 1) % UINT64);
    }
  }

  // ------------------------------------------------------------------ the code

  /** serializeSizeVLQ. */
  method SerializeSizeVLQ(n0: nat) returns (size: nat)
    ensures size == |Encode(n0)|
  {
    size := 1;
    var n := n0;
    while n > 0x7f
      invariant |Encode(n0)| == size - 1 + |if size == 1 then Encode(n) else High(n)|
      invariant size >= 1
    {
      n := n / 128 - 1;
      size := size + 1;
    }
  }

  /** deserializeVLQ. */
  method DeserializeVLQ(serialized: seq<int>) returns (n: nat, size: nat)
    ensures (n, size) == Decode(serialized)
  {
    n, size := 0, 0;
    while size < |serialized|
      invariant size <= |serialized| && Decode(serialized) == DecodeFrom(serialized, size, n)
    {
      var val := serialized[size];
      size := size + 1;
      n := (n * 128 + val % 128) % UINT64;
      if val / 128 % 2 == 0 {
        return;
      }
      n := (n + 1) % UINT64;
    }
  }

  /** The groups of n, least significant first, as putVLQ writes them. */
  function Groups(n: nat, first: bool): (r: seq<int>)
    ensures |r| > 0
  {
    var bit := if first then 0 else 128;
    if n < 128 then [n + bit] else [n % 128 + bit] + Groups(n / 128 - 1, false)
  }

  function Reversed(s: seq<int>): (r: seq<int>)
    ensures |r| == |s| && forall i :: 0 <= i < |s| ==> r[i] == s[|s| - 1 - i]
  {
    seq(|s|, i requires 0 <= i < |s| => s[|s| - 1 - i])
  }

  lemma {:induction false} GroupsReversed(n: nat)
    ensures Reversed(Groups(n, true)) == Encode(n) && Reversed(Groups(n, false)) == High(n)
  {
    if n >= 128 {
      GroupsReversed(n / 128 - 1);
      var rest := Groups(n / 128 - 1, false);
      assert Reversed([n % 128] + rest) == Reversed(rest) + [n % 128];
      assert Reversed([n % 128 + 128] + rest) == Reversed(rest) + [n % 128 + 128];
    }
  }

  /** a differs from before in exactly the cells from base on that now hold bytes. */
  ghost predicate Wrote(before: seq<int>, after: seq<int>, base: int, bytes: seq<int>) {
    && |after| == |before| && 0 <= base && base + |bytes| <= |before|
    && forall i :: 0 <= i < |before| ==> after[i] == if base <= i < base + |bytes| then bytes[i - base] else before[i]
  }

  lemma WroteNothing(s: seq<int>, base: nat)
    requires base <= |s|
    ensures Wrote(s, s, base, [])
  {
  }

  lemma WroteMore(before: seq<int>, now: seq<int>, base: nat, bytes: seq<int>, b: int)
    requires Wrote(before, now, base, bytes) && base + |bytes| < |now|
    ensures Wrote(before, now[base + |bytes| := b], base, bytes + [b])
  {
  }

  lemma GroupsUnfold(n: nat, first: bool)
    ensures var x := n % 128 + if first then 0 else 128;
            Groups(n, first) == if n < 128 then [x] else [x] + Groups(n / 128 - 1, false)
  {
  }

  /** The writing loop of putVLQ. */
  method WriteGroups(target: array<int>, base: nat, n0: nat) returns (size: nat)
    requires base + |Groups(n0, true)| <= target.Length
    modifies target
    ensures size == |Groups(n0, true)| && Wrote(old(target[..]), target[..], base, Groups(n0, true))
  {
    hide *;
    var offset, n := 0, n0;
    ghost var done: seq<int> := [];
    WroteNothing(target[..], base);
    while true
      invariant 0 <= offset == |done| && done + Groups(n, offset == 0) == Groups(n0, true)
      invariant Wrote(old(target[..]), target[..], base, done)
      decreases n
    {
      var highBitMask := if offset == 0 then 0 else 128;
      GroupsUnfold(n, offset == 0);
      assert base + offset < target.Length;
      WroteMore(old(target[..]), target[..], base, done, n % 128 + highBitMask);
      ghost var now := target[..];
      target[base + offset] := n % 128 + highBitMask;
      assert target[..] == now[base + offset := n % 128 + highBitMask];
      if n <= 0x7f {
        break;
      }
      var m := n / 128 - 1;
      assert done + Groups(n, offset == 0) == done + [n % 128 + highBitMask] + Groups(m, false);
      done := done + [n % 128 + highBitMask];
      n := m;
      offset := offset + 1;
    }
    size := offset + 1;
  }

  /** The loop that reverses the groups in place, from the two ends inwards. */
  method ReverseRange(target: array<int>, base: nat, size: nat, ghost before: seq<int>, ghost bytes: seq<int>)
    requires size == |bytes| && Wrote(before, target[..], base, bytes)
    modifies target
    ensures Wrote(before, target[..], base, Reversed(bytes))
  {
    hide Wrote;
    var i, j := 0, size - 1;
    ghost var now := bytes;
    while i < j
      invariant 0 <= i <= j + 1 <= size && i + j == size - 1 && |now| == size
      invariant Wrote(before, target[..], base, now)
      invariant HalfReversed(bytes, now, i, j)
    {
      WroteSwap(before, target[..], base, now, i, j);
      ghost var s := target[..];
      target[base + i], target[base + j] := target[base + j], target[base + i];
      assert target[..] == s[base + i := s[base + j]][base + j := s[base + i]];
      SwapEnds(bytes, now, i, j);
      now := now[i := now[j]][j := now[i]];
      i, j := i + 1, j - 1;
    }
    assert now == Reversed(bytes);
  }

  /** Outside i to j the sequence is reversed, inside it is still as it was. */
  ghost predicate HalfReversed(bytes: seq<int>, now: seq<int>, i: int, j: int) {
    && |now| == |bytes|
    && forall k :: 0 <= k < |now| ==> now[k] == bytes[if i <= k <= j then k else |bytes| - 1 - k]
  }

  lemma SwapEnds(bytes: seq<int>, now: seq<int>, i: nat, j: nat)
    requires HalfReversed(bytes, now, i, j) && i < j < |bytes| && i + j == |bytes| - 1
    ensures HalfReversed(bytes, now[i := now[j]][j := now[i]], i + 1, j - 1)
  {
    var swapped := now[i := now[j]][j := now[i]];
    forall k | 0 <= k < |swapped|
      ensures swapped[k] == bytes[if i + 1 <= k <= j - 1 then k else |bytes| - 1 - k]
    {
    }
  }

  lemma WroteSwap(before: seq<int>, now: seq<int>, base: nat, bytes: seq<int>, i: nat, j: nat)
    requires Wrote(before, now, base, bytes) && i < j < |bytes|
    ensures base + j < |now|
    ensures Wrote(before, now[base + i := now[base + j]][base + j := now[base + i]], base,
                  bytes[i := bytes[j]][j := bytes[i]])
  {
  }

  /** putVLQ: the groups are written least significant first, then reversed in place. */
  method PutVLQ(target: array<int>, base: nat, n: nat) returns (size: nat)
    requires base + |Encode(n)| <= target.Length
    modifies target
    ensures size == |Encode(n)| && Wrote(old(target[..]), target[..], base, Encode(n))
  {
    GroupsReversed(n);
    hide Encode, Groups, Wrote;
    size := WriteGroups(target, base, n);
    ReverseRange(target, base, size, old(target[..]), Groups(n, true));
  }
}
