/**
 The routines that write the encodings into a buffer and read the spend journal back
 (blockchain/compress.go, blockchain/chainio.go), each against the bytes it stands for. A position in
 the buffer takes the place of a slice.
 */
module CodecWriter {
  import opened Common
  import opened Vlq
  import opened Codec

  lemma WroteJoin(s0: seq<int>, s1: seq<int>, s2: seq<int>, base: nat, x: seq<int>, y: seq<int>)
    requires Wrote(s0, s1, base, x) && Wrote(s1, s2, base + |x|, y)
    ensures Wrote(s0, s2, base, x + y)
  {
  }

  /** copy. */
  method Copy(target: array<int>, base: nat, bytes: seq<int>)
    requires base + |bytes| <= target.Length
    modifies target
    ensures Wrote(old(target[..]), target[..], base, bytes)
  {
    for i := 0 to |bytes|
      invariant forall j :: 0 <= j < target.Length ==>
                  target[j] == if base <= j < base + i then bytes[j - base] else old(target[j])
    {
      target[base + i] := bytes[i];
    }
  }

  /** A code byte and what follows it. */
  method PutCoded(target: array<int>, base: nat, code: int, body: seq<int>)
    requires base + 1 + |body| <= target.Length
    modifies target
    ensures Wrote(old(target[..]), target[..], base, [code] + body)
  {
    ghost var s0 := target[..];
    target[base] := code;
    ghost var s1 := target[..];
    assert Wrote(s0, s1, base, [code]);
    Copy(target, base + 1, body);
    WroteJoin(s0, s1, target[..], base, [code], body);
  }

  /** compressedScriptSize. It asks for a vote script last, putCompressedScript for a key. */
  function CompressedScriptSize(k: Keys, s: Script): (r: nat)
    ensures r == |Compress(k, s)|
  {
    if IsPubKeyHash(s) then 21
    else if IsScriptHash(s) then 21
    else if IsContract(s) then 21
    else if IsCompressedKey(k, s) || IsUncompressedKey(k, s) then 33
    else if IsVote(s) then 21
    else |Encode(|s| + NUM_SPECIAL_SCRIPTS)| + |s|
  }

  /** putCompressedScript. */
  method PutCompressedScript(k: Keys, target: array<int>, base: nat, s: Script) returns (n: nat)
    requires base + |Compress(k, s)| <= target.Length
    modifies target
    ensures n == |Compress(k, s)| && Wrote(old(target[..]), target[..], base, Compress(k, s))
  {
    hide Wrote, Encode;
    n := CompressedScriptSize(k, s);
    if IsPubKeyHash(s) {
      PutCoded(target, base, 0, s[4..24]);
    } else if IsScriptHash(s) {
      PutCoded(target, base, 1, s[3..23]);
    } else if IsContract(s) {
      PutCoded(target, base, 6, s[3..23]);
    } else if IsVote(s) {
      PutCoded(target, base, 7, s[3..23]);
    } else if IsCompressedKey(k, s) {
      PutCoded(target, base, s[1], s[2..34]);
    } else if IsUncompressedKey(k, s) {
      PutCoded(target, base, 4 + s[65] % 2, s[2..34]);
    } else {
      var size := PutVLQ(target, base, |s| + NUM_SPECIAL_SCRIPTS);
      ghost var s1 := target[..];
      Copy(target, base + size, s);
      WroteJoin(old(target[..]), s1, target[..], base, Encode(|s| + NUM_SPECIAL_SCRIPTS), s);
    }
  }

  /** putCompressedAsset. */
  method PutCompressedAsset(target: array<int>, base: nat, a: Asset) returns (n: nat)
    requires ValidAsset(a) && base + |CompressAsset(a)| <= target.Length
    modifies target
    ensures n == |CompressAsset(a)| && Wrote(old(target[..]), target[..], base, CompressAsset(a))
  {
    hide Wrote, Encode, AssetBytes;
    var size := PutVLQ(target, base, ASSET_LENGTH);
    ghost var s1 := target[..];
    Copy(target, base + size, AssetBytes(a));
    WroteJoin(old(target[..]), s1, target[..], base, Encode(ASSET_LENGTH), AssetBytes(a));
    n := size + ASSET_LENGTH;
  }

  /** putCompressedTxOut. */
  method PutCompressedTxOut(k: Keys, target: array<int>, base: nat, amount: int, script: Script, asset: Asset)
    returns (n: nat)
    requires 0 <= amount < UINT64 && ValidAsset(asset)
    requires base + |TxOutBytes(k, amount, script, asset)| <= target.Length
    modifies target
    ensures n == |TxOutBytes(k, amount, script, asset)|
    ensures Wrote(old(target[..]), target[..], base, TxOutBytes(k, amount, script, asset))
  {
    hide *;
    TxOutParts(k, amount, script, asset);
    ghost var a, c, b := LittleEndian(amount, 8), Compress(k, script), CompressAsset(asset);
    Copy(target, base, LittleEndian(amount, 8));
    ghost var s1 := target[..];
    n := AMOUNT_SIZE;
    var size := PutCompressedScript(k, target, base + n, script);
    ghost var s2 := target[..];
    n := n + size;
    WroteJoin(old(target[..]), s1, s2, base, a, c);
    size := PutCompressedAsset(target, base + n, asset);
    n := n + size;
    WroteJoin(old(target[..]), s2, target[..], base, a + c, b);
  }

  /** putSpentTxOut. */
  method PutSpentTxOut(k: Keys, target: array<int>, base: nat, c: Coin) returns (n: nat)
    requires ValidCoin(c) && base + |CoinBytes(k, c)| <= target.Length
    modifies target
    ensures n == |CoinBytes(k, c)| && Wrote(old(target[..]), target[..], base, CoinBytes(k, c))
  {
    hide *;
    CoinParts(k, c);
    n := PutVLQ(target, base, HeaderCode(c));
    ghost var s1 := target[..];
    var size := PutCompressedTxOut(k, target, base + n, ToUint64(c.amount), c.script, c.asset);
    WroteJoin(old(target[..]), s1, target[..], base, Encode(HeaderCode(c)),
              TxOutBytes(k, ToUint64(c.amount), c.script, c.asset));
    n := n + size;
  }

  ghost predicate ValidCoins(stxos: seq<Coin>) {
    forall i :: 0 <= i < |stxos| ==> ValidCoin(stxos[i])
  }

  /** serializeSpendJournalEntry: the size is computed first, then the records are written backwards. */
  method SerializeSpendJournalEntry(k: Keys, stxos: seq<Coin>) returns (serialized: array<int>)
    requires ValidCoins(stxos)
    ensures fresh(serialized) && serialized[..] == JournalBytes(k, stxos)
  {
    var size := 0;
    assert stxos[..0] == [];
    for i := 0 to |stxos|
      invariant size == |JournalBytes(k, stxos[..i])|
    {
      JournalGrows(k, stxos, i);
      var c := CoinSize(k, stxos[i]);
      size := size + c;
    }
    assert stxos[..|stxos|] == stxos;
    serialized := new int[size];
    WriteRecords(k, serialized, stxos);
  }

  lemma JournalGrows(k: Keys, stxos: seq<Coin>, i: int)
    requires ValidCoins(stxos) && 0 <= i < |stxos|
    ensures JournalBytes(k, stxos[..i + 1]) == CoinBytes(k, stxos[i]) + JournalBytes(k, stxos[..i])
  {
    assert stxos[..i + 1][..i] == stxos[..i] && stxos[..i + 1][i] == stxos[i];
  }

  /** SpentTxOutSerializeSize. */
  method CoinSize(k: Keys, c: Coin) returns (n: nat)
    requires ValidCoin(c)
    ensures n == |CoinBytes(k, c)|
  {
    var header := SerializeSizeVLQ(HeaderCode(c));
    var asset := SerializeSizeVLQ(ASSET_LENGTH);
    n := header + AMOUNT_SIZE + CompressedScriptSize(k, c.script) + asset + ASSET_LENGTH;
  }

  /** The writing loop: record i is written before record i - 1. */
  method WriteRecords(k: Keys, serialized: array<int>, stxos: seq<Coin>)
    requires ValidCoins(stxos) && serialized.Length == |JournalBytes(k, stxos)|
    modifies serialized
    ensures serialized[..] == JournalBytes(k, stxos)
  {
    hide *;
    ghost var s0 := serialized[..];
    ghost var done: seq<int> := [];
    var offset := 0;
    var i := |stxos|;
    RecordsStart(k, s0, stxos);
    while i > 0
      invariant 0 <= i <= |stxos| && offset == |done| && Recorded(k, s0, serialized[..], stxos, i, done)
    {
      i := i - 1;
      RecordNext(k, s0, serialized[..], stxos, i, done);
      ghost var now := serialized[..];
      var n := PutSpentTxOut(k, serialized, offset, stxos[i]);
      RecordDone(k, s0, now, serialized[..], stxos, i, done);
      done := done + CoinBytes(k, stxos[i]);
      offset := offset + n;
    }
    AllRecorded(k, s0, serialized[..], stxos, done);
  }

  /** The records from i on are written: they are done, and the journal of the first i completes them. */
  ghost predicate Recorded(k: Keys, before: seq<int>, now: seq<int>, stxos: seq<Coin>, i: int, done: seq<int>)
    requires 0 <= i <= |stxos|
  {
    && ValidCoins(stxos) && |before| == |JournalBytes(k, stxos)| && Wrote(before, now, 0, done)
    && done + JournalBytes(k, stxos[..i]) == JournalBytes(k, stxos)
  }

  lemma RecordsStart(k: Keys, before: seq<int>, stxos: seq<Coin>)
    requires ValidCoins(stxos) && |before| == |JournalBytes(k, stxos)|
    ensures Recorded(k, before, before, stxos, |stxos|, [])
  {
    assert stxos[..|stxos|] == stxos;
    hide JournalBytes;
    assert [] + JournalBytes(k, stxos) == JournalBytes(k, stxos);
  }

  lemma RecordNext(k: Keys, before: seq<int>, now: seq<int>, stxos: seq<Coin>, i: int, done: seq<int>)
    requires 0 <= i < |stxos| && Recorded(k, before, now, stxos, i + 1, done)
    ensures ValidCoin(stxos[i]) && |done| + |CoinBytes(k, stxos[i])| <= |now|
  {
    JournalGrows(k, stxos, i);
    hide JournalBytes, CoinBytes;
  }

  lemma RecordDone(k: Keys, before: seq<int>, now: seq<int>, after: seq<int>, stxos: seq<Coin>, i: int, done: seq<int>)
    requires 0 <= i < |stxos| && Recorded(k, before, now, stxos, i + 1, done) && ValidCoin(stxos[i])
    requires Wrote(now, after, |done|, CoinBytes(k, stxos[i]))
    ensures Recorded(k, before, after, stxos, i, done + CoinBytes(k, stxos[i]))
  {
    hide JournalBytes, CoinBytes, Wrote, ValidCoin;
    JournalGrows(k, stxos, i);
    var c := CoinBytes(k, stxos[i]);
    WroteJoin(before, now, after, 0, done, c);
    assert done + (c + JournalBytes(k, stxos[..i])) == (done + c) + JournalBytes(k, stxos[..i]);
  }

  lemma AllRecorded(k: Keys, before: seq<int>, now: seq<int>, stxos: seq<Coin>, done: seq<int>)
    requires Recorded(k, before, now, stxos, 0, done)
    ensures now == JournalBytes(k, stxos)
  {
    assert JournalBytes(k, stxos[..0]) == [] && done + [] == done;
    hide JournalBytes;
  }

  /**
   deserializeSpendJournalEntry for the number of outputs the block spends. An empty entry is right only
   for a block that spends nothing.
   */
  method DeserializeSpendJournalEntry(k: Keys, serialized: seq<int>, numStxos: nat) returns (r: Option<seq<Coin>>)
    ensures serialized == [] ==> r == if numStxos == 0 then Some([]) else None
    ensures serialized != [] ==> r == DecodeJournal(k, serialized, numStxos)
  {
    hide *;
    if serialized == [] {
      if numStxos != 0 {
        return None;
      }
      return Some([]);
    }
    var offset := 0;
    var stxos: seq<Coin> := [];
    var left := numStxos;
    assert serialized[0..] == serialized;
    AppendNothing(DecodeJournal(k, serialized, numStxos));
    while left > 0
      invariant 0 <= left <= numStxos && 0 <= offset <= |serialized|
      invariant DecodeJournal(k, serialized, numStxos) == Append(DecodeJournal(k, serialized[offset..], left), stxos)
    {
      JournalUnfold(k, serialized, offset, left, stxos);
      left := left - 1;
      var one := DecodeCoin(k, serialized[offset..]);
      if one.None? || !(0 <= one.value.1 <= |serialized| - offset) {
        return None;
      }
      stxos := [one.value.0] + stxos;
      offset := offset + one.value.1;
    }
    NoneLeft(k, serialized[offset..], stxos);
    r := Some(stxos);
  }

  lemma AppendNothing(a: Option<seq<Coin>>)
    ensures Append(a, []) == a
  {
    if a.Some? {
      assert a.value + [] == a.value;
    }
  }

  lemma NoneLeft(k: Keys, s: seq<int>, stxos: seq<Coin>)
    ensures Append(DecodeJournal(k, s, 0), stxos) == Some(stxos)
  {
    assert [] + stxos == stxos;
  }

  lemma JournalUnfold(k: Keys, s: seq<int>, offset: nat, n: nat, stxos: seq<Coin>)
    requires offset <= |s| && n > 0
    ensures var one := DecodeCoin(k, s[offset..]);
            Append(DecodeJournal(k, s[offset..], n), stxos) ==
            if one.None? || !(0 <= one.value.1 <= |s| - offset) then None
            else Append(DecodeJournal(k, s[offset + one.value.1..], n - 1), [one.value.0] + stxos)
  {
    hide DecodeCoin;
    var one := DecodeCoin(k, s[offset..]);
    if one.Some? && 0 <= one.value.1 <= |s| - offset {
      assert s[offset..][one.value.1..] == s[offset + one.value.1..];
      var rest := DecodeJournal(k, s[offset + one.value.1..], n - 1);
      if rest.Some? {
        assert (rest.value + [one.value.0]) + stxos == rest.value + ([one.value.0] + stxos);
      }
    }
  }

  ghost function Append(a: Option<seq<Coin>>, b: seq<Coin>): Option<seq<Coin>> {
    if a.None? then None else Some(a.value + b)
  }

  /** Writing the journal of a block and reading it back gives the same records. */
  method StoreAndFetch(k: Keys, stxos: seq<Coin>) returns (r: Option<seq<Coin>>)
    requires Faithful(k) && ValidCoins(stxos)
    ensures r == Some(stxos)
  {
    hide JournalBytes, DecodeJournal, Faithful;
    var serialized := SerializeSpendJournalEntry(k, stxos);
    JournalRoundTrip(k, stxos, []);
    assert JournalBytes(k, stxos) + [] == JournalBytes(k, stxos);
    EmptyJournal(k, stxos);
    r := DeserializeSpendJournalEntry(k, serialized[..], |stxos|);
  }

  lemma EmptyJournal(k: Keys, stxos: seq<Coin>)
    requires ValidCoins(stxos)
    ensures JournalBytes(k, stxos) == [] <==> stxos == []
  {
  }
}
