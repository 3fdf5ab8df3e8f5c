/**
 Compressed scripts, assets and outputs (blockchain/compress.go) and the records built from them: the
 spend journal, the utxo entries and the keys they are stored under (blockchain/chainio.go).
 */
module Codec {
  import opened Common
  import opened Vlq

  const OP_DATA_21: int := 0x15
  const OP_DATA_33: int := 0x21
  const OP_DATA_65: int := 0x41
  const OP_DUP: int := 0x76
  const OP_HASH160: int := 0xa9
  const OP_CHECKSIG: int := 0xac
  const OP_CALL: int := 0xc2
  const OP_IFLAG_EQUAL: int := 0xc4
  const OP_IFLAG_EQUALVERIFY: int := 0xc5
  const OP_VOTE: int := 0xc6
  const PUB_KEY_HASH_ID: int := 0x66
  const SCRIPT_HASH_ID: int := 0x73
  const CONTRACT_HASH_ID: int := 0x63
  const NUM_SPECIAL_SCRIPTS: int := 10
  const ASSET_LENGTH: int := 12
  const AMOUNT_SIZE: int := 8

  /**
   The key parser: whether a serialized key is a point of the curve, and the uncompressed form of a
   compressed key. Curve arithmetic is not part of the codec.
   */
  datatype Keys = Keys(valid: Script -> bool, expand: Script -> Option<Script>)

  /** Expanding the compressed form of a valid uncompressed key gives the key back. */
  ghost predicate Faithful(k: Keys) {
    forall key :: |key| == 65 && key[0] == 4 && k.valid(key) ==>
      k.expand([2 + key[64] % 2] + key[1..33]) == Some(key)
  }

  // ------------------------------------------------------------------ recognising standard scripts

  predicate IsPubKeyHash(s: Script) {
    && |s| == 26 && s[0] == OP_DUP && s[1] == OP_HASH160 && s[2] == OP_DATA_21 && s[3] == PUB_KEY_HASH_ID
    && s[24] == OP_IFLAG_EQUALVERIFY && s[25] == OP_CHECKSIG
  }

  predicate IsScriptHash(s: Script) {
    |s| == 24 && s[0] == OP_HASH160 && s[1] == OP_DATA_21 && s[2] == SCRIPT_HASH_ID && s[23] == OP_IFLAG_EQUAL
  }

  predicate IsContract(s: Script) {
    |s| == 23 && s[0] == OP_CALL && s[1] == OP_DATA_21 && s[2] == CONTRACT_HASH_ID
  }

  predicate IsVote(s: Script) {
    |s| == 23 && s[0] == OP_VOTE && s[1] == OP_DATA_21 && s[2] == CONTRACT_HASH_ID
  }

  predicate IsCompressedKey(k: Keys, s: Script) {
    && |s| == 35 && s[0] == OP_DATA_33 && s[34] == OP_CHECKSIG && (s[1] == 2 || s[1] == 3) && k.valid(s[1..34])
  }

  predicate IsUncompressedKey(k: Keys, s: Script) {
    |s| == 67 && s[0] == OP_DATA_65 && s[66] == OP_CHECKSIG && s[1] == 4 && k.valid(s[1..66])
  }

  /** The compressed form of a script. */
  function Compress(k: Keys, s: Script): (r: seq<int>)
    ensures |r| > 0
  {
    if IsPubKeyHash(s) then [0] + s[4..24]
    else if IsScriptHash(s) then [1] + s[3..23]
    else if IsContract(s) then [6] + s[3..23]
    else if IsVote(s) then [7] + s[3..23]
    else if IsCompressedKey(k, s) then [s[1]] + s[2..34]
    else if IsUncompressedKey(k, s) then [4 + s[65] % 2] + s[2..34]
    else Encode(|s| + NUM_SPECIAL_SCRIPTS) + s
  }

  /** decodeCompressedScriptSize: how many bytes a compressed script takes; negative for the unused codes 8 and 9. */
  function CompressedSize(serialized: seq<int>): int {
    var (n, read) := Decode(serialized);
    if read == 0 then 0
    else if n == 0 || n == 1 || n == 6 || n == 7 then 21
    else if 2 <= n <= 5 then 33
    else n - NUM_SPECIAL_SCRIPTS + read
  }

  /**
   decompressScript. None: the bytes are not as many as CompressedSize says, which the Go code takes for
   granted. A key that cannot be expanded gives an empty script, not an error.
   */
  function Decompress(k: Keys, c: seq<int>): Option<Script> {
    if c == [] then Some([])
    else
      var (n, read) := Decode(c);
      DecodeSize(c);
      if CompressedSize(c) != |c| || (n <= 7 && read != 1) then None
      else if n == 0 then Some([OP_DUP, OP_HASH160, OP_DATA_21, PUB_KEY_HASH_ID] + Part(c, read, 20) +
          [OP_IFLAG_EQUALVERIFY, OP_CHECKSIG])
      else if n == 1 then Some([OP_HASH160, OP_DATA_21, SCRIPT_HASH_ID] + Part(c, read, 20) + [OP_IFLAG_EQUAL])
      else if n == 2 || n == 3 then Some([OP_DATA_33, n] + Part(c, read, 32) + [OP_CHECKSIG])
      else if n == 4 || n == 5 then
        var key := k.expand([n - 2] + c[1..]);
        if key.None? then Some([]) else Some([OP_DATA_65] + key.value + [OP_CHECKSIG])
      else if n == 6 then Some([OP_CALL, OP_DATA_21, CONTRACT_HASH_ID] + Part(c, read, 20))
      else if n == 7 then Some([OP_VOTE, OP_DATA_21, CONTRACT_HASH_ID] + Part(c, read, 20))
      else Some(c[read..])
  }

  /** size bytes from position at on. */
  function Part(c: seq<int>, at: nat, size: nat): (r: seq<int>)
  {
    if at + size <= |c| then c[at..at + size] else []
  }

  lemma DecodeSize(c: seq<int>)
    ensures Decode(c).1 <= |c| && (c != [] ==> Decode(c).1 > 0)
  {
    DecodeFromSize(c, 0, 0);
  }

  lemma {:induction false} DecodeFromSize(c: seq<int>, i: nat, n: nat)
    requires i <= |c|
    ensures i <= DecodeFrom(c, i, n).1 <= |c| && (i < |c| ==> DecodeFrom(c, i, n).1 > i)
    decreases |c| - i
  {
    if i < |c| {
      var m := (n * 128 + c[i] % 128) % UINT64;
      DecodeFromSize(c, i + 1, (m + 1) % UINT64);
    }
  }

  // ------------------------------------------------------------------ scripts survive compression

  lemma SmallCode(x: nat, rest: seq<int>)
    requires x < 128
    ensures Decode([x] + rest) == (x, 1)
  {
    LastByte([x] + rest, 0, 0, x);
  }

  /** How putCompressedScript starts, for every kind of script. */
  lemma CompressCode(k: Keys, s: Script, rest: seq<int>)
    requires |s| + NUM_SPECIAL_SCRIPTS < UINT64
    ensures CompressedSize(Compress(k, s) + rest) == |Compress(k, s)|
  {
    var c := Compress(k, s);
    if IsPubKeyHash(s) {
      Coded(0, s[4..24], rest);
    } else if IsScriptHash(s) {
      Coded(1, s[3..23], rest);
    } else if IsContract(s) {
      Coded(6, s[3..23], rest);
    } else if IsVote(s) {
      Coded(7, s[3..23], rest);
    } else if IsCompressedKey(k, s) {
      Coded(s[1], s[2..34], rest);
    } else if IsUncompressedKey(k, s) {
      Coded(4 + s[65] % 2, s[2..34], rest);
    } else {
      var n := |s| + NUM_SPECIAL_SCRIPTS;
      RoundTrip(n, s + rest);
      assert c + rest == Encode(n) + (s + rest);
    }
  }

  lemma Coded(x: nat, body: seq<int>, rest: seq<int>)
    requires x < 128
    ensures Decode(([x] + body) + rest) == (x, 1) && ([x] + body) + rest == [x] + (body + rest)
  {
    assert ([x] + body) + rest == [x] + (body + rest);
    SmallCode(x, body + rest);
  }

  /** Every script survives compression and decompression. */
  lemma ScriptRoundTrip(k: Keys, s: Script)
    requires Faithful(k) && |s| + NUM_SPECIAL_SCRIPTS < UINT64
    ensures Decompress(k, Compress(k, s)) == Some(s)
  {
    var c := Compress(k, s);
    CompressCode(k, s, []);
    assert c + [] == c;
    if IsPubKeyHash(s) {
      Hashed(k, s);
    } else if IsScriptHash(s) {
      Hashed(k, s);
    } else if IsContract(s) {
      Hashed(k, s);
    } else if IsVote(s) {
      Hashed(k, s);
    } else if IsCompressedKey(k, s) {
      SmallCode(s[1], s[2..34]);
      assert s == [OP_DATA_33, s[1]] + s[2..34] + [OP_CHECKSIG];
    } else if IsUncompressedKey(k, s) {
      KeyExpands(k, s);
    } else {
      RoundTrip(|s| + NUM_SPECIAL_SCRIPTS, s);
      assert c[|Encode(|s| + NUM_SPECIAL_SCRIPTS)|..] == s;
    }
  }

  lemma Hashed(k: Keys, s: Script)
    requires IsPubKeyHash(s) || IsScriptHash(s) || IsContract(s) || IsVote(s)
    ensures Decompress(k, Compress(k, s)) == Some(s)
  {
    var c := Compress(k, s);
    SmallCode(c[0], c[1..]);
    assert c == [c[0]] + c[1..];
    assert Part(c, 1, 20) == c[1..];
    if IsPubKeyHash(s) {
      assert s == [OP_DUP, OP_HASH160, OP_DATA_21, PUB_KEY_HASH_ID] + s[4..24] + [OP_IFLAG_EQUALVERIFY, OP_CHECKSIG];
    } else if IsScriptHash(s) {
      assert s == [OP_HASH160, OP_DATA_21, SCRIPT_HASH_ID] + s[3..23] + [OP_IFLAG_EQUAL];
    } else if IsContract(s) {
      assert s == [OP_CALL, OP_DATA_21, CONTRACT_HASH_ID] + s[3..23];
    } else {
      assert s == [OP_VOTE, OP_DATA_21, CONTRACT_HASH_ID] + s[3..23];
    }
  }

  lemma KeyExpands(k: Keys, s: Script)
    requires Faithful(k) && IsUncompressedKey(k, s)
    ensures Decompress(k, Compress(k, s)) == Some(s)
  {
    var c, key := Compress(k, s), s[1..66];
    SmallCode(c[0], s[2..34]);
    assert c == [c[0]] + s[2..34] && c[1..] == s[2..34];
    assert key[64] == s[65] && key[1..33] == s[2..34];
    assert s == [OP_DATA_65] + key + [OP_CHECKSIG];
  }

  // ------------------------------------------------------------------ fixed-width integers

  function LittleEndian(n: nat, k: nat): (r: seq<int>)
    ensures |r| == k
  {
    if k == 0 then [] else [n % 256] + LittleEndian(n / 256, k - 1)
  }

  function FromLittleEndian(s: seq<int>): int {
    if s == [] then 0 else s[0] + 256 * FromLittleEndian(s[1..])
  }

  function BigEndianBytes(n: nat, k: nat): (r: seq<int>)
    ensures |r| == k
  {
    if k == 0 then [] else BigEndianBytes(n / 256, k - 1) + [n % 256]
  }

  lemma {:induction false} LittleEndianBack(n: nat, k: nat)
    requires n < Weight(k)
    ensures FromLittleEndian(LittleEndian(n, k)) == n
    decreases k
  {
    if k > 0 {
      LittleEndianBack(n / 256, k - 1);
      assert LittleEndian(n, k)[1..] == LittleEndian(n / 256, k - 1);
    }
  }

  lemma {:induction false} BigEndianBack(n: nat, k: nat)
    requires n < Weight(k)
    ensures BigEndian(BigEndianBytes(n, k)) == n
    decreases k
  {
    if k > 0 {
      BigEndianBack(n / 256, k - 1);
      assert BigEndianBytes(n, k)[..k - 1] == BigEndianBytes(n / 256, k - 1);
    }
  }

  lemma WeightTable()
    ensures Weight(4) == 0x1_0000_0000 && Weight(8) == UINT64
  {
    assert Weight(1) == 256 && Weight(2) == 65536 && Weight(3) == 0x100_0000;
    assert Weight(5) == 256 * Weight(4) && Weight(6) == 256 * Weight(5) && Weight(7) == 256 * Weight(6);
  }

  // ------------------------------------------------------------------ outputs

  const INT64_MIN: int := -0x8000_0000_0000_0000
  const INT64_MAX: int := 0x7fff_ffff_ffff_ffff

  ghost predicate ValidAsset(a: Asset) {
    0 <= a.property < 0x1_0000_0000 && 0 <= a.id < UINT64
  }

  function AssetBytes(a: Asset): (r: seq<int>)
    requires ValidAsset(a)
    ensures |r| == ASSET_LENGTH
  {
    BigEndianBytes(a.property, 4) + BigEndianBytes(a.id, 8)
  }

  /** AssetFromBytes on a full-length slice. */
  function AssetFromBytes(s: seq<int>): Asset
    requires |s| == ASSET_LENGTH
  {
    Asset(BigEndian(s[..4]), BigEndian(s[4..]))
  }

  lemma AssetRoundTrip(a: Asset)
    requires ValidAsset(a)
    ensures AssetFromBytes(AssetBytes(a)) == a
  {
    WeightTable();
    hide Weight;
    BigEndianBack(a.property, 4);
    BigEndianBack(a.id, 8);
    assert AssetBytes(a)[..4] == BigEndianBytes(a.property, 4) && AssetBytes(a)[4..] == BigEndianBytes(a.id, 8);
  }

  /** The conversions between int64 and uint64. */
  function ToUint64(x: int): int { if x < 0 then x + UINT64 else x }

  function ToInt64(x: int): int { if x > INT64_MAX then x - UINT64 else x }

  /** A number cut to 32 bits and read as signed. */
  function ToInt32(x: int): int {
    var low := x % 0x1_0000_0000;
    if low >= 0x8000_0000 then low - 0x1_0000_0000 else low
  }

  ghost predicate ValidCoin(c: Coin) {
    && INT64_MIN <= c.amount <= INT64_MAX && |c.script| + NUM_SPECIAL_SCRIPTS < UINT64
    && 0 <= c.height < 0x8000_0000 && ValidAsset(c.asset)
  }

  function CompressAsset(a: Asset): (r: seq<int>)
    requires ValidAsset(a)
  {
    Encode(ASSET_LENGTH) + AssetBytes(a)
  }

  /** putCompressedTxOut. */
  function TxOutBytes(k: Keys, amount: int, script: Script, asset: Asset): (r: seq<int>)
    requires 0 <= amount < UINT64 && ValidAsset(asset)
  {
    LittleEndian(amount, 8) + Compress(k, script) + CompressAsset(asset)
  }

  datatype TxOut = TxOut(amount: int, script: Script, asset: Option<Asset>, size: int)

  function CompressedAssetSize(serialized: seq<int>): int {
    var (n, read) := Decode(serialized);
    if read == 0 then 0 else n + read
  }

  function DecompressAsset(c: seq<int>): Option<Asset> {
    if c == [] then None
    else
      var (n, read) := Decode(c);
      if n == ASSET_LENGTH && read + ASSET_LENGTH <= |c| then
        Some(AssetFromBytes(c[read..read + ASSET_LENGTH]))
      else None
  }

  /** decodeCompressedTxOut; None is its error, and also a script that decompressScript cannot handle. */
  function DecodeTxOut(k: Keys, s: seq<int>): Option<TxOut> {
    if |s| < AMOUNT_SIZE then None
    else
      var size := CompressedSize(s[AMOUNT_SIZE..]);
      if size < 0 || |s| - AMOUNT_SIZE < size then None
      else
        var rest := s[AMOUNT_SIZE + size..];
        var assetSize := CompressedAssetSize(rest);
        if |rest| < assetSize then None
        else
          var script := Decompress(k, s[AMOUNT_SIZE..AMOUNT_SIZE + size]);
          if script.None? then None
          else
            Some(TxOut(FromLittleEndian(s[..AMOUNT_SIZE]), script.value, DecompressAsset(rest),
                       AMOUNT_SIZE + size + assetSize))
  }

  /** An output decodes to itself, from exactly its own bytes, whatever follows. */
  lemma TxOutRoundTrip(k: Keys, amount: int, script: Script, asset: Asset, rest: seq<int>)
    requires Faithful(k) && 0 <= amount < UINT64 && ValidAsset(asset) && |script| + NUM_SPECIAL_SCRIPTS < UINT64
    ensures DecodeTxOut(k, TxOutBytes(k, amount, script, asset) + rest) ==
            Some(TxOut(amount, script, Some(asset), |TxOutBytes(k, amount, script, asset)|))
  {
    hide *;
    var a, c, b := LittleEndian(amount, 8), Compress(k, script), CompressAsset(asset);
    TxOutParts(k, amount, script, asset);
    Slices(a, c, b, rest);
    AmountBack(amount);
    CompressCode(k, script, b + rest);
    ScriptRoundTrip(k, script);
    AssetBack(asset, rest);
    DecodeTxOutIs(k, a + c + b + rest, |c|, amount, script, asset);
  }

  lemma TxOutParts(k: Keys, amount: int, script: Script, asset: Asset)
    requires 0 <= amount < UINT64 && ValidAsset(asset)
    ensures TxOutBytes(k, amount, script, asset) == LittleEndian(amount, 8) + Compress(k, script) + CompressAsset(asset)
    ensures |LittleEndian(amount, 8)| == AMOUNT_SIZE
  {
  }

  lemma Slices(a: seq<int>, c: seq<int>, b: seq<int>, rest: seq<int>)
    ensures var s := a + c + b + rest;
            && s[..|a|] == a && s[|a|..] == c + (b + rest)
            && s[|a|..|a| + |c|] == c && s[|a| + |c|..] == b + rest
  {
  }

  lemma DecodeTxOutIs(k: Keys, s: seq<int>, size: nat, amount: int, script: Script, asset: Asset)
    requires AMOUNT_SIZE + size <= |s| && CompressedSize(s[AMOUNT_SIZE..]) == size
    requires FromLittleEndian(s[..AMOUNT_SIZE]) == amount
    requires Decompress(k, s[AMOUNT_SIZE..AMOUNT_SIZE + size]) == Some(script)
    requires var t := s[AMOUNT_SIZE + size..]; DecompressAsset(t) == Some(asset) && CompressedAssetSize(t) <= |t|
    ensures DecodeTxOut(k, s) ==
            Some(TxOut(amount, script, Some(asset), AMOUNT_SIZE + size + CompressedAssetSize(s[AMOUNT_SIZE + size..])))
  {
  }

  lemma AmountBack(amount: int)
    requires 0 <= amount < UINT64
    ensures FromLittleEndian(LittleEndian(amount, 8)) == amount
  {
    WeightTable();
    hide Weight;
    LittleEndianBack(amount, 8);
  }

  lemma AssetBack(a: Asset, rest: seq<int>)
    requires ValidAsset(a)
    ensures CompressedAssetSize(CompressAsset(a) + rest) == |CompressAsset(a)|
    ensures DecompressAsset(CompressAsset(a) + rest) == Some(a)
  {
    var e, b := Encode(ASSET_LENGTH), AssetBytes(a);
    RoundTrip(ASSET_LENGTH, b + rest);
    AssetRoundTrip(a);
    assert CompressAsset(a) + rest == e + (b + rest);
    var c := CompressAsset(a) + rest;
    assert c[|e|..|e| + ASSET_LENGTH] == b;
  }

  // ------------------------------------------------------------------ journal records and utxo entries

  /** SpentTxOutHeaderCode and utxoEntryHeaderCode: the height, and the coinbase flag in the lowest bit. */
  function HeaderCode(c: Coin): int { 2 * c.height + if c.coinbase then 1 else 0 }

  /** putSpentTxOut; serializeUtxoEntry writes an unspent entry the same way. */
  function CoinBytes(k: Keys, c: Coin): (r: seq<int>)
    requires ValidCoin(c)
    ensures |r| > 0
  {
    Encode(HeaderCode(c)) + TxOutBytes(k, ToUint64(c.amount), c.script, c.asset)
  }

  lemma {:induction false} LittleEndianAt(n: nat, k: nat, i: nat)
    requires i < k
    ensures LittleEndian(n, k)[i] == n / Weight(i) % 256
    decreases k
  {
    if i > 0 {
      LittleEndianAt(n / 256, k - 1, i - 1);
      DivWeight(n, i);
    } else {
      assert Weight(0) == 1;
    }
  }

  lemma {:induction false} BigEndianAt(n: nat, k: nat, i: nat)
    requires i < k
    ensures BigEndianBytes(n, k)[i] == n / Weight(k - 1 - i) % 256
    decreases k
  {
    if i < k - 1 {
      BigEndianAt(n / 256, k - 1, i);
      DivWeight(n, k - 1 - i);
    } else {
      assert Weight(0) == 1;
    }
  }

  lemma DivWeight(n: nat, i: nat)
    requires i > 0
    ensures n / 256 / Weight(i - 1) == n / Weight(i)
  {
    DivTwice(n, 256, Weight(i - 1));
  }

  /**
   The layout of a record: twice the height, plus one for a coinbase, as a variable-length number; the
   amount in eight bytes, the least significant first; the compressed script; and the length 12 of an asset
   with its property in four bytes and its number in eight, the most significant first.
   */
  lemma CoinLayout(k: Keys, c: Coin, i: nat)
    requires ValidCoin(c)
    ensures var b, h, s := CoinBytes(k, c), Encode(2 * c.height + if c.coinbase then 1 else 0), Compress(k, c.script);
            && |b| == |h| + 8 + |s| + 13 && b[..|h|] == h && b[|h| + 8..|h| + 8 + |s|] == s && b[|h| + 8 + |s|] == 12
            && (i < 8 ==> b[|h| + i] == (if c.amount < 0 then c.amount + UINT64 else c.amount) / Weight(i) % 256)
            && (i < 4 ==> b[|h| + 8 + |s| + 1 + i] == c.asset.property / Weight(3 - i) % 256)
            && (i < 8 ==> b[|h| + 8 + |s| + 5 + i] == c.asset.id / Weight(7 - i) % 256)
  {
    hide Compress, LittleEndian, BigEndianBytes, Weight;
    var h, s := Encode(HeaderCode(c)), Compress(k, c.script);
    assert Encode(12) == [12];
    hide Encode;
    assert CoinBytes(k, c) ==
      h + (LittleEndian(ToUint64(c.amount), 8) + s +
      ([12] + (BigEndianBytes(c.asset.property, 4) + BigEndianBytes(c.asset.id, 8))));
    if i < 8 {
      LittleEndianAt(ToUint64(c.amount), 8, i);
      BigEndianAt(c.asset.id, 8, i);
    }
    if i < 4 {
      BigEndianAt(c.asset.property, 4, i);
    }
  }

  /** How the scripts that are recognised are compressed: to a code and the twenty bytes they differ by. */
  lemma ScriptLayout(k: Keys, h: seq<int>)
    requires |h| == 20
    ensures Compress(k, [0x76, 0xa9, 0x15, 0x66] + h + [0xc5, 0xac]) == [0] + h
    ensures Compress(k, [0xa9, 0x15, 0x73] + h + [0xc4]) == [1] + h
    ensures Compress(k, [0xc2, 0x15, 0x63] + h) == [6] + h
    ensures Compress(k, [0xc6, 0x15, 0x63] + h) == [7] + h
  {
    hide Encode;
    assert ([0x76, 0xa9, 0x15, 0x66] + h + [0xc5, 0xac])[4..24] == h;
    assert ([0xa9, 0x15, 0x73] + h + [0xc4])[3..23] == h;
    assert ([0xc2, 0x15, 0x63] + h)[3..23] == h;
    assert ([0xc6, 0x15, 0x63] + h)[3..23] == h;
  }

  /** decodeSpentTxOut and DeserializeUtxoEntry: the coin and the number of bytes read. */
  function DecodeCoin(k: Keys, s: seq<int>): Option<(Coin, int)> {
    if s == [] then None
    else
      var (code, offset) := Decode(s);
      DecodeSize(s);
      if offset >= |s| then None
      else
        var out := DecodeTxOut(k, s[offset..]);
        if out.None? || out.value.asset.None? then None
        else
          var t := out.value;
          Some((Coin(ToInt64(t.amount), t.script, ToInt32(code / 2), code % 2 == 1, t.asset.value), offset + t.size))
  }

  /** A record decodes to itself, from exactly its own bytes, whatever follows. */
  lemma CoinRoundTrip(k: Keys, c: Coin, rest: seq<int>)
    requires Faithful(k) && ValidCoin(c)
    ensures DecodeCoin(k, CoinBytes(k, c) + rest) == Some((c, |CoinBytes(k, c)|))
  {
    hide *;
    CoinParts(k, c);
    var e, t := Encode(HeaderCode(c)), TxOutBytes(k, ToUint64(c.amount), c.script, c.asset);
    RoundTrip(HeaderCode(c), t + rest);
    TxOutRoundTrip(k, ToUint64(c.amount), c.script, c.asset, rest);
    assert (e + t) + rest == e + (t + rest);
    DecodeCoinIs(k, e, t + rest, c, |t|);
  }

  lemma CoinParts(k: Keys, c: Coin)
    requires ValidCoin(c)
    ensures 0 <= HeaderCode(c) < UINT64 && 0 <= ToUint64(c.amount) < UINT64 && ValidAsset(c.asset)
    ensures |c.script| + NUM_SPECIAL_SCRIPTS < UINT64
    ensures CoinBytes(k, c) == Encode(HeaderCode(c)) + TxOutBytes(k, ToUint64(c.amount), c.script, c.asset)
    ensures |TxOutBytes(k, ToUint64(c.amount), c.script, c.asset)| > 0
  {
  }

  lemma DecodeCoinIs(k: Keys, e: seq<int>, t: seq<int>, c: Coin, size: nat)
    requires e != [] && t != [] && ValidCoin(c) && Decode(e + t) == (HeaderCode(c), |e|)
    requires DecodeTxOut(k, t) == Some(TxOut(ToUint64(c.amount), c.script, Some(c.asset), size))
    ensures DecodeCoin(k, e + t) == Some((c, |e| + size))
  {
    assert (e + t)[|e|..] == t;
    FieldsBack(c);
    hide DecodeTxOut, Decode, HeaderCode, ToInt32, ToInt64, ToUint64, ValidCoin;
  }

  lemma FieldsBack(c: Coin)
    requires ValidCoin(c)
    ensures ToInt64(ToUint64(c.amount)) == c.amount && ToInt32(HeaderCode(c) / 2) == c.height
    ensures HeaderCode(c) % 2 == 1 <==> c.coinbase
  {
  }

  /** The journal entry of a block: its records one after the other, the last spent first. */
  function JournalBytes(k: Keys, stxos: seq<Coin>): (r: seq<int>)
    requires forall i :: 0 <= i < |stxos| ==> ValidCoin(stxos[i])
  {
    if stxos == [] then [] else CoinBytes(k, stxos[|stxos| - 1]) + JournalBytes(k, stxos[..|stxos| - 1])
  }

  /** deserializeSpendJournalEntry for n records, without the check for an empty entry. */
  function DecodeJournal(k: Keys, s: seq<int>, n: nat): Option<seq<Coin>>
    decreases n
  {
    if n == 0 then Some([])
    else
      var first := DecodeCoin(k, s);
      if first.None? || !(0 <= first.value.1 <= |s|) then None
      else
        var rest := DecodeJournal(k, s[first.value.1..], n - 1);
        if rest.None? then None else Some(rest.value + [first.value.0])
  }

  /** The spend journal of a block reads back as it was written. */
  lemma {:induction false} JournalRoundTrip(k: Keys, stxos: seq<Coin>, rest: seq<int>)
    requires Faithful(k) && forall i :: 0 <= i < |stxos| ==> ValidCoin(stxos[i])
    ensures DecodeJournal(k, JournalBytes(k, stxos) + rest, |stxos|) == Some(stxos)
    decreases |stxos|
  {
    hide *;
    if stxos == [] {
      JournalNone(k, rest);
    } else {
      JournalLast(k, stxos, rest);
      var init, last := stxos[..|stxos| - 1], stxos[|stxos| - 1];
      JournalRoundTrip(k, init, rest);
      CoinRoundTrip(k, last, JournalBytes(k, init) + rest);
      DecodeJournalIs(k, CoinBytes(k, last), JournalBytes(k, init) + rest, last, init);
      assert stxos == init + [last];
    }
  }

  lemma JournalNone(k: Keys, rest: seq<int>)
    ensures DecodeJournal(k, JournalBytes(k, []) + rest, 0) == Some([])
  {
  }

  lemma JournalLast(k: Keys, stxos: seq<Coin>, rest: seq<int>)
    requires stxos != [] && forall i :: 0 <= i < |stxos| ==> ValidCoin(stxos[i])
    ensures ValidCoin(stxos[|stxos| - 1])
    ensures JournalBytes(k, stxos) + rest ==
            CoinBytes(k, stxos[|stxos| - 1]) + (JournalBytes(k, stxos[..|stxos| - 1]) + rest)
  {
    hide CoinBytes, ValidCoin;
  }

  lemma DecodeJournalIs(k: Keys, b: seq<int>, s: seq<int>, c: Coin, coins: seq<Coin>)
    requires DecodeCoin(k, b + s) == Some((c, |b|)) && DecodeJournal(k, s, |coins|) == Some(coins)
    ensures DecodeJournal(k, b + s, |coins| + 1) == Some(coins + [c])
  {
    assert (b + s)[|b|..] == s;
    hide DecodeCoin;
  }

  // ------------------------------------------------------------------ keys of the utxo set

  /** outpointKey: the hash and then the output index. */
  function OutpointKey(hash: seq<int>, index: nat): seq<int> { hash + Encode(index) }

  lemma SplitKey(h1: seq<int>, t1: seq<int>, h2: seq<int>, t2: seq<int>)
    requires |h1| == |h2| && h1 + t1 == h2 + t2
    ensures h1 == h2 && t1 == t2
  {
    assert h1 == (h1 + t1)[..|h1|] && t1 == (h1 + t1)[|h1|..];
    assert h2 == (h2 + t2)[..|h2|] && t2 == (h2 + t2)[|h2|..];
  }

  /** Different outputs have different keys, and no key is the beginning of another. */
  lemma KeysDiffer(h1: seq<int>, i1: nat, h2: seq<int>, i2: nat, rest: seq<int>)
    requires |h1| == |h2| && i1 < UINT64 && i2 < UINT64 && OutpointKey(h1, i1) + rest == OutpointKey(h2, i2)
    ensures h1 == h2 && i1 == i2 && rest == []
  {
    hide Encode;
    assert (h1 + Encode(i1)) + rest == h1 + (Encode(i1) + rest);
    SplitKey(h1, Encode(i1) + rest, h2, Encode(i2));
    PrefixFree(i1, i2, rest);
  }
}
