// Byte layouts shared by the contract and the off-chain tools.
//
// The datatype members say which bytes a value is laid out as and which value a
// byte string stands for. The methods fill buffers the way the program does and
// are proved to agree with them. `None` stands for the (single) error text that
// each parser returns.
module Protocol {
  import opened Machine
  import opened LittleEndian

  const FIBER_PUBKEY_LEN := 33
  const LOCK_HASH_LEN := 32
  const ORDER_ARGS_LEN := FIBER_PUBKEY_LEN + LOCK_HASH_LEN
  const CHANNEL_OUTPOINT_LEN := 32 + 4
  const MATCH_ARGS_LEN := ORDER_ARGS_LEN + CHANNEL_OUTPOINT_LEN + LOCK_HASH_LEN
  const XUDT_AMOUNT_LEN := 16
  const CHANNEL_CAPACITY_LEN := 8
  const SHANNONS_PER_BLOCK_LEN := 8
  const BLOCKNUMBER_LEN := 8
  const ORDER_DATA_LEN := XUDT_AMOUNT_LEN + CHANNEL_CAPACITY_LEN + SHANNONS_PER_BLOCK_LEN
  const MATCH_DATA_LEN := XUDT_AMOUNT_LEN + SHANNONS_PER_BLOCK_LEN + BLOCKNUMBER_LEN

  type PubkeyBytes = b: Bytes | |b| == FIBER_PUBKEY_LEN witness seq(FIBER_PUBKEY_LEN, _ => 0)

  /** tx_hash[32] | index[4] */
  datatype OutPoint = OutPoint(txHash: Bytes32, index: u32) {
    function ToBytes(): (b: Bytes)
      ensures |b| == CHANNEL_OUTPOINT_LEN
    {
      txHash + ToLe(index, 4)
    }

    static function FromSlice(b: Bytes): Option<OutPoint> {
      if |b| != CHANNEL_OUTPOINT_LEN then None else Some(OutPoint(b[..32], ReadU32(b[32..])))
    }

    /** The contract compares encodings; that is the same as comparing outpoints. */
    predicate Matches(other: OutPoint)
      ensures Matches(other) <==> this == other
    {
      OutPointRoundTrip(this);
      OutPointRoundTrip(other);
      other.ToBytes() == ToBytes()
    }
  }

  /** A compressed secp256k1 public key, kept as its raw bytes. */
  datatype CompressedPubkey = CompressedPubkey(bytes: PubkeyBytes) {
    function ToBytes(): (b: Bytes)
      ensures |b| == FIBER_PUBKEY_LEN
    {
      bytes
    }

    static function FromSlice(b: Bytes): Option<CompressedPubkey> {
      if |b| != FIBER_PUBKEY_LEN then None else Some(CompressedPubkey(b))
    }
  }

  /** fiber_pubkey[33] | buyer_lock_hash[32] */
  datatype OrderArgs = OrderArgs(fiberPubkey: CompressedPubkey, buyerLockHash: Bytes32) {
    function ToBytes(): (b: Bytes)
      ensures |b| == ORDER_ARGS_LEN
    {
      fiberPubkey.ToBytes() + buyerLockHash
    }

    static function FromSlice(b: Bytes): Option<OrderArgs> {
      if |b| != ORDER_ARGS_LEN then None else
        var fiberPubkey :- CompressedPubkey.FromSlice(b[..FIBER_PUBKEY_LEN]);
        Some(OrderArgs(fiberPubkey, b[FIBER_PUBKEY_LEN..]))
    }
  }

  /** xudt_amount[16] | channel_capacity[8] | shannons_per_block[8] */
  datatype OrderData = OrderData(xudtAmount: u128, channelCapacity: u64, shannonsPerBlock: u64) {
    function ToBytes(): (b: Bytes)
      ensures |b| == ORDER_DATA_LEN
    {
      ToLe(xudtAmount, 16) + (ToLe(channelCapacity, 8) + ToLe(shannonsPerBlock, 8))
    }

    static function FromSlice(b: Bytes): Option<OrderData> {
      if |b| != ORDER_DATA_LEN then None else
        Some(OrderData(ReadU128(b[..16]), ReadU64(b[16..24]), ReadU64(b[24..32])))
    }
  }

  /** order args[65] | channel_outpoint[36] | seller_lock_hash[32] */
  datatype MatchArgs = MatchArgs(orderArgs: OrderArgs, channelOutpoint: OutPoint, sellerLockHash: Bytes32) {
    function ToBytes(): (b: Bytes)
      ensures |b| == MATCH_ARGS_LEN
    {
      orderArgs.ToBytes() + (channelOutpoint.ToBytes() + sellerLockHash)
    }

    static function FromSlice(b: Bytes): Option<MatchArgs> {
      if |b| != MATCH_ARGS_LEN then None else
        var orderArgs :- OrderArgs.FromSlice(b[..ORDER_ARGS_LEN]);
        var channelOutpoint :- OutPoint.FromSlice(b[ORDER_ARGS_LEN..ORDER_ARGS_LEN + CHANNEL_OUTPOINT_LEN]);
        Some(MatchArgs(orderArgs, channelOutpoint, b[ORDER_ARGS_LEN + CHANNEL_OUTPOINT_LEN..]))
    }
  }

  /** xudt_amount[16] | shannons_per_block[8] | last_extraction_block[8] */
  datatype MatchData = MatchData(xudtAmount: u128, shannonsPerBlock: u64, lastExtractionBlock: u64) {
    function ToBytes(): (b: Bytes)
      ensures |b| == MATCH_DATA_LEN
    {
      ToLe(xudtAmount, 16) + (ToLe(shannonsPerBlock, 8) + ToLe(lastExtractionBlock, 8))
    }

    /** Unlike the other parsers, this one accepts trailing bytes and ignores them. */
    static function FromSlice(b: Bytes): Option<MatchData> {
      if |b| < MATCH_DATA_LEN then None else
        Some(MatchData(ReadU128(b[..16]), ReadU64(b[16..24]), ReadU64(b[24..32])))
    }

    static function New(xudtAmount: u128, shannonsPerBlock: u64): MatchData {
      MatchData(xudtAmount, shannonsPerBlock, 0)
    }
  }

  // ---------------------------------------------------------------------------
  // Round trips
  // ---------------------------------------------------------------------------

  lemma OutPointRoundTrip(p: OutPoint)
    ensures OutPoint.FromSlice(p.ToBytes()) == Some(p)
  {
    ReadBack32(p.index);
    assert p.ToBytes()[..32] == p.txHash && p.ToBytes()[32..] == ToLe(p.index, 4);
  }

  lemma OrderArgsRoundTrip(a: OrderArgs)
    ensures OrderArgs.FromSlice(a.ToBytes()) == Some(a)
  {
    assert a.ToBytes()[..33] == a.fiberPubkey.bytes && a.ToBytes()[33..] == a.buyerLockHash;
  }

  lemma ThreeFields(x: Bytes, y: Bytes, z: Bytes, rest: Bytes)
    requires |x| == 16 && |y| == |z| == 8
    ensures (x + (y + z) + rest)[..16] == x
    ensures (x + (y + z) + rest)[16..24] == y
    ensures (x + (y + z) + rest)[24..32] == z
  {
    var b := x + (y + z) + rest;
    assert b == x + (y + (z + rest));
    assert b[16..] == y + (z + rest) && b[24..] == z + rest;
    assert b[16..24] == b[16..][..8] && b[24..32] == b[24..][..8];
  }

  lemma OrderDataRoundTrip(d: OrderData)
    ensures OrderData.FromSlice(d.ToBytes()) == Some(d)
  {
    ReadBack128(d.xudtAmount);
    ReadBack64(d.channelCapacity);
    ReadBack64(d.shannonsPerBlock);
    ThreeFields(ToLe(d.xudtAmount, 16), ToLe(d.channelCapacity, 8), ToLe(d.shannonsPerBlock, 8), []);
    assert d.ToBytes() + [] == d.ToBytes();
  }

  lemma MatchArgsRoundTrip(a: MatchArgs)
    ensures MatchArgs.FromSlice(a.ToBytes()) == Some(a)
  {
    OrderArgsRoundTrip(a.orderArgs);
    OutPointRoundTrip(a.channelOutpoint);
    var b := a.ToBytes();
    assert b[..65] == a.orderArgs.ToBytes();
    assert b[65..101] == a.channelOutpoint.ToBytes();
    assert b[101..] == a.sellerLockHash;
  }

  /** Trailing bytes do not disturb a parsed match. */
  lemma MatchDataRoundTrip(d: MatchData, rest: Bytes)
    ensures MatchData.FromSlice(d.ToBytes() + rest) == Some(d)
  {
    ReadBack128(d.xudtAmount);
    ReadBack64(d.shannonsPerBlock);
    ReadBack64(d.lastExtractionBlock);
    ThreeFields(ToLe(d.xudtAmount, 16), ToLe(d.shannonsPerBlock, 8), ToLe(d.lastExtractionBlock, 8), rest);
  }

  /** Every byte string a parser accepts is the encoding of the value it returns
      (of its first 32 bytes, for match data), and the parsers accept by length alone. */
  lemma ParsersAreExact(b: Bytes)
    ensures match OutPoint.FromSlice(b)
            case Some(p) => |b| == CHANNEL_OUTPOINT_LEN && p.ToBytes() == b
            case None => |b| != CHANNEL_OUTPOINT_LEN
    ensures match OrderArgs.FromSlice(b)
            case Some(a) => |b| == ORDER_ARGS_LEN && a.ToBytes() == b
            case None => |b| != ORDER_ARGS_LEN
    ensures match OrderData.FromSlice(b)
            case Some(d) => |b| == ORDER_DATA_LEN && d.ToBytes() == b
            case None => |b| != ORDER_DATA_LEN
    ensures match MatchArgs.FromSlice(b)
            case Some(a) => |b| == MATCH_ARGS_LEN && a.ToBytes() == b
            case None => |b| != MATCH_ARGS_LEN
    ensures match MatchData.FromSlice(b)
            case Some(d) => |b| >= MATCH_DATA_LEN && d.ToBytes() == b[..MATCH_DATA_LEN]
            case None => |b| < MATCH_DATA_LEN
  {
    if |b| == MATCH_ARGS_LEN {
      var a := MatchArgs.FromSlice(b).value;
      assert a.orderArgs.ToBytes() == b[..65];
      assert a.channelOutpoint.ToBytes() == b[65..101];
      assert b == b[..65] + (b[65..101] + b[101..]);
    }
    if |b| >= 32 {
      assert b[..32] == b[..16] + (b[16..24] + b[24..32]);
    }
  }

  /** Where each field sits, digit by digit. */
  lemma OrderDataLayout(d: OrderData, i: nat)
    requires i < 16
    ensures d.ToBytes()[i] == (d.xudtAmount / Span(i)) % 256
    ensures i < 8 ==> d.ToBytes()[16 + i] == (d.channelCapacity / Span(i)) % 256
    ensures i < 8 ==> d.ToBytes()[24 + i] == (d.shannonsPerBlock / Span(i)) % 256
  {
    DigitAt(d.xudtAmount, 16, i);
    if i < 8 {
      DigitAt(d.channelCapacity, 8, i);
      DigitAt(d.shannonsPerBlock, 8, i);
    }
  }

  lemma MatchDataLayout(d: MatchData, i: nat)
    requires i < 16
    ensures d.ToBytes()[i] == (d.xudtAmount / Span(i)) % 256
    ensures i < 8 ==> d.ToBytes()[16 + i] == (d.shannonsPerBlock / Span(i)) % 256
    ensures i < 8 ==> d.ToBytes()[24 + i] == (d.lastExtractionBlock / Span(i)) % 256
  {
    DigitAt(d.xudtAmount, 16, i);
    if i < 8 {
      DigitAt(d.shannonsPerBlock, 8, i);
      DigitAt(d.lastExtractionBlock, 8, i);
    }
  }

  lemma MatchArgsLayout(a: MatchArgs, i: nat)
    requires i < 33
    ensures a.ToBytes()[i] == a.orderArgs.fiberPubkey.bytes[i]
    ensures i < 32 ==> a.ToBytes()[33 + i] == a.orderArgs.buyerLockHash[i]
    ensures i < 32 ==> a.ToBytes()[65 + i] == a.channelOutpoint.txHash[i]
    ensures i < 4 ==> a.ToBytes()[97 + i] == (a.channelOutpoint.index / Span(i)) % 256
    ensures i < 32 ==> a.ToBytes()[101 + i] == a.sellerLockHash[i]
  {
    if i < 4 {
      DigitAt(a.channelOutpoint.index, 4, i);
    }
  }

  /** Two matches share lock args only if they agree on order, channel and seller. */
  lemma MatchArgsInjective(a: MatchArgs, a': MatchArgs)
    requires a.ToBytes() == a'.ToBytes()
    ensures a.orderArgs.fiberPubkey == a'.orderArgs.fiberPubkey
    ensures a.orderArgs.buyerLockHash == a'.orderArgs.buyerLockHash
    ensures a.channelOutpoint == a'.channelOutpoint
    ensures a.sellerLockHash == a'.sellerLockHash
  {
    MatchArgsRoundTrip(a);
    MatchArgsRoundTrip(a');
  }

  // ---------------------------------------------------------------------------
  // Buffers
  // ---------------------------------------------------------------------------

  /** `buf[lo..lo + |src|].copy_from_slice(src)` */
  method CopyFromSlice(buf: array<u8>, lo: nat, src: Bytes)
    requires lo + |src| <= buf.Length
    modifies buf
    ensures buf[..] == old(buf[..lo]) + src + old(buf[lo + |src|..])
  {
    forall i | 0 <= i < |src| {
      buf[lo + i] := src[i];
    }
  }

  method EncodeOutPoint(p: OutPoint) returns (buf: array<u8>)
    ensures fresh(buf) && buf[..] == p.ToBytes()
  {
    buf := new u8[CHANNEL_OUTPOINT_LEN](_ => 0);
    CopyFromSlice(buf, 0, p.txHash);
    CopyFromSlice(buf, 32, ToLe(p.index, 4));
  }

  method EncodeOrderArgs(a: OrderArgs) returns (buf: array<u8>)
    ensures fresh(buf) && buf[..] == a.ToBytes()
  {
    buf := new u8[ORDER_ARGS_LEN](_ => 0);
    CopyFromSlice(buf, 0, a.fiberPubkey.ToBytes());
    CopyFromSlice(buf, FIBER_PUBKEY_LEN, a.buyerLockHash);
  }

  method EncodeOrderData(d: OrderData) returns (buf: array<u8>)
    ensures fresh(buf) && buf[..] == d.ToBytes()
  {
    buf := new u8[ORDER_DATA_LEN](_ => 0);
    CopyFromSlice(buf, 0, ToLe(d.xudtAmount, 16));
    CopyFromSlice(buf, 16, ToLe(d.channelCapacity, 8));
    CopyFromSlice(buf, 24, ToLe(d.shannonsPerBlock, 8));
  }

  method EncodeMatchArgs(a: MatchArgs) returns (buf: array<u8>)
    ensures fresh(buf) && buf[..] == a.ToBytes()
  {
    buf := new u8[MATCH_ARGS_LEN](_ => 0);
    var order := EncodeOrderArgs(a.orderArgs);
    var outpoint := EncodeOutPoint(a.channelOutpoint);
    hide OrderArgs.ToBytes, OutPoint.ToBytes;
    ghost var x, y, z := order[..], outpoint[..], a.sellerLockHash;
    assert |x| == ORDER_ARGS_LEN && |y| == CHANNEL_OUTPOINT_LEN && a.ToBytes() == x + (y + z);
    CopyFromSlice(buf, 0, order[..]);
    assert buf[..65] == x;
    CopyFromSlice(buf, ORDER_ARGS_LEN, outpoint[..]);
    assert buf[..101] == x + y;
    CopyFromSlice(buf, ORDER_ARGS_LEN + CHANNEL_OUTPOINT_LEN, a.sellerLockHash);
    assert buf[..] == x + y + z;
  }

  method EncodeMatchData(d: MatchData) returns (buf: array<u8>)
    ensures fresh(buf) && buf[..] == d.ToBytes()
  {
    buf := new u8[MATCH_DATA_LEN](_ => 0);
    CopyFromSlice(buf, 0, ToLe(d.xudtAmount, 16));
    CopyFromSlice(buf, 16, ToLe(d.shannonsPerBlock, 8));
    CopyFromSlice(buf, 24, ToLe(d.lastExtractionBlock, 8));
  }

  method DecodeOutPoint(data: array<u8>) returns (r: Option<OutPoint>)
    ensures r == OutPoint.FromSlice(data[..])
  {
    if data.Length != CHANNEL_OUTPOINT_LEN {
      return None;
    }
    var txHash := new u8[32](_ => 0);
    CopyFromSlice(txHash, 0, data[..32]);
    assert txHash[..] == data[..32];
    assert data[..][..32] == data[..32] && data[..][32..] == data[32..];
    return Some(OutPoint(txHash[..], ReadU32(data[32..])));
  }

  method DecodeOrderArgs(data: array<u8>) returns (r: Option<OrderArgs>)
    ensures r == OrderArgs.FromSlice(data[..])
  {
    if data.Length != ORDER_ARGS_LEN {
      return None;
    }
    var pubkey := new u8[FIBER_PUBKEY_LEN](_ => 0);
    CopyFromSlice(pubkey, 0, data[..FIBER_PUBKEY_LEN]);
    var buyer := new u8[LOCK_HASH_LEN](_ => 0);
    CopyFromSlice(buyer, 0, data[FIBER_PUBKEY_LEN..]);
    assert pubkey[..] == data[..33] && buyer[..] == data[33..];
    assert data[..][..33] == data[..33] && data[..][33..] == data[33..];
    return Some(OrderArgs(CompressedPubkey(pubkey[..]), buyer[..]));
  }

  method DecodeMatchArgs(data: array<u8>) returns (r: Option<MatchArgs>)
    ensures r == MatchArgs.FromSlice(data[..])
  {
    if data.Length != MATCH_ARGS_LEN {
      return None;
    }
    var order := new u8[ORDER_ARGS_LEN](_ => 0);
    CopyFromSlice(order, 0, data[..ORDER_ARGS_LEN]);
    var orderArgs := DecodeOrderArgs(order);
    var channel := new u8[CHANNEL_OUTPOINT_LEN](_ => 0);
    CopyFromSlice(channel, 0, data[ORDER_ARGS_LEN..ORDER_ARGS_LEN + CHANNEL_OUTPOINT_LEN]);
    var channelOutpoint := DecodeOutPoint(channel);
    var seller := new u8[LOCK_HASH_LEN](_ => 0);
    CopyFromSlice(seller, 0, data[ORDER_ARGS_LEN + CHANNEL_OUTPOINT_LEN..]);
    assert orderArgs.Some? && channelOutpoint.Some?;
    hide OrderArgs.FromSlice, OutPoint.FromSlice;
    ghost var b := data[..];
    assert b[..65] == data[..65] && b[65..101] == data[65..101] && b[101..] == data[101..];
    assert order[..] == b[..65] && channel[..] == b[65..101] && seller[..] == b[101..];
    return Some(MatchArgs(orderArgs.value, channelOutpoint.value, seller[..]));
  }
}
