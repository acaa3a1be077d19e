/** The node's basic values: Go strings and 64-bit integers, transactions, blocks and accounts. */
module Domain {

  // A Go string is a sequence of bytes; a byte is a character below 256.
  type Byte = c: char | c as int < 256 witness 'a'
  type Str = seq<Byte>

  const TWO64: int := 0x1_0000_0000_0000_0000
  const TWO63: int := 0x8000_0000_0000_0000
  const MAX64: int := 0xFFFF_FFFF_FFFF_FFFF

  type u64 = x: int | 0 <= x < 0x1_0000_0000_0000_0000
  type i64 = x: int | -0x8000_0000_0000_0000 <= x < 0x8000_0000_0000_0000

  // uint64 addition and multiplication wrap around.
  function Add64(a: u64, b: u64): u64 {
    if a + b < TWO64 then a + b else a + b - TWO64
  }

  function Mul64(a: u64, b: u64): u64 {
    (a * b) % TWO64
  }

  // Digests have a fixed length.
  ghost predicate AlwaysLong(h: Str -> Str, n: nat) { forall x: Str :: |h(x)| == n }

  datatype Option<+T> = None | Some(value: T)

  datatype Transaction = Transaction(
    id: Str, from: Str, fromPubKey: Str, to: Str, amount: u64, fee: u64, nonce: u64,
    txType: Str, payload: Str, signature: Str, timestamp: i64, chainID: Str)

  datatype Block = Block(
    index: u64, author: Str, minerAddress: Str, previousHash: Str, timestamp: i64,
    transactions: seq<Transaction>, nonce: u64, blockHash: Str, txMerkleRoot: Str)
}
