/** The binary codec (encoding.go): big-endian words and length-prefixed strings. */
module Codec {
  import opened Domain

  // ---------------------------------------------------------------------------------------------
  // Big-endian words.

  function Pow256(n: nat): nat { if n == 0 then 1 else 256 * Pow256(n - 1) }

  function Digits(v: nat, n: nat): (r: Str)
    ensures |r| == n
  {
    if n == 0 then [] else Digits(v / 256, n - 1) + [(v % 256) as char]
  }

  function Value(s: Str): nat {
    if s == [] then 0 else 256 * Value(s[..|s| - 1]) + s[|s| - 1] as int
  }

  lemma {:induction false} ValueOfDigits(v: nat, n: nat)
    requires v < Pow256(n)
    ensures Value(Digits(v, n)) == v
  {
    if n > 0 {
      ValueOfDigits(v / 256, n - 1);
      assert Digits(v, n)[..n - 1] == Digits(v / 256, n - 1);
    }
  }

  lemma {:induction false} DigitsOfValue(s: Str)
    ensures Value(s) < Pow256(|s|) && Digits(Value(s), |s|) == s
  {
    if s != [] {
      DigitsOfValue(s[..|s| - 1]);
      assert s == s[..|s| - 1] + [s[|s| - 1]];
    }
  }

  lemma Pow256Of8()
    ensures Pow256(8) == TWO64
  {
    assert Pow256(4) == 0x1_0000_0000;
  }

  function PutU64(v: u64): (r: Str)
    ensures |r| == 8
  {
    Digits(v, 8)
  }

  function Word(s: Str): u64
    requires |s| == 8
  {
    DigitsOfValue(s); Pow256Of8();
    Value(s)
  }

  function ToU64(v: i64): u64 { if v >= 0 then v else v + TWO64 }
  function ToI64(v: u64): i64 { if v < TWO63 then v else v - TWO64 }

  function PutI64(v: i64): Str { PutU64(ToU64(v)) }

  // len() of a Go string is an int, so it is below 2^63.
  predicate Fits(s: Str) { |s| < TWO63 }

  function PutBytes(s: Str): Str
    requires Fits(s)
  {
    PutU64(|s|) + s
  }

  // ---------------------------------------------------------------------------------------------
  // Taking values off the front. A Go slice expression out of range panics.

  datatype Popped<+T> = Ok(value: T, rest: Str) | Err | Panic {
    predicate IsFailure() { !Ok? }
    function PropagateFailure<U>(): Popped<U>
      requires IsFailure()
    {
      if Err? then Popped<U>.Err else Popped<U>.Panic
    }
    function Extract(): (T, Str)
      requires Ok?
    {
      (value, rest)
    }
  }

  function PopU64(data: Str): Popped<u64> {
    if |data| < 8 then Err
    else
      Ok(Word(data[..8]), data[8..])
  }

  function PopI64(data: Str): Popped<i64> {
    var (v, rest) :- PopU64(data);
    Ok(ToI64(v), rest)
  }

  /** The bound check adds in uint64, so a length within 8 of 2^64 passes it. */
  function PopBytes(data: Str): Popped<Str> {
    var (length, _) :- PopU64(data);
    var end := Add64(8, length);
    if |data| < end then Err
    else if end < 8 then Panic
    else Ok(data[8..end], data[end..])
  }

  /** Exactly the lengths within 8 of 2^64 slip through the bound check and panic. */
  lemma PopBytesPanics(data: Str)
    ensures PopBytes(data).Panic? <==> |data| >= 8 && Word(data[..8]) >= TWO64 - 8
  {
  }

  lemma PopPutU64(v: u64, rest: Str)
    ensures PopU64(PutU64(v) + rest) == Ok(v, rest)
  {
    Pow256Of8();
    ValueOfDigits(v, 8);
    assert (PutU64(v) + rest)[..8] == PutU64(v) && (PutU64(v) + rest)[8..] == rest;
  }

  lemma PopPutI64(v: i64, rest: Str)
    ensures PopI64(PutI64(v) + rest) == Ok(v, rest)
  {
    PopPutU64(ToU64(v), rest);
  }

  lemma PopPutBytes(s: Str, rest: Str)
    requires Fits(s)
    ensures PopBytes(PutBytes(s) + rest) == Ok(s, rest)
  {
    var data := PutBytes(s) + rest;
    assert data == PutU64(|s|) + (s + rest);
    PopPutU64(|s|, s + rest);
    assert data[8..8 + |s|] == s && data[8 + |s|..] == rest;
  }

  lemma PutPopU64(data: Str)
    requires PopU64(data).Ok?
    ensures data == PutU64(PopU64(data).value) + PopU64(data).rest
  {
    DigitsOfValue(data[..8]);
  }

  lemma PutPopI64(data: Str)
    requires PopI64(data).Ok?
    ensures data == PutI64(PopI64(data).value) + PopI64(data).rest
  {
    PutPopU64(data);
  }

  lemma PutPopBytes(data: Str)
    requires Fits(data) && PopBytes(data).Ok?
    ensures Fits(PopBytes(data).value) && Fits(PopBytes(data).rest)
    ensures data == PutBytes(PopBytes(data).value) + PopBytes(data).rest
  {
    PutPopU64(data);
    var n := PopU64(data).value;
    assert data[8..] == data[8..8 + n] + data[8 + n..];
  }

  // ---------------------------------------------------------------------------------------------
  // Transactions.

  predicate FitsTx(tx: Transaction) {
    && Fits(tx.id) && Fits(tx.from) && Fits(tx.fromPubKey) && Fits(tx.to) && Fits(tx.txType)
    && Fits(tx.payload) && Fits(tx.signature) && Fits(tx.chainID)
  }

  // The first seven fields, and the other five.
  function PutHead(tx: Transaction): Str
    requires FitsTx(tx)
  {
    PutBytes(tx.id) + PutBytes(tx.from) + PutBytes(tx.fromPubKey) + PutBytes(tx.to)
    + PutU64(tx.amount) + PutU64(tx.fee) + PutU64(tx.nonce)
  }

  function PutTail(tx: Transaction): Str
    requires FitsTx(tx)
  {
    PutBytes(tx.txType) + PutBytes(tx.payload) + PutBytes(tx.signature) + PutI64(tx.timestamp) + PutBytes(tx.chainID)
  }

  function EncodeTransactionBinary(tx: Transaction): Str
    requires FitsTx(tx)
  {
    PutHead(tx) + PutTail(tx)
  }

  function PopHead(data: Str): Popped<Transaction> {
    var (id, data) :- PopBytes(data);
    var (from, data) :- PopBytes(data);
    var (fromPubKey, data) :- PopBytes(data);
    var (to, data) :- PopBytes(data);
    var (amount, data) :- PopU64(data);
    var (fee, data) :- PopU64(data);
    var (nonce, data) :- PopU64(data);
    Ok(Transaction(id, from, fromPubKey, to, amount, fee, nonce, [], [], [], 0, []), data)
  }

  function PopTail(tx: Transaction, data: Str): Popped<Transaction> {
    var (txType, data) :- PopBytes(data);
    var (payload, data) :- PopBytes(data);
    var (signature, data) :- PopBytes(data);
    var (timestamp, data) :- PopI64(data);
    var (chainID, data) :- PopBytes(data);
    Ok(tx.(txType := txType, payload := payload, signature := signature, timestamp := timestamp, chainID := chainID),
       data)
  }

  /** The source drops what is left after the last field; it is kept here. */
  function DecodeTransactionBinary(data: Str): Popped<Transaction> {
    var (head, data) :- PopHead(data);
    PopTail(head, data)
  }

  lemma Assoc(a: Str, b: Str, c: Str)
    ensures (a + b) + c == a + (b + c)
  {
  }

  lemma RegroupTail(a: Str, b: Str, c: Str, d: Str, e: Str, rest: Str)
    ensures (a + b + c + d + e) + rest == a + (b + (c + (d + (e + rest))))
  {
    Assoc(a + b + c + d, e, rest);
    Assoc(a + b + c, d, e + rest);
    Assoc(a + b, c, d + (e + rest));
    Assoc(a, b, c + (d + (e + rest)));
  }

  lemma RegroupHead(a: Str, b: Str, c: Str, d: Str, e: Str, f: Str, g: Str, rest: Str)
    ensures (a + b + c + d + e + f + g) + rest == a + (b + (c + (d + (e + (f + (g + rest))))))
  {
    Assoc(a + b + c + d + e + f, g, rest);
    Assoc(a + b + c + d + e, f, g + rest);
    RegroupTail(a, b, c, d, e, f + (g + rest));
  }

  /** The head of a transaction, its other fields blank. */
  function HeadOf(tx: Transaction): Transaction {
    tx.(txType := [], payload := [], signature := [], timestamp := 0, chainID := [])
  }

  lemma PopPutHead(tx: Transaction, rest: Str)
    requires FitsTx(tx)
    ensures PopHead(PutHead(tx) + rest) == Ok(HeadOf(tx), rest)
  {
    RegroupHead(PutBytes(tx.id), PutBytes(tx.from), PutBytes(tx.fromPubKey), PutBytes(tx.to),
                PutU64(tx.amount), PutU64(tx.fee), PutU64(tx.nonce), rest);
    var r6 := PutU64(tx.nonce) + rest;
    var r5 := PutU64(tx.fee) + r6;
    var r4 := PutU64(tx.amount) + r5;
    var r3 := PutBytes(tx.to) + r4;
    var r2 := PutBytes(tx.fromPubKey) + r3;
    var r1 := PutBytes(tx.from) + r2;
    PopPutBytes(tx.id, r1);
    PopPutBytes(tx.from, r2);
    PopPutBytes(tx.fromPubKey, r3);
    PopPutBytes(tx.to, r4);
    PopPutU64(tx.amount, r5);
    PopPutU64(tx.fee, r6);
    PopPutU64(tx.nonce, rest);
  }

  lemma PopPutTail(tx: Transaction, rest: Str)
    requires FitsTx(tx)
    ensures PopTail(HeadOf(tx), PutTail(tx) + rest) == Ok(tx, rest)
  {
    RegroupTail(PutBytes(tx.txType), PutBytes(tx.payload), PutBytes(tx.signature), PutI64(tx.timestamp),
                PutBytes(tx.chainID), rest);
    var r4 := PutBytes(tx.chainID) + rest;
    var r3 := PutI64(tx.timestamp) + r4;
    var r2 := PutBytes(tx.signature) + r3;
    var r1 := PutBytes(tx.payload) + r2;
    PopPutBytes(tx.txType, r1);
    PopPutBytes(tx.payload, r2);
    PopPutBytes(tx.signature, r3);
    PopPutI64(tx.timestamp, r4);
    PopPutBytes(tx.chainID, rest);
  }

  /** Decoding inverts encoding, whatever bytes follow. */
  lemma DecodeEncodeTransaction(tx: Transaction, rest: Str)
    requires FitsTx(tx)
    ensures DecodeTransactionBinary(EncodeTransactionBinary(tx) + rest) == Ok(tx, rest)
  {
    Assoc(PutHead(tx), PutTail(tx), rest);
    PopPutHead(tx, PutTail(tx) + rest);
    PopPutTail(tx, rest);
  }

  lemma PutPopHead(data: Str)
    requires Fits(data) && PopHead(data).Ok?
    ensures var tx := PopHead(data).value;
            FitsTx(tx) && data == PutHead(tx) + PopHead(data).rest && Fits(PopHead(data).rest)
  {
    var d1 := PopBytes(data).rest;
    var d2 := PopBytes(d1).rest;
    var d3 := PopBytes(d2).rest;
    var d4 := PopBytes(d3).rest;
    var d5 := PopU64(d4).rest;
    var d6 := PopU64(d5).rest;
    PutPopBytes(data);
    PutPopBytes(d1);
    PutPopBytes(d2);
    PutPopBytes(d3);
    PutPopU64(d4);
    PutPopU64(d5);
    PutPopU64(d6);
    var tx := PopHead(data).value;
    RegroupHead(PutBytes(tx.id), PutBytes(tx.from), PutBytes(tx.fromPubKey), PutBytes(tx.to),
                PutU64(tx.amount), PutU64(tx.fee), PutU64(tx.nonce), PopU64(d6).rest);
  }

  lemma PutPopTail(head: Transaction, data: Str)
    requires Fits(data) && PopTail(head, data).Ok? && FitsTx(head)
    ensures var tx := PopTail(head, data).value; FitsTx(tx) && data == PutTail(tx) + PopTail(head, data).rest
  {
    var d1 := PopBytes(data).rest;
    var d2 := PopBytes(d1).rest;
    var d3 := PopBytes(d2).rest;
    var d4 := PopI64(d3).rest;
    PutPopBytes(data);
    PutPopBytes(d1);
    PutPopBytes(d2);
    PutPopI64(d3);
    PutPopBytes(d4);
    var tx := PopTail(head, data).value;
    RegroupTail(PutBytes(tx.txType), PutBytes(tx.payload), PutBytes(tx.signature), PutI64(tx.timestamp),
                PutBytes(tx.chainID), PopBytes(d4).rest);
  }

  lemma TailKeepsHead(head: Transaction, data: Str)
    requires PopTail(head, data).Ok? && FitsTx(head) && FitsTx(PopTail(head, data).value)
    ensures PutHead(PopTail(head, data).value) == PutHead(head)
  {
  }

  /** Whenever the decoder succeeds, re-encoding its result gives back the bytes it consumed. */
  lemma EncodeDecodeTransaction(data: Str)
    requires Fits(data) && DecodeTransactionBinary(data).Ok?
    ensures FitsTx(DecodeTransactionBinary(data).value)
    ensures data == EncodeTransactionBinary(DecodeTransactionBinary(data).value) + DecodeTransactionBinary(data).rest
  {
    var head, middle := PopHead(data).value, PopHead(data).rest;
    var tx, rest := DecodeTransactionBinary(data).value, DecodeTransactionBinary(data).rest;
    PutPopHead(data);
    PutPopTail(head, middle);
    TailKeepsHead(head, middle);
    Assoc(PutHead(tx), PutTail(tx), rest);
  }

  /** The encoding is injective and no encoding is a proper prefix of another. */
  lemma EncodingIsPrefixFree(a: Transaction, b: Transaction, x: Str, y: Str)
    requires FitsTx(a) && FitsTx(b)
    requires EncodeTransactionBinary(a) + x == EncodeTransactionBinary(b) + y
    ensures a == b && x == y
  {
    DecodeEncodeTransaction(a, x);
    DecodeEncodeTransaction(b, y);
  }

  // ---------------------------------------------------------------------------------------------
  // Blocks.

  predicate FitsTxs(txs: seq<Transaction>) {
    |txs| < TWO63 && forall i :: 0 <= i < |txs| ==> FitsTx(txs[i]) && Fits(EncodeTransactionBinary(txs[i]))
  }

  predicate FitsHeader(b: Block) {
    && Fits(b.author) && Fits(b.minerAddress) && Fits(b.previousHash) && Fits(b.blockHash) && Fits(b.txMerkleRoot)
  }

  predicate FitsBlock(b: Block) { FitsHeader(b) && FitsTxs(b.transactions) }

  /** The header, with the number of transactions it announces. */
  function PutHeader(b: Block, count: u64): Str
    requires FitsHeader(b)
  {
    PutU64(b.index) + PutBytes(b.author) + PutBytes(b.minerAddress) + PutBytes(b.previousHash)
    + PutI64(b.timestamp) + PutBytes(b.blockHash) + PutBytes(b.txMerkleRoot) + PutU64(count)
  }

  predicate FitAll(chunks: seq<Str>) {
    forall i :: 0 <= i < |chunks| ==> Fits(chunks[i])
  }

  /** Length-prefixed strings in a row. */
  function PutChunks(chunks: seq<Str>): Str
    requires FitAll(chunks)
  {
    if chunks == [] then [] else PutChunks(chunks[..|chunks| - 1]) + PutBytes(chunks[|chunks| - 1])
  }

  function Chunks(txs: seq<Transaction>): (r: seq<Str>)
    requires FitsTxs(txs)
    ensures FitAll(r) && |r| == |txs|
  {
    seq(|txs|, i requires 0 <= i < |txs| => EncodeTransactionBinary(txs[i]))
  }

  function PutTxs(txs: seq<Transaction>): Str
    requires FitsTxs(txs)
  {
    PutChunks(Chunks(txs))
  }

  function PutBlock(b: Block): Str
    requires FitsBlock(b)
  {
    PutHeader(b, |b.transactions|) + PutTxs(b.transactions) + PutU64(b.nonce)
  }

  method EncodeBlockBinary(block: Block) returns (b: Str)
    requires FitsBlock(block)
    ensures b == PutBlock(block)
  {
    b := PutU64(block.index);
    b := b + PutBytes(block.author);
    b := b + PutBytes(block.minerAddress);
    b := b + PutBytes(block.previousHash);
    b := b + PutI64(block.timestamp);
    b := b + PutBytes(block.blockHash);
    if block.txMerkleRoot != [] {
      b := b + PutBytes(block.txMerkleRoot);
    } else {
      b := b + PutBytes([]);
    }
    b := b + PutU64(|block.transactions|);
    assert b == PutHeader(block, |block.transactions|);
    b := AppendTxs(b, block.transactions);
    b := b + PutU64(block.nonce);
  }

  method AppendTxs(b: Str, txs: seq<Transaction>) returns (r: Str)
    requires FitsTxs(txs)
    ensures r == b + PutTxs(txs)
  {
    r := b;
    for i := 0 to |txs|
      invariant r == b + PutChunks(Chunks(txs)[..i])
    {
      NextTx(b, txs, i);
      r := r + PutBytes(EncodeTransactionBinary(txs[i]));
    }
    assert Chunks(txs)[..|txs|] == Chunks(txs);
  }

  lemma NextTx(b: Str, txs: seq<Transaction>, i: nat)
    requires FitsTxs(txs) && i < |txs|
    ensures FitsTx(txs[i]) && Fits(EncodeTransactionBinary(txs[i]))
    ensures b + PutChunks(Chunks(txs)[..i + 1]) ==
            (b + PutChunks(Chunks(txs)[..i])) + PutBytes(EncodeTransactionBinary(txs[i]))
  {
    AppendChunk(b, Chunks(txs), i);
  }

  lemma AppendChunk(b: Str, chunks: seq<Str>, i: nat)
    requires FitAll(chunks) && i < |chunks|
    ensures b + PutChunks(chunks[..i + 1]) == (b + PutChunks(chunks[..i])) + PutBytes(chunks[i])
  {
    assert chunks[..i + 1][..i] == chunks[..i];
    Assoc(b, PutChunks(chunks[..i]), PutBytes(chunks[i]));
  }

  /** n values in a row. */
  function PopList<T>(n: nat, data: Str, pop: Str -> Popped<T>): (r: Popped<seq<T>>)
    ensures r.Ok? ==> |r.value| == n
  {
    if n == 0 then Ok([], data)
    else
      var (xs, data) :- PopList(n - 1, data, pop);
      var (x, rest) :- pop(data);
      Ok(xs + [x], rest)
  }

  lemma {:induction false} PopListFails<T>(i: nat, n: nat, data: Str, pop: Str -> Popped<T>)
    requires i <= n && !PopList(i, data, pop).Ok?
    ensures PopList(n, data, pop) == PopList(i, data, pop)
    decreases n
  {
    if i < n {
      PopListFails(i, n - 1, data, pop);
    }
  }

  lemma PopListNext<T>(i: nat, n: nat, data: Str, pop: Str -> Popped<T>, xs: seq<T>, middle: Str)
    requires i < n && PopList(i, data, pop) == Ok(xs, middle)
    ensures match pop(middle)
            case Ok(x, rest) => PopList(i + 1, data, pop) == Ok(xs + [x], rest)
            case _ => PopList(n, data, pop) == pop(middle).PropagateFailure()
  {
    if !pop(middle).Ok? {
      PopListFails(i + 1, n, data, pop);
    }
  }

  /** One length-prefixed transaction; the decoder ignores what its bytes hold after the last field. */
  function PopTx(data: Str): Popped<Transaction> {
    var (txBytes, rest) :- PopBytes(data);
    var (tx, _) :- DecodeTransactionBinary(txBytes);
    Ok(tx, rest)
  }

  lemma PopPutTx(tx: Transaction, rest: Str)
    requires FitsTx(tx) && Fits(EncodeTransactionBinary(tx))
    ensures PopTx(PutBytes(EncodeTransactionBinary(tx)) + rest) == Ok(tx, rest)
  {
    var e := EncodeTransactionBinary(tx);
    PopPutBytes(e, rest);
    DecodeEncodeTransaction(tx, []);
    assert e + [] == e;
  }

  function PopHeader(data: Str): Popped<(Block, nat)> {
    var (index, data) :- PopU64(data);
    var (author, data) :- PopBytes(data);
    var (minerAddress, data) :- PopBytes(data);
    var (previousHash, data) :- PopBytes(data);
    var (timestamp, data) :- PopI64(data);
    var (blockHash, data) :- PopBytes(data);
    var (merkle, data) :- PopBytes(data);
    var (count, data) :- PopU64(data);
    Ok((Block(index, author, minerAddress, previousHash, timestamp, [], 0, blockHash, merkle), count), data)
  }

  function PopBlock(data: Str): Popped<Block> {
    var ((block, count), data) :- PopHeader(data);
    var (txs, data) :- PopList(count, data, PopTx);
    var (nonce, data) :- PopU64(data);
    Ok(block.(transactions := txs, nonce := nonce), data)
  }

  method DecodeNextTx(data: Str) returns (r: Popped<Transaction>)
    ensures r == PopTx(data)
  {
    var txBytes := PopBytes(data);
    if !txBytes.Ok? {
      return txBytes.PropagateFailure();
    }
    var tx := DecodeTransactionBinary(txBytes.value);
    if !tx.Ok? {
      return tx.PropagateFailure();
    }
    r := Ok(tx.value, txBytes.rest);
  }

  method DecodeTxs(count: nat, start: Str) returns (r: Popped<seq<Transaction>>)
    ensures r == PopList(count, start, PopTx)
  {
    var txs: seq<Transaction> := [];
    var data := start;
    for i := 0 to count
      invariant PopList(i, start, PopTx) == Ok(txs, data)
    {
      PopListNext(i, count, start, PopTx, txs, data);
      var tx := DecodeNextTx(data);
      if !tx.Ok? {
        return tx.PropagateFailure();
      }
      txs := txs + [tx.value];
      data := tx.rest;
    }
    r := Ok(txs, data);
  }

  method DecodeBlockBinary(data: Str) returns (r: Popped<Block>)
    ensures r == PopBlock(data)
  {
    var header := PopHeader(data);
    if !header.Ok? {
      return header.PropagateFailure();
    }
    var (block, count) := header.value;
    var txs := DecodeTxs(count, header.rest);
    if !txs.Ok? {
      return txs.PropagateFailure();
    }
    var nonce := PopU64(txs.rest);
    if !nonce.Ok? {
      return nonce.PropagateFailure();
    }
    r := Ok(block.(transactions := txs.value, nonce := nonce.value), nonce.rest);
  }

  lemma {:induction false} PopPutList<T>(xs: seq<T>, chunks: seq<Str>, rest: Str, pop: Str -> Popped<T>)
    requires |xs| == |chunks| && FitAll(chunks)
    requires forall i, r: Str :: 0 <= i < |xs| ==> pop(PutBytes(chunks[i]) + r) == Ok(xs[i], r)
    ensures PopList(|xs|, PutChunks(chunks) + rest, pop) == Ok(xs, rest)
  {
    if xs == [] {
      assert PutChunks(chunks) + rest == rest;
    } else {
      var n := |xs| - 1;
      Assoc(PutChunks(chunks[..n]), PutBytes(chunks[n]), rest);
      PopPutList(xs[..n], chunks[..n], PutBytes(chunks[n]) + rest, pop);
      assert xs[..n] + [xs[n]] == xs;
    }
  }

  lemma PopPutTxs(txs: seq<Transaction>, rest: Str)
    requires FitsTxs(txs)
    ensures PopList(|txs|, PutTxs(txs) + rest, PopTx) == Ok(txs, rest)
  {
    var chunks := Chunks(txs);
    forall i, r: Str | 0 <= i < |txs|
      ensures PopTx(PutBytes(chunks[i]) + r) == Ok(txs[i], r)
    {
      PopPutTx(txs[i], r);
    }
    PopPutList(txs, chunks, rest, PopTx);
  }

  lemma RegroupHeader(a: Str, b: Str, c: Str, d: Str, e: Str, f: Str, g: Str, h: Str, rest: Str)
    ensures (a + b + c + d + e + f + g + h) + rest == a + (b + (c + (d + (e + (f + (g + (h + rest)))))))
  {
    Assoc(a + b + c + d + e + f + g, h, rest);
    RegroupHead(a, b, c, d, e, f, g, h + rest);
  }

  lemma PopPutHeader(b: Block, count: u64, rest: Str)
    requires FitsHeader(b)
    ensures PopHeader(PutHeader(b, count) + rest) == Ok((b.(transactions := [], nonce := 0), count), rest)
  {
    RegroupHeader(PutU64(b.index), PutBytes(b.author), PutBytes(b.minerAddress), PutBytes(b.previousHash),
                  PutI64(b.timestamp), PutBytes(b.blockHash), PutBytes(b.txMerkleRoot), PutU64(count), rest);
    var r7 := PutU64(count) + rest;
    var r6 := PutBytes(b.txMerkleRoot) + r7;
    var r5 := PutBytes(b.blockHash) + r6;
    var r4 := PutI64(b.timestamp) + r5;
    var r3 := PutBytes(b.previousHash) + r4;
    var r2 := PutBytes(b.minerAddress) + r3;
    var r1 := PutBytes(b.author) + r2;
    PopPutU64(b.index, r1);
    PopPutBytes(b.author, r2);
    PopPutBytes(b.minerAddress, r3);
    PopPutBytes(b.previousHash, r4);
    PopPutI64(b.timestamp, r5);
    PopPutBytes(b.blockHash, r6);
    PopPutBytes(b.txMerkleRoot, r7);
    PopPutU64(count, rest);
  }

  /** Decoding inverts encoding for every block, whatever bytes follow. */
  lemma DecodeEncodeBlock(b: Block, rest: Str)
    requires FitsBlock(b)
    ensures PopBlock(PutBlock(b) + rest) == Ok(b, rest)
  {
    var count := |b.transactions|;
    var header, end := PutHeader(b, count), PutU64(b.nonce) + rest;
    Assoc(header + PutTxs(b.transactions), PutU64(b.nonce), rest);
    Assoc(header, PutTxs(b.transactions), end);
    PopPutHeader(b, count, PutTxs(b.transactions) + end);
    PopPutTxs(b.transactions, end);
    PopPutU64(b.nonce, rest);
  }

  // ---------------------------------------------------------------------------------------------
  // Re-encoding a decoded block. The bytes of a transaction may go on after its last field; the block
  // decoder ignores that, so two different inputs can decode to the same block.

  function ChunkOf(data: Str): Str { if PopBytes(data).Ok? then PopBytes(data).value else [] }

  /** The byte strings read for n length-prefixed values. */
  function RawChunks<T>(n: nat, data: Str, pop: Str -> Popped<T>): (r: seq<Str>)
    requires PopList(n, data, pop).Ok?
    ensures |r| == n
  {
    if n == 0 then [] else RawChunks(n - 1, data, pop) + [ChunkOf(PopList(n - 1, data, pop).rest)]
  }

  /** Each string stands for the value at its position. */
  ghost predicate AllDecode<T>(chunks: seq<Str>, xs: seq<T>, decodes: (Str, T) -> bool) {
    |chunks| == |xs| && forall i :: 0 <= i < |xs| ==> decodes(chunks[i], xs[i])
  }

  ghost predicate ReadAt<T>(pop: Str -> Popped<T>, decodes: (Str, T) -> bool, data: Str) {
    pop(data).Ok? ==>
      Fits(ChunkOf(data)) && decodes(ChunkOf(data), pop(data).value) && data == PutBytes(ChunkOf(data)) + pop(data).rest
  }

  /** What is taken off the front is always one length-prefixed string. */
  ghost predicate Reads<T>(pop: Str -> Popped<T>, decodes: (Str, T) -> bool) {
    forall data: Str {:trigger ReadAt(pop, decodes, data)} :: Fits(data) ==> ReadAt(pop, decodes, data)
  }

  lemma OneMoreChunk(data: Str, raw: seq<Str>, middle: Str, chunk: Str, rest: Str)
    requires FitAll(raw) && Fits(chunk) && data == PutChunks(raw) + middle && middle == PutBytes(chunk) + rest
    ensures FitAll(raw + [chunk]) && data == PutChunks(raw + [chunk]) + rest && |middle| >= 8 + |rest|
  {
    assert (raw + [chunk])[..|raw|] == raw;
    Assoc(PutChunks(raw), PutBytes(chunk), rest);
  }

  lemma AllDecodeMore<T>(chunks: seq<Str>, xs: seq<T>, chunk: Str, x: T, decodes: (Str, T) -> bool)
    requires AllDecode(chunks, xs, decodes) && decodes(chunk, x)
    ensures AllDecode(chunks + [chunk], xs + [x], decodes)
  {
  }

  lemma PopListLast<T>(n: nat, data: Str, pop: Str -> Popped<T>)
    requires n > 0 && PopList(n, data, pop).Ok?
    ensures var before := PopList(n - 1, data, pop);
            && before.Ok? && pop(before.rest).Ok?
            && PopList(n, data, pop) == Ok(before.value + [pop(before.rest).value], pop(before.rest).rest)
            && RawChunks(n, data, pop) == RawChunks(n - 1, data, pop) + [ChunkOf(before.rest)]
  {
  }

  /** Whatever is read as a list is the strings read, length-prefixed, and what follows. */
  lemma {:induction false} PutPopList<T>(n: nat, data: Str, pop: Str -> Popped<T>, decodes: (Str, T) -> bool)
    requires Fits(data) && PopList(n, data, pop).Ok? && Reads(pop, decodes)
    ensures var raw, r := RawChunks(n, data, pop), PopList(n, data, pop);
            && AllDecode(raw, r.value, decodes) && FitAll(raw)
            && data == PutChunks(raw) + r.rest && |data| >= 8 * n + |r.rest|
  {
    if n > 0 {
      PopListLast(n, data, pop);
      var before, raw := PopList(n - 1, data, pop), RawChunks(n - 1, data, pop);
      var last, chunk := pop(before.rest), ChunkOf(before.rest);
      PutPopList(n - 1, data, pop, decodes);
      assert ReadAt(pop, decodes, before.rest);
      AllDecodeMore(raw, before.value, chunk, last.value, decodes);
      OneMoreChunk(data, raw, before.rest, chunk, last.rest);
    }
  }

  /** The bytes decode to the transaction, possibly with something left. */
  predicate DecodesTo(chunk: Str, tx: Transaction) {
    && FitsTx(tx) && DecodeTransactionBinary(chunk).Ok? && DecodeTransactionBinary(chunk).value == tx
    && chunk == EncodeTransactionBinary(tx) + DecodeTransactionBinary(chunk).rest
  }

  /** The transaction's bytes end with its last field. */
  predicate NothingLeft(chunk: Str) {
    var r := DecodeTransactionBinary(chunk);
    r.Ok? && r.rest == []
  }

  lemma TxsAreRead()
    ensures Reads(PopTx, DecodesTo)
  {
    forall data: Str | Fits(data)
      ensures ReadAt(PopTx, DecodesTo, data)
    {
      if PopTx(data).Ok? {
        PutPopBytes(data);
        EncodeDecodeTransaction(PopBytes(data).value);
      }
    }
  }

  lemma PutPopHeader(data: Str)
    requires Fits(data) && PopHeader(data).Ok?
    ensures var (b, count) := PopHeader(data).value;
            FitsHeader(b) && data == PutHeader(b, count) + PopHeader(data).rest && Fits(PopHeader(data).rest)
  {
    var d1 := PopU64(data).rest;
    var d2 := PopBytes(d1).rest;
    var d3 := PopBytes(d2).rest;
    var d4 := PopBytes(d3).rest;
    var d5 := PopI64(d4).rest;
    var d6 := PopBytes(d5).rest;
    var d7 := PopBytes(d6).rest;
    PutPopU64(data);
    PutPopBytes(d1);
    PutPopBytes(d2);
    PutPopBytes(d3);
    PutPopI64(d4);
    PutPopBytes(d5);
    PutPopBytes(d6);
    PutPopU64(d7);
    var (b, count) := PopHeader(data).value;
    RegroupHeader(PutU64(b.index), PutBytes(b.author), PutBytes(b.minerAddress), PutBytes(b.previousHash),
                  PutI64(b.timestamp), PutBytes(b.blockHash), PutBytes(b.txMerkleRoot), PutU64(count), PopU64(d7).rest);
  }

  /** The byte strings a block's transactions were read from. */
  function TxChunks(data: Str): seq<Str>
    requires PopBlock(data).Ok?
  {
    RawChunks(PopHeader(data).value.1, PopHeader(data).rest, PopTx)
  }

  /** A decoded block's bytes: its header, the strings its transactions were read from, its nonce. */
  lemma BlockBytes(data: Str)
    requires Fits(data) && PopBlock(data).Ok?
    ensures var b, raw := PopBlock(data).value, TxChunks(data);
            && FitsHeader(b) && FitAll(raw) && AllDecode(raw, b.transactions, DecodesTo) && |raw| < TWO63
            && data == PutHeader(b, |raw|) + PutChunks(raw) + PutU64(b.nonce) + PopBlock(data).rest
  {
    var header := PopHeader(data);
    var count := header.value.1;
    var txs := PopList(count, header.rest, PopTx);
    PutPopHeader(data);
    TxsAreRead();
    PutPopList(count, header.rest, PopTx, DecodesTo);
    PutPopU64(txs.rest);
    var b, raw := PopBlock(data).value, TxChunks(data);
    Assoc(PutHeader(b, count) + PutChunks(raw), PutU64(b.nonce), PopBlock(data).rest);
    Assoc(PutHeader(b, count), PutChunks(raw), txs.rest);
  }

  lemma DecodedFits(raw: seq<Str>, txs: seq<Transaction>)
    requires AllDecode(raw, txs, DecodesTo) && FitAll(raw) && |raw| < TWO63
    ensures FitsTxs(txs)
  {
    forall i | 0 <= i < |txs|
      ensures FitsTx(txs[i]) && Fits(EncodeTransactionBinary(txs[i]))
    {
      assert DecodesTo(raw[i], txs[i]) && Fits(raw[i]);
    }
  }

  /** Shorter strings take fewer bytes, unless none is shorter. */
  lemma {:induction false} ShorterChunks(raw: seq<Str>, cs: seq<Str>)
    requires |raw| == |cs| && FitAll(raw) && FitAll(cs)
    requires forall i :: 0 <= i < |cs| ==> |cs[i]| <= |raw[i]|
    ensures |PutChunks(cs)| <= |PutChunks(raw)|
    ensures |PutChunks(cs)| == |PutChunks(raw)| ==> forall i :: 0 <= i < |cs| ==> |cs[i]| == |raw[i]|
  {
    if cs != [] {
      ShorterChunks(raw[..|raw| - 1], cs[..|cs| - 1]);
    }
  }

  lemma LeftIsLength(chunk: Str, tx: Transaction)
    requires DecodesTo(chunk, tx)
    ensures |EncodeTransactionBinary(tx)| <= |chunk|
    ensures NothingLeft(chunk) <==> |EncodeTransactionBinary(tx)| == |chunk|
    ensures NothingLeft(chunk) ==> chunk == EncodeTransactionBinary(tx)
  {
  }

  ghost predicate AllUsed(chunks: seq<Str>) { forall i :: 0 <= i < |chunks| ==> NothingLeft(chunks[i]) }

  lemma SameChunksIff(raw: seq<Str>, txs: seq<Transaction>)
    requires AllDecode(raw, txs, DecodesTo) && FitAll(raw) && FitsTxs(txs)
    ensures PutChunks(raw) == PutTxs(txs) <==> AllUsed(raw)
  {
    var cs := Chunks(txs);
    forall i | 0 <= i < |txs|
      ensures |cs[i]| <= |raw[i]| && (NothingLeft(raw[i]) <==> |cs[i]| == |raw[i]|)
      ensures NothingLeft(raw[i]) ==> raw[i] == cs[i]
    {
      assert DecodesTo(raw[i], txs[i]);
      LeftIsLength(raw[i], txs[i]);
    }
    ShorterChunks(raw, cs);
    if AllUsed(raw) {
      assert raw == cs;
    }
  }

  lemma SameMiddle(a: Str, x: Str, y: Str, b: Str, c: Str)
    ensures a + x + b + c == a + y + b + c <==> x == y
  {
    if a + x + b + c == a + y + b + c {
      assert |x| == |y|;
      assert x == (a + x + b + c)[|a|..|a| + |x|] && y == (a + y + b + c)[|a|..|a| + |y|];
    }
  }

  /** Re-encoding a decoded block gives back the bytes consumed if and only if the bytes of each of its
      transactions end with the transaction's last field. */
  lemma ReencodeBlockIff(data: Str)
    requires Fits(data) && PopBlock(data).Ok?
    ensures FitsBlock(PopBlock(data).value)
    ensures data == PutBlock(PopBlock(data).value) + PopBlock(data).rest <==> AllUsed(TxChunks(data))
  {
    var b, raw := PopBlock(data).value, TxChunks(data);
    BlockBytes(data);
    DecodedFits(raw, b.transactions);
    SameChunksIff(raw, b.transactions);
    SameMiddle(PutHeader(b, |raw|), PutChunks(raw), PutTxs(b.transactions), PutU64(b.nonce), PopBlock(data).rest);
  }

  lemma DecodesWherever(chunk: Str, tx: Transaction, rest: Str)
    requires DecodesTo(chunk, tx) && Fits(chunk)
    ensures PopTx(PutBytes(chunk) + rest) == Ok(tx, rest)
  {
    PopPutBytes(chunk, rest);
  }

  lemma RawDecodes(raw: seq<Str>, txs: seq<Transaction>, rest: Str)
    requires AllDecode(raw, txs, DecodesTo) && FitAll(raw)
    ensures PopList(|txs|, PutChunks(raw) + rest, PopTx) == Ok(txs, rest)
  {
    forall i, r: Str | 0 <= i < |txs|
      ensures PopTx(PutBytes(raw[i]) + r) == Ok(txs[i], r)
    {
      assert DecodesTo(raw[i], txs[i]);
      DecodesWherever(raw[i], txs[i], r);
    }
    PopPutList(txs, raw, rest, PopTx);
  }

  lemma BlockFromParts(b: Block, count: u64, middle: Str, end: Str)
    requires FitsHeader(b) && end == PutU64(b.nonce) && PopList(count, middle, PopTx) == Ok(b.transactions, end)
    ensures PopBlock(PutHeader(b, count) + middle) == Ok(b, [])
  {
    PopPutHeader(b, count, middle);
    assert end + [] == end;
    PopPutU64(b.nonce, []);
  }

  /** Any strings that decode to a block's transactions, with or without something left, make up bytes that
      decode to the block. */
  lemma AnyReadingDecodes(b: Block, raw: seq<Str>)
    requires FitsHeader(b) && AllDecode(raw, b.transactions, DecodesTo) && FitAll(raw) && |raw| < TWO63
    ensures PopBlock(PutHeader(b, |raw|) + (PutChunks(raw) + PutU64(b.nonce))) == Ok(b, [])
  {
    RawDecodes(raw, b.transactions, PutU64(b.nonce));
    BlockFromParts(b, |raw|, PutChunks(raw) + PutU64(b.nonce), PutU64(b.nonce));
  }

  lemma JunkDecodes(tx: Transaction, junk: Str)
    requires FitsTx(tx)
    ensures DecodesTo(EncodeTransactionBinary(tx) + junk, tx)
  {
    DecodeEncodeTransaction(tx, junk);
  }

  lemma EncodedDecode(txs: seq<Transaction>)
    requires FitsTxs(txs)
    ensures AllDecode(Chunks(txs), txs, DecodesTo)
  {
    forall i | 0 <= i < |txs|
      ensures DecodesTo(Chunks(txs)[i], txs[i])
    {
      JunkDecodes(txs[i], []);
      assert EncodeTransactionBinary(txs[i]) + [] == EncodeTransactionBinary(txs[i]);
    }
  }

  lemma DecodeWithOne(raw: seq<Str>, txs: seq<Transaction>, i: nat, chunk: Str)
    requires AllDecode(raw, txs, DecodesTo) && FitAll(raw) && i < |raw| && Fits(chunk) && DecodesTo(chunk, txs[i])
    ensures AllDecode(raw[i := chunk], txs, DecodesTo) && FitAll(raw[i := chunk])
  {
  }

  lemma SomethingLeft(tx: Transaction, junk: Str)
    requires FitsTx(tx) && junk != []
    ensures !NothingLeft(EncodeTransactionBinary(tx) + junk)
  {
    DecodeEncodeTransaction(tx, junk);
  }

  lemma OtherMiddle(h: Str, x: Str, y: Str, n: Str)
    ensures h + (x + n) == h + y + n ==> x == y
  {
    SameMiddle(h, x, y, n, []);
    assert h + x + n + [] == h + (x + n) && h + y + n + [] == h + y + n;
  }

  /** Block encodings are malleable: bytes added to any transaction of a block, with its length adjusted,
      decode to the same block. */
  lemma JunkIsIgnored(b: Block, i: nat, chunk: Str, junk: Str, raw: seq<Str>)
    requires FitsBlock(b) && i < |b.transactions| && FitsTx(b.transactions[i]) && junk != []
    requires chunk == EncodeTransactionBinary(b.transactions[i]) + junk && Fits(chunk)
    requires raw == Chunks(b.transactions)[i := chunk]
    ensures var data := PutHeader(b, |raw|) + (PutChunks(raw) + PutU64(b.nonce));
            PopBlock(data) == Ok(b, []) && data != PutBlock(b)
  {
    EncodedDecode(b.transactions);
    JunkDecodes(b.transactions[i], junk);
    DecodeWithOne(Chunks(b.transactions), b.transactions, i, chunk);
    SomethingLeft(b.transactions[i], junk);
    OtherBytes(b, raw, i);
  }

  lemma OtherBytes(b: Block, raw: seq<Str>, i: nat)
    requires FitsBlock(b) && AllDecode(raw, b.transactions, DecodesTo) && FitAll(raw)
    requires i < |raw| && !NothingLeft(raw[i])
    ensures var data := PutHeader(b, |raw|) + (PutChunks(raw) + PutU64(b.nonce));
            PopBlock(data) == Ok(b, []) && data != PutBlock(b)
  {
    AnyReadingDecodes(b, raw);
    SameChunksIff(raw, b.transactions);
    OtherMiddle(PutHeader(b, |raw|), PutChunks(raw), PutTxs(b.transactions), PutU64(b.nonce));
  }

  // ---------------------------------------------------------------------------------------------
  // The format, on an example.

  function Zeros(n: nat): (r: Str)
    ensures |r| == n
  {
    if n == 0 then [] else Zeros(n - 1) + [0 as char]
  }

  lemma {:induction false} DigitsOfZero(n: nat)
    ensures Digits(0, n) == Zeros(n)
  {
    if n > 0 {
      DigitsOfZero(n - 1);
    }
  }

  function Num(v: nat): Str
    requires v < 256
  {
    Zeros(7) + [v as char]
  }

  /** A small number takes eight bytes, the most significant first. */
  lemma SmallNumber(v: nat)
    requires v < 256
    ensures PutU64(v) == Num(v) && PutI64(v) == Num(v)
  {
    DigitsOfZero(7);
    assert v / 256 == 0 && v % 256 == v;
    assert Digits(v, 8) == Digits(0, 7) + [v as char];
  }

  /** Negative times are two's complement. */
  lemma MinusOne()
    ensures PutI64(-1) == PutU64(0xFFFF_FFFF_FFFF_FFFF)
  {
  }

  const EXAMPLE := Transaction("i", "f", "k", "t", 1, 2, 3, "T", "P", "s", 4, "c")

  /** Each string after its length, numbers in between, in this order. */
  lemma TransactionFormat()
    ensures EncodeTransactionBinary(EXAMPLE) ==
            (Num(1) + "i" + (Num(1) + "f") + (Num(1) + "k") + (Num(1) + "t") + Num(1) + Num(2) + Num(3))
            + (Num(1) + "T" + (Num(1) + "P") + (Num(1) + "s") + Num(4) + (Num(1) + "c"))
  {
    SmallNumber(1);
    SmallNumber(2);
    SmallNumber(3);
    SmallNumber(4);
  }

  const EMPTY_BLOCK := Block(1, "a", "m", "p", 2, [], 3, "h", "r")

  lemma BlockFormat()
    ensures PutBlock(EMPTY_BLOCK) ==
            Num(1) + (Num(1) + "a") + (Num(1) + "m") + (Num(1) + "p") + Num(2) + (Num(1) + "h") + (Num(1) + "r")
            + Num(0) + [] + Num(3)
  {
    SmallNumber(0);
    SmallNumber(1);
    SmallNumber(2);
    SmallNumber(3);
  }
}
