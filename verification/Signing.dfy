/** The bytes a transaction is signed over (domain.go): ten fields separated by NUL bytes. */
module Signing {
  import opened Domain

  const NUL: Byte := 0 as char

  // ---------------------------------------------------------------------------------------------
  // Decimal numbers, as strconv formats them.

  function Digit(d: nat): Byte
    requires d < 10
  {
    (d + 48) as char
  }

  function FormatUint(n: nat): (r: Str)
    ensures r != []
  {
    if n < 10 then [Digit(n)] else FormatUint(n / 10) + [Digit(n % 10)]
  }

  function FormatInt(n: int): Str {
    var minus: Str := "-";
    if n < 0 then minus + FormatUint(-n) else FormatUint(n)
  }

  function ParseUint(s: Str): int {
    if s == [] then 0 else 10 * ParseUint(s[..|s| - 1]) + (s[|s| - 1] as int - 48)
  }

  lemma {:induction false} ParseFormat(n: nat)
    ensures ParseUint(FormatUint(n)) == n
    ensures forall i :: 0 <= i < |FormatUint(n)| ==> '0' <= FormatUint(n)[i] <= '9'
  {
    if n < 10 {
      assert FormatUint(n)[..0] == [];
    } else {
      ParseFormat(n / 10);
      assert FormatUint(n)[..|FormatUint(n)| - 1] == FormatUint(n / 10);
    }
  }

  lemma FormatUintInjective(m: nat, n: nat)
    requires FormatUint(m) == FormatUint(n)
    ensures m == n
  {
    ParseFormat(m);
    ParseFormat(n);
  }

  lemma FormatIntInjective(m: int, n: int)
    requires FormatInt(m) == FormatInt(n)
    ensures m == n
  {
    var u := FormatInt(m);
    if m >= 0 { ParseFormat(m); assert u[0] != '-'; }
    if n >= 0 { ParseFormat(n); assert u[0] != '-'; }
    if m < 0 && n < 0 {
      assert u[1..] == FormatUint(-m) == FormatUint(-n);
      FormatUintInjective(-m, -n);
    } else if m >= 0 && n >= 0 {
      FormatUintInjective(m, n);
    }
  }

  lemma FormatIntNulFree(n: int)
    ensures NUL !in FormatInt(n)
  {
    ParseFormat(if n < 0 then -n else n);
  }

  // ---------------------------------------------------------------------------------------------
  // Fields joined by NUL bytes.

  function Join(fs: seq<Str>): Str
    requires fs != []
  {
    if |fs| == 1 then fs[0] else Join(fs[..|fs| - 1]) + [NUL] + fs[|fs| - 1]
  }

  function Nuls(s: Str): nat {
    if s == [] then 0 else Nuls(s[..|s| - 1]) + if s[|s| - 1] == NUL then 1 else 0
  }

  lemma {:induction false} NulsConcat(a: Str, b: Str)
    ensures Nuls(a + b) == Nuls(a) + Nuls(b)
  {
    if b == [] {
      assert a + b == a;
    } else {
      assert (a + b)[..|a + b| - 1] == a + b[..|b| - 1];
      NulsConcat(a, b[..|b| - 1]);
    }
  }

  lemma {:induction false} NulsZero(s: Str)
    ensures Nuls(s) == 0 <==> NUL !in s
  {
    if s != [] {
      NulsZero(s[..|s| - 1]);
      assert s == s[..|s| - 1] + [s[|s| - 1]];
    }
  }

  predicate AllNulFree(fs: seq<Str>) {
    forall i :: 0 <= i < |fs| ==> NUL !in fs[i]
  }

  /** A join of n fields has at least n - 1 NULs, and exactly that many when no field has one. */
  lemma {:induction false} JoinNuls(fs: seq<Str>)
    requires fs != []
    ensures Nuls(Join(fs)) >= |fs| - 1
    ensures Nuls(Join(fs)) == |fs| - 1 <==> AllNulFree(fs)
  {
    var n := |fs| - 1;
    NulsZero(fs[n]);
    if n > 0 {
      JoinNuls(fs[..n]);
      NulsConcat(Join(fs[..n]) + [NUL], fs[n]);
      NulsConcat(Join(fs[..n]), [NUL]);
      assert Nuls([NUL]) == Nuls([]) + 1;
      assert forall i :: 0 <= i < n ==> fs[..n][i] == fs[i];
    }
  }

  lemma LastNul(a: Str, x: Str, b: Str, y: Str)
    requires a + [NUL] + x == b + [NUL] + y && NUL !in x && NUL !in y
    ensures a == b && x == y
  {
    var s := a + [NUL] + x;
    assert s[|a|] == NUL && s[|b|] == NUL;
    assert |a| == |b|;
    assert a == s[..|a|] && b == s[..|b|];
    assert x == s[|a| + 1..] && y == s[|b| + 1..];
  }

  lemma {:induction false} JoinInjective(fs: seq<Str>, gs: seq<Str>)
    requires |fs| == |gs| > 0 && AllNulFree(fs) && AllNulFree(gs) && Join(fs) == Join(gs)
    ensures fs == gs
  {
    var n := |fs| - 1;
    if n > 0 {
      LastNul(Join(fs[..n]), fs[n], Join(gs[..n]), gs[n]);
      JoinInjective(fs[..n], gs[..n]);
      assert fs == fs[..n] + [fs[n]] && gs == gs[..n] + [gs[n]];
    }
  }

  lemma MoveLast(p: Str, x: Str, y: Str, z: Str)
    ensures p + [NUL] + (x + [NUL] + y) + [NUL] + z == p + [NUL] + x + [NUL] + (y + [NUL] + z)
    ensures (x + [NUL] + y) + [NUL] + z == x + [NUL] + (y + [NUL] + z)
  {
  }

  /** A NUL inside a field can be read as the separator before the next one. */
  lemma {:induction false} MoveNul(fs: seq<Str>, i: nat, x: Str, y: Str)
    requires i + 1 < |fs| && fs[i] == x + [NUL] + y
    ensures Join(fs) == Join(fs[i := x][i + 1 := y + [NUL] + fs[i + 1]])
  {
    var n := |fs| - 1;
    var gs := fs[i := x][i + 1 := y + [NUL] + fs[i + 1]];
    if i + 1 < n {
      MoveNul(fs[..n], i, x, y);
      assert gs[..n] == fs[..n][i := x][i + 1 := y + [NUL] + fs[i + 1]];
    } else {
      var p := fs[..i];
      assert fs[..n] == p + [fs[i]] && gs[..n] == p + [x];
      assert fs[..n][..i] == p && gs[..n][..i] == p;
      MoveLast(if i > 0 then Join(p) else [], x, y, fs[n]);
    }
  }

  // ---------------------------------------------------------------------------------------------
  // Transactions.

  function SignedFields(tx: Transaction): (r: seq<Str>)
    ensures |r| == 10
  {
    [tx.chainID, tx.from, tx.fromPubKey, tx.to, FormatUint(tx.amount), FormatUint(tx.fee), FormatUint(tx.nonce),
     tx.txType, tx.payload, FormatInt(tx.timestamp)]
  }

  function SigningBytes(tx: Transaction): Str { Join(SignedFields(tx)) }

  lemma JoinStep(fs: seq<Str>, k: nat)
    requires 0 < k < |fs|
    ensures Join(fs[..k + 1]) == Join(fs[..k]) + [NUL] + fs[k]
  {
    assert fs[..k + 1][..k] == fs[..k];
  }

  method CanonicalSigningBytes(tx: Transaction) returns (b: Str)
    ensures b == SigningBytes(tx)
  {
    ghost var fs := SignedFields(tx);
    b := tx.chainID;
    b := b + [NUL];
    b := b + tx.from;
    JoinStep(fs, 1);
    b := b + [NUL];
    b := b + tx.fromPubKey;
    JoinStep(fs, 2);
    b := b + [NUL];
    b := b + tx.to;
    JoinStep(fs, 3);
    b := b + [NUL];
    b := b + FormatUint(tx.amount);
    JoinStep(fs, 4);
    b := b + [NUL];
    b := b + FormatUint(tx.fee);
    JoinStep(fs, 5);
    b := b + [NUL];
    b := b + FormatUint(tx.nonce);
    JoinStep(fs, 6);
    b := b + [NUL];
    b := b + tx.txType;
    JoinStep(fs, 7);
    b := b + [NUL];
    b := b + tx.payload;
    JoinStep(fs, 8);
    b := b + [NUL];
    b := b + FormatInt(tx.timestamp);
    JoinStep(fs, 9);
    assert fs[..10] == fs && fs[..1] == [tx.chainID];
  }

  predicate SameSigned(a: Transaction, b: Transaction) {
    && a.chainID == b.chainID && a.from == b.from && a.fromPubKey == b.fromPubKey && a.to == b.to
    && a.amount == b.amount && a.fee == b.fee && a.nonce == b.nonce
    && a.txType == b.txType && a.payload == b.payload && a.timestamp == b.timestamp
  }

  predicate NulFree(tx: Transaction) {
    && NUL !in tx.chainID && NUL !in tx.from && NUL !in tx.fromPubKey && NUL !in tx.to
    && NUL !in tx.txType && NUL !in tx.payload
  }

  lemma NulFreeFields(tx: Transaction)
    ensures AllNulFree(SignedFields(tx)) <==> NulFree(tx)
  {
    FormatIntNulFree(tx.amount);
    FormatIntNulFree(tx.fee);
    FormatIntNulFree(tx.nonce);
    FormatIntNulFree(tx.timestamp);
    var fs := SignedFields(tx);
    if AllNulFree(fs) {
      assert NUL !in fs[0] && NUL !in fs[1] && NUL !in fs[2] && NUL !in fs[3] && NUL !in fs[7] && NUL !in fs[8];
    }
  }

  lemma SameFields(a: Transaction, b: Transaction)
    requires SignedFields(a) == SignedFields(b)
    ensures SameSigned(a, b)
  {
    var fs, gs := SignedFields(a), SignedFields(b);
    assert forall i :: 0 <= i < 10 ==> fs[i] == gs[i];
    assert fs[0] == gs[0] && fs[1] == gs[1] && fs[2] == gs[2] && fs[3] == gs[3] && fs[7] == gs[7] && fs[8] == gs[8];
    assert fs[4] == gs[4] && fs[5] == gs[5] && fs[6] == gs[6] && fs[9] == gs[9];
    FormatUintInjective(a.amount, b.amount);
    FormatUintInjective(a.fee, b.fee);
    FormatUintInjective(a.nonce, b.nonce);
    FormatIntInjective(a.timestamp, b.timestamp);
  }

  /** A transaction without NULs shares its signing bytes with no other content, whatever the other
      transaction's fields hold. */
  lemma SigningBytesBind(tx: Transaction, other: Transaction)
    requires NulFree(tx) && SigningBytes(tx) == SigningBytes(other)
    ensures SameSigned(tx, other)
  {
    NulFreeFields(tx);
    JoinNuls(SignedFields(tx));
    JoinNuls(SignedFields(other));
    JoinInjective(SignedFields(tx), SignedFields(other));
    SameFields(tx, other);
  }

  lemma SplitAtNul(s: Str) returns (x: Str, y: Str)
    requires NUL in s
    ensures s == x + [NUL] + y
  {
    var i :| 0 <= i < |s| && s[i] == NUL;
    x, y := s[..i], s[i + 1..];
  }

  /** A NUL in a string field can be traded with a neighbouring string field. */
  lemma OtherReading(tx: Transaction) returns (other: Transaction)
    requires !NulFree(tx)
    ensures SigningBytes(tx) == SigningBytes(other) && !SameSigned(tx, other)
  {
    var i := if NUL in tx.chainID then 0 else if NUL in tx.from then 1 else if NUL in tx.fromPubKey then 2
             else if NUL in tx.to then 3 else if NUL in tx.txType then 7 else 8;
    var fs := SignedFields(tx);
    var x, y := SplitAtNul(fs[i]);
    if i == 0 {
      other := tx.(chainID := x, from := y + [NUL] + tx.from);
    } else if i == 1 {
      other := tx.(from := x, fromPubKey := y + [NUL] + tx.fromPubKey);
    } else if i == 2 {
      other := tx.(fromPubKey := x, to := y + [NUL] + tx.to);
    } else if i == 7 {
      other := tx.(txType := x, payload := y + [NUL] + tx.payload);
    } else if i == 3 {
      other := tx.(fromPubKey := tx.fromPubKey + [NUL] + x, to := y);
    } else {
      other := tx.(txType := tx.txType + [NUL] + x, payload := y);
    }
    if i in {3, 8} {
      // Read the other way round: the separator before this field belongs to the previous one.
      var gs := SignedFields(other);
      MoveNul(gs, i - 1, fs[i - 1], x);
      assert fs == gs[i - 1 := fs[i - 1]][i := x + [NUL] + y];
    } else {
      MoveNul(fs, i, x, y);
      assert SignedFields(other) == fs[i := x][i + 1 := y + [NUL] + fs[i + 1]];
    }
  }

  /** The signing bytes determine what is signed if and only if no string field contains a NUL. */
  lemma BindingIffNulFree(tx: Transaction)
    ensures NulFree(tx) <==> forall other :: SigningBytes(other) == SigningBytes(tx) ==> SameSigned(tx, other)
  {
    if NulFree(tx) {
      forall other | SigningBytes(other) == SigningBytes(tx)
        ensures SameSigned(tx, other)
      {
        SigningBytesBind(tx, other);
      }
    } else {
      var other := OtherReading(tx);
    }
  }

  // ---------------------------------------------------------------------------------------------
  // The format, on an example.

  const EXAMPLE := Transaction("i", "f", "k", "t", 10, 2, 3, "T", "P", "s", -4, "c")

  /** The fields in this order, numbers in decimal, a NUL between any two; id and signature are not signed. */
  lemma SigningFormat()
    ensures SigningBytes(EXAMPLE) ==
            "c" + [NUL] + "f" + [NUL] + "k" + [NUL] + "t" + [NUL] + "10" + [NUL] + "2" + [NUL] + "3" + [NUL] + "T"
            + [NUL] + "P" + [NUL] + "-4"
  {
    var fs := SignedFields(EXAMPLE);
    assert FormatUint(10) == "10" && FormatInt(-4) == "-4";
    assert fs[..10] == fs && fs[..1] == ["c"];
    JoinStep(fs, 1);
    JoinStep(fs, 2);
    JoinStep(fs, 3);
    JoinStep(fs, 4);
    JoinStep(fs, 5);
    JoinStep(fs, 6);
    JoinStep(fs, 7);
    JoinStep(fs, 8);
    JoinStep(fs, 9);
  }
}
