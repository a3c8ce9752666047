/** control-center/persistence/src/ids.ts: base-32 public ids, down to the 32-bit accumulator. */
module PublicIds {
  import opened Prelude

  const CROCKFORD := "0123456789ABCDEFGHJKMNPQRSTVWXYZ"

  // ---- The alphabet ------------------------------------------------------------------------------

  /** The digits, then the capital letters without I, L, O and U. */
  function Symbol(v: nat): char
    requires v < 32
  {
    if v < 10 then ('0' as int + v) as char
    else if v < 18 then ('A' as int + v - 10) as char
    else if v < 20 then ('J' as int + v - 18) as char
    else if v < 22 then ('M' as int + v - 20) as char
    else if v < 27 then ('P' as int + v - 22) as char
    else ('V' as int + v - 27) as char
  }

  lemma SymbolIsCrockford(v: nat)
    requires v < 32
    ensures |CROCKFORD| == 32 && CROCKFORD[v] == Symbol(v)
  {
    assert CROCKFORD == "0123456789" + "ABCDEFGH" + "JK" + "MN" + "PQRST" + "VWXYZ";
    if v < 10 {
      assert CROCKFORD[v] == "0123456789"[v];
    } else if v < 18 {
      assert CROCKFORD[v] == "ABCDEFGH"[v - 10];
    } else if v < 20 {
      assert CROCKFORD[v] == "JK"[v - 18];
    } else if v < 22 {
      assert CROCKFORD[v] == "MN"[v - 20];
    } else if v < 27 {
      assert CROCKFORD[v] == "PQRST"[v - 22];
    } else {
      assert CROCKFORD[v] == "VWXYZ"[v - 27];
    }
  }

  /** The decoder's reading of one symbol. */
  function ValueOf(c: char): nat {
    if '0' <= c <= '9' then c as int - '0' as int
    else if 'A' <= c <= 'H' then c as int - 'A' as int + 10
    else if 'J' <= c <= 'K' then c as int - 'J' as int + 18
    else if 'M' <= c <= 'N' then c as int - 'M' as int + 20
    else if 'P' <= c <= 'T' then c as int - 'P' as int + 22
    else if 'V' <= c <= 'Z' then c as int - 'V' as int + 27
    else 0
  }

  /** The alphabet decodes position by position, and ascends as characters do. */
  lemma AlphabetSound(v: nat, w: nat)
    requires v < 32 && w < 32
    ensures ValueOf(Symbol(v)) == v
    ensures Symbol(v) < Symbol(w) <==> v < w
    ensures '0' <= Symbol(v) <= '9' || 'A' <= Symbol(v) <= 'Z'
  {
  }

  // ---- Fixed-width base 32 -----------------------------------------------------------------------

  function Pow(b: nat, k: nat): (p: nat)
    ensures b > 0 ==> p > 0
  {
    if k == 0 then 1 else Pow(b, k - 1) * b
  }

  /** The k low base-32 digits of n, most significant first. */
  function Base32(n: nat, k: nat): string {
    if k == 0 then "" else Base32(n / 32, k - 1) + [Symbol(n % 32)]
  }

  function Decode(s: string): nat {
    if s == "" then 0 else Decode(Init(s)) * 32 + ValueOf(Last(s))
  }

  lemma {:induction false} Base32Length(n: nat, k: nat)
    ensures |Base32(n, k)| == k
  {
    if k > 0 {
      Base32Length(n / 32, k - 1);
    }
  }

  lemma ModSplit(n: nat, p: nat)
    requires p > 0
    ensures n % (p * 32) == (n / 32) % p * 32 + n % 32
  {
    var q, r := n / 32 / p, (n / 32) % p;
    assert n == (q * p + r) * 32 + n % 32;
    assert n == q * (p * 32) + (r * 32 + n % 32) by {
      assert (q * p + r) * 32 == q * (p * 32) + r * 32;
    }
    ModUnique(n, p * 32, q, r * 32 + n % 32);
  }

  lemma MulAtLeast(d: int, m: nat)
    ensures d >= 1 ==> d * m >= m
    ensures d <= -1 ==> d * m + m <= 0
  {
  }

  lemma ModUnique(n: nat, m: nat, q: int, r: nat)
    requires m > 0 && r < m && n == q * m + r
    ensures n % m == r && n / m == q
  {
    DivUnique(n, m, q, r);
  }

  /** Decoding returns the number, modulo what the width can hold. */
  lemma {:induction false} DecodeBase32(n: nat, k: nat)
    ensures Decode(Base32(n, k)) == n % Pow(32, k)
  {
    if k > 0 {
      DecodeBase32(n / 32, k - 1);
      var s := Base32(n, k);
      assert Init(s) == Base32(n / 32, k - 1) && Last(s) == Symbol(n % 32);
      AlphabetSound(n % 32, 0);
      ModSplit(n, Pow(32, k - 1));
    }
  }

  /** Order of strings of one length: the first difference decides. */
  predicate StringLess(s: string, t: string)
    requires |s| == |t|
  {
    if s == "" then false
    else StringLess(Init(s), Init(t)) || (Init(s) == Init(t) && Last(s) < Last(t))
  }

  lemma {:induction false} StringLessIff(s: string, t: string)
    requires |s| == |t|
    ensures StringLess(s, t) <==> exists i :: 0 <= i < |s| && s[..i] == t[..i] && s[i] < t[i]
  {
    if s != "" {
      var s0, t0 := Init(s), Init(t);
      StringLessIff(s0, t0);
      if StringLess(s0, t0) {
        var i :| 0 <= i < |s0| && s0[..i] == t0[..i] && s0[i] < t0[i];
        assert s[..i] == s0[..i] && t[..i] == t0[..i];
        assert s[i] < t[i];
      }
      if i :| 0 <= i < |s| && s[..i] == t[..i] && s[i] < t[i] {
        if i < |s0| {
          assert s0[..i] == s[..i] && t0[..i] == t[..i];
          assert s0[i] < t0[i];
        }
      }
    }
  }

  /** String order is numeric order. */
  lemma {:induction false} Base32Order(a: nat, b: nat, k: nat)
    requires a < Pow(32, k) && b < Pow(32, k)
    ensures |Base32(a, k)| == |Base32(b, k)| == k
    ensures StringLess(Base32(a, k), Base32(b, k)) <==> a < b
    ensures Base32(a, k) == Base32(b, k) <==> a == b
  {
    Base32Length(a, k);
    Base32Length(b, k);
    if k > 0 {
      var s, t := Base32(a, k), Base32(b, k);
      assert Init(s) == Base32(a / 32, k - 1) && Init(t) == Base32(b / 32, k - 1);
      assert Last(s) == Symbol(a % 32) && Last(t) == Symbol(b % 32);
      Base32Order(a / 32, b / 32, k - 1);
      AlphabetSound(a % 32, b % 32);
      AlphabetSound(b % 32, a % 32);
      assert s == Init(s) + [Last(s)] && t == Init(t) + [Last(t)];
    }
  }

  // ---- encodeTime --------------------------------------------------------------------------------

  /** `encodeTime` fills ten characters from the right. */
  method EncodeTime(ms: nat) returns (s: string)
    ensures s == Base32(ms, 10)
  {
    var time := ms;
    var chars := new char[10];
    for i := 10 downto 0
      invariant time >= 0 && Base32(time, i) + chars[i..] == Base32(ms, 10)
    {
      SymbolIsCrockford(time % 32);
      chars[i] := CROCKFORD[time % 32];
      assert chars[i..] == [Symbol(time % 32)] + chars[i + 1..];
      assert Base32(time, i + 1) + chars[i + 1..] == Base32(time / 32, i) + chars[i..];
      time := time / 32;
    }
    assert chars[..] == chars[0..];
    s := chars[..];
  }

  /** Below 32^10 the time comes back exactly. */
  lemma TimeRoundTrip(ms: nat)
    requires ms < Pow(32, 10)
    ensures Decode(Base32(ms, 10)) == ms
  {
    FullWidth(ms, 10);
  }

  // ---- encodeRandom ------------------------------------------------------------------------------

  type Byte = b: int | 0 <= b < 256

  const TWO32 := 0x1_0000_0000

  /** JavaScript's conversion of a number to a signed 32-bit integer. */
  function ToInt32(x: int): int {
    (x + TWO32 / 2) % TWO32 - TWO32 / 2
  }

  /** `(acc << 8) | byte`: the shift wraps at 32 bits and leaves eight zero bits for the byte. */
  function ShiftIn(acc: int, b: Byte): int {
    ToInt32(acc * 256) + b
  }

  /** `(acc >> bits) & 31`: an arithmetic shift, then the low five bits. */
  function FiveBits(acc: int, bits: nat): nat {
    (acc / Pow(2, bits)) % 32
  }

  /** The number a byte string spells, most significant byte first. */
  function BytesValue(bytes: seq<Byte>): nat {
    if bytes == [] then 0 else BytesValue(Init(bytes)) * 256 + Last(bytes)
  }

  predicate Congruent(acc: int, n: int) {
    (acc - n) % TWO32 == 0
  }

  lemma ShiftInCongruent(acc: int, n: nat, b: Byte)
    requires Congruent(acc, n)
    ensures Congruent(ShiftIn(acc, b), n * 256 + b)
  {
    var q := (acc - n) / TWO32;
    assert acc == n + q * TWO32;
    var w := (acc * 256 + TWO32 / 2) / TWO32;
    assert ShiftIn(acc, b) == acc * 256 - w * TWO32 + b;
    assert ShiftIn(acc, b) - (n * 256 + b) == (256 * q - w) * TWO32;
  }

  lemma Powers()
    ensures Pow(2, 0) == 1 && Pow(2, 1) == 2 && Pow(2, 2) == 4 && Pow(2, 3) == 8
    ensures Pow(2, 4) == 16 && Pow(2, 5) == 32 && Pow(2, 6) == 64 && Pow(2, 7) == 128
  {
    assert Pow(2, 3) == 8;
    assert Pow(2, 6) == 64;
  }

  /** Adding a multiple of 32 * p leaves the five bits above p alone. */
  lemma ShiftMultiple(n: int, k: int, p: int)
    requires p > 0
    ensures ((n + 32 * k * p) / p) % 32 == (n / p) % 32
  {
    var whole, rest := n / p, n % p;
    assert n + 32 * k * p == (whole + 32 * k) * p + rest;
    DivUnique(n + 32 * k * p, p, whole + 32 * k, rest);
  }

  lemma DivUnique(n: int, m: nat, q: int, r: nat)
    requires m > 0 && r < m && n == q * m + r
    ensures n / m == q
  {
    var d := q - n / m;
    assert d * m == n % m - r by {
      assert n == n / m * m + n % m;
      assert d * m == q * m - n / m * m;
    }
    MulAtLeast(d, m);
  }

  /** The wrap never reaches the five bits that are read. */
  lemma FiveBitsExact(acc: int, n: nat, bits: nat)
    requires Congruent(acc, n) && bits <= 7
    ensures FiveBits(acc, bits) == (n / Pow(2, bits)) % 32
  {
    Powers();
    var q := (acc - n) / TWO32;
    assert acc == n + q * TWO32;
    match bits
    case 0 => ShiftMultiple(n, 0x800_0000 * q, 1);
    case 1 => ShiftMultiple(n, 0x400_0000 * q, 2);
    case 2 => ShiftMultiple(n, 0x200_0000 * q, 4);
    case 3 => ShiftMultiple(n, 0x100_0000 * q, 8);
    case 4 => ShiftMultiple(n, 0x80_0000 * q, 16);
    case 5 => ShiftMultiple(n, 0x40_0000 * q, 32);
    case 6 => ShiftMultiple(n, 0x20_0000 * q, 64);
    case _ => ShiftMultiple(n, 0x10_0000 * q, 128);
  }

  function Zeros(n: nat): string {
    seq(n, _ => '0')
  }

  /** How many symbols a byte string yields, and how many of its low bits they leave unread. */
  function SymbolCount(bytes: nat): nat {
    Min(16, 8 * bytes / 5)
  }

  /** The leading symbols of n, `bits` low bits left unread, padded with zeros to sixteen. */
  function Padded(n: nat, bits: nat, symbols: nat): string
    requires symbols <= 16
  {
    Base32(n / Pow(2, bits), symbols) + Zeros(16 - symbols)
  }

  /** The leading bits of the byte string as base-32 symbols, padded with zeros to sixteen. */
  function RandomSymbols(bytes: seq<Byte>): string {
    var m := SymbolCount(|bytes|);
    Padded(BytesValue(bytes), 8 * |bytes| - 5 * m, m)
  }

  lemma {:induction false} PowSum(b: nat, k: nat, j: nat)
    ensures Pow(b, k + j) == Pow(b, k) * Pow(b, j)
  {
    if j > 0 {
      PowSum(b, k, j - 1);
      assert Pow(b, k) * Pow(b, j - 1) * b == Pow(b, k) * (Pow(b, j - 1) * b);
    }
  }

  lemma MulDistributes(x: int, y: int, a: int)
    ensures (x + y) * a == x * a + y * a
  {
  }

  lemma MulRegroups(q: int, b: int, a: int)
    ensures q * b * a == q * (a * b)
  {
  }

  lemma MulMonotone(x: int, y: int, a: nat)
    requires x <= y
    ensures x * a <= y * a
  {
  }

  lemma DivDiv(n: nat, a: nat, b: nat)
    requires a > 0 && b > 0
    ensures a * b > 0 && n / a / b == n / (a * b)
  {
    var q, r := n / a / b, (n / a) % b;
    assert n / a == q * b + r && n == n / a * a + n % a;
    MulDistributes(q * b, r, a);
    MulRegroups(q, b, a);
    MulDistributes(r, 1, a);
    MulMonotone(r + 1, b, a);
    MulMonotone(1, b, a);
    DivUnique(n, a * b, q, r * a + n % a);
  }

  /** A new byte lengthens the unread tail and leaves what was read alone. */
  lemma ByteIn(n: nat, b: Byte, bits: nat)
    ensures (n * 256 + b) / Pow(2, bits + 8) == n / Pow(2, bits)
  {
    Powers();
    assert Pow(2, 8) == 256;
    PowSum(2, 8, bits);
    DivDiv(n * 256 + b, 256, Pow(2, bits));
  }

  /** Reading five more bits appends the next base-32 digit. */
  lemma FiveOut(n: nat, bits: nat, len: nat)
    ensures Base32(n / Pow(2, bits + 5), len) + [Symbol(n / Pow(2, bits) % 32)] == Base32(n / Pow(2, bits), len + 1)
  {
    Powers();
    PowSum(2, bits, 5);
    DivDiv(n, Pow(2, bits), 32);
  }

  /** The output so far spells all but the low `bits` bits of n. */
  predicate Spells(out: string, n: nat, bits: nat) {
    out == Base32(n / Pow(2, bits), |out|)
  }

  lemma SpellsByte(out: string, n: nat, bits: nat, b: Byte)
    requires Spells(out, n, bits)
    ensures Spells(out, n * 256 + b, bits + 8)
  {
    ByteIn(n, b, bits);
  }

  lemma SpellsSymbol(out: string, n: nat, bits: nat, acc: int)
    requires Spells(out, n, bits + 5) && Congruent(acc, n) && bits <= 7
    ensures |CROCKFORD| == 32 && Spells(out + [CROCKFORD[FiveBits(acc, bits)]], n, bits)
  {
    FiveBitsExact(acc, n, bits);
    FiveOut(n, bits, |out|);
    SymbolIsCrockford(FiveBits(acc, bits));
  }

  lemma ValueOfNext(bytes: seq<Byte>, j: nat)
    requires j < |bytes|
    ensures BytesValue(bytes[..j + 1]) == BytesValue(bytes[..j]) * 256 + bytes[j]
  {
    assert Init(bytes[..j + 1]) == bytes[..j] && Last(bytes[..j + 1]) == bytes[j];
  }

  /** Once every byte is in, padding is all that is missing. */
  lemma PaddingFinishes(bytes: seq<Byte>, read: string, bits: nat)
    requires |read| <= 16 && bits + 5 * |read| == 8 * |bytes| && (|read| < 16 ==> bits < 5)
    requires Spells(read, BytesValue(bytes), bits)
    ensures read + Zeros(16 - |read|) == RandomSymbols(bytes)
  {
    CountIs(|bytes|, |read|, bits);
    SpellsPadded(read, BytesValue(bytes), bits);
  }

  lemma SpellsPadded(read: string, n: nat, bits: nat)
    requires |read| <= 16 && Spells(read, n, bits)
    ensures Padded(n, bits, |read|) == read + Zeros(16 - |read|)
  {
  }

  lemma CountIs(bytes: nat, read: nat, bits: nat)
    requires read <= 16 && bits + 5 * read == 8 * bytes && (read < 16 ==> bits < 5)
    ensures SymbolCount(bytes) == read && 8 * bytes - 5 * read == bits
  {
    if read < 16 {
      DivUnique(8 * bytes, 5, read, bits);
    }
  }

  /** The inner loop: symbols are read while five bits are there and sixteen symbols are not. */
  method ReadSymbols(acc: int, pending: nat, read: string, ghost n: nat) returns (bits: nat, out: string)
    requires |read| <= 16 && (|read| < 16 ==> pending < 13) && Congruent(acc, n) && Spells(read, n, pending)
    ensures |out| <= 16 && (|out| < 16 ==> bits < 5) && bits + 5 * |out| == pending + 5 * |read| && Spells(out, n, bits)
  {
    bits, out := pending, read;
    while bits >= 5 && |out| < 16
      invariant |out| <= 16 && bits + 5 * |out| == pending + 5 * |read| && (|out| < 16 ==> bits < 13)
      invariant Spells(out, n, bits)
      decreases bits
    {
      bits := bits - 5;
      SpellsSymbol(out, n, bits, acc);
      out := out + [CROCKFORD[FiveBits(acc, bits)]];
    }
  }

  /** `encodeRandom`, for any number of bytes. */
  method EncodeRandom(bytes: seq<Byte>) returns (out: string)
    ensures out == RandomSymbols(bytes)
  {
    var acc, bits: nat := 0, 0;
    out := "";
    for j := 0 to |bytes|
      invariant |out| <= 16 && bits + 5 * |out| == 8 * j && (|out| < 16 ==> bits < 5)
      invariant Congruent(acc, BytesValue(bytes[..j])) && Spells(out, BytesValue(bytes[..j]), bits)
    {
      ghost var before := BytesValue(bytes[..j]);
      ValueOfNext(bytes, j);
      ShiftInCongruent(acc, before, bytes[j]);
      SpellsByte(out, before, bits, bytes[j]);
      acc := ShiftIn(acc, bytes[j]);
      bits, out := ReadSymbols(acc, bits + 8, out, BytesValue(bytes[..j + 1]));
    }
    assert bytes[..|bytes|] == bytes;
    PaddingFinishes(bytes, out, bits);
    ghost var read := out;
    while |out| < 16
      invariant |read| <= |out| <= 16 && out == read + Zeros(|out| - |read|)
    {
      out := out + "0";
    }
    out := out[..16];
  }

  // ---- Round trip of the whole suffix ------------------------------------------------------------

  function BytesOf(n: nat, k: nat): seq<Byte> {
    if k == 0 then [] else BytesOf(n / 256, k - 1) + [n % 256]
  }

  lemma {:induction false} BytesRoundTrip(bytes: seq<Byte>)
    ensures BytesOf(BytesValue(bytes), |bytes|) == bytes && BytesValue(bytes) < Pow(256, |bytes|)
  {
    if bytes != [] {
      BytesRoundTrip(Init(bytes));
      assert bytes == Init(bytes) + [Last(bytes)];
    }
  }

  lemma {:induction false} PowOfPow(b: nat, e: nat, k: nat)
    ensures Pow(Pow(b, e), k) == Pow(b, e * k)
  {
    if k > 0 {
      PowOfPow(b, e, k - 1);
      PowSum(b, e * (k - 1), e);
      assert e * (k - 1) + e == e * k;
    }
  }

  /** When the bits divide evenly into symbols, nothing is lost and nothing is padded. */
  lemma WholeSymbols(bytes: seq<Byte>, m: nat)
    requires 8 * |bytes| == 5 * m && m == SymbolCount(|bytes|)
    ensures RandomSymbols(bytes) == Base32(BytesValue(bytes), m) + Zeros(16 - m)
    ensures BytesValue(bytes) < Pow(32, m)
  {
    BytesRoundTrip(bytes);
    Powers();
    assert Pow(2, 8) == 256;
    PowOfPow(2, 8, |bytes|);
    PowOfPow(2, 5, m);
    assert BytesValue(bytes) / 1 == BytesValue(bytes);
  }

  /** Ten random bytes are sixteen symbols exactly, and the decoder gives the bytes back. */
  lemma RandomRoundTrip(bytes: seq<Byte>)
    requires |bytes| == 10
    ensures |RandomSymbols(bytes)| == 16
    ensures Decode(RandomSymbols(bytes)) == BytesValue(bytes) && BytesOf(Decode(RandomSymbols(bytes)), |bytes|) == bytes
    ensures forall c <- RandomSymbols(bytes) :: Digit(c) || 'A' <= c <= 'Z'
  {
    var m := SymbolCount(|bytes|);
    WholeSymbols(bytes, m);
    FullWidth(BytesValue(bytes), m);
    assert Zeros(16 - m) == "";
    BytesRoundTrip(bytes);
  }

  /** A number that fits its width is spelt in full and decodes to itself. */
  lemma FullWidth(n: nat, k: nat)
    requires n < Pow(32, k)
    ensures |Base32(n, k)| == k && Base32(n, k) + "" == Base32(n, k) && Decode(Base32(n, k)) == n
    ensures forall c <- Base32(n, k) :: Digit(c) || 'A' <= c <= 'Z'
  {
    Base32Length(n, k);
    Base32Chars(n, k);
    DecodeBase32(n, k);
    SmallMod(n, Pow(32, k));
  }

  lemma SmallMod(n: nat, m: nat)
    requires n < m
    ensures n % m == n
  {
  }

  // ---- Public ids --------------------------------------------------------------------------------

  datatype PublicIdType =
    | Directive | DirectiveRevision | SourceObservation | CollectorRun | CollectorRunRevision
    | OperationalSnapshot | OperationalSnapshotRevision | AttentionItem | AgentSession | AgentActivity
    | AgentActivityRevision | AuditEvent | OperatorAction

  function TypeName(t: PublicIdType): string {
    match t
    case Directive => "directive"
    case DirectiveRevision => "directive-revision"
    case SourceObservation => "source-observation"
    case CollectorRun => "collector-run"
    case CollectorRunRevision => "collector-run-revision"
    case OperationalSnapshot => "operational-snapshot"
    case OperationalSnapshotRevision => "operational-snapshot-revision"
    case AttentionItem => "attention-item"
    case AgentSession => "agent-session"
    case AgentActivity => "agent-activity"
    case AgentActivityRevision => "agent-activity-revision"
    case AuditEvent => "audit-event"
    case OperatorAction => "operator-action"
  }

  predicate Lower(c: char) {
    'a' <= c <= 'z'
  }

  predicate Digit(c: char) {
    '0' <= c <= '9'
  }

  predicate TypeChar(c: char) {
    Lower(c) || Digit(c) || c == '-'
  }

  predicate IdChar(c: char) {
    Lower(c) || 'A' <= c <= 'Z' || Digit(c) || c in {'.', '_', '~', '-'}
  }

  /** `^cc:[a-z][a-z0-9-]*:[A-Za-z0-9._~-]+$`; neither part can hold a colon, so the second one is found by search. */
  predicate ResourceShape(s: string) {
    && |s| >= 3 && s[..3] == "cc:"
    && exists k ::
         && 3 < k < |s| - 1 && s[k] == ':' && Lower(s[3])
         && (forall c <- s[3..k] :: TypeChar(c)) && (forall c <- s[k + 1..] :: IdChar(c))
  }

  predicate Hex(c: char) {
    Digit(c) || 'a' <= c <= 'f' || 'A' <= c <= 'F'
  }

  /** The UUID pattern, case-insensitive. */
  predicate IsUuid(s: string) {
    && |s| == 36
    && (forall i :: 0 <= i < 36 ==> if i in {8, 13, 18, 23} then s[i] == '-' else Hex(s[i]))
    && '1' <= s[14] <= '8' && s[19] in {'8', '9', 'a', 'b', 'A', 'B'}
  }

  predicate IsResourceId(s: string) {
    6 <= |s| <= 128 && ResourceShape(s) && !IsUuid(s)
  }

  lemma {:induction false} Base32Chars(n: nat, k: nat)
    ensures forall c <- Base32(n, k) :: Digit(c) || 'A' <= c <= 'Z'
  {
    if k > 0 {
      Base32Chars(n / 32, k - 1);
      AlphabetSound(n % 32, 0);
    }
  }

  lemma TypeNameShape(t: PublicIdType)
    ensures 1 <= |TypeName(t)| <= 29 && Lower(TypeName(t)[0]) && forall c <- TypeName(t) :: TypeChar(c)
  {
  }

  datatype IdError = NotAPublicIdentity

  /** The suffix of an id: the low ten digits of the time, and the random symbols. */
  function Suffix(nowMs: nat, random: seq<Byte>): string {
    Base32(nowMs, 10) + RandomSymbols(random)
  }

  /** `generatePublicId`: the guard at its end never fires, and the suffix is the time and the random symbols. */
  method GeneratePublicId(t: PublicIdType, nowMs: nat, random: seq<Byte>) returns (r: Result<string, IdError>)
    requires |random| == 10
    ensures r == Ok(PublicId(t, nowMs, random)) && |Suffix(nowMs, random)| == 26
    ensures IsResourceId(r.value)
  {
    var time := EncodeTime(nowMs);
    var symbols := EncodeRandom(random);
    var suffix := time + symbols;
    var id := "cc:" + TypeName(t) + ":" + suffix;
    Base32Length(nowMs, 10);
    Base32Chars(nowMs, 10);
    RandomRoundTrip(random);
    TypeNameShape(t);
    IdIsResource(TypeName(t), suffix);
    if !IsResourceId(id) || IsUuid(id) {
      assert false;
      return Err(NotAPublicIdentity);
    }
    return Ok(id);
  }

  lemma IdIsResource(name: string, suffix: string)
    requires 1 <= |name| <= 29 && Lower(name[0]) && forall c <- name :: TypeChar(c)
    requires |suffix| == 26 && forall c <- suffix :: Digit(c) || 'A' <= c <= 'Z'
    ensures IsResourceId("cc:" + name + ":" + suffix)
  {
    var id := "cc:" + name + ":" + suffix;
    var k := 3 + |name|;
    assert id[..3] == "cc:" && id[3..k] == name && id[k] == ':' && id[k + 1..] == suffix && id[3] == name[0];
    assert forall c <- suffix :: IdChar(c);
    assert id[2] == ':';
  }

  lemma {:induction false} StringLessConcat(a: string, b: string, x: string, y: string)
    requires |a| == |b| && |x| == |y|
    ensures StringLess(a + x, b + y) <==> StringLess(a, b) || (a == b && StringLess(x, y))
  {
    if x == "" {
      assert a + x == a && b + y == b;
    } else {
      StringLessConcat(a, b, Init(x), Init(y));
      assert Init(a + x) == a + Init(x) && Init(b + y) == b + Init(y);
      assert a + Init(x) == b + Init(y) <==> a == b && Init(x) == Init(y) by {
        assert (a + Init(x))[..|a|] == a && (b + Init(y))[..|b|] == b;
        assert (a + Init(x))[|a|..] == Init(x) && (b + Init(y))[|b|..] == Init(y);
      }
    }
  }

  /** Suffixes sort by time first, and within a millisecond by the random number. */
  lemma SuffixOrder(a: nat, b: nat, timeWidth: nat, x: nat, y: nat, randomWidth: nat)
    requires a < Pow(32, timeWidth) && b < Pow(32, timeWidth) && x < Pow(32, randomWidth) && y < Pow(32, randomWidth)
    ensures var s, t := Base32(a, timeWidth) + Base32(x, randomWidth), Base32(b, timeWidth) + Base32(y, randomWidth);
            |s| == |t| && (StringLess(s, t) <==> a < b || (a == b && x < y))
  {
    Base32Order(a, b, timeWidth);
    Base32Order(x, y, randomWidth);
    StringLessConcat(Base32(a, timeWidth), Base32(b, timeWidth), Base32(x, randomWidth), Base32(y, randomWidth));
  }

  /** The suffixes of ids made of ten random bytes sort by time, and within a millisecond by the bytes; two are equal
      only when both time and bytes are. */
  lemma GeneratedOrder(a: nat, b: nat, x: seq<Byte>, y: seq<Byte>)
    requires a < Pow(32, 10) && b < Pow(32, 10) && |x| == |y| == 10
    ensures |Suffix(a, x)| == |Suffix(b, y)|
    ensures StringLess(Suffix(a, x), Suffix(b, y)) <==> a < b || (a == b && BytesValue(x) < BytesValue(y))
    ensures Suffix(a, x) == Suffix(b, y) <==> a == b && x == y
  {
    TenBytes(x);
    TenBytes(y);
    SuffixOrder(a, b, 10, BytesValue(x), BytesValue(y), 16);
    Base32Order(a, b, 10);
    Base32Order(BytesValue(x), BytesValue(y), 16);
    BytesRoundTrip(x);
    BytesRoundTrip(y);
    SuffixParts(Base32(a, 10), Base32(b, 10), RandomSymbols(x), RandomSymbols(y));
  }

  lemma TenBytes(bytes: seq<Byte>)
    requires |bytes| == 10
    ensures RandomSymbols(bytes) == Base32(BytesValue(bytes), 16) && BytesValue(bytes) < Pow(32, 16)
  {
    var m := SymbolCount(|bytes|);
    WholeSymbols(bytes, m);
    assert Zeros(16 - m) == "";
    FullWidth(BytesValue(bytes), m);
  }

  lemma SuffixParts(a: string, b: string, x: string, y: string)
    requires |a| == |b|
    ensures a + x == b + y <==> a == b && x == y
  {
    assert (a + x)[..|a|] == a && (b + y)[..|b|] == b;
    assert (a + x)[|a|..] == x && (b + y)[|b|..] == y;
  }

  function PublicId(t: PublicIdType, nowMs: nat, random: seq<Byte>): string {
    "cc:" + TypeName(t) + ":" + Suffix(nowMs, random)
  }

  /** The type that a name belongs to. */
  function TypeNamed(name: string): Option<PublicIdType> {
    match name
    case "directive" => Some(Directive)
    case "directive-revision" => Some(DirectiveRevision)
    case "source-observation" => Some(SourceObservation)
    case "collector-run" => Some(CollectorRun)
    case "collector-run-revision" => Some(CollectorRunRevision)
    case "operational-snapshot" => Some(OperationalSnapshot)
    case "operational-snapshot-revision" => Some(OperationalSnapshotRevision)
    case "attention-item" => Some(AttentionItem)
    case "agent-session" => Some(AgentSession)
    case "agent-activity" => Some(AgentActivity)
    case "agent-activity-revision" => Some(AgentActivityRevision)
    case "audit-event" => Some(AuditEvent)
    case "operator-action" => Some(OperatorAction)
    case _ => None
  }

  lemma TypeNamesDiffer(t: PublicIdType)
    ensures TypeNamed(TypeName(t)) == Some(t)
  {
  }

  lemma MiddleIs(a: string, b: string, s: string, t: string)
    requires |s| == |t| && "cc:" + a + ":" + s == "cc:" + b + ":" + t
    ensures a == b && s == t
  {
    var whole := "cc:" + a + ":" + s;
    assert |whole| == 4 + |a| + |s| == 4 + |b| + |t|;
    assert a == whole[3..3 + |a|] && b == whole[3..3 + |b|];
    assert s == whole[4 + |a|..] && t == whole[4 + |b|..];
  }

  /** Two generated ids are equal only when type, time and random bytes all are. */
  lemma GeneratedIdsDiffer(t: PublicIdType, a: nat, x: seq<Byte>, u: PublicIdType, b: nat, y: seq<Byte>)
    requires a < Pow(32, 10) && b < Pow(32, 10) && |x| == |y| == 10
    ensures PublicId(t, a, x) == PublicId(u, b, y) <==> t == u && a == b && x == y
  {
    GeneratedOrder(a, b, x, y);
    TypeNamesDiffer(t);
    TypeNamesDiffer(u);
    if PublicId(t, a, x) == PublicId(u, b, y) {
      MiddleIs(TypeName(t), TypeName(u), Suffix(a, x), Suffix(b, y));
    }
  }

  /** What is no symbol of the bytes is a zero. */
  lemma PaddingIs(bytes: seq<Byte>, j: nat)
    requires SymbolCount(|bytes|) <= j < 16
    ensures |RandomSymbols(bytes)| == 16 && RandomSymbols(bytes)[j] == '0'
  {
    var m := SymbolCount(|bytes|);
    Base32Length(BytesValue(bytes) / Pow(2, 8 * |bytes| - 5 * m), m);
  }

  /** The resource grammar in terms of its parts: a type that starts with a small letter and goes on with small letters,
      digits and dashes, and a suffix of letters, digits and four marks, neither of them empty. */
  ghost predicate IsParts(s: string, name: string, suffix: string) {
    && s == "cc:" + name + ":" + suffix && name != "" && suffix != ""
    && 'a' <= name[0] <= 'z' && (forall c <- name :: 'a' <= c <= 'z' || '0' <= c <= '9' || c == '-')
    && forall c <- suffix :: 'a' <= c <= 'z' || 'A' <= c <= 'Z' || '0' <= c <= '9' || c in {'.', '_', '~', '-'}
  }

  ghost predicate ColonAt(s: string, k: int) {
    && |s| >= 3 && s[..3] == "cc:" && 3 < k < |s| - 1 && s[k] == ':' && Lower(s[3])
    && (forall c <- s[3..k] :: TypeChar(c)) && (forall c <- s[k + 1..] :: IdChar(c))
  }

  lemma PartsAreShape(s: string, name: string, suffix: string)
    requires IsParts(s, name, suffix)
    ensures ColonAt(s, 3 + |name|)
  {
    var k := 3 + |name|;
    assert s[..3] == "cc:" && s[k] == ':' && s[3] == name[0];
    assert s[3..k] == name;
    assert s[k + 1..] == suffix;
  }

  lemma ShapeHasParts(s: string, k: int)
    requires ColonAt(s, k)
    ensures IsParts(s, s[3..k], s[k + 1..])
  {
    var name, suffix := s[3..k], s[k + 1..];
    assert [s[k]] == ":" && s[..3] == "cc:";
    assert s == s[..3] + name + [s[k]] + suffix;
    assert s == "cc:" + name + ":" + suffix;
    assert name[0] == s[3];
    assert forall c <- name :: TypeChar(c);
    assert forall c <- suffix :: IdChar(c);
    assert name != "" && suffix != "";
  }

  lemma ResourceShapeIff(s: string)
    ensures ResourceShape(s) <==> exists name, suffix :: IsParts(s, name, suffix)
  {
    if ResourceShape(s) {
      var k :| 3 < k < |s| - 1 && s[k] == ':' && Lower(s[3])
               && (forall c <- s[3..k] :: TypeChar(c)) && (forall c <- s[k + 1..] :: IdChar(c));
      ShapeHasParts(s, k);
    }
    if name, suffix :| IsParts(s, name, suffix) {
      PartsAreShape(s, name, suffix);
    }
  }
}
