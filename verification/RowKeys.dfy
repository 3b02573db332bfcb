/** Names of the shared rows: the wall window they belong to, and why two
    different (tier, client, window) triples never share one name. */
module RowKeys {

  type Byte = b: int | 0 <= b < 256

  /** The eight digest bytes a row name carries. */
  type Digest = d: seq<Byte> | |d| == 8 witness [0, 0, 0, 0, 0, 0, 0, 0]

  // ------------------------------------------------------------------
  // Wall windows
  // ------------------------------------------------------------------

  /** `clock.div_euclid(ms) * ms`, with a window below one millisecond read as
      one. Dafny's division is the Euclidean one. */
  function CurrentEpoch(clock: int, windowMs: int): int {
    var ms := if windowMs < 1 then 1 else windowMs;
    clock / ms * ms
  }

  /** An epoch is the one multiple of the window within a window below the
      clock, whatever the sign of the clock. */
  lemma EpochIsTheWindowStart(clock: int, windowMs: int, epoch: int)
    requires windowMs >= 1
    ensures epoch == CurrentEpoch(clock, windowMs)
       <==> epoch % windowMs == 0 && epoch <= clock < epoch + windowMs
  {
    Division(clock, windowMs);
    if epoch % windowMs == 0 && epoch <= clock < epoch + windowMs {
      Division(epoch, windowMs);
      UniqueQuotient(clock, windowMs, clock / windowMs, epoch / windowMs);
    } else if epoch == CurrentEpoch(clock, windowMs) {
      MultipleOf(clock / windowMs, windowMs);
    }
  }

  /** A window below one millisecond is read as one: every reading is its own
      epoch. */
  lemma TinyWindow(clock: int, windowMs: int)
    requires windowMs <= 1
    ensures CurrentEpoch(clock, windowMs) == clock
  {
  }

  lemma Division(a: int, b: int)
    requires b >= 1
    ensures a == a / b * b + a % b && 0 <= a % b < b
  {
  }

  lemma MultipleOf(q: int, b: int)
    requires b >= 1
    ensures q * b % b == 0
  {
    Division(q * b, b);
    UniqueQuotient(q * b, b, q, q * b / b);
  }

  lemma UniqueQuotient(a: int, b: int, p: int, q: int)
    requires b >= 1 && p * b <= a < p * b + b && q * b <= a < q * b + b
    ensures p == q
  {
    if p < q {
      ScaleMonotone(p + 1, q, b);
    } else if q < p {
      ScaleMonotone(q + 1, p, b);
    }
  }

  lemma ScaleMonotone(p: int, q: int, b: int)
    requires p <= q && 0 <= b
    ensures p * b <= q * b
  {
  }

  lemma EpochMonotone(earlier: int, later: int, windowMs: int)
    requires earlier <= later && windowMs >= 1
    ensures CurrentEpoch(earlier, windowMs) <= CurrentEpoch(later, windowMs)
  {
    var p, q := earlier / windowMs, later / windowMs;
    Division(earlier, windowMs);
    Division(later, windowMs);
    if q < p {
      ScaleMonotone(q + 1, p, windowMs);
    } else {
      ScaleMonotone(p, q, windowMs);
    }
  }

  // ------------------------------------------------------------------
  // Printing
  // ------------------------------------------------------------------

  function Digit(n: int): (c: char)
    requires 0 <= n < 16
    ensures c != '_' && c != '-'
  {
    (if n < 10 then '0' as int + n else 'a' as int + n - 10) as char
  }

  function HexByte(b: Byte): (s: string)
    ensures |s| == 2
  {
    [Digit(b / 16), Digit(b % 16)]
  }

  /** Lowercase hex, two characters a byte. */
  function Hex(bytes: seq<Byte>): (s: string)
    ensures |s| == 2 * |bytes|
  {
    if bytes == [] then "" else HexByte(bytes[0]) + Hex(bytes[1..])
  }

  function Digits(n: nat): (s: string)
    ensures s != [] && forall i :: 0 <= i < |s| ==> s[i] != '_' && s[i] != '-'
  {
    if n < 10 then [Digit(n)] else Digits(n / 10) + [Digit(n % 10)]
  }

  function Decimal(n: int): (s: string)
    ensures forall i :: 0 <= i < |s| ==> s[i] != '_'
  {
    if n < 0 then "-" + Digits(-n) else Digits(n)
  }

  /** `{tier}_{digest in hex}_{epoch}` */
  function RowKey(tier: string, digest: Digest, epoch: int): string {
    tier + "_" + Hex(digest) + "_" + Decimal(epoch)
  }

  // ------------------------------------------------------------------
  // Unique decoding
  // ------------------------------------------------------------------

  lemma {:induction false} HexInjective(a: seq<Byte>, b: seq<Byte>)
    requires Hex(a) == Hex(b)
    ensures a == b
  {
    if a != [] {
      assert Hex(a)[..2] == HexByte(a[0]) && Hex(b)[..2] == HexByte(b[0]);
      assert Hex(a)[2..] == Hex(a[1..]) && Hex(b)[2..] == Hex(b[1..]);
      HexInjective(a[1..], b[1..]);
      assert HexByte(a[0])[0] == HexByte(b[0])[0] && HexByte(a[0])[1] == HexByte(b[0])[1];
      assert a == [a[0]] + a[1..] && b == [b[0]] + b[1..];
    }
  }

  lemma {:induction false} DigitsInjective(a: nat, b: nat)
    requires Digits(a) == Digits(b)
    ensures a == b
  {
    var da, db := Digits(a), Digits(b);
    if a >= 10 && b >= 10 {
      assert da[..|da|-1] == Digits(a / 10) && db[..|db|-1] == Digits(b / 10);
      DigitsInjective(a / 10, b / 10);
      assert da[|da|-1] == Digit(a % 10) && db[|db|-1] == Digit(b % 10);
    } else {
      assert |da| == 1 <==> a < 10;
      assert |db| == 1 <==> b < 10;
    }
  }

  lemma DecimalInjective(a: int, b: int)
    requires Decimal(a) == Decimal(b)
    ensures a == b
  {
    var da, db := Decimal(a), Decimal(b);
    assert da != [] && (da[0] == '-' <==> a < 0);
    assert db != [] && (db[0] == '-' <==> b < 0);
    if a < 0 && b < 0 {
      assert da[1..] == Digits(-a) && db[1..] == Digits(-b);
      DigitsInjective(-a, -b);
    } else if a >= 0 && b >= 0 {
      DigitsInjective(a, b);
    }
  }

  /** Splitting at the last underscore is unambiguous when the tail has none. */
  lemma LastUnderscore(x: string, d: string, y: string, e: string)
    requires x + "_" + d == y + "_" + e
    requires forall i :: 0 <= i < |d| ==> d[i] != '_'
    requires forall i :: 0 <= i < |e| ==> e[i] != '_'
    ensures x == y && d == e
  {
    var s, t := x + "_" + d, y + "_" + e;
    assert s[|x|] == '_' && forall i :: |x| < i < |s| ==> s[i] == d[i - |x| - 1];
    assert t[|y|] == '_' && forall i :: |y| < i < |t| ==> t[i] == e[i - |y| - 1];
    assert |x| == |y|;
    assert s[..|x|] == x && t[..|y|] == y;
    assert s[|x|+1..] == d && t[|y|+1..] == e;
  }

  /** Equal row names are names of the same tier, digest and window, for every
      tier name (underscores included), every digest and every epoch. */
  lemma RowKeyInjective(tier: string, digest: Digest, epoch: int,
                        tier': string, digest': Digest, epoch': int)
    requires RowKey(tier, digest, epoch) == RowKey(tier', digest', epoch')
    ensures tier == tier' && digest == digest' && epoch == epoch'
  {
    var x, y := tier + "_" + Hex(digest), tier' + "_" + Hex(digest');
    LastUnderscore(x, Decimal(epoch), y, Decimal(epoch'));
    DecimalInjective(epoch, epoch');
    assert x[..|x|-17] == tier && y[..|y|-17] == tier';
    assert x[|x|-16..] == Hex(digest) && y[|y|-16..] == Hex(digest');
    HexInjective(digest, digest');
  }

  // ------------------------------------------------------------------
  // What the printed names say
  // ------------------------------------------------------------------

  function DigitValue(c: char): int {
    if c <= '9' then c as int - '0' as int else c as int - 'a' as int + 10
  }

  /** The number a string of digits stands for. */
  function Value(s: string, base: int): int {
    if s == "" then 0 else base * Value(s[..|s|-1], base) + DigitValue(s[|s|-1])
  }

  lemma DigitReadsBack(n: int)
    requires 0 <= n < 16
    ensures DigitValue(Digit(n)) == n && (Digit(n) == '0' <==> n == 0)
  {
  }

  /** Each byte of a digest is its two hex digits, the high one first. */
  lemma {:induction false} HexReadsBack(bytes: seq<Byte>, i: nat)
    requires i < |bytes|
    ensures Value(Hex(bytes)[2 * i..2 * i + 2], 16) == bytes[i]
  {
    if i == 0 {
      var s := Hex(bytes)[0..2];
      assert s == HexByte(bytes[0]);
      DigitReadsBack(bytes[0] / 16);
      DigitReadsBack(bytes[0] % 16);
      assert Value(s[..1], 16) == 16 * Value(s[..1][..0], 16) + DigitValue(s[0]);
    } else {
      HexReadsBack(bytes[1..], i - 1);
      assert Hex(bytes)[2..] == Hex(bytes[1..]);
      assert Hex(bytes)[2 * i..2 * i + 2] == Hex(bytes[1..])[2 * (i - 1)..2 * (i - 1) + 2];
    }
  }

  lemma {:induction false} DigitsReadBack(n: nat)
    ensures Value(Digits(n), 10) == n && (Digits(n)[0] == '0' <==> n == 0)
  {
    var s := Digits(n);
    DigitReadsBack(n % 10);
    if n < 10 {
      assert s[..0] == "";
    } else {
      DigitsReadBack(n / 10);
      assert s[..|s| - 1] == Digits(n / 10);
      assert s[0] == Digits(n / 10)[0];
    }
  }

  /** An epoch is printed in decimal, with a minus sign if it is negative, and
      without leading zeros. */
  lemma DecimalReadsBack(n: int)
    ensures n < 0 ==> Decimal(n)[..1] == "-" && Value(Decimal(n)[1..], 10) == -n && Decimal(n)[1..2] != "0"
    ensures n >= 0 ==> Value(Decimal(n), 10) == n && (Decimal(n)[..1] == "0" <==> n == 0)
  {
    DigitsReadBack(if n < 0 then -n else n);
    if n < 0 {
      assert Decimal(n)[1..] == Digits(-n);
    }
  }

  /** A row name is the tier, an underscore, sixteen hex digits, an underscore
      and the epoch, each part at its place. */
  lemma RowKeyParts(tier: string, digest: Digest, epoch: int)
    ensures var name := RowKey(tier, digest, epoch);
            && |name| > |tier| + 18 && name[..|tier|] == tier && name[|tier|] == '_' && name[|tier| + 17] == '_'
            && name[|tier| + 1..|tier| + 17] == Hex(digest) && name[|tier| + 18..] == Decimal(epoch)
  {
    assert Decimal(epoch) != "";
  }
}
