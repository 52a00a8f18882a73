/** Time-based one-time passwords. HMAC-SHA1 and base32 decoding are parameters. */
module Totp {
  import opened Prelude
  import opened Text
  import opened Decimal

  const TOTP_STEP: int := 30
  const TOTP_DIGITS: nat := 6
  const TOTP_SKEW: int := 2
  const MILLION: int := 1_000_000

  type Byte = x: int | 0 <= x < 256
  type Uint64 = x: int | 0 <= x < TWO_64
  type Digest = s: seq<Byte> | |s| == 20 witness seq(20, _ => 0)
  type Mac = (seq<Byte>, seq<Byte>) -> Digest
  type Base32 = string -> Option<seq<Byte>>

  // ----- the code for one counter (section 5.3 of RFC 4226)

  function BigEndian(x: nat, width: nat): seq<Byte> {
    if width == 0 then [] else BigEndian(x / 256, width - 1) + [x % 256]
  }

  function Number(bytes: seq<Byte>): nat {
    if bytes == [] then 0 else Number(bytes[..|bytes| - 1]) * 256 + bytes[|bytes| - 1]
  }

  function Pow256(n: nat): nat { if n == 0 then 1 else 256 * Pow256(n - 1) }

  /** Different counters are authenticated as different messages. */
  lemma {:induction false} BigEndianExact(x: nat, width: nat)
    requires x < Pow256(width)
    ensures Number(BigEndian(x, width)) == x && |BigEndian(x, width)| == width
    decreases width
  {
    if width > 0 {
      BigEndianExact(x / 256, width - 1);
      var bytes := BigEndian(x, width);
      assert bytes[..|bytes| - 1] == BigEndian(x / 256, width - 1);
    }
  }

  /** Dynamic truncation: 31 bits from a place that the digest's last byte names. */
  function Truncated(d: Digest): (code: nat)
    ensures code < 0x8000_0000
  {
    var offset := d[19] % 16;
    Bits31(d[offset], d[offset + 1], d[offset + 2], d[offset + 3])
  }

  function Bits31(b0: int, b1: int, b2: int, b3: int): int {
    (b0 % 128) * 0x100_0000 + b1 * 0x1_0000 + b2 * 0x100 + b3
  }

  /** Read as a number, the digest ends in the four bits that name the place, and the code is what stands
      there in four bytes, without the top bit (section 5.3 of RFC 4226). */
  lemma TruncatedExact(d: Digest)
    ensures Number(d) % 16 == d[19] % 16
    ensures var offset := Number(d) % 16;
            Truncated(d) == Number(d[offset..offset + 4]) % 0x8000_0000
  {
    assert Number(d) == Number(d[..19]) * 256 + d[19];
    var offset := d[19] % 16;
    var four := d[offset..offset + 4];
    FourBytes(four);
    assert Number(four) == (four[0] / 128) as int * 0x8000_0000 + Truncated(d);
  }

  lemma FourBytes(b: seq<Byte>)
    requires |b| == 4
    ensures var b0: int, b1: int, b2: int, b3: int := b[0], b[1], b[2], b[3];
            Number(b) == b0 * 0x100_0000 + b1 * 0x1_0000 + b2 * 0x100 + b3
  {
    var one, two, three := b[..1], b[..2], b[..3];
    assert three[..2] == two && two[..1] == one && one[..0] == [];
    assert Number(one) == b[0];
    assert Number(two) == Number(one) * 0x100 + b[1];
    assert Number(three) == Number(two) * 0x100 + b[2];
  }

  /** The worked example of section 5.4 of RFC 4226. */
  lemma WorkedExample()
    ensures var d: Digest := [0x1f, 0x86, 0x98, 0x69, 0x0e, 0x02, 0xca, 0x16, 0x61, 0x85,
                              0x50, 0xef, 0x7f, 0x19, 0xda, 0x8e, 0x94, 0x5b, 0x55, 0x5a];
            Truncated(d) == 0x50ef7f19 && Truncated(d) % MILLION == 872921
  {
  }

  function Padded(n: nat, width: nat): string {
    if width == 0 then "" else Padded(n / 10, width - 1) + [Digit(n)]
  }

  function Code(mac: Mac, key: seq<Byte>, counter: Uint64): string {
    Padded(Truncated(mac(key, BigEndian(counter, 8))) % MILLION, TOTP_DIGITS)
  }

  lemma {:induction false} PaddedExact(n: nat, width: nat)
    requires n < Pow10(width)
    ensures |Padded(n, width)| == width && Digits(Padded(n, width)) && Value(Padded(n, width)) == n
    decreases width
  {
    if width > 0 {
      PaddedExact(n / 10, width - 1);
      var s := Padded(n, width);
      assert s[..|s| - 1] == Padded(n / 10, width - 1) && s[|s| - 1] == Digit(n);
    }
  }

  /** A code has six digits and stands for the truncated digest modulo a million. */
  lemma CodeShape(mac: Mac, key: seq<Byte>, counter: Uint64)
    ensures var c := Code(mac, key, counter);
            |c| == 6 && Digits(c) && Value(c) == Truncated(mac(key, BigEndian(counter, 8))) % MILLION && Trim(c) == c
  {
    var n := Truncated(mac(key, BigEndian(counter, 8))) % MILLION;
    assert Pow10(6) == MILLION;
    PaddedExact(n, 6);
    TrimTrims(Padded(n, 6));
  }

  method Modulus() returns (mod: int)
    ensures mod == MILLION
  {
    mod := 1;
    for i := 0 to TOTP_DIGITS
      invariant mod == Pow10(i)
    {
      mod := mod * 10;
    }
    assert Pow10(6) == MILLION;
  }

  method Hotp(mac: Mac, key: seq<Byte>, counter: Uint64) returns (s: string)
    ensures s == Code(mac, key, counter)
    ensures var d := mac(key, BigEndian(counter, 8));
            var offset := Number(d) % 16;
            |s| == 6 && Digits(s) && Value(s) == Number(d[offset..offset + 4]) % 0x8000_0000 % 1_000_000
  {
    TruncatedExact(mac(key, BigEndian(counter, 8)));
    CodeShape(mac, key, counter);
    var sum := mac(key, BigEndian(counter, 8));
    var offset := sum[19] % 16;
    var code := Bits31(sum[offset], sum[offset + 1], sum[offset + 2], sum[offset + 3]);
    assert code == Truncated(sum);
    var mod := Modulus();
    s := Padded(code % mod, TOTP_DIGITS);
  }

  // ----- secrets

  function Without(s: string, c: char): string {
    if s == "" then "" else (if s[0] == c then "" else [s[0]]) + Without(s[1..], c)
  }

  function UpperChar(c: char): char { if 'a' <= c <= 'z' then c - 'a' + 'A' else c }

  function Upper(s: string): string { seq(|s|, i requires 0 <= i < |s| => UpperChar(s[i])) }

  function Cleaned(s: string): string { Upper(Without(Without(s, ' '), '-')) }

  function SecretKey(decode: Base32, secret: string): Option<seq<Byte>> {
    if |Cleaned(secret)| < 16 then None else decode(Cleaned(secret))
  }

  lemma {:induction false} WithoutConcat(a: string, b: string, c: char)
    ensures Without(a + b, c) == Without(a, c) + Without(b, c)
    decreases |a|
  {
    if a == "" {
      assert a + b == b;
    } else {
      assert (a + b)[1..] == a[1..] + b;
      WithoutConcat(a[1..], b, c);
    }
  }

  /** A secret may be typed with spaces and dashes anywhere. */
  lemma SeparatorsIrrelevant(decode: Base32, a: string, b: string, sep: char)
    requires sep == ' ' || sep == '-'
    ensures SecretKey(decode, a + [sep] + b) == SecretKey(decode, a + b)
  {
    assert [sep][1..] == "";
    WithoutConcat(a + [sep], b, ' ');
    WithoutConcat(a, [sep], ' ');
    WithoutConcat(a, b, ' ');
    var a', b', s' := Without(a, ' '), Without(b, ' '), Without([sep], ' ');
    if sep == ' ' {
      assert s' == "" && a' + s' == a';
    } else {
      assert s' == "-";
      WithoutConcat(a' + s', b', '-');
      WithoutConcat(a', s', '-');
      WithoutConcat(a', b', '-');
      assert Without(s', '-') == "" && Without(a', '-') + "" == Without(a', '-');
    }
  }

  /** Small letters stand for capitals. */
  lemma CaseIrrelevant(decode: Base32, a: string, b: string, c: char)
    requires 'a' <= c <= 'z'
    ensures SecretKey(decode, a + [c] + b) == SecretKey(decode, a + [(c as int - 32) as char] + b)
  {
    var big := (c as int - 32) as char;
    CleanedParts(a, c, b);
    CleanedParts(a, big, b);
    assert big as int == c as int - 32 && 'A' <= big <= 'Z';
    assert UpperChar(c) == UpperChar(big);
  }

  lemma CleanedParts(a: string, c: char, b: string)
    requires c != ' ' && c != '-'
    ensures Cleaned(a + [c] + b) == Cleaned(a) + [UpperChar(c)] + Cleaned(b)
  {
    WithoutNone([c], ' ');
    WithoutNone([c], '-');
    var a', b' := Without(a, ' '), Without(b, ' ');
    WithoutConcat(a + [c], b, ' ');
    WithoutConcat(a, [c], ' ');
    WithoutConcat(a' + [c], b', '-');
    WithoutConcat(a', [c], '-');
  }

  /** A secret in capitals and digits is decoded as it is, unless it is shorter than 16 characters. */
  lemma PlainSecret(decode: Base32, secret: string)
    requires forall i :: 0 <= i < |secret| ==> 'A' <= secret[i] <= 'Z' || '0' <= secret[i] <= '9'
    ensures SecretKey(decode, secret) == if |secret| < 16 then None else decode(secret)
  {
    WithoutNone(secret, ' ');
    WithoutNone(secret, '-');
    assert Cleaned(secret) == secret;
  }

  lemma {:induction false} WithoutNone(s: string, c: char)
    requires c !in s
    ensures Without(s, c) == s
    decreases |s|
  {
    if s != "" {
      WithoutNone(s[1..], c);
      assert s == [s[0]] + s[1..];
    }
  }

  // ----- time steps (section 5.2 of RFC 6238)

  /** Go's integer division, which drops the fraction. */
  function TruncDiv(a: int, b: int): int
    requires b > 0
  {
    if a >= 0 then a / b else -((-a) / b)
  }

  /** The time step of a Unix time, as the uint64 it is converted to. */
  function StepOf(unix: int): Uint64 { TruncDiv(unix, TOTP_STEP) % TWO_64 }

  function TOTPCode(mac: Mac, decode: Base32, secret: string, unix: int): Option<string> {
    var key := SecretKey(decode, secret);
    if key.None? then None else Some(Code(mac, key.value, StepOf(unix)))
  }

  /** uint64 addition and subtraction of a small step. */
  function Shifted(now: Uint64, d: int): Uint64 {
    if 0 <= now + d < TWO_64 then now + d else (now + d) % TWO_64
  }

  /** The codes of one key, by counter. */
  type Codes = Uint64 -> string

  function CodesOf(mac: Mac, key: seq<Byte>): Codes { (c: Uint64) => Code(mac, key, c) }

  /** `code` is the code of a step at most `skew` away, counting modulo 2^64. */
  ghost predicate Near(codes: Codes, code: string, now: Uint64, skew: int) {
    exists d: int :: -skew <= d <= skew && codes(Shifted(now, d)) == code
  }

  lemma NearGrows(codes: Codes, code: string, now: Uint64, d: int)
    requires d >= 0
    ensures Near(codes, code, now, d) <==>
            Near(codes, code, now, d - 1) || codes(Shifted(now, d)) == code || codes(Shifted(now, -d)) == code
  {
    if Near(codes, code, now, d) {
      var e: int :| -d <= e <= d && codes(Shifted(now, e)) == code;
      if -d < e < d {
        assert -(d - 1) <= e <= d - 1 && codes(Shifted(now, e)) == code;
      }
    }
  }

  lemma NearHasSixDigits(mac: Mac, key: seq<Byte>, code: string, now: Uint64, skew: int)
    requires Near(CodesOf(mac, key), code, now, skew)
    ensures |code| == TOTP_DIGITS
  {
    var d: int :| -skew <= d <= skew && CodesOf(mac, key)(Shifted(now, d)) == code;
    CodeShape(mac, key, Shifted(now, d));
  }

  method VerifyTOTPCodeAt(mac: Mac, decode: Base32, secret: string, code: string, unix: int) returns (valid: bool)
    ensures valid <==> Accepted(mac, decode, secret, code, unix)
  {
    var secretKey := SecretKey(decode, secret);
    if secretKey.None? {
      return false;
    }
    var key, trimmed, now := secretKey.value, Trim(code), StepOf(unix);
    ghost var codes := CodesOf(mac, key);
    if |trimmed| != TOTP_DIGITS {
      if Near(codes, trimmed, now, TOTP_SKEW) { NearHasSixDigits(mac, key, trimmed, now, TOTP_SKEW); }
      return false;
    }
    valid := false;
    for d: int := 0 to TOTP_SKEW + 1
      invariant valid <==> Near(codes, trimmed, now, d - 1)
    {
      NearGrows(codes, trimmed, now, d);
      var up := Hotp(mac, key, Shifted(now, d));
      var down := Hotp(mac, key, Shifted(now, -d));
      if up == trimmed {
        valid := true;
      }
      if down == trimmed {
        valid := true;
      }
    }
  }

  /** What VerifyTOTPCodeAt answers. */
  ghost predicate Accepted(mac: Mac, decode: Base32, secret: string, code: string, unix: int) {
    SecretKey(decode, secret).Some?
    && Near(CodesOf(mac, SecretKey(decode, secret).value), Trim(code), StepOf(unix), TOTP_SKEW)
  }

  /** `code` is the code of a counter in the window around `now`, with no wrap-around. */
  ghost predicate InWindow(codes: Codes, code: string, now: int) {
    exists c: Uint64 :: now - 2 <= c <= now + 2 && codes(c) == code
  }

  lemma NearUnwrapped(codes: Codes, code: string, now: Uint64)
    requires 2 <= now < TWO_64 - 2
    ensures Near(codes, code, now, 2) <==> InWindow(codes, code, now)
  {
    if Near(codes, code, now, 2) {
      var d: int :| -2 <= d <= 2 && codes(Shifted(now, d)) == code;
      assert codes(now + d) == code;
    }
    if InWindow(codes, code, now) {
      var c: Uint64 :| now - 2 <= c <= now + 2 && codes(c) == code;
      assert codes(Shifted(now, c - now)) == code;
    }
  }

  /** From one minute after the epoch on, no counter wraps: the window is two steps to each side. */
  lemma AcceptanceWindow(mac: Mac, decode: Base32, secret: string, code: string, unix: int)
    requires 60 <= unix < TWO_64 && SecretKey(decode, secret).Some?
    ensures Accepted(mac, decode, secret, code, unix) <==>
            InWindow(CodesOf(mac, SecretKey(decode, secret).value), Trim(code), unix / 30)
  {
    PlainStep(unix);
    NearUnwrapped(CodesOf(mac, SecretKey(decode, secret).value), Trim(code), unix / 30);
  }

  lemma StepsApart(made: int, unix: int)
    requires 0 <= made && 0 <= unix
    ensures -60 <= unix - made <= 60 ==> unix / 30 - 2 <= made / 30 <= unix / 30 + 2
    ensures unix - made >= 90 || made - unix >= 90 ==> made / 30 < unix / 30 - 2 || made / 30 > unix / 30 + 2
  {
  }

  lemma MadeCode(mac: Mac, decode: Base32, secret: string, made: int)
    requires 0 <= made < TWO_64 && SecretKey(decode, secret).Some?
    ensures var code := TOTPCode(mac, decode, secret, made);
            code == Some(CodesOf(mac, SecretKey(decode, secret).value)(made / 30)) && Trim(code.value) == code.value
  {
    var key := SecretKey(decode, secret).value;
    PlainStep(made);
    CodeShape(mac, key, made / 30);
    assert CodesOf(mac, key)(made / 30) == Code(mac, key, made / 30);
  }

  lemma PlainStep(unix: int)
    requires 0 <= unix < TWO_64
    ensures StepOf(unix) == unix / 30
  {
  }

  /** A code is good for a minute before and after the moment it was made for. From 90 seconds away on
      its own step is out of the window, and only another step with the same code can let it in. */
  lemma CodeLifetime(mac: Mac, decode: Base32, secret: string, made: int, unix: int)
    requires 0 <= made < TWO_64 && 60 <= unix < TWO_64 && SecretKey(decode, secret).Some?
    ensures var code := TOTPCode(mac, decode, secret, made).value;
            && (-60 <= unix - made <= 60 ==> Accepted(mac, decode, secret, code, unix))
            && ((unix - made >= 90 || made - unix >= 90) && Accepted(mac, decode, secret, code, unix) ==>
                  OtherStep(CodesOf(mac, SecretKey(decode, secret).value), made / 30, unix / 30))
  {
    var codes := CodesOf(mac, SecretKey(decode, secret).value);
    MadeCode(mac, decode, secret, made);
    StepsApart(made, unix);
    AcceptanceWindow(mac, decode, secret, TOTPCode(mac, decode, secret, made).value, unix);
    WindowOf(codes, made / 30, unix / 30);
  }

  /** Another counter in the window around `now` has the code of counter `own`. */
  ghost predicate OtherStep(codes: Codes, own: Uint64, now: int) {
    exists c: Uint64 :: now - 2 <= c <= now + 2 && c != own && codes(c) == codes(own)
  }

  lemma WindowOf(codes: Codes, own: Uint64, now: int)
    ensures now - 2 <= own <= now + 2 ==> InWindow(codes, codes(own), now)
    ensures own < now - 2 || own > now + 2 ==> (InWindow(codes, codes(own), now) <==> OtherStep(codes, own, now))
  {
  }
}
