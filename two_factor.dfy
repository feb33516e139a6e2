/**
 * The backup-code vault and the TOTP acceptance window of backend/utils/twoFactor.js.
 *
 * The one-time code of a shared secret at a time step (HOTP truncation of section 5.3
 * of RFC 4226, computed by the speakeasy library) is not modelled: every operation that
 * needs it receives it as a function `totp(secret, step)`. Random bytes are passed in.
 */
module TwoFactor {

  newtype byte = x: int | 0 <= x < 256

  /** What one `crypto.randomBytes(4)` call yields. */
  type Draw = d: seq<byte> | |d| == 4 witness [0, 0, 0, 0]

  /** Number of backup codes issued when 2FA is enabled. */
  const BackupCodeCount: nat := 8

  /** TOTP time step of section 4 of RFC 6238 (30 s), in milliseconds. */
  const StepMillis: nat := 30000

  /** `window: 2`: time steps accepted on either side of the current one. */
  const Window: nat := 2

  // ---------------------------------------------------------------------------
  // Text helpers: JavaScript's toUpperCase (ASCII part) and the `\s` class
  // ---------------------------------------------------------------------------

  function UpperChar(c: char): char
  {
    if 'a' <= c <= 'z' then (c as int - 32) as char else c
  }

  /** `String.prototype.toUpperCase`, on the ASCII letters. */
  function ToUpper(s: string): string
  {
    seq(|s|, i requires 0 <= i < |s| => UpperChar(s[i]))
  }

  /** The characters the regular-expression class `\s` matches (ECMAScript
      WhiteSpace and LineTerminator). */
  predicate IsSpace(c: char)
  {
    c == '\t' || c == '\n' || c == '\U{000B}' || c == '\U{000C}' || c == '\r' || c == ' '
    || c == '\U{00A0}' || c == '\U{1680}' || ('\U{2000}' <= c <= '\U{200A}')
    || c == '\U{2028}' || c == '\U{2029}' || c == '\U{202F}' || c == '\U{205F}'
    || c == '\U{3000}' || c == '\U{FEFF}'
  }

  /** `s.replace(/\s/g, "")`. */
  function StripSpaces(s: string): (r: string)
    ensures |r| <= |s|
    ensures forall c :: c in r <==> c in s && !IsSpace(c)
  {
    if s == [] then []
    else if IsSpace(s[0]) then StripSpaces(s[1..])
    else [s[0]] + StripSpaces(s[1..])
  }

  /** The normal form both sides are brought to before comparison. */
  function Normalize(s: string): (r: string)
    ensures |r| <= |s|
    ensures forall c :: c in r ==> !IsSpace(c)
  {
    StripSpaces(ToUpper(s))
  }

  // ---------------------------------------------------------------------------
  // Backup-code formatting
  // ---------------------------------------------------------------------------

  /** A lower-case hexadecimal digit, as `Buffer.toString("hex")` writes it. */
  function HexDigit(n: int): char
    requires 0 <= n < 16
  {
    if n < 10 then ('0' as int + n) as char else ('a' as int + n - 10) as char
  }

  /** The two lower-case digits of one byte, high nibble first. */
  function LowerPair(b: byte): string
  {
    [HexDigit(b as int / 16), HexDigit(b as int % 16)]
  }

  /** `Buffer.toString("hex")`. */
  function Hex(bytes: seq<byte>): (h: string)
    ensures |h| == 2 * |bytes|
  {
    if bytes == [] then [] else LowerPair(bytes[0]) + Hex(bytes[1..])
  }

  /** `.match(/.{1,2}/g)`: consecutive pieces of two characters, the last possibly one. */
  function Pairs(s: string): (parts: seq<string>)
    decreases |s|
  {
    if |s| <= 2 then (if s == [] then [] else [s])
    else [s[..2]] + Pairs(s[2..])
  }

  /** `Array.prototype.join(sep)`. */
  function Join(parts: seq<string>, sep: string): string
  {
    if parts == [] then ""
    else if |parts| == 1 then parts[0]
    else parts[0] + sep + Join(parts[1..], sep)
  }

  /** One backup code as the source builds it from four random bytes. */
  function FormatCode(d: Draw): string
  {
    Join(Pairs(ToUpper(Hex(d))), "-")
  }

  /** An upper-case hexadecimal digit. */
  predicate IsUpperHex(c: char)
  {
    '0' <= c <= '9' || 'A' <= c <= 'F'
  }

  /** The shape XX-XX-XX-XX: 11 characters, hyphens at 2, 5 and 8, upper-case hex elsewhere. */
  predicate WellFormedCode(code: string)
  {
    |code| == 11
    && (forall i :: 0 <= i < 11 && i % 3 == 2 ==> code[i] == '-')
    && (forall i :: 0 <= i < 11 && i % 3 != 2 ==> IsUpperHex(code[i]))
  }

  function HexValue(c: char): int
  {
    if '0' <= c <= '9' then c as int - '0' as int
    else if 'A' <= c <= 'F' then c as int - 'A' as int + 10
    else 0
  }

  /** Reads a well-formed code back into the four bytes it was made from. */
  function ParseCode(code: string): (d: Draw)
    requires WellFormedCode(code)
  {
    var b := (k: int) requires 0 <= k < 4 => (16 * HexValue(code[3 * k]) + HexValue(code[3 * k + 1])) as byte;
    [b(0), b(1), b(2), b(3)]
  }

  /** The two upper-case digits of one byte. */
  function UpperPair(b: byte): string
  {
    ToUpper(LowerPair(b))
  }

  lemma UpperDigit(n: int)
    requires 0 <= n < 16
    ensures IsUpperHex(UpperChar(HexDigit(n))) && HexValue(UpperChar(HexDigit(n))) == n
  {
  }

  lemma ToUpperConcat(a: string, b: string)
    ensures ToUpper(a + b) == ToUpper(a) + ToUpper(b)
  {
  }

  lemma PairsCons(p: string, rest: string)
    requires |p| == 2 && rest != []
    ensures Pairs(p + rest) == [p] + Pairs(rest)
  {
    assert (p + rest)[..2] == p;
    assert (p + rest)[2..] == rest;
  }

  /** The upper-cased hex text of a draw is its four upper-case pairs in order. */
  lemma {:induction false} UpperHexOfDraw(d: Draw)
    ensures ToUpper(Hex(d)) == UpperPair(d[0]) + UpperPair(d[1]) + UpperPair(d[2]) + UpperPair(d[3])
  {
    var d1 := d[1..];
    var d2 := d1[1..];
    var d3 := d2[1..];
    assert d3[1..] == [];
    assert Hex(d3) == LowerPair(d[3]);
    assert Hex(d2) == LowerPair(d[2]) + LowerPair(d[3]);
    assert Hex(d1) == LowerPair(d[1]) + (LowerPair(d[2]) + LowerPair(d[3]));
    assert Hex(d) == LowerPair(d[0]) + (LowerPair(d[1]) + (LowerPair(d[2]) + LowerPair(d[3])));
    ToUpperConcat(LowerPair(d[0]), LowerPair(d[1]) + (LowerPair(d[2]) + LowerPair(d[3])));
    ToUpperConcat(LowerPair(d[1]), LowerPair(d[2]) + LowerPair(d[3]));
    ToUpperConcat(LowerPair(d[2]), LowerPair(d[3]));
  }

  /** Joining four pieces with a separator. */
  lemma JoinFour(p0: string, p1: string, p2: string, p3: string, sep: string)
    ensures Join([p0, p1, p2, p3], sep) == p0 + sep + p1 + sep + p2 + sep + p3
  {
    assert [p0, p1, p2, p3][1..] == [p1, p2, p3];
    assert [p1, p2, p3][1..] == [p2, p3];
    assert [p2, p3][1..] == [p3];
    assert Join([p2, p3], sep) == p2 + sep + p3;
    assert Join([p1, p2, p3], sep) == p1 + sep + (p2 + sep + p3);
    assert Join([p0, p1, p2, p3], sep) == p0 + sep + (p1 + sep + (p2 + sep + p3));
  }

  /** A backup code is the four bytes' upper-case digit pairs joined by hyphens. */
  lemma {:induction false} FormatCodeSpelledOut(d: Draw)
    ensures FormatCode(d) == UpperPair(d[0]) + "-" + UpperPair(d[1]) + "-" + UpperPair(d[2]) + "-" + UpperPair(d[3])
  {
    UpperHexOfDraw(d);
    var p0, p1, p2, p3 := UpperPair(d[0]), UpperPair(d[1]), UpperPair(d[2]), UpperPair(d[3]);
    assert p0 + p1 + p2 + p3 == p0 + (p1 + (p2 + p3));
    PairsCons(p0, p1 + (p2 + p3));
    PairsCons(p1, p2 + p3);
    PairsCons(p2, p3);
    assert Pairs(p0 + p1 + p2 + p3) == [p0, p1, p2, p3];
    JoinFour(p0, p1, p2, p3, "-");
  }

  /** Where the characters of the k-th pair of a spelled-out code come from. */
  lemma SpelledOutPair(d: Draw, code: string, k: int)
    requires code == UpperPair(d[0]) + "-" + UpperPair(d[1]) + "-" + UpperPair(d[2]) + "-" + UpperPair(d[3])
    requires 0 <= k < 4
    ensures |code| == 11
    ensures code[3 * k] == UpperChar(HexDigit(d[k] as int / 16))
    ensures code[3 * k + 1] == UpperChar(HexDigit(d[k] as int % 16))
    ensures k < 3 ==> code[3 * k + 2] == '-'
  {
    match k
    case 0 =>
    case 1 =>
    case 2 =>
    case 3 =>
  }

  /** Every code has the form XX-XX-XX-XX (11 characters, upper-case hex pairs). */
  lemma {:induction false} FormatCodeWellFormed(d: Draw)
    ensures WellFormedCode(FormatCode(d))
  {
    FormatCodeSpelledOut(d);
    var code := FormatCode(d);
    SpelledOutPair(d, code, 0);
    forall i | 0 <= i < 11
      ensures i % 3 == 2 ==> code[i] == '-'
      ensures i % 3 != 2 ==> IsUpperHex(code[i])
    {
      var k := i / 3;
      SpelledOutPair(d, code, k);
      UpperDigit(d[k] as int / 16);
      UpperDigit(d[k] as int % 16);
    }
  }

  /** Formatting loses nothing: the four bytes can be read back from the code. */
  lemma {:induction false} FormatCodeRoundTrip(d: Draw)
    ensures WellFormedCode(FormatCode(d)) && ParseCode(FormatCode(d)) == d
  {
    FormatCodeWellFormed(d);
    FormatCodeSpelledOut(d);
    var code := FormatCode(d);
    forall k | 0 <= k < 4
      ensures (16 * HexValue(code[3 * k]) + HexValue(code[3 * k + 1])) as byte == d[k]
    {
      SpelledOutPair(d, code, k);
      UpperDigit(d[k] as int / 16);
      UpperDigit(d[k] as int % 16);
    }
  }

  /** Distinct draws give distinct codes. */
  lemma FormatCodeInjective(d1: Draw, d2: Draw)
    requires FormatCode(d1) == FormatCode(d2)
    ensures d1 == d2
  {
    FormatCodeRoundTrip(d1);
    FormatCodeRoundTrip(d2);
  }

  /** The codes made from given draws, in draw order. */
  function BackupCodesOf(draws: seq<Draw>): (codes: seq<string>)
    ensures |codes| == |draws|
  {
    seq(|draws|, i requires 0 <= i < |draws| => FormatCode(draws[i]))
  }

  /** `generateBackupCodes`: eight codes, one per four-byte draw, pushed in order. */
  method GenerateBackupCodes(draws: seq<Draw>) returns (codes: seq<string>)
    requires |draws| == BackupCodeCount
    ensures |codes| == BackupCodeCount
    ensures codes == BackupCodesOf(draws)
    ensures forall i :: 0 <= i < |codes| ==> WellFormedCode(codes[i]) && ParseCode(codes[i]) == draws[i]
  {
    codes := [];
    var i := 0;
    while i < BackupCodeCount
      invariant 0 <= i <= BackupCodeCount
      invariant codes == BackupCodesOf(draws[..i])
      invariant forall k :: 0 <= k < i ==> WellFormedCode(codes[k]) && ParseCode(codes[k]) == draws[k]
    {
      var code := FormatCode(draws[i]);
      FormatCodeRoundTrip(draws[i]);
      codes := codes + [code];
      i := i + 1;
    }
    assert draws[..i] == draws;
  }

  // ---------------------------------------------------------------------------
  // Backup-code lookup
  // ---------------------------------------------------------------------------

  /** `verifyBackupCode`'s result: a position, or `false`. */
  datatype BackupMatch = Found(index: nat) | NotFound

  function FirstMatchFrom(codes: seq<string>, wanted: string, k: nat): (m: BackupMatch)
    requires k <= |codes|
    ensures m.Found? ==> k <= m.index < |codes| && Normalize(codes[m.index]) == wanted
                         && forall j :: k <= j < m.index ==> Normalize(codes[j]) != wanted
    ensures m.NotFound? ==> forall j :: k <= j < |codes| ==> Normalize(codes[j]) != wanted
    decreases |codes| - k
  {
    if k == |codes| then NotFound
    else if Normalize(codes[k]) == wanted then Found(k)
    else FirstMatchFrom(codes, wanted, k + 1)
  }

  /** `verifyBackupCode`: the index of the first stored code equal to the provided one
      once both are upper-cased and stripped of white space. */
  function VerifyBackupCode(codes: seq<string>, provided: string): (m: BackupMatch)
    ensures m.Found? ==> m.index < |codes| && Normalize(codes[m.index]) == Normalize(provided)
                         && forall j :: 0 <= j < m.index ==> Normalize(codes[j]) != Normalize(provided)
    ensures m.NotFound? <==> forall j :: 0 <= j < |codes| ==> Normalize(codes[j]) != Normalize(provided)
  {
    FirstMatchFrom(codes, Normalize(provided), 0)
  }

  /** Stripping a single character removes it exactly when it is whitespace. */
  lemma StripSpacesSingle(c: char)
    ensures StripSpaces([c]) == if IsSpace(c) then [] else [c]
  {
    assert [c][1..] == [];
  }

  /** Stripping works character by character: it distributes over concatenation, so
      together with `StripSpacesSingle` it keeps the non-space characters in order. */
  lemma {:induction false} StripSpacesConcat(a: string, b: string)
    ensures StripSpaces(a + b) == StripSpaces(a) + StripSpaces(b)
  {
    if a != [] {
      assert (a + b)[0] == a[0];
      assert (a + b)[1..] == a[1..] + b;
      StripSpacesConcat(a[1..], b);
    } else {
      assert a + b == b;
    }
  }

  lemma {:induction false} StripSpacesIdempotent(s: string)
    ensures StripSpaces(StripSpaces(s)) == StripSpaces(s)
  {
    if s != [] {
      StripSpacesIdempotent(s[1..]);
      if !IsSpace(s[0]) {
        assert ([s[0]] + StripSpaces(s[1..]))[1..] == StripSpaces(s[1..]);
      }
    }
  }

  lemma {:induction false} StripSpacesOfUpper(s: string)
    ensures StripSpaces(ToUpper(s)) == ToUpper(StripSpaces(s))
  {
    if s != [] {
      assert ToUpper(s)[1..] == ToUpper(s[1..]);
      StripSpacesOfUpper(s[1..]);
      if !IsSpace(s[0]) {
        assert ToUpper([s[0]] + StripSpaces(s[1..])) == [UpperChar(s[0])] + ToUpper(StripSpaces(s[1..]));
      }
    }
  }

  /** Upper-casing or removing white space from the provided code first changes nothing:
      case and spaces are ignored. */
  lemma {:induction false} NormalizeIgnoresCaseAndSpaces(p: string)
    ensures Normalize(ToUpper(p)) == Normalize(p)
    ensures Normalize(StripSpaces(p)) == Normalize(p)
  {
    assert ToUpper(ToUpper(p)) == ToUpper(p);
    StripSpacesOfUpper(p);
    StripSpacesOfUpper(StripSpaces(p));
    StripSpacesIdempotent(p);
  }

  /** Hence the lookup answers the same for any spelling that differs only in case or spaces. */
  lemma LookupIgnoresCaseAndSpaces(codes: seq<string>, p: string)
    ensures VerifyBackupCode(codes, ToUpper(p)) == VerifyBackupCode(codes, p)
    ensures VerifyBackupCode(codes, StripSpaces(p)) == VerifyBackupCode(codes, p)
  {
    NormalizeIgnoresCaseAndSpaces(p);
  }

  /** A generated code is already in normal form. */
  lemma {:induction false} FormatCodeIsNormal(d: Draw)
    ensures Normalize(FormatCode(d)) == FormatCode(d)
  {
    var code := FormatCode(d);
    FormatCodeWellFormed(d);
    assert ToUpper(code) == code;
    NoSpaceNoStrip(code);
  }

  lemma {:induction false} NoSpaceNoStrip(s: string)
    requires forall i :: 0 <= i < |s| ==> !IsSpace(s[i])
    ensures StripSpaces(s) == s
  {
    if s != [] {
      NoSpaceNoStrip(s[1..]);
    }
  }

  /** Hyphens are not removed: a provided code without '-' matches no generated code. */
  lemma {:induction false} UnhyphenatedNeverMatches(draws: seq<Draw>, p: string)
    requires '-' !in p
    ensures VerifyBackupCode(BackupCodesOf(draws), p) == NotFound
  {
    var codes := BackupCodesOf(draws);
    assert '-' !in ToUpper(p);
    forall j | 0 <= j < |codes| ensures Normalize(codes[j]) != Normalize(p) {
      FormatCodeIsNormal(draws[j]);
      FormatCodeWellFormed(draws[j]);
      assert codes[j][2] == '-';
    }
  }

  /** Codes that stay distinct once normalised: the condition under which a removed code
      can never match again. */
  predicate DistinctCodes(codes: seq<string>)
  {
    forall i, j :: 0 <= i < j < |codes| ==> Normalize(codes[i]) != Normalize(codes[j])
  }

  /** Removing exactly the matched entry; the other codes keep their order. */
  function RemoveAt(codes: seq<string>, i: nat): (r: seq<string>)
    requires i < |codes|
    ensures |r| == |codes| - 1
    ensures forall j :: 0 <= j < i ==> r[j] == codes[j]
    ensures forall j :: i <= j < |r| ==> r[j] == codes[j + 1]
  {
    codes[..i] + codes[i + 1..]
  }

  /** Once the matched code is removed from a set of distinct codes, it matches nothing. */
  lemma {:induction false} RemovedCodeNoLongerMatches(codes: seq<string>, p: string)
    requires DistinctCodes(codes)
    requires VerifyBackupCode(codes, p).Found?
    ensures VerifyBackupCode(RemoveAt(codes, VerifyBackupCode(codes, p).index), p) == NotFound
  {
    var i := VerifyBackupCode(codes, p).index;
    var rest := RemoveAt(codes, i);
    forall j | 0 <= j < |rest| ensures Normalize(rest[j]) != Normalize(p) {
      if j < i {
        assert rest[j] == codes[j];
      } else {
        assert rest[j] == codes[j + 1];
      }
    }
  }

  // ---------------------------------------------------------------------------
  // TOTP window
  // ---------------------------------------------------------------------------

  /** The time step of an instant given in milliseconds since the epoch. */
  function StepAt(nowMillis: int): int
  {
    nowMillis / StepMillis
  }

  function MatchesBetween(totp: (string, int) -> string, secret: string, token: string, lo: int, hi: int): bool
    decreases hi - lo + 1
  {
    if lo > hi then false
    else totp(secret, lo) == token || MatchesBetween(totp, secret, token, lo + 1, hi)
  }

  /** `verifyTwoFactorToken`: `speakeasy.totp.verify` with `window: 2` tries the counters
      from two steps before the current one to two steps after it, so a token is accepted
      exactly when it is the code of one of those five steps. */
  function VerifyToken(totp: (string, int) -> string, secret: string, token: string, nowMillis: int): (ok: bool)
    ensures ok <==> exists k :: StepAt(nowMillis) - Window <= k <= StepAt(nowMillis) + Window && totp(secret, k) == token
  {
    MatchesBetweenMeans(totp, secret, token, StepAt(nowMillis) - Window, StepAt(nowMillis) + Window);
    MatchesBetween(totp, secret, token, StepAt(nowMillis) - Window, StepAt(nowMillis) + Window)
  }

  lemma {:induction false} MatchesBetweenMeans(totp: (string, int) -> string, secret: string, token: string, lo: int, hi: int)
    ensures MatchesBetween(totp, secret, token, lo, hi) <==> exists k :: lo <= k <= hi && totp(secret, k) == token
    decreases hi - lo + 1
  {
    if lo <= hi {
      MatchesBetweenMeans(totp, secret, token, lo + 1, hi);
      if totp(secret, lo) == token {
        assert lo <= lo <= hi && totp(secret, lo) == token;
      }
    }
  }

  lemma StepDistance(t: int, now: int)
    ensures t - now <= 60000 ==> StepAt(t) - StepAt(now) <= 2
    ensures now - t <= 60000 ==> StepAt(now) - StepAt(t) <= 2
    ensures t - now >= 90000 ==> StepAt(t) - StepAt(now) >= 3
    ensures now - t >= 90000 ==> StepAt(now) - StepAt(t) >= 3
  {
  }

  /** A code generated up to 60 seconds before or after the verification instant is accepted. */
  lemma {:induction false} AcceptsWithinSixtySeconds(totp: (string, int) -> string, secret: string, generatedAt: int, nowMillis: int)
    requires -60000 <= generatedAt - nowMillis <= 60000
    ensures VerifyToken(totp, secret, totp(secret, StepAt(generatedAt)), nowMillis)
  {
    StepDistance(generatedAt, nowMillis);
  }

  /** When the secret's codes differ from step to step, a code generated 90 seconds or more
      away from the verification instant is rejected. */
  lemma {:induction false} RejectsFromNinetySecondsAway(totp: (string, int) -> string, secret: string, generatedAt: int, nowMillis: int)
    requires forall a, b :: a != b ==> totp(secret, a) != totp(secret, b)
    requires generatedAt - nowMillis >= 90000 || nowMillis - generatedAt >= 90000
    ensures !VerifyToken(totp, secret, totp(secret, StepAt(generatedAt)), nowMillis)
  {
    StepDistance(generatedAt, nowMillis);
  }
}
