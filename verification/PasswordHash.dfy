/**
 Password hashes (internal/auth/password.go): the string that `HashPassword` prints and the
 way `VerifyPassword` reads it back. Argon2id (RFC 9106) is an uninterpreted function.
 */
module PasswordHash {
  import opened Text
  import opened Wrappers
  import opened Base64

  // ---------------------------------------------------------------- decimal numbers

  predicate IsDigit(c: char) {
    '0' <= c <= '9'
  }

  function Digit(d: int): char
    requires 0 <= d < 10
  {
    '0' + d as char
  }

  /** `%d` of a number that is not negative. */
  function PrintNat(n: nat): (r: string)
    ensures r != "" && forall i :: 0 <= i < |r| ==> IsDigit(r[i])
  {
    if n < 10 then [Digit(n)] else PrintNat(n / 10) + [Digit(n % 10)]
  }

  function ValueOfDigits(s: string): nat
    requires forall i :: 0 <= i < |s| ==> IsDigit(s[i])
  {
    if s == "" then 0
    else
      var c := s[|s| - 1];
      assert IsDigit(c);
      ValueOfDigits(s[..|s| - 1]) * 10 + (c as int - '0' as int)
  }

  lemma {:induction false} PrintedValue(n: nat)
    ensures ValueOfDigits(PrintNat(n)) == n
  {
    if n < 10 {
      assert [Digit(n)][..0] == "";
    } else {
      PrintedValue(n / 10);
      var p := PrintNat(n / 10);
      assert (p + [Digit(n % 10)])[..|p|] == p;
    }
  }

  /** The longest run of digits at the start of `s`, and the rest. */
  function TakeDigits(s: string): (r: (string, string))
    ensures forall i :: 0 <= i < |r.0| ==> IsDigit(r.0[i])
  {
    if s == "" || !IsDigit(s[0]) then ("", s)
    else
      var (digits, rest) := TakeDigits(s[1..]);
      ([s[0]] + digits, rest)
  }

  lemma {:induction false} TakePrinted(digits: string, rest: string)
    requires forall i :: 0 <= i < |digits| ==> IsDigit(digits[i])
    requires rest == "" || !IsDigit(rest[0])
    ensures TakeDigits(digits + rest) == (digits, rest)
  {
    if digits == "" {
      assert digits + rest == rest;
    } else {
      TakePrinted(digits[1..], rest);
      assert (digits + rest)[1..] == digits[1..] + rest;
      assert [digits[0]] + digits[1..] == digits;
    }
  }

  // ---------------------------------------------------------------- fmt.Sscanf

  /** The scanner skips white space before a number, but a line break there is an error. */
  function SkipSpace(s: string): string {
    if s != "" && IsSpace(s[0]) && s[0] != '\n' then SkipSpace(s[1..]) else s
  }

  /** `%d` into an unsigned number below `bound`: the value and the rest of the input. */
  function ScanUint(s: string, bound: nat): Option<(nat, string)> {
    var (digits, rest) := TakeDigits(SkipSpace(s));
    if digits == "" then None
    else
      var n := ValueOfDigits(digits);
      if n < bound then Some((n, rest)) else None
  }

  const TWO_63: nat := 0x8000_0000_0000_0000
  const TWO_32: nat := 0x1_0000_0000
  const TWO_8: nat := 0x100

  /** `%d` into a 64-bit signed number. */
  function ScanInt(s: string): Option<(int, string)> {
    var t := SkipSpace(s);
    var negative := t != "" && t[0] == '-';
    var u := if t != "" && t[0] in {'+', '-'} then t[1..] else t;
    var (digits, rest) := TakeDigits(u);
    if digits == "" then None
    else
      var n: int := ValueOfDigits(digits);
      if negative then (if n <= TWO_63 then Some((-n, rest)) else None)
      else if n < TWO_63 then Some((n, rest)) else None
  }

  /** Characters of the format that must be met exactly. */
  function ScanLiteral(s: string, lit: string): Option<string> {
    if lit <= s then Some(s[|lit|..]) else None
  }

  /** `Sscanf(s, "v=%d", &version)`; what follows the number is not looked at. */
  function ScanVersion(s: string): Option<int> {
    match ScanLiteral(s, "v=")
    case None => None
    case Some(t) =>
      match ScanInt(t)
      case None => None
      case Some((n, _)) => Some(n)
  }

  datatype Params = Params(memory: nat, time: nat, threads: nat)

  /** The fields are 32, 32 and 8 bits wide. */
  predicate Fits(p: Params) {
    p.memory < TWO_32 && p.time < TWO_32 && p.threads < TWO_8
  }

  function ScanField(s: string, lit: string, bound: nat): Option<(nat, string)> {
    match ScanLiteral(s, lit)
    case None => None
    case Some(t) => ScanUint(t, bound)
  }

  /** `Sscanf(s, "m=%d,t=%d,p=%d", &memory, &time, &threads)`. */
  function ScanParams(s: string): Option<Params> {
    match ScanField(s, "m=", TWO_32)
    case None => None
    case Some((memory, s1)) =>
      match ScanField(s1, ",t=", TWO_32)
      case None => None
      case Some((time, s2)) =>
        match ScanField(s2, ",p=", TWO_8)
        case None => None
        case Some((threads, _)) => Some(Params(memory, time, threads))
  }

  /** A printed number that is followed by no digit scans back, and the rest is left. */
  lemma FieldRoundTrip(lit: string, n: nat, bound: nat, rest: string)
    requires n < bound && (rest == "" || !IsDigit(rest[0]))
    ensures ScanField(lit + (PrintNat(n) + rest), lit, bound) == Some((n, rest))
  {
    var t := PrintNat(n) + rest;
    assert (lit + t)[|lit|..] == t;
    assert t[0] == PrintNat(n)[0] && !IsSpace(t[0]);
    TakePrinted(PrintNat(n), rest);
    PrintedValue(n);
  }

  lemma VersionRoundTrip(n: nat)
    requires n < TWO_63
    ensures ScanVersion("v=" + PrintNat(n)) == Some(n)
  {
    var t := PrintNat(n);
    assert ("v=" + t)[2..] == t;
    assert IsDigit(t[0]) && !IsSpace(t[0]);
    TakePrinted(t, "");
    assert t + "" == t;
    PrintedValue(n);
  }

  function PrintParams(p: Params): string {
    "m=" + (PrintNat(p.memory) + (",t=" + (PrintNat(p.time) + (",p=" + (PrintNat(p.threads) + "")))))
  }

  lemma ParamsRoundTrip(p: Params)
    requires Fits(p)
    ensures ScanParams(PrintParams(p)) == Some(p)
  {
    var s3 := ",p=" + (PrintNat(p.threads) + "");
    var s2 := ",t=" + (PrintNat(p.time) + s3);
    FieldRoundTrip("m=", p.memory, TWO_32, s2);
    FieldRoundTrip(",t=", p.time, TWO_32, s3);
    FieldRoundTrip(",p=", p.threads, TWO_8, "");
  }

  // ---------------------------------------------------------------- the hash string

  const VERSION := 19     // argon2.Version, 0x13
  const DEFAULT_PARAMS := Params(64 * 1024, 3, 4)
  const KEY_LENGTH := 32

  /** Argon2id of password, salt, time, memory, threads and key length; no value means a panic. */
  type Kdf = (seq<Byte>, seq<Byte>, nat, nat, nat, nat) -> Option<seq<Byte>>

  /** With at least one pass, one thread and one byte to make, there is a key of the wanted length. */
  ghost predicate Lawful(kdf: Kdf) {
    forall pw, salt, time: nat, memory: nat, threads: nat, length: nat ::
      time >= 1 && threads >= 1 && length >= 1 ==>
        kdf(pw, salt, time, memory, threads, length).Some?
        && |kdf(pw, salt, time, memory, threads, length).value| == length
  }

  function PrintHash(p: Params, salt: seq<Byte>, hash: seq<Byte>): string {
    Join(["", "argon2id", "v=" + PrintNat(VERSION), PrintParams(p), Encode(salt), Encode(hash)], "$")
  }

  datatype Parsed = Parsed(version: int, params: Params, salt: seq<Byte>, hash: seq<Byte>)

  /** The reading half of `VerifyPassword`: six parts, of which the first two are not looked at. */
  function ParseHash(encoded: string): Result<Parsed> {
    var parts := Split(encoded, '$');
    if |parts| != 6 then Err("invalid hash format")
    else
      match ScanVersion(parts[2])
      case None => Err("parse version")
      case Some(version) =>
        match ScanParams(parts[3])
        case None => Err("parse params")
        case Some(params) =>
          match Decode(parts[4])
          case None => Err("decode salt")
          case Some(salt) =>
            match Decode(parts[5])
            case None => Err("decode hash")
            case Some(hash) => Ok(Parsed(version, params, salt, hash))
  }

  lemma NoDollarInNumber(n: nat)
    ensures '$' !in PrintNat(n)
  {
  }

  lemma NoDollarInParams(p: Params)
    ensures '$' !in PrintParams(p) && '$' !in "v=" + PrintNat(VERSION)
  {
    NoDollarInNumber(p.memory);
    NoDollarInNumber(p.time);
    NoDollarInNumber(p.threads);
    NoDollarInNumber(VERSION);
  }

  /** For all parameters, salts and hashes, the printed string reads back as what was printed. */
  lemma HashStringRoundTrip(p: Params, salt: seq<Byte>, hash: seq<Byte>)
    requires Fits(p)
    ensures ParseHash(PrintHash(p, salt, hash)) == Ok(Parsed(VERSION, p, salt, hash))
  {
    var parts := ["", "argon2id", "v=" + PrintNat(VERSION), PrintParams(p), Encode(salt), Encode(hash)];
    NoDollarInParams(p);
    DecodeEncode(salt);
    DecodeEncode(hash);
    assert forall part :: part in parts ==> '$' !in part;
    SplitJoin(parts, '$');
    VersionRoundTrip(VERSION);
    ParamsRoundTrip(p);
  }

  // ---------------------------------------------------------------- hashing and verifying

  datatype Outcome = Verdict(accepted: bool) | Malformed(error: string) | Panics

  /** The salt that is used is the printed form of the random bytes, taken as bytes again. */
  function SaltOf(random: seq<Byte>): (r: seq<Byte>)
    ensures |r| == |Encode(random)|
  {
    var s := Encode(random);
    seq(|s|, i requires 0 <= i < |s| => AsciiByte(s[i]))
  }

  function AsciiByte(c: char): Byte {
    if (c as int) < 128 then c as int else 0
  }

  /** The text whose bytes these are. */
  function TextOf(b: seq<Byte>): (s: string)
    ensures |s| == |b|
  {
    seq(|b|, i requires 0 <= i < |b| => b[i] as char)
  }

  lemma {:induction false} AsciiText(random: seq<Byte>)
    ensures TextOf(SaltOf(random)) == Encode(random)
  {
    EncodeIsChars(random);
    CharsAreAscii(Split64(random));
  }

  /** Different random bytes give different salts. */
  lemma SaltsDiffer(a: seq<Byte>, b: seq<Byte>)
    requires a != b
    ensures SaltOf(a) != SaltOf(b)
  {
    AsciiText(a);
    AsciiText(b);
    DecodeEncode(a);
    DecodeEncode(b);
  }

  lemma NumbersPrinted()
    ensures PrintNat(19) == "19" && PrintNat(65536) == "65536" && PrintNat(3) == "3" && PrintNat(4) == "4"
  {
    assert PrintNat(6) == "6";
    assert PrintNat(65) == "65";
    assert PrintNat(655) == "655";
    assert PrintNat(6553) == "6553";
    assert PrintNat(1) == "1";
  }

  lemma DefaultParts()
    ensures "v=" + PrintNat(VERSION) == "v=19" && PrintParams(DEFAULT_PARAMS) == "m=65536,t=3,p=4"
  {
    NumbersPrinted();
    assert "v=" + "19" == "v=19";
    assert "m=" + ("65536" + (",t=" + ("3" + (",p=" + ("4" + ""))))) == "m=65536,t=3,p=4";
    assert "m=" + "65536" + ",t=" + "3" + ",p=" + "4" == "m=65536,t=3,p=4";
  }

  /** The fields of the string with the default parameters, written out. */
  lemma DefaultPrinted(salt: seq<Byte>, hash: seq<Byte>)
    ensures PrintHash(DEFAULT_PARAMS, salt, hash)
         == Join(["", "argon2id", "v=19", "m=65536,t=3,p=4", Encode(salt), Encode(hash)], "$")
  {
    DefaultParts();
  }

  /** Hashes with the default parameters; the random bytes are an input. */
  method HashPassword(kdf: Kdf, password: seq<Byte>, random: seq<Byte>) returns (r: Option<string>)
    ensures Lawful(kdf) ==> r.Some?
    ensures r.Some? ==>
      var p, salt := DEFAULT_PARAMS, SaltOf(random);
      var key := kdf(password, salt, p.time, p.memory, p.threads, KEY_LENGTH);
      key.Some? && ParseHash(r.value) == Ok(Parsed(VERSION, p, salt, key.value))
    ensures r.Some? ==>
      var key := kdf(password, SaltOf(random), 3, 65536, 4, 32);
      && key.Some?
      && r.value == Join(["", "argon2id", "v=19", "m=65536,t=3,p=4", Encode(SaltOf(random)), Encode(key.value)], "$")
  {
    var salt := SaltOf(random);
    var p := DEFAULT_PARAMS;
    var hash := kdf(password, salt, p.time, p.memory, p.threads, KEY_LENGTH);
    if hash.None? {
      return None;
    }
    HashStringRoundTrip(p, salt, hash.value);
    DefaultPrinted(salt, hash.value);
    r := Some(PrintHash(p, salt, hash.value));
  }

  /** Accept exactly when the key derived with what the string says equals the hash it holds. */
  function OutcomeFor(kdf: Kdf, password: seq<Byte>, parsed: Result<Parsed>): Outcome {
    match parsed
    case Err(error) => Malformed(error)
    case Ok(Parsed(_, p, salt, hash)) =>
      match kdf(password, salt, p.time, p.memory, p.threads, |hash| % TWO_32)
      case None => Panics
      case Some(key) => Verdict(key == hash)
  }

  lemma ParsedAcceptance(kdf: Kdf, password: seq<Byte>, p: Params, salt: seq<Byte>, hash: seq<Byte>, parsed: Result<Parsed>)
    requires parsed == Ok(Parsed(VERSION, p, salt, hash)) && |hash| < TWO_32
    ensures var key := kdf(password, salt, p.time, p.memory, p.threads, |hash|);
            && (OutcomeFor(kdf, password, parsed) == Verdict(true) <==> key == Some(hash))
            && (OutcomeFor(kdf, password, parsed) == Panics <==> key == None)
  {
    assert |hash| % TWO_32 == |hash|;
  }

  /**
   What acceptance means: a printed string is accepted exactly for the passwords whose derived
   key, with the printed parameters and salt and of the printed length, is the printed hash.
   */
  lemma PrintedAcceptance(kdf: Kdf, password: seq<Byte>, p: Params, salt: seq<Byte>, hash: seq<Byte>, encoded: string)
    requires Fits(p) && |hash| < TWO_32 && encoded == PrintHash(p, salt, hash)
    ensures var key := kdf(password, salt, p.time, p.memory, p.threads, |hash|);
            && (OutcomeFor(kdf, password, ParseHash(encoded)) == Verdict(true) <==> key == Some(hash))
            && (OutcomeFor(kdf, password, ParseHash(encoded)) == Panics <==> key == None)
  {
    HashStringRoundTrip(p, salt, hash);
    ParsedAcceptance(kdf, password, p, salt, hash, ParseHash(encoded));
  }

  method VerifyPassword(kdf: Kdf, password: seq<Byte>, encoded: string) returns (r: Outcome)
    ensures r == OutcomeFor(kdf, password, ParseHash(encoded))
    ensures Occurrences(encoded, '$') != 5 ==> r == Malformed("invalid hash format")
  {
    SplitCounts(encoded, '$');
    var parts := Split(encoded, '$');
    if |parts| != 6 {
      return Malformed("invalid hash format");
    }
    var version := ScanVersion(parts[2]);
    if version.None? {
      return Malformed("parse version");
    }
    var params := ScanParams(parts[3]);
    if params.None? {
      return Malformed("parse params");
    }
    var salt := Decode(parts[4]);
    if salt.None? {
      return Malformed("decode salt");
    }
    var decodedHash := Decode(parts[5]);
    if decodedHash.None? {
      return Malformed("decode hash");
    }
    var p := params.value;
    var computed := kdf(password, salt.value, p.time, p.memory, p.threads, |decodedHash.value| % TWO_32);
    if computed.None? {
      return Panics;
    }
    r := Verdict(computed.value == decodedHash.value);
  }

  /**
   The law of the pair: a password is accepted against a hash made from any password exactly
   when both derive the same key from the salt; in particular every password against its own.
   */
  method HashThenVerify(kdf: Kdf, password: seq<Byte>, random: seq<Byte>, attempt: seq<Byte>) returns (r: Outcome)
    requires Lawful(kdf)
    ensures
      var p, salt := DEFAULT_PARAMS, SaltOf(random);
      r == Verdict(kdf(attempt, salt, p.time, p.memory, p.threads, KEY_LENGTH)
                   == kdf(password, salt, p.time, p.memory, p.threads, KEY_LENGTH))
    ensures attempt == password ==> r == Verdict(true)
  {
    var p, salt := DEFAULT_PARAMS, SaltOf(random);
    assert kdf(attempt, salt, p.time, p.memory, p.threads, KEY_LENGTH).Some?;
    var encoded := HashPassword(kdf, password, random);
    var key := kdf(password, salt, p.time, p.memory, p.threads, KEY_LENGTH);
    assert |key.value| == KEY_LENGTH;
    r := VerifyPassword(kdf, attempt, encoded.value);
  }
}
