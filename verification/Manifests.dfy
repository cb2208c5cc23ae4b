/** Digests and user specifications as they are printed and parsed in image manifests
    (image/handler/src/docker/manifests.rs). */
module Manifests {
  import opened Common

  // ---------------------------------------------------------------- text

  /** The parts before and after the first `sep`. */
  function SplitOnce(s: string, sep: char): (r: Option<(string, string)>)
    ensures r.None? <==> sep !in s
    ensures r.Some? ==> s == r.value.0 + [sep] + r.value.1 && sep !in r.value.0
  {
    if s == "" then None
    else if s[0] == sep then Some(("", s[1..]))
    else
      match SplitOnce(s[1..], sep)
      case None => None
      case Some((a, b)) => Some(([s[0]] + a, b))
  }

  /** The first separator is the only place to split at. */
  lemma {:induction false} SplitOnceUnique(a: string, sep: char, b: string)
    requires sep !in a
    ensures SplitOnce(a + [sep] + b, sep) == Some((a, b))
  {
    var s := a + [sep] + b;
    if a == "" {
      assert s[1..] == b;
    } else {
      assert s[1..] == a[1..] + [sep] + b;
      SplitOnceUnique(a[1..], sep, b);
      assert [s[0]] + a[1..] == a;
    }
  }

  // ---------------------------------------------------------------- hexadecimal

  function HexDigit(v: nat): (c: char)
    requires v < 16
    ensures HexValue(c) == Some(v)
  {
    if v < 10 then '0' + v as char else 'a' + (v - 10) as char
  }

  function HexValue(c: char): (v: Option<nat>)
    ensures v.Some? ==> v.value < 16
  {
    if '0' <= c <= '9' then Some((c - '0') as nat)
    else if 'a' <= c <= 'f' then Some((c - 'a') as nat + 10)
    else if 'A' <= c <= 'F' then Some((c - 'A') as nat + 10)
    else None
  }

  function HexEncode(val: seq<byte>): string {
    if val == [] then ""
    else [HexDigit(val[0] / 16), HexDigit(val[0] % 16)] + HexEncode(val[1..])
  }

  function HexDecode(s: string): Option<seq<byte>> {
    if s == "" then Some([])
    else if |s| == 1 then None
    else
      match (HexValue(s[0]), HexValue(s[1]), HexDecode(s[2..]))
      case (Some(h), Some(l), Some(rest)) => Some([h * 16 + l] + rest)
      case _ => None
  }

  predicate IsHex(s: string) {
    |s| % 2 == 0 && forall i | 0 <= i < |s| :: HexValue(s[i]).Some?
  }

  function LowerChar(c: char): char {
    if 'A' <= c <= 'Z' then c - 'A' + 'a' else c
  }

  function Lower(s: string): string {
    seq(|s|, i requires 0 <= i < |s| => LowerChar(s[i]))
  }

  lemma {:induction false} HexRoundTrip(val: seq<byte>)
    ensures HexDecode(HexEncode(val)) == Some(val)
  {
    if val != [] {
      HexRoundTrip(val[1..]);
      var s := HexEncode(val);
      assert s[2..] == HexEncode(val[1..]);
      assert val[0] == val[0] / 16 * 16 + val[0] % 16;
      assert [val[0]] + val[1..] == val;
    }
  }

  lemma HexDigitOfValue(c: char)
    requires HexValue(c).Some?
    ensures HexDigit(HexValue(c).value) == LowerChar(c)
  {}

  lemma IsHexStep(s: string)
    requires |s| >= 2
    ensures IsHex(s) <==> HexValue(s[0]).Some? && HexValue(s[1]).Some? && IsHex(s[2..])
  {}

  lemma HexEncodeStep(h: nat, l: nat, rest: seq<byte>)
    requires h < 16 && l < 16
    ensures HexEncode([h * 16 + l] + rest) == [HexDigit(h), HexDigit(l)] + HexEncode(rest)
  {
    var v: seq<byte> := [h * 16 + l] + rest;
    assert v[1..] == rest && v[0] / 16 == h && v[0] % 16 == l;
  }

  lemma LowerStep(s: string)
    requires |s| >= 2
    ensures Lower(s) == [LowerChar(s[0]), LowerChar(s[1])] + Lower(s[2..])
  {}

  lemma HexDecodeStep(s: string)
    requires |s| >= 2 && HexValue(s[0]).Some? && HexValue(s[1]).Some? && HexDecode(s[2..]).Some?
    ensures HexDecode(s) == Some([HexValue(s[0]).value * 16 + HexValue(s[1]).value] + HexDecode(s[2..]).value)
  {}

  /** Exactly the even-length strings of hexadecimal digits decode, and encoding the result gives
      the string back in lower case. */
  lemma {:induction false} HexLanguage(s: string)
    ensures HexDecode(s).Some? <==> IsHex(s)
    ensures IsHex(s) ==> HexEncode(HexDecode(s).value) == Lower(s)
  {
    if |s| >= 2 {
      HexLanguage(s[2..]);
      IsHexStep(s);
      if IsHex(s) {
        HexDecodeStep(s);
        HexEncodeStep(HexValue(s[0]).value, HexValue(s[1]).value, HexDecode(s[2..]).value);
        HexDigitOfValue(s[0]);
        HexDigitOfValue(s[1]);
        LowerStep(s);
      }
    }
  }

  /** The digits and their values: ten decimal ones and six letters, which are printed in lower case
      and read in both. */
  lemma HexDigitsExact(v: nat, c: char)
    requires v < 16
    ensures HexDigit(v) == "0123456789abcdef"[v]
    ensures HexValue("0123456789abcdef"[v]) == Some(v) == HexValue("0123456789ABCDEF"[v])
    ensures HexValue(c).Some? ==> c in "0123456789abcdefABCDEF"
  {
    if '0' <= c <= '9' {
      assert c == "0123456789abcdefABCDEF"[(c - '0') as int];
    } else if 'a' <= c <= 'f' {
      assert c == "0123456789abcdefABCDEF"[10 + (c - 'a') as int];
    } else if 'A' <= c <= 'F' {
      assert c == "0123456789abcdefABCDEF"[16 + (c - 'A') as int];
    }
  }

  /** Two digits a byte, the higher one first, in order. */
  lemma {:induction false} HexDecodeAt(s: string, i: nat)
    requires IsHex(s) && 2 * i < |s|
    ensures HexDecode(s).Some? && |HexDecode(s).value| == |s| / 2
    ensures HexDecode(s).value[i] == 16 * HexValue(s[2 * i]).value + HexValue(s[2 * i + 1]).value
  {
    IsHexStep(s);
    HexLanguage(s);
    HexLanguage(s[2..]);
    HexDecodeStep(s);
    if i > 0 {
      HexDecodeAt(s[2..], i - 1);
    } else if |s| > 2 {
      HexDecodeAt(s[2..], 0);
    }
  }

  // ---------------------------------------------------------------- digests

  datatype HashType = Sha256 | Sha512

  datatype Digest = Digest(ty: HashType, val: seq<byte>)

  function HashName(ty: HashType): string {
    match ty case Sha256 => "sha256" case Sha512 => "sha512"
  }

  function PrintDigest(d: Digest): string {
    HashName(d.ty) + ":" + HexEncode(d.val)
  }

  function ParseDigest(s: string): Option<Digest> {
    match SplitOnce(s, ':')
    case None => None
    case Some((ty, val)) =>
      if ty != "sha256" && ty != "sha512" then None
      else
        match HexDecode(val)
        case None => None
        case Some(bytes) => Some(Digest(if ty == "sha256" then Sha256 else Sha512, bytes))
  }

  lemma HashNameHasNoColon(ty: HashType)
    ensures ':' !in HashName(ty)
  {}

  ghost predicate DigestText(s: string, ty: HashType, h: string) {
    s == HashName(ty) + ":" + h && IsHex(h)
  }

  lemma DigestTextParses(s: string, ty: HashType, h: string)
    requires DigestText(s, ty, h)
    ensures ParseDigest(s).Some? && ParseDigest(s).value.ty == ty
    ensures HexEncode(ParseDigest(s).value.val) == Lower(h)
  {
    HashNameHasNoColon(ty);
    SplitOnceUnique(HashName(ty), ':', h);
    HexLanguage(h);
    assert HashName(Sha256)[3] != HashName(Sha512)[3];
  }

  lemma LowerPrefixed(ty: HashType, h: string)
    ensures Lower(HashName(ty) + ":" + h) == HashName(ty) + ":" + Lower(h)
  {}

  /** The language of digests: an algorithm name, a colon, an even number of hexadecimal digits.
      Printing an accepted text's digest gives its lower-case form. */
  lemma DigestLanguage(s: string)
    ensures ParseDigest(s).Some? <==> exists ty: HashType, h: string :: DigestText(s, ty, h)
    ensures ParseDigest(s).Some? ==> PrintDigest(ParseDigest(s).value) == Lower(s)
  {
    if ParseDigest(s).Some? {
      var (name, h) := SplitOnce(s, ':').value;
      HexLanguage(h);
      assert DigestText(s, ParseDigest(s).value.ty, h);
    }
    if ty: HashType, h: string :| DigestText(s, ty, h) {
      DigestTextParses(s, ty, h);
      LowerPrefixed(ty, h);
    }
  }

  function Prefix(ty: HashType): string {
    match ty case Sha256 => "sha256:" case Sha512 => "sha512:"
  }

  lemma PrefixIsName(ty: HashType)
    ensures Prefix(ty) == HashName(ty) + ":"
  {}

  lemma PrefixedDigest(ty: HashType, h: string)
    ensures ParseDigest(Prefix(ty) + h) ==
            match HexDecode(h) case None => None case Some(val) => Some(Digest(ty, val))
  {
    PrefixIsName(ty);
    HashNameHasNoColon(ty);
    SplitOnceUnique(HashName(ty), ':', h);
    assert HashName(Sha256)[3] != HashName(Sha512)[3];
  }

  /** Which texts denote which algorithm, and the value is what the rest decodes to. */
  lemma DigestExactly(s: string, d: Digest)
    ensures ParseDigest(s) == Some(d) <==>
            && |s| >= 7 && (s[..7] == if d.ty.Sha256? then "sha256:" else "sha512:")
            && HexDecode(s[7..]) == Some(d.val)
    ensures PrintDigest(d) == (if d.ty.Sha256? then "sha256:" else "sha512:") + HexEncode(d.val)
  {
    PrefixIsName(d.ty);
    if ParseDigest(s) == Some(d) {
      var (name, h) := SplitOnce(s, ':').value;
      assert name == HashName(d.ty);
      assert s == Prefix(d.ty) + h;
    } else if |s| >= 7 && s[..7] == Prefix(d.ty) {
      assert s == Prefix(d.ty) + s[7..];
      PrefixedDigest(d.ty, s[7..]);
    }
  }

  /** Printing and parsing a digest is the identity, for every algorithm and every byte string. */
  lemma DigestRoundTrip(d: Digest)
    ensures ParseDigest(PrintDigest(d)) == Some(d)
  {
    PrefixIsName(d.ty);
    PrefixedDigest(d.ty, HexEncode(d.val));
    HexRoundTrip(d.val);
  }

  // ---------------------------------------------------------------- numeric ids

  const U32_MAX: nat := 0xFFFF_FFFF

  type u32 = n: nat | n <= U32_MAX

  predicate IsDigit(c: char) { '0' <= c <= '9' }

  function DigitValue(c: char): (v: nat)
    requires IsDigit(c)
    ensures v < 10
  {
    (c - '0') as nat
  }

  predicate AllDigits(s: string) {
    forall i | 0 <= i < |s| :: IsDigit(s[i])
  }

  predicate IsDigits(s: string) {
    s != "" && AllDigits(s)
  }

  function Value(s: string): nat
    requires AllDigits(s)
  {
    if s == "" then 0 else Value(s[..|s| - 1]) * 10 + DigitValue(s[|s| - 1])
  }

  /** The decimal digits and their values. */
  lemma DigitsExact(v: nat, c: char)
    requires v < 10
    ensures IsDigit("0123456789"[v]) && DigitValue("0123456789"[v]) == v
    ensures IsDigit(c) <==> c in "0123456789"
  {
    if IsDigit(c) { assert c == "0123456789"[(c - '0') as int]; }
  }

  /** Reading digits from the left with a bound checked at every digit. */
  function Accumulate(acc: u32, s: string): Option<u32>
    decreases |s|
  {
    if s == "" then Some(acc)
    else if !IsDigit(s[0]) then None
    else
      var next := acc * 10 + DigitValue(s[0]);
      if next > U32_MAX then None else Accumulate(next, s[1..])
  }

  function StripPlus(s: string): string {
    if |s| > 1 && s[0] == '+' then s[1..] else s
  }

  /** `u32::from_str_radix(_, 10)`: an optional plus sign, then digits; checked arithmetic. */
  function ParseU32(s: string): Option<u32> {
    if s == "" then None else Accumulate(0, StripPlus(s))
  }

  /** The texts that denote a number: an optional plus sign and decimal digits below 2^32. */
  predicate IsNumeric(s: string) {
    var d := StripPlus(s);
    IsDigits(d) && Value(d) <= U32_MAX
  }

  lemma DigitsAppend(a: string, b: string)
    ensures AllDigits(a + b) <==> AllDigits(a) && AllDigits(b)
  {
    if AllDigits(a + b) {
      assert forall i | 0 <= i < |a| :: a[i] == (a + b)[i];
      assert forall i | 0 <= i < |b| :: b[i] == (a + b)[|a| + i];
    }
  }

  lemma ValueOfAppend(done: string, c: char)
    requires AllDigits(done) && IsDigit(c)
    ensures AllDigits(done + [c]) && Value(done + [c]) == Value(done) * 10 + DigitValue(c)
  {
    assert (done + [c])[..|done|] == done;
  }

  lemma {:induction false} ValueGrows(a: string, b: string)
    requires AllDigits(a) && AllDigits(b)
    ensures AllDigits(a + b) && Value(a) <= Value(a + b)
    decreases |b|
  {
    if b == "" {
      assert a + b == a;
    } else {
      var front, last := b[..|b| - 1], b[|b| - 1];
      ValueGrows(a, front);
      ValueOfAppend(a + front, last);
      assert a + front + [last] == a + b;
    }
  }

  /** Checking the bound at every digit accepts the same texts as checking it once at the end. */
  lemma {:induction false} AccumulateIsValue(done: string, s: string)
    requires AllDigits(done) && Value(done) <= U32_MAX
    ensures Accumulate(Value(done), s) ==
            if AllDigits(done + s) && Value(done + s) <= U32_MAX then Some(Value(done + s)) else None
    decreases |s|
  {
    DigitsAppend(done, s);
    if s == "" {
      assert done + s == done;
    } else if IsDigit(s[0]) {
      var more := done + [s[0]];
      ValueOfAppend(done, s[0]);
      assert more + s[1..] == done + s;
      if Value(more) <= U32_MAX {
        AccumulateIsValue(more, s[1..]);
      } else if AllDigits(s) {
        ValueGrows(more, s[1..]);
      }
    }
  }

  lemma ParseU32Exact(s: string)
    ensures ParseU32(s) == if IsNumeric(s) then Some(Value(StripPlus(s))) else None
  {
    if s != "" {
      AccumulateIsValue("", StripPlus(s));
      assert "" + StripPlus(s) == StripPlus(s);
    }
  }

  /** The same without an auxiliary function: a number is a non-empty text of decimal digits, possibly
      after one plus sign, with a value below 2^32. */
  lemma NumberExactly(s: string, n: u32)
    ensures ParseU32(s) == Some(n) <==>
            exists d: string :: d != "" && AllDigits(d) && Value(d) == n && (s == d || s == "+" + d)
  {
    ParseU32Exact(s);
    if ParseU32(s) == Some(n) {
      var d := StripPlus(s);
      assert d != "" && AllDigits(d) && Value(d) == n && (s == d || s == "+" + d);
    }
    if d: string :| d != "" && AllDigits(d) && Value(d) == n && (s == d || s == "+" + d) {
      assert IsDigit(d[0]) && !IsDigit('+');
      assert StripPlus(s) == d;
    }
  }

  function PrintNat(n: nat): (s: string)
    ensures IsDigits(s) && Value(s) == n
    ensures |s| > 1 ==> s[0] != '0'
  {
    var last := ['0' + (n % 10) as char];
    if n < 10 then
      assert last[..0] == "";
      last
    else
      var front := PrintNat(n / 10);
      assert (front + last)[..|front|] == front;
      front + last
  }

  lemma PrintNatParses(n: nat)
    requires n <= U32_MAX
    ensures ParseU32(PrintNat(n)) == Some(n)
    ensures ':' !in PrintNat(n)
  {
    ParseU32Exact(PrintNat(n));
    assert IsDigit(PrintNat(n)[0]);
  }

  // ---------------------------------------------------------------- user specifications

  datatype Id = Name(name: string) | Id(id: u32)

  datatype UserConfig = UserConfig(uid: Id, gid: Option<Id>)

  function ParseId(s: string): Id {
    match ParseU32(s)
    case Some(n) => Id(n)
    case None => Name(s)
  }

  function PrintId(id: Id): string {
    match id
    case Name(n) => n
    case Id(v) => PrintNat(v)
  }

  function ParseUser(s: string): UserConfig {
    match SplitOnce(s, ':')
    case Some((uid, gid)) => UserConfig(ParseId(uid), Some(ParseId(gid)))
    case None => UserConfig(ParseId(s), None)
  }

  function PrintUser(u: UserConfig): string {
    match u.gid
    case Some(gid) => PrintId(u.uid) + ":" + PrintId(gid)
    case None => PrintId(u.uid)
  }

  /** Ids the parser can produce: a name that does not read as a number, or any number. */
  predicate CanonicalId(id: Id) {
    id.Name? ==> !IsNumeric(id.name)
  }

  /** Specifications the parser can produce. */
  predicate CanonicalUser(u: UserConfig) {
    && CanonicalId(u.uid)
    && (u.uid.Name? ==> ':' !in u.uid.name)
    && (u.gid.Some? ==> CanonicalId(u.gid.value))
  }

  /** A text is a numeric id exactly when it is an optional plus sign and decimal digits with a
      value of at most 2^32 - 1; anything else is a name, unchanged. */
  lemma ParseIdExact(s: string)
    ensures IsNumeric(s) ==> ParseId(s) == Id(Value(StripPlus(s)))
    ensures !IsNumeric(s) ==> ParseId(s) == Name(s)
    ensures CanonicalId(ParseId(s))
    ensures IsDigits(s) ==> ParseId(s) == if Value(s) <= 4294967295 then Id(Value(s)) else Name(s)
  {
    ParseU32Exact(s);
  }

  /** The user comes before the first colon and the group after it. */
  lemma UserFields(a: string, b: string)
    requires ':' !in a
    ensures var u := ParseUser(a + ":" + b);
            && u.gid.Some?
            && u.uid == (if IsNumeric(a) then Id(Value(StripPlus(a))) else Name(a))
            && u.gid.value == (if IsNumeric(b) then Id(Value(StripPlus(b))) else Name(b))
    ensures ParseUser(a) == UserConfig(if IsNumeric(a) then Id(Value(StripPlus(a))) else Name(a), None)
    ensures PrintUser(UserConfig(Name(a), None)) == a
    ensures PrintUser(UserConfig(Name(a), Some(Name(b)))) == a + ":" + b
  {
    SplitOnceUnique(a, ':', b);
    ParseIdExact(a);
    ParseIdExact(b);
  }

  lemma IdRoundTrip(id: Id)
    ensures ParseId(PrintId(id)) == id <==> CanonicalId(id)
  {
    match id
    case Name(n) => ParseIdExact(n);
    case Id(v) => PrintNatParses(v);
  }

  lemma ParseIsCanonical(s: string)
    ensures CanonicalUser(ParseUser(s))
  {
    match SplitOnce(s, ':')
    case Some((uid, gid)) => ParseIdExact(uid); ParseIdExact(gid);
    case None => ParseIdExact(s);
  }

  /** Printing then parsing is the identity exactly on the values the parser can produce. */
  lemma UserPrintParse(u: UserConfig)
    ensures ParseUser(PrintUser(u)) == u <==> CanonicalUser(u)
  {
    if ParseUser(PrintUser(u)) == u {
      ParseIsCanonical(PrintUser(u));
    }
    if CanonicalUser(u) {
      IdRoundTrip(u.uid);
      var uid := PrintId(u.uid);
      assert ':' !in uid by {
        if u.uid.Id? { PrintNatParses(u.uid.id); }
      }
      match u.gid
      case Some(gid) => IdRoundTrip(gid); SplitOnceUnique(uid, ':', PrintId(gid));
      case None =>
    }
  }

  /** The canonical values are exactly the image of the parser. */
  lemma CanonicalIsParserImage(u: UserConfig)
    ensures CanonicalUser(u) <==> exists s :: ParseUser(s) == u
  {
    if CanonicalUser(u) {
      UserPrintParse(u);
      assert ParseUser(PrintUser(u)) == u;
    }
    if s :| ParseUser(s) == u {
      ParseIsCanonical(s);
    }
  }

  /** Parsing, printing and parsing again changes nothing, for every text. */
  lemma UserParseStable(s: string)
    ensures ParseUser(PrintUser(ParseUser(s))) == ParseUser(s)
  {
    ParseIsCanonical(s);
    UserPrintParse(ParseUser(s));
  }

  // ---------------------------------------------------------------- image documents

  /** The parts of a container configuration that the installer and the launcher use. */
  datatype LaunchConfig = LaunchConfig(
    env: seq<string>, cmd: seq<string>, entrypoint: Option<seq<string>>,
    user: Option<UserConfig>, pwd: Option<string>)

  datatype ContainerConfig = ContainerConfig(arch: string, diffIds: seq<Digest>, config: LaunchConfig)

  datatype ImageManifest = ImageManifest(config: string, layers: seq<string>)
}
