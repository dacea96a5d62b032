/**
 * The request validators of backend/src/utils/validators.js.  Arguments that
 * are not of the expected JavaScript type are modelled by `Option` (`None`
 * for a missing or non-string value) or by `JsValues.Number` (`NaN` for a value
 * that does not convert to a number).
 */
module Validators {
  import opened Wrappers
  import opened JsValues

  /** The characters `\s` matches in an ECMAScript regular expression (WhiteSpace
      and LineTerminator); `String.prototype.trim` removes the same set. */
  predicate IsSpace(c: char) {
    || ('\t' <= c <= '\r')   // tab, line feed, vertical tab, form feed, carriage return
    || c == ' ' || c == '\U{00A0}' || c == '\U{1680}'
    || ('\U{2000}' <= c <= '\U{200A}')
    || c == '\U{2028}' || c == '\U{2029}' || c == '\U{202F}' || c == '\U{205F}'
    || c == '\U{3000}' || c == '\U{FEFF}'
  }

  /** A non-empty run of the class `[^\s@]`. */
  predicate EmailPart(s: string) {
    |s| > 0 && forall i :: 0 <= i < |s| ==> !IsSpace(s[i]) && s[i] != '@'
  }

  /** The language of `^[^\s@]+@[^\s@]+\.[^\s@]+$`, stated as a decomposition. */
  ghost predicate MatchesEmailPattern(s: string) {
    exists a: string, b: string, c: string {:trigger a + "@" + b + "." + c} ::
      s == a + "@" + b + "." + c && EmailPart(a) && EmailPart(b) && EmailPart(c)
  }

  /** A domain `b.c`: a run of `[^\s@]` with a dot that is neither first nor last. */
  predicate IsDomain(d: string) {
    EmailPart(d) && exists j :: 1 <= j < |d| - 1 && d[j] == '.'
  }

  /** `isEmail(email)`: a local part, the only `@`, then a dotted domain. */
  predicate IsEmail(s: string) {
    exists k :: 0 <= k < |s| && s[k] == '@' && EmailPart(s[..k]) && IsDomain(s[k + 1..])
  }

  lemma EmailPartSplit(b: string, c: string)
    requires EmailPart(b) && EmailPart(c)
    ensures IsDomain(b + "." + c)
  {
    var d := b + "." + c;
    assert d[|b|] == '.';
    forall i | 0 <= i < |d| ensures !IsSpace(d[i]) && d[i] != '@' {
      if i < |b| { assert d[i] == b[i]; }
      else if i > |b| { assert d[i] == c[i - |b| - 1]; }
    }
  }

  /** Both sides of a cut inside a run of `[^\s@]` are runs of `[^\s@]`. */
  lemma EmailPartSlices(d: string, j: nat)
    requires EmailPart(d) && 0 < j < |d| - 1
    ensures EmailPart(d[..j]) && EmailPart(d[j + 1..])
  {
    var b, c := d[..j], d[j + 1..];
    forall i | 0 <= i < |b| ensures !IsSpace(b[i]) && b[i] != '@' { assert b[i] == d[i]; }
    forall i | 0 <= i < |c| ensures !IsSpace(c[i]) && c[i] != '@' { assert c[i] == d[j + 1 + i]; }
  }

  lemma EmailToPattern(s: string)
    requires IsEmail(s)
    ensures MatchesEmailPattern(s)
  {
    var k :| 0 <= k < |s| && s[k] == '@' && EmailPart(s[..k]) && IsDomain(s[k + 1..]);
    var d := s[k + 1..];
    var j :| 1 <= j < |d| - 1 && d[j] == '.';
    var a, b, c := s[..k], d[..j], d[j + 1..];
    EmailPartSlices(d, j);
    var t := a + "@" + b + "." + c;
    forall i | 0 <= i < |s| ensures s[i] == t[i] {
      if k < i { assert s[i] == d[i - k - 1]; }
    }
    assert s == t;
    PatternWitness(a, b, c);
  }

  lemma PatternWitness(a: string, b: string, c: string)
    requires EmailPart(a) && EmailPart(b) && EmailPart(c)
    ensures MatchesEmailPattern(a + "@" + b + "." + c)
  {
  }

  lemma PatternToEmail(s: string, a: string, b: string, c: string)
    requires s == a + "@" + b + "." + c && EmailPart(a) && EmailPart(b) && EmailPart(c)
    ensures IsEmail(s)
  {
    var k := |a|;
    assert s[k] == '@';
    assert s[..k] == a;
    assert s[k + 1..] == b + "." + c;
    EmailPartSplit(b, c);
  }

  /** `isEmail` accepts exactly the strings of the regular expression. */
  lemma IsEmailMatchesPattern(s: string)
    ensures IsEmail(s) <==> MatchesEmailPattern(s)
  {
    if IsEmail(s) {
      EmailToPattern(s);
    }
    if MatchesEmailPattern(s) {
      var a: string, b: string, c: string :|
        s == a + "@" + b + "." + c && EmailPart(a) && EmailPart(b) && EmailPart(c);
      PatternToEmail(s, a, b, c);
    }
  }

  /** An accepted address has exactly one `@`, with a non-empty part on each side. */
  lemma OneAtSign(s: string)
    requires IsEmail(s)
    ensures exists k :: 0 <= k < |s| && s[k] == '@' &&
                        (forall i :: 0 <= i < |s| && i != k ==> s[i] != '@') && 0 < k < |s| - 1
  {
    var k :| 0 <= k < |s| && s[k] == '@' && EmailPart(s[..k]) && IsDomain(s[k + 1..]);
    forall i | 0 <= i < |s| && i != k ensures s[i] != '@' {
      if i < k { assert s[i] == s[..k][i]; } else { assert s[i] == s[k + 1..][i - k - 1]; }
    }
  }

  /** `s.length` in JavaScript: UTF-16 code units, so a character above U+FFFF
      (a surrogate pair) counts twice. */
  function Utf16Length(s: string): (n: nat)
    ensures |s| <= n <= 2 * |s|
  {
    if s == [] then 0 else Utf16Length(s[..|s| - 1]) + (if s[|s| - 1] as int > 0xFFFF then 2 else 1)
  }

  /** A string within the Basic Multilingual Plane has one code unit per character. */
  lemma {:induction false} Utf16LengthBmp(s: string)
    requires forall i :: 0 <= i < |s| ==> s[i] as int <= 0xFFFF
    ensures Utf16Length(s) == |s|
    decreases |s|
  {
    if s != [] {
      var pre := s[..|s| - 1];
      assert forall i :: 0 <= i < |pre| ==> pre[i] == s[i];
      Utf16LengthBmp(pre);
    }
  }

  /** `isStrongPassword(password)`: a password is present and its JavaScript
      `length` is at least six. */
  predicate IsStrongPassword(password: Option<string>) {
    match password
    case None => false
    case Some(p) => Utf16Length(p) >= 6
  }

  /** `isValidPrice(price)`: numeric and not negative. */
  predicate IsValidPrice(price: Number) {
    !price.NaN? && price.x >= 0.0
  }

  /** `isValidQuantity(quantity)`: an integer greater than zero. */
  predicate IsValidQuantity(quantity: Number) {
    IsInteger(quantity) && quantity.x > 0.0
  }

  /** The JavaScript number for a count of units. */
  function Units(n: nat): Number {
    Num(n as real)
  }

  /** A valid quantity is exactly a positive whole number of units. */
  lemma ValidQuantityIsCount(quantity: Number)
    ensures IsValidQuantity(quantity) <==> exists n: nat :: n >= 1 && quantity == Units(n)
  {
    if IsValidQuantity(quantity) {
      var n := quantity.x.Floor;
      assert n >= 1;
      assert quantity == Units(n as nat);
    }
  }

  /** The thresholds: six characters is the shortest strong password, zero the
      smallest valid price; a missing password and `NaN` are refused, and every
      valid quantity is also a valid price. */
  lemma ValidatorBoundaries(quantity: Number)
    ensures IsStrongPassword(Some("abcdef")) && !IsStrongPassword(Some("abcde")) && !IsStrongPassword(None)
    ensures IsValidPrice(Num(0.0)) && !IsValidPrice(Num(-0.01)) && !IsValidPrice(NaN)
    ensures IsValidQuantity(quantity) ==> IsValidPrice(quantity)
  {
    Utf16LengthBmp("abcdef");
    Utf16LengthBmp("abcde");
  }

  /** Three emoji make a strong password: each is two code units in JavaScript. */
  lemma AstralPasswordIsStrong()
    ensures |"\U{1F600}\U{1F600}\U{1F600}"| == 3
    ensures IsStrongPassword(Some("\U{1F600}\U{1F600}\U{1F600}"))
  {
    var s := "\U{1F600}\U{1F600}\U{1F600}";
    assert s[..2][..1] == s[..1] && s[..3][..2] == s[..2] && s[..1][..0] == [];
  }

  /** Leading whitespace removed. */
  function TrimStart(s: string): (r: string)
    ensures |r| <= |s| && r == s[|s| - |r|..]
    ensures forall i :: 0 <= i < |s| - |r| ==> IsSpace(s[i])
    ensures r == [] || !IsSpace(r[0])
  {
    if s != [] && IsSpace(s[0]) then TrimStart(s[1..]) else s
  }

  /** Trailing whitespace removed. */
  function TrimEnd(s: string): (r: string)
    ensures |r| <= |s| && r == s[..|r|]
    ensures forall i :: |r| <= i < |s| ==> IsSpace(s[i])
    ensures r == [] || !IsSpace(r[|r| - 1])
  {
    if s != [] && IsSpace(s[|s| - 1]) then TrimEnd(s[..|s| - 1]) else s
  }

  /** `String.prototype.trim`. */
  function Trim(s: string): (r: string)
    ensures r == [] || (!IsSpace(r[0]) && !IsSpace(r[|r| - 1]))
    ensures exists i, j :: 0 <= i <= j <= |s| && r == s[i..j] &&
                           (forall k :: 0 <= k < i ==> IsSpace(s[k])) &&
                           (forall k :: j <= k < |s| ==> IsSpace(s[k]))
  {
    var t := TrimStart(s);
    TrimBothEnds(s, t, TrimEnd(t));
    TrimEnd(t)
  }

  /** Whitespace cut off the start (`t`) and then off the end (`r`) leaves a
      slice of `s` with whitespace on both sides of it and none at its ends. */
  lemma TrimBothEnds(s: string, t: string, r: string)
    requires |t| <= |s| && t == s[|s| - |t|..] && (t == [] || !IsSpace(t[0]))
    requires forall i :: 0 <= i < |s| - |t| ==> IsSpace(s[i])
    requires |r| <= |t| && r == t[..|r|] && (r == [] || !IsSpace(r[|r| - 1]))
    requires forall i :: |r| <= i < |t| ==> IsSpace(t[i])
    ensures r == [] || (!IsSpace(r[0]) && !IsSpace(r[|r| - 1]))
    ensures exists i, j :: 0 <= i <= j <= |s| && r == s[i..j] &&
                           (forall k :: 0 <= k < i ==> IsSpace(s[k])) &&
                           (forall k :: j <= k < |s| ==> IsSpace(s[k]))
  {
    var i := |s| - |t|;
    var j := i + |r|;
    assert r == [] || r[0] == t[0];
    assert r == s[i..j];
    forall k | j <= k < |s| ensures IsSpace(s[k]) { assert s[k] == t[k - i]; }
  }

  /** `sanitizeString(str)`: the empty string for a non-string, otherwise the trimmed string. */
  function SanitizeString(str: Option<string>): string {
    match str
    case None => ""
    case Some(s) => Trim(s)
  }

  lemma TrimStartFixed(s: string)
    requires s == [] || !IsSpace(s[0])
    ensures TrimStart(s) == s
  {
  }

  lemma TrimEndFixed(s: string)
    requires s == [] || !IsSpace(s[|s| - 1])
    ensures TrimEnd(s) == s
  {
  }

  /** Sanitizing twice is the same as sanitizing once. */
  lemma SanitizeIdempotent(str: Option<string>)
    ensures SanitizeString(Some(SanitizeString(str))) == SanitizeString(str)
  {
    var r := SanitizeString(str);
    TrimStartFixed(r);
    TrimEndFixed(r);
  }
}
