/** The two input validators of `src/utils/validation.js`; `isValidPassword`
    is also repeated verbatim in both authentication modules. Each regular
    expression test becomes a scan over the string, and each scan is tied to
    the meaning of the expression by its contract. */
module Validation {

  import opened Common

  predicate IsLowerAscii(c: char) { 'a' <= c <= 'z' }
  predicate IsUpperAscii(c: char) { 'A' <= c <= 'Z' }
  predicate IsDigitAscii(c: char) { '0' <= c <= '9' }
  predicate IsAlnumAscii(c: char) { IsLowerAscii(c) || IsUpperAscii(c) || IsDigitAscii(c) }

  /** The characters JavaScript's `\s` class matches. */
  predicate IsJsSpace(c: char) {
    || c == '\t' || c == '\n' || c == '\U{000B}' || c == '\U{000C}' || c == '\r' || c == ' '
    || c == '\U{00A0}' || c == '\U{1680}' || ('\U{2000}' <= c <= '\U{200A}')
    || c == '\U{2028}' || c == '\U{2029}' || c == '\U{202F}' || c == '\U{205F}'
    || c == '\U{3000}' || c == '\U{FEFF}'
  }

  /** The one-character classes the password rules test for. */
  datatype CharClass = Lower | Upper | Digit | NonAlnum

  predicate InClass(c: char, cls: CharClass) {
    match cls
    case Lower => IsLowerAscii(c)
    case Upper => IsUpperAscii(c)
    case Digit => IsDigitAscii(c)
    case NonAlnum => !IsAlnumAscii(c)
  }

  /** `/[class]/.test(s)`: a left-to-right search for one matching character. */
  function ContainsClass(s: string, cls: CharClass): (found: bool)
    ensures found <==> exists i :: 0 <= i < |s| && InClass(s[i], cls)
  {
    if s == [] then false
    else if InClass(s[0], cls) then true
    else
      var rest := ContainsClass(s[1..], cls);
      assert forall i :: 1 <= i < |s| ==> s[i] == s[1..][i - 1];
      rest
  }

  /** `s.length` in JavaScript counts UTF-16 code units: a character outside
      the Basic Multilingual Plane counts twice. */
  function Utf16Length(s: string): (n: nat)
    ensures |s| <= n <= 2 * |s|
  {
    if s == [] then 0
    else (if s[0] as int >= 0x1_0000 then 2 else 1) + Utf16Length(s[1..])
  }

  /** `isValidPassword`: the five early returns of the source, in order. */
  function IsValidPassword(password: string): (ok: bool)
    ensures ok <==>
      && Utf16Length(password) >= 10
      && (exists i :: 0 <= i < |password| && IsLowerAscii(password[i]))
      && (exists i :: 0 <= i < |password| && IsUpperAscii(password[i]))
      && (exists i :: 0 <= i < |password| && IsDigitAscii(password[i]))
      && (exists i :: 0 <= i < |password| && !IsAlnumAscii(password[i]))
  {
    if Utf16Length(password) < 10 then false
    else if !ContainsClass(password, Lower) then false
    else if !ContainsClass(password, Upper) then false
    else if !ContainsClass(password, Digit) then false
    else if !ContainsClass(password, NonAlnum) then false
    else true
  }

  /** Long enough, with a witness of each kind: accepted. */
  lemma AcceptedWith(p: string, lower: nat, upper: nat, digit: nat, other: nat)
    requires Utf16Length(p) >= 10
    requires lower < |p| && upper < |p| && digit < |p| && other < |p|
    requires IsLowerAscii(p[lower]) && IsUpperAscii(p[upper]) && IsDigitAscii(p[digit]) && !IsAlnumAscii(p[other])
    ensures IsValidPassword(p)
  {
  }

  /** Ten characters with all four kinds pass; leaving out the upper-case
      letter, or one character, fails. */
  lemma StrongPasswordAccepted()
    ensures IsValidPassword("Abcdefgh1!")
  {
    AllBmp("Abcdefgh1!");
    AcceptedWith("Abcdefgh1!", 1, 0, 8, 9);
  }

  lemma NoUpperCaseRejected()
    ensures !IsValidPassword("abcdefgh1!")
  {
    var p := "abcdefgh1!";
    assert forall i :: 0 <= i < |p| ==> !IsUpperAscii(p[i]);
  }

  lemma NineCharactersRejected()
    ensures !IsValidPassword("Abcdefg1!")
  {
    AllBmp("Abcdefg1!");
  }

  /** Without characters outside the Basic Multilingual Plane, the JavaScript
      length is the character count. */
  lemma {:induction false} AllBmp(s: string)
    requires forall i :: 0 <= i < |s| ==> s[i] as int < 0x1_0000
    ensures Utf16Length(s) == |s|
  {
    if s != [] {
      AllBmp(s[1..]);
    }
  }

  /** Seven characters can reach the length rule when three of them are
      outside the Basic Multilingual Plane. */
  lemma AstralCharactersCountTwice()
    ensures IsValidPassword("Aa1!\U{1F600}\U{1F600}\U{1F600}")
  {
    var p := "Aa1!\U{1F600}\U{1F600}\U{1F600}";
    assert p[0] == 'A' && p[1] == 'a' && p[2] == '1' && p[3] == '!';
    assert p[1..][1..][1..][1..] == "\U{1F600}\U{1F600}\U{1F600}";
  }

  /** `[^\s@]`: a character a part of an address may contain. */
  predicate IsAddressChar(c: char) {
    !IsJsSpace(c) && c != '@'
  }

  predicate AllAddressChars(s: string) {
    forall i :: 0 <= i < |s| ==> IsAddressChar(s[i])
  }

  /** What `/^[^\s@]+@[^\s@]+\.[^\s@]+$/` accepts: a non-empty local part,
      `@`, a non-empty domain, a dot and a non-empty top-level part, none of
      the three parts holding whitespace or `@` (the domain and the last part
      may hold dots). */
  ghost predicate EmailShape(s: string) {
    exists k, j :: 0 < k && k + 1 < j && j + 1 < |s| && s[k] == '@' && s[j] == '.'
      && AllAddressChars(s[..k]) && AllAddressChars(s[k + 1..j]) && AllAddressChars(s[j + 1..])
  }

  /** The position of the first `c` in `s`, if any. */
  function IndexOf(s: string, c: char): (r: Option<nat>)
    ensures r.None? <==> forall i :: 0 <= i < |s| ==> s[i] != c
    ensures r.Some? ==> r.value < |s| && s[r.value] == c
    ensures r.Some? ==> forall i :: 0 <= i < r.value ==> s[i] != c
  {
    if s == [] then None
    else if s[0] == c then Some(0)
    else
      match IndexOf(s[1..], c)
      case None => None
      case Some(k) => Some(k + 1)
  }

  /** `isValidEmail`: the regular expression decided in one pass. The local
      part is everything before the first `@`; after it there must be no
      further `@`, no whitespace, and a dot that is neither first nor last. */
  function IsValidEmail(email: string): (accepted: bool)
    ensures accepted ==> 5 <= |email| && IsAddressChar(email[0]) && IsAddressChar(email[|email| - 1])
  {
    match IndexOf(email, '@')
    case None => false
    case Some(k) =>
      var rest := email[k + 1..];
      && 0 < k && AllAddressChars(email[..k]) && AllAddressChars(rest)
      && 3 <= |rest| && '.' in rest[1..|rest| - 1]
  }

  lemma {:induction false} AddressCharsSlice(s: string, a: nat, b: nat)
    requires a <= b <= |s| && AllAddressChars(s)
    ensures AllAddressChars(s[a..b])
  {
    forall i | 0 <= i < b - a ensures IsAddressChar(s[a..b][i]) {
      assert s[a..b][i] == s[a + i];
    }
  }

  lemma {:induction false} AddressCharsJoin(x: string, c: char, y: string)
    requires AllAddressChars(x) && IsAddressChar(c) && AllAddressChars(y)
    ensures AllAddressChars(x + [c] + y)
  {
    var s := x + [c] + y;
    forall i | 0 <= i < |s| ensures IsAddressChar(s[i]) {
      if i < |x| {
        assert s[i] == x[i];
      } else if i > |x| {
        assert s[i] == y[i - |x| - 1];
      }
    }
  }

  lemma AcceptedHasShape(email: string)
    requires IsValidEmail(email)
    ensures EmailShape(email)
  {
    var k := IndexOf(email, '@').value;
    var rest := email[k + 1..];
    assert 0 < k && AllAddressChars(email[..k]) && AllAddressChars(rest);
    assert 3 <= |rest| && '.' in rest[1..|rest| - 1];
    var inner := rest[1..|rest| - 1];
    var m :| 0 <= m < |inner| && inner[m] == '.';
    var j := k + 2 + m;
    assert email[j] == rest[m + 1] == inner[m];
    AddressCharsSlice(rest, 0, m + 1);
    AddressCharsSlice(rest, m + 2, |rest|);
    assert email[k + 1..j] == rest[..m + 1];
    assert email[j + 1..] == rest[m + 2..];
    assert 0 < k && k + 1 < j && j + 1 < |email| && email[k] == '@' && email[j] == '.'
      && AllAddressChars(email[..k]) && AllAddressChars(email[k + 1..j]) && AllAddressChars(email[j + 1..]);
  }

  /** An `@` after a run of address characters is the first one. */
  lemma FirstAt(email: string, k: nat)
    requires k < |email| && email[k] == '@' && AllAddressChars(email[..k])
    ensures IndexOf(email, '@') == Some(k)
  {
    forall i | 0 <= i < k ensures email[i] != '@' {
      assert email[..k][i] == email[i];
    }
  }

  /** A domain, a dot and a last part make an acceptable rest of address. */
  lemma RestAccepted(domain: string, last: string)
    requires domain != [] && last != []
    requires AllAddressChars(domain) && AllAddressChars(last)
    ensures var rest := domain + ['.'] + last;
      AllAddressChars(rest) && 3 <= |rest| && '.' in rest[1..|rest| - 1]
  {
    var rest := domain + ['.'] + last;
    AddressCharsJoin(domain, '.', last);
    assert rest[1..|rest| - 1][|domain| - 1] == '.';
  }

  /** The three parts at positions `k` and `j` make an accepted address. */
  lemma AcceptedAt(email: string, k: nat, j: nat)
    requires 0 < k && k + 1 < j && j + 1 < |email| && email[k] == '@' && email[j] == '.'
    requires AllAddressChars(email[..k]) && AllAddressChars(email[k + 1..j]) && AllAddressChars(email[j + 1..])
    ensures IsValidEmail(email)
  {
    FirstAt(email, k);
    RestAccepted(email[k + 1..j], email[j + 1..]);
    CutAt(email, k + 1, j);
  }

  lemma ShapeIsAccepted(email: string)
    requires EmailShape(email)
    ensures IsValidEmail(email)
  {
    var k, j :| 0 < k && k + 1 < j && j + 1 < |email| && email[k] == '@' && email[j] == '.'
      && AllAddressChars(email[..k]) && AllAddressChars(email[k + 1..j]) && AllAddressChars(email[j + 1..]);
    AcceptedAt(email, k, j);
  }

  /** The decision procedure accepts exactly the strings of the regular
      expression. */
  lemma EmailMatchesPattern(email: string)
    ensures IsValidEmail(email) <==> EmailShape(email)
  {
    if IsValidEmail(email) {
      AcceptedHasShape(email);
    }
    if EmailShape(email) {
      ShapeIsAccepted(email);
    }
  }

  /** A valid address holds no whitespace and exactly one `@`. */
  lemma ValidEmailHasOneAt(email: string)
    requires IsValidEmail(email)
    ensures forall i :: 0 <= i < |email| ==> !IsJsSpace(email[i])
    ensures exists k :: (0 <= k < |email| && email[k] == '@'
                         && forall i :: 0 <= i < |email| && email[i] == '@' ==> i == k)
  {
    var k := IndexOf(email, '@').value;
    var rest := email[k + 1..];
    forall i | 0 <= i < |email|
      ensures !IsJsSpace(email[i])
      ensures email[i] == '@' ==> i == k
    {
      if i < k {
        assert email[..k][i] == email[i];
      } else if i > k {
        assert rest[i - k - 1] == email[i];
      }
    }
  }

  /** The domain may itself hold dots. */
  lemma MultiDotDomainAccepted()
    ensures IsValidEmail("a@b.c.d")
  {
    var e := "a@b.c.d";
    assert e[..1] == "a" && e[2..3] == "b" && e[4..] == "c.d";
    assert IsAddressChar('a') && IsAddressChar('b') && IsAddressChar('c') && IsAddressChar('.') && IsAddressChar('d');
    assert AllAddressChars("a") && AllAddressChars("b") && AllAddressChars("c.d");
    AcceptedAt(e, 1, 3);
  }

  /** A domain whose only dot is its first or its last character is refused. */
  lemma EdgeDotRejected()
    ensures !IsValidEmail("a@.b")
    ensures !IsValidEmail("a@b.")
  {
    assert IndexOf("a@.b", '@') == Some(1);
    assert IndexOf("a@b.", '@') == Some(1);
  }

  lemma MissingPartsRejected()
    ensures !IsValidEmail("a@b")
    ensures !IsValidEmail("@b.c")
  {
    assert IndexOf("a@b", '@') == Some(1);
    assert IndexOf("@b.c", '@') == Some(0);
  }

  lemma SecondAtRejected()
    ensures !IsValidEmail("a@b@c.d")
  {
    var e := "a@b@c.d";
    assert IndexOf(e, '@') == Some(1);
    assert e[2..][1] == '@';
  }
}
