/** The pure helpers of utils.py: Python's `str.strip()` / `str.lower()` as
    the handlers apply them to form fields, the e-mail and password regular
    expressions, the password hash interface, and `check_permission`. */
module Utils {
  import opened Models

  // ----- str.strip() -----

  /** Python's `str.isspace()`, which is what `str.strip()` with no
      argument removes: the ASCII controls 9-13 and 28-31, the space, and the
      Unicode separators U+0085, U+00A0, U+1680, U+2000-U+200A, U+2028,
      U+2029, U+202F, U+205F and U+3000. */
  predicate IsSpace(c: char) {
    || '\t' <= c <= '\r' || '\U{1c}' <= c <= ' ' || c == '\U{85}' || c == '\U{a0}' || c == '\U{1680}'
    || '\U{2000}' <= c <= '\U{200a}' || c == '\U{2028}' || c == '\U{2029}' || c == '\U{202f}' || c == '\U{205f}' || c == '\U{3000}'
  }

  predicate AllSpace(s: string) {
    forall k :: 0 <= k < |s| ==> IsSpace(s[k])
  }

  /** How many whitespace characters `s` starts with. */
  function LeadingSpaces(s: string): (n: nat)
    ensures n <= |s|
    ensures forall k :: 0 <= k < n ==> IsSpace(s[k])
    ensures n == |s| || !IsSpace(s[n])
  {
    if s != [] && IsSpace(s[0]) then 1 + LeadingSpaces(s[1..]) else 0
  }

  /** How many whitespace characters `s` ends with. */
  function TrailingSpaces(s: string): (n: nat)
    ensures n <= |s|
    ensures forall k :: |s| - n <= k < |s| ==> IsSpace(s[k])
    ensures n == |s| || !IsSpace(s[|s| - 1 - n])
  {
    if s != [] && IsSpace(s[|s| - 1]) then 1 + TrailingSpaces(s[..|s| - 1]) else 0
  }

  /** `r` is the slice of `s` starting at `a`, and everything of `s` around
      it is whitespace. */
  predicate TrimmedAt(s: string, a: nat, r: string) {
    a + |r| <= |s| && r == s[a..a + |r|]
    && (forall k :: 0 <= k < a ==> IsSpace(s[k]))
    && (forall k :: a + |r| <= k < |s| ==> IsSpace(s[k]))
  }

  /** `str.strip()`: the input without its leading and trailing whitespace. */
  function Strip(s: string): string {
    var a, b := LeadingSpaces(s), |s| - TrailingSpaces(s);
    if a < b then s[a..b] else []
  }

  /** What `str.strip()` promises: the result is a slice of the input with
      only whitespace cut away on either side, it neither starts nor ends
      with whitespace, and it is empty exactly for an all-whitespace input. */
  lemma StripSpec(s: string)
    ensures exists a :: TrimmedAt(s, a, Strip(s))
    ensures Strip(s) == [] || (!IsSpace(Strip(s)[0]) && !IsSpace(Strip(s)[|Strip(s)| - 1]))
    ensures Strip(s) == [] <==> AllSpace(s)
  {
    var a, b := LeadingSpaces(s), |s| - TrailingSpaces(s);
    if a < b {
      assert Strip(s) == s[a..b];
      assert TrimmedAt(s, a, s[a..b]);
      assert !IsSpace(s[a]);
    } else {
      assert Strip(s) == [];
      assert TrimmedAt(s, a, []);
    }
  }

  /** Stripping twice is stripping once. */
  lemma StripIdempotent(s: string)
    ensures Strip(Strip(s)) == Strip(s)
  {
    var r := Strip(s);
    StripSpec(s);
    if r != [] {
      assert LeadingSpaces(r) == 0;
      assert TrailingSpaces(r) == 0;
      assert r[0..|r|] == r;
    }
  }

  // ----- str.lower() -----

  predicate IsAsciiUpper(c: char) {
    'A' <= c <= 'Z'
  }

  function LowerChar(c: char): char {
    if IsAsciiUpper(c) then (c as int + 32) as char else c
  }

  /** `str.lower()`, on the ASCII letters. */
  function Lower(s: string): string {
    seq(|s|, k requires 0 <= k < |s| => LowerChar(s[k]))
  }

  /** Lower-casing keeps the length, turns each capital into the matching
      small letter, changes nothing else, and keeps every whitespace
      character where it was. */
  lemma LowerSpec(s: string)
    ensures |Lower(s)| == |s|
    ensures forall k :: 0 <= k < |s| ==> !IsAsciiUpper(Lower(s)[k])
    ensures forall k :: 0 <= k < |s| && IsAsciiUpper(s[k]) ==>
      'a' <= Lower(s)[k] <= 'z' && Lower(s)[k] as int - 'a' as int == s[k] as int - 'A' as int
    ensures forall k :: 0 <= k < |s| && !IsAsciiUpper(s[k]) ==> Lower(s)[k] == s[k]
    ensures forall k :: 0 <= k < |s| ==> (IsSpace(Lower(s)[k]) <==> IsSpace(s[k]))
  {
  }

  lemma LowerIdempotent(s: string)
    ensures Lower(Lower(s)) == Lower(s)
  {
  }

  /** The leading-whitespace count is fixed by its three properties. */
  lemma LeadingSpacesUnique(s: string, n: nat)
    requires n <= |s| && (forall k :: 0 <= k < n ==> IsSpace(s[k])) && (n == |s| || !IsSpace(s[n]))
    ensures LeadingSpaces(s) == n
  {
  }

  /** The trailing-whitespace count is fixed by its three properties. */
  lemma TrailingSpacesUnique(s: string, n: nat)
    requires n <= |s| && (forall k :: |s| - n <= k < |s| ==> IsSpace(s[k])) && (n == |s| || !IsSpace(s[|s| - 1 - n]))
    ensures TrailingSpaces(s) == n
  {
  }

  /** Lower-casing moves no whitespace, so both counts survive it. */
  lemma LowerKeepsSpaces(s: string)
    ensures LeadingSpaces(Lower(s)) == LeadingSpaces(s)
    ensures TrailingSpaces(Lower(s)) == TrailingSpaces(s)
  {
    LowerSpec(s);
    LeadingSpacesUnique(Lower(s), LeadingSpaces(s));
    TrailingSpacesUnique(Lower(s), TrailingSpaces(s));
  }

  lemma LowerSlice(s: string, a: nat, b: nat)
    requires a <= b <= |s|
    ensures Lower(s)[a..b] == Lower(s[a..b])
  {
  }

  /** Lower-casing and stripping commute, so `.strip().lower()` may be read
      either way round. */
  lemma StripLowerCommute(s: string)
    ensures Strip(Lower(s)) == Lower(Strip(s))
  {
    LowerKeepsSpaces(s);
    var a, b := LeadingSpaces(s), |s| - TrailingSpaces(s);
    if a < b {
      LowerSlice(s, a, b);
    } else {
      assert Lower([]) == [];
    }
  }

  /** How the handlers read an e-mail field: `.strip().lower()`. */
  function NormalizeEmail(s: string): string {
    Lower(Strip(s))
  }

  /** A normalised e-mail is its own normal form, and two addresses that
      differ only in ASCII letter case normalise alike. */
  lemma NormalizeEmailProperties(s: string, t: string)
    ensures NormalizeEmail(NormalizeEmail(s)) == NormalizeEmail(s)
    ensures Lower(s) == Lower(t) ==> NormalizeEmail(s) == NormalizeEmail(t)
  {
    StripLowerCommute(Strip(s));
    StripIdempotent(s);
    LowerIdempotent(Strip(s));
    StripLowerCommute(s);
    StripLowerCommute(t);
  }

  // ----- is_valid_email -----

  predicate IsAsciiAlnum(c: char) {
    ('a' <= c <= 'z') || ('A' <= c <= 'Z') || ('0' <= c <= '9')
  }

  /** `[a-zA-Z0-9_.+-]` */
  predicate LocalChar(c: char) {
    IsAsciiAlnum(c) || c == '_' || c == '.' || c == '+' || c == '-'
  }

  /** `[a-zA-Z0-9-]` */
  predicate DomainChar(c: char) {
    IsAsciiAlnum(c) || c == '-'
  }

  /** `[a-zA-Z0-9-.]` */
  predicate SuffixChar(c: char) {
    IsAsciiAlnum(c) || c == '-' || c == '.'
  }

  predicate AllLocal(s: string) {
    forall k :: 0 <= k < |s| ==> LocalChar(s[k])
  }

  predicate AllDomain(s: string) {
    forall k :: 0 <= k < |s| ==> DomainChar(s[k])
  }

  predicate AllSuffix(s: string) {
    forall k :: 0 <= k < |s| ==> SuffixChar(s[k])
  }

  /** The whole of `s` is in the language of
      `[a-zA-Z0-9_.+-]+@[a-zA-Z0-9-]+\.[a-zA-Z0-9-.]+`: a non-empty local
      part before an `@` at index `i`, a non-empty domain label before a `.`
      at index `j`, and a non-empty suffix to the end. */
  predicate EmailShape(s: string) {
    exists i, j | 0 < i < |s| && 0 < j < |s| :: EmailSplitAt(s, i, j)
  }

  /** `s` matches with its `@` at index `i` and the `.` after the domain
      label at index `j`. */
  predicate EmailSplitAt(s: string, i: nat, j: nat) {
    0 < i && i + 1 < j && j + 1 < |s| && s[i] == '@' && s[j] == '.'
    && AllLocal(s[..i]) && AllDomain(s[i + 1..j]) && AllSuffix(s[j + 1..])
  }

  /** `re.match` of `^...$`: Python's `$` also matches just before a final
      newline, so one trailing newline is accepted as well. */
  predicate IsValidEmail(s: string) {
    EmailShape(s) || (s != [] && s[|s| - 1] == '\n' && EmailShape(s[..|s| - 1]))
  }

  /** On a stripped string (as the handlers pass) only the shape matters. */
  lemma ValidEmailOfStripped(s: string)
    ensures IsValidEmail(Strip(s)) <==> EmailShape(Strip(s))
  {
  }

  /** Every local part, domain label and suffix of the right classes makes
      an address the pattern accepts. */
  lemma EmailFromParts(local: string, domain: string, suffix: string)
    requires local != [] && domain != [] && suffix != []
    requires AllLocal(local) && AllDomain(domain) && AllSuffix(suffix)
    ensures EmailShape(local + "@" + domain + "." + suffix)
  {
    var s := local + "@" + domain + "." + suffix;
    var i, j := |local|, |local| + 1 + |domain|;
    assert s[..i] == local;
    assert s[i + 1..j] == domain;
    assert s[j + 1..] == suffix;
    assert s[i] == '@' && s[j] == '.';
    assert EmailSplitAt(s, i, j) && 0 < i < |s| && 0 < j < |s|;
  }

  /** Index of the first occurrence of `c`. */
  function IndexOf(s: string, c: char): (k: nat)
    requires c in s
    ensures k < |s| && s[k] == c
    ensures forall m :: 0 <= m < k ==> s[m] != c
  {
    if s[0] == c then 0 else 1 + IndexOf(s[1..], c)
  }

  lemma IndexOfIs(s: string, c: char, i: nat)
    requires i < |s| && s[i] == c
    requires forall m :: 0 <= m < i ==> s[m] != c
    ensures c in s && IndexOf(s, c) == i
  {
    assert s[i] in s;
  }

  /** No character class of the pattern holds `@`, and the domain class
      holds no `.`: a match is always split at the first `@` and at the first
      `.` after it. */
  lemma EmailSplitIsFirst(s: string, i: nat, j: nat)
    requires EmailSplitAt(s, i, j)
    ensures '@' in s && IndexOf(s, '@') == i
    ensures '.' in s[i + 1..] && IndexOf(s[i + 1..], '.') == j - i - 1
  {
    forall m | 0 <= m < i ensures s[m] != '@' {
      assert s[..i][m] == s[m];
    }
    IndexOfIs(s, '@', i);
    var rest := s[i + 1..];
    forall m | 0 <= m < j - i - 1 ensures rest[m] != '.' {
      assert s[i + 1..j][m] == rest[m];
    }
    IndexOfIs(rest, '.', j - i - 1);
  }

  lemma EmailSplitParts(s: string, i: nat, j: nat)
    requires EmailSplitAt(s, i, j)
    ensures s == s[..i] + "@" + s[i + 1..j] + "." + s[j + 1..]
    ensures '.' !in s[i + 1..j]
  {
    assert s == s[..i] + [s[i]] + s[i + 1..j] + [s[j]] + s[j + 1..];
    assert !DomainChar('.');
  }

  /** Every string in the pattern's language splits as local `@` domain `.` suffix, at the
      first `@` and the first `.` after it. */
  function SplitEmail(s: string): (parts: (string, string, string))
    requires EmailShape(s)
    ensures s == parts.0 + "@" + parts.1 + "." + parts.2
    ensures parts.0 != [] && parts.1 != [] && parts.2 != []
    ensures AllLocal(parts.0) && AllDomain(parts.1) && AllSuffix(parts.2)
    ensures '@' !in parts.0 && '.' !in parts.1
  {
    var i0, j0 :| EmailSplitAt(s, i0, j0);
    EmailSplitIsFirst(s, i0, j0);
    EmailSplitParts(s, i0, j0);
    var i := IndexOf(s, '@');
    var j := i + 1 + IndexOf(s[i + 1..], '.');
    (s[..i], s[i + 1..j], s[j + 1..])
  }

  function CountChar(s: string, c: char): (n: nat)
    ensures n <= |s|
  {
    if s == [] then 0 else (if s[0] == c then 1 else 0) + CountChar(s[1..], c)
  }

  lemma {:induction false} CountCharConcat(a: string, b: string, c: char)
    ensures CountChar(a + b, c) == CountChar(a, c) + CountChar(b, c)
    decreases |a|
  {
    if a == [] {
      assert a + b == b;
    } else {
      assert (a + b)[0] == a[0];
      assert (a + b)[1..] == a[1..] + b;
      CountCharConcat(a[1..], b, c);
    }
  }

  lemma {:induction false} CountCharAbsent(s: string, c: char)
    requires c !in s
    ensures CountChar(s, c) == 0
    decreases |s|
  {
    if s != [] {
      CountCharAbsent(s[1..], c);
    }
  }

  lemma CountAtInParts(l: string, d: string, t: string)
    requires '@' !in l && '@' !in d && '@' !in t
    ensures CountChar(l + "@" + d + "." + t, '@') == 1
  {
    CountCharAbsent(l, '@');
    CountCharAbsent(d, '@');
    CountCharAbsent(t, '@');
    CountCharConcat(l + "@" + d + ".", t, '@');
    CountCharConcat(l + "@" + d, ".", '@');
    CountCharConcat(l + "@", d, '@');
    CountCharConcat(l, "@", '@');
  }

  /** Every string in the pattern's language has exactly one `@`, and a `.` somewhere after it. */
  lemma EmailHasOneAt(s: string)
    requires EmailShape(s)
    ensures CountChar(s, '@') == 1
    ensures exists i, j :: 0 <= i < j < |s| && s[i] == '@' && s[j] == '.'
  {
    var parts := SplitEmail(s);
    var l, d, t := parts.0, parts.1, parts.2;
    assert '@' !in d by { assert !DomainChar('@'); }
    assert '@' !in t by { assert !SuffixChar('@'); }
    CountAtInParts(l, d, t);
    assert s[|l|] == '@' && s[|l| + 1 + |d|] == '.';
  }

  // ----- is_valid_password -----

  /** `[!@#$%^&*()_+?|]` */
  predicate IsPasswordSymbol(c: char) {
    c in "!@#$%^&*()_+?|"
  }

  /** `.` matches anything but a newline, so a lookahead `.*X` / `.{n}` may
      not step over one. */
  predicate NoNewlineBefore(s: string, n: nat)
    requires n <= |s|
  {
    forall k :: 0 <= k < n ==> s[k] != '\n'
  }

  /** `(?=.*[A-Z])` at the start of `s`. */
  predicate UpperAhead(s: string) {
    exists i :: 0 <= i < |s| && IsAsciiUpper(s[i]) && NoNewlineBefore(s, i)
  }

  /** `(?=.*[!@#$%^&*()_+?|])` at the start of `s`. */
  predicate SymbolAhead(s: string) {
    exists i :: 0 <= i < |s| && IsPasswordSymbol(s[i]) && NoNewlineBefore(s, i)
  }

  /** `(?=.{8,})` at the start of `s`. */
  predicate LengthAhead(s: string) {
    |s| >= 8 && NoNewlineBefore(s, 8)
  }

  /** `re.match(r'^(?=.*[A-Z])(?=.*[!@#$%^&*()_+?|])(?=.{8,})', s)`: three
      lookaheads and nothing else, so no end anchor. */
  predicate IsValidPassword(s: string) {
    UpperAhead(s) && SymbolAhead(s) && LengthAhead(s)
  }

  predicate HasUpper(s: string) {
    exists i :: 0 <= i < |s| && IsAsciiUpper(s[i])
  }

  predicate HasSymbol(s: string) {
    exists i :: 0 <= i < |s| && IsPasswordSymbol(s[i])
  }

  /** The policy in plain terms: at least 8 characters, an ASCII capital and
      one of the listed symbols. It is exact on newline-free strings; with a
      newline the three must all occur before it. */
  lemma PasswordPolicy(s: string)
    ensures IsValidPassword(s) ==> |s| >= 8 && HasUpper(s) && HasSymbol(s)
    ensures '\n' !in s ==> (IsValidPassword(s) <==> |s| >= 8 && HasUpper(s) && HasSymbol(s))
  {
    if '\n' !in s && |s| >= 8 && HasUpper(s) && HasSymbol(s) {
      var i :| 0 <= i < |s| && IsAsciiUpper(s[i]);
      assert NoNewlineBefore(s, i);
      var j :| 0 <= j < |s| && IsPasswordSymbol(s[j]);
      assert NoNewlineBefore(s, j);
    }
  }

  /** The pattern has no end anchor: whatever follows a valid password
      keeps it valid. */
  lemma PasswordExtends(s: string, t: string)
    requires IsValidPassword(s)
    ensures IsValidPassword(s + t)
  {
    var u := s + t;
    var i :| 0 <= i < |s| && IsAsciiUpper(s[i]) && NoNewlineBefore(s, i);
    assert u[i] == s[i] && NoNewlineBefore(u, i);
    var j :| 0 <= j < |s| && IsPasswordSymbol(s[j]) && NoNewlineBefore(s, j);
    assert u[j] == s[j] && NoNewlineBefore(u, j);
    assert NoNewlineBefore(u, 8);
  }

  /** The boundary cases of the policy. */
  lemma PasswordExamples(short: string)
    requires |short| == 7
    ensures !IsValidPassword("abcdefgh")
    ensures IsValidPassword("Abcdefg!")
    ensures !IsValidPassword(short)
  {
    var p := "Abcdefg!";
    assert IsAsciiUpper(p[0]) && NoNewlineBefore(p, 0);
    assert IsPasswordSymbol(p[7]) && NoNewlineBefore(p, 7);
  }

  // ----- hash_password / check_password -----

  function HashPassword(password: string): PasswordHash {
    Argon2Of(password)
  }

  /** `verify` accepts a password exactly against its own hash. */
  function CheckPassword(password: string, stored: PasswordHash): (ok: bool)
    ensures ok <==> stored == HashPassword(password)
  {
    stored.password == password
  }

  // ----- check_permission -----

  /** `permission in user.role.permissions`; the role must resolve, as
      `user.role` is dereferenced. */
  function CheckPermission(user: User, roles: map<RoleId, Role>, permission: string): bool
    requires user.roleId in roles
  {
    permission in roles[user.roleId].permissions
  }
}
