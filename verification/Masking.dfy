/** Local masking rules: three successive leftmost, non-overlapping substitutions, and the independent checker that
    must never fire on their output.

    A regular expression is modelled by the words it matches at the start of a text. For all three patterns the
    backtracking matcher settles on the longest such word: every repetition is greedy, the part of an address before
    `@` and the key before `=` are forced, and giving back characters is only needed to find the last usable dot. */
module Masking {
  import opened Text

  datatype Pattern = Email | Serial | Secret

  const EMAIL := "[EMAIL]"
  const SERIAL := "[DEVICE_SERIAL]"
  const SECRET := "[SECRET]"

  predicate Letter(c: char) { 'a' <= c <= 'z' || 'A' <= c <= 'Z' }
  predicate Digit(c: char) { '0' <= c <= '9' }
  predicate LocalChar(c: char) { Letter(c) || Digit(c) || c in "._%+-" }
  predicate DomainChar(c: char) { Letter(c) || Digit(c) || c in ".-" }
  predicate SerialChar(c: char) { Letter(c) || Digit(c) || c == '-' }

  /** `(?i)` in Unicode mode: `i`, `k` and `s` have matches outside ASCII. */
  predicate SameLetter(c: char, lower: char) {
    || c == lower
    || ('a' <= lower <= 'z' && c as int == lower as int - 32)
    || (lower == 'i' && c in "\U{0130}\U{0131}")
    || (lower == 'k' && c == '\U{212A}')
    || (lower == 's' && c == '\U{017F}')
  }

  /** The characters that pass for each letter of the keys. */
  lemma Spellings(c: char)
    ensures SameLetter(c, 't') <==> c in "tT"
    ensures SameLetter(c, 'o') <==> c in "oO"
    ensures SameLetter(c, 'k') <==> c in "kK\U{212A}"
    ensures SameLetter(c, 'e') <==> c in "eE"
    ensures SameLetter(c, 'n') <==> c in "nN"
    ensures SameLetter(c, 'a') <==> c in "aA"
    ensures SameLetter(c, 'p') <==> c in "pP"
    ensures SameLetter(c, 'i') <==> c in "iI\U{0130}\U{0131}"
    ensures SameLetter(c, 'y') <==> c in "yY"
    ensures SameLetter(c, 's') <==> c in "sS\U{017F}"
    ensures SameLetter(c, 'w') <==> c in "wW"
    ensures SameLetter(c, 'r') <==> c in "rR"
    ensures SameLetter(c, 'd') <==> c in "dD"
    ensures SameLetter(c, '_') <==> c == '_'
  {
  }

  predicate SameWord(w: string, lower: string) {
    |w| == |lower| && forall i :: 0 <= i < |w| ==> SameLetter(w[i], lower[i])
  }

  predicate KeyName(w: string) {
    SameWord(w, "token") || SameWord(w, "api_key") || SameWord(w, "password")
  }

  predicate AllIn(p: char -> bool, w: string) {
    forall i :: 0 <= i < |w| ==> p(w[i])
  }

  /** `[A-Za-z0-9._%+-]+@[A-Za-z0-9.-]+\.[A-Za-z]{2,}` with `@` at `a` and the last dot at `d` */
  predicate EmailParts(w: string, a: nat, d: nat) {
    && 0 < a && a + 1 < d && d + 2 < |w|
    && AllIn(LocalChar, w[..a]) && w[a] == '@'
    && AllIn(DomainChar, w[a + 1..d]) && w[d] == '.'
    && AllIn(Letter, w[d + 1..])
  }

  predicate EmailWord(w: string) {
    exists a: nat, d: nat | a < |w| && d < |w| :: EmailParts(w, a, d)
  }

  /** `SN-[A-Za-z0-9-]+` */
  predicate SerialWord(w: string) {
    |w| > 3 && w[..3] == "SN-" && AllIn(SerialChar, w[3..])
  }

  predicate KeyAt(w: string, k: nat) {
    k < |w| && KeyName(w[..k]) && w[k] == '='
  }

  /** `(?i)(token|api_key|password)=\S+` */
  predicate SecretWord(w: string) {
    exists k: nat | k < |w| :: KeyAt(w, k) && k + 1 < |w| && AllIn((c: char) => !Space(c), w[k + 1..])
  }

  predicate Word(p: Pattern, w: string) {
    match p
    case Email => EmailWord(w)
    case Serial => SerialWord(w)
    case Secret => SecretWord(w)
  }

  // ---- the patterns as regular expressions ----

  /** By the words they match. */
  datatype Regex =
    | Text(word: string)
    | AnyCase(word: string)
    | Many(chars: char -> bool, min: nat)
    | Then(first: Regex, rest: Regex)
    | Either(one: Regex, other: Regex)

  ghost predicate Matches(r: Regex, w: string) {
    match r
    case Text(word) => w == word
    case AnyCase(word) => SameWord(w, word)
    case Many(chars, min) => |w| >= min && AllIn(chars, w)
    case Then(first, rest) => exists k :: 0 <= k <= |w| && Matches(first, w[..k]) && Matches(rest, w[k..])
    case Either(one, other) => Matches(one, w) || Matches(other, w)
  }

  predicate NonSpace(c: char) { !Space(c) }

  ghost function KEYS(): Regex { Either(AnyCase("token"), Either(AnyCase("api_key"), AnyCase("password"))) }
  ghost function VALUE(): Regex { Then(Text("="), Many(NonSpace, 1)) }
  ghost function TOP_LEVEL(): Regex { Then(Text("."), Many(Letter, 2)) }
  ghost function DOMAIN(): Regex { Then(Many(DomainChar, 1), TOP_LEVEL()) }
  ghost function AT_DOMAIN(): Regex { Then(Text("@"), DOMAIN()) }

  ghost function RegexOf(p: Pattern): Regex {
    match p
    case Email => Then(Many(LocalChar, 1), AT_DOMAIN())
    case Serial => Then(Text("SN-"), Many(SerialChar, 1))
    case Secret => Then(KEYS(), VALUE())
  }

  ghost predicate SplitAt(first: Regex, rest: Regex, w: string, k: nat) {
    k <= |w| && Matches(first, w[..k]) && Matches(rest, w[k..])
  }

  lemma ThenIff(first: Regex, rest: Regex, w: string)
    ensures Matches(Then(first, rest), w) <==> exists k: nat :: SplitAt(first, rest, w, k)
  {
    if Matches(Then(first, rest), w) {
      var k :| 0 <= k <= |w| && Matches(first, w[..k]) && Matches(rest, w[k..]);
      assert SplitAt(first, rest, w, k);
    }
  }

  lemma Splits(first: Regex, rest: Regex, w: string, k: nat)
    requires SplitAt(first, rest, w, k)
    ensures Matches(Then(first, rest), w)
  {
  }

  lemma CharThen(c: char, rest: Regex, w: string)
    ensures Matches(Then(Text([c]), rest), w) <==> w != "" && w[0] == c && Matches(rest, w[1..])
  {
    ThenIff(Text([c]), rest, w);
    if w != "" && w[0] == c && Matches(rest, w[1..]) {
      assert w[..1] == [c];
      assert SplitAt(Text([c]), rest, w, 1);
    }
  }

  lemma TopLevelIff(w: string)
    ensures Matches(TOP_LEVEL(), w) <==> |w| > 2 && w[0] == '.' && AllIn(Letter, w[1..])
  {
    CharThen('.', Many(Letter, 2), w);
  }

  lemma DomainIff(w: string, b: nat)
    ensures SplitAt(Many(DomainChar, 1), TOP_LEVEL(), w, b) <==>
            1 <= b && b + 2 < |w| && AllIn(DomainChar, w[..b]) && w[b] == '.' && AllIn(Letter, w[b + 1..])
  {
    if b <= |w| {
      TopLevelIff(w[b..]);
      assert b < |w| ==> w[b..][0] == w[b] && w[b..][1..] == w[b + 1..];
    }
  }

  /** The parts of an address behind the `@`. */
  lemma PartsBehind(w: string, a: nat, d: nat)
    requires 0 < a < |w| && AllIn(LocalChar, w[..a]) && w[a] == '@'
    ensures EmailParts(w, a, d) <==> a < d && SplitAt(Many(DomainChar, 1), TOP_LEVEL(), w[a + 1..], d - a - 1)
  {
    if a < d {
      var u, b := w[a + 1..], d - a - 1;
      DomainIff(u, b);
      if b <= |u| {
        assert u[..b] == w[a + 1..d];
        assert b < |u| ==> u[b] == w[d] && u[b + 1..] == w[d + 1..];
      }
    }
  }

  ghost predicate AtPlace(w: string, a: nat) {
    0 < a < |w| && AllIn(LocalChar, w[..a]) && w[a] == '@'
  }

  lemma AddressIff(w: string, a: nat)
    ensures SplitAt(Many(LocalChar, 1), AT_DOMAIN(), w, a) <==> AtPlace(w, a) && Matches(DOMAIN(), w[a + 1..])
  {
    if a <= |w| {
      CharThen('@', DOMAIN(), w[a..]);
      assert a < |w| ==> w[a..][0] == w[a] && w[a..][1..] == w[a + 1..];
    }
  }

  lemma AddressMatches(w: string, a: nat, d: nat)
    requires EmailParts(w, a, d)
    ensures SplitAt(Many(LocalChar, 1), AT_DOMAIN(), w, a)
  {
    PartsBehind(w, a, d);
    Splits(Many(DomainChar, 1), TOP_LEVEL(), w[a + 1..], d - a - 1);
    AddressIff(w, a);
  }

  lemma MatchIsAddress(w: string, a: nat) returns (d: nat)
    requires SplitAt(Many(LocalChar, 1), AT_DOMAIN(), w, a)
    ensures EmailParts(w, a, d)
  {
    AddressIff(w, a);
    ThenIff(Many(DomainChar, 1), TOP_LEVEL(), w[a + 1..]);
    var b: nat :| SplitAt(Many(DomainChar, 1), TOP_LEVEL(), w[a + 1..], b);
    d := a + 1 + b;
    PartsBehind(w, a, d);
  }

  lemma EmailIsMatch(w: string)
    ensures EmailWord(w) <==> Matches(RegexOf(Email), w)
  {
    if EmailWord(w) {
      var a: nat, d: nat :| a < |w| && d < |w| && EmailParts(w, a, d);
      AddressMatches(w, a, d);
      Splits(Many(LocalChar, 1), AT_DOMAIN(), w, a);
    }
    if Matches(RegexOf(Email), w) {
      ThenIff(Many(LocalChar, 1), AT_DOMAIN(), w);
      var a: nat :| SplitAt(Many(LocalChar, 1), AT_DOMAIN(), w, a);
      var d := MatchIsAddress(w, a);
    }
  }

  lemma SerialIsMatch(w: string)
    ensures SerialWord(w) <==> Matches(RegexOf(Serial), w)
  {
    ThenIff(Text("SN-"), Many(SerialChar, 1), w);
    if SerialWord(w) {
      assert SplitAt(Text("SN-"), Many(SerialChar, 1), w, 3);
    }
  }

  lemma KeysIff(w: string)
    ensures Matches(KEYS(), w) <==> KeyName(w)
  {
    assert Matches(Either(AnyCase("api_key"), AnyCase("password")), w) <==> SameWord(w, "api_key") || SameWord(w, "password");
  }

  lemma SecretAt(w: string, k: nat)
    ensures SplitAt(KEYS(), VALUE(), w, k) <==> KeyAt(w, k) && k + 1 < |w| && AllIn((c: char) => !Space(c), w[k + 1..])
  {
    if k <= |w| {
      CharThen('=', Many(NonSpace, 1), w[k..]);
      assert k < |w| ==> w[k..][0] == w[k] && w[k..][1..] == w[k + 1..];
      KeysIff(w[..k]);
    }
  }

  lemma SecretIsMatch(w: string)
    ensures SecretWord(w) <==> Matches(RegexOf(Secret), w)
  {
    ThenIff(KEYS(), VALUE(), w);
    forall k: nat ensures SplitAt(KEYS(), VALUE(), w, k) <==> KeyAt(w, k) && k + 1 < |w| && AllIn((c: char) => !Space(c), w[k + 1..]) {
      SecretAt(w, k);
    }
  }

  /** The words of a pattern are what its regular expression matches. */
  lemma WordIsMatch(p: Pattern, w: string)
    ensures Word(p, w) <==> Matches(RegexOf(p), w)
  {
    match p
    case Email => EmailIsMatch(w);
    case Serial => SerialIsMatch(w);
    case Secret => SecretIsMatch(w);
  }

  // ---- one pass ----

  /** Length of the longest word of the pattern among the prefixes of length at most `n`; 0 when there is none. */
  function Longest(p: Pattern, s: string, n: nat): (m: nat)
    requires n <= |s|
    ensures m <= n
    ensures m > 0 ==> Word(p, s[..m])
    ensures forall k :: m < k <= n ==> !Word(p, s[..k])
  {
    if n == 0 then 0 else if Word(p, s[..n]) then n else Longest(p, s, n - 1)
  }

  /** Length of the match at the start of `s`, 0 for no match. No pattern matches the empty word. */
  function Head(p: Pattern, s: string): (m: nat)
    ensures m <= |s|
    ensures m > 0 ==> Word(p, s[..m])
    ensures forall k :: m < k <= |s| ==> !Word(p, s[..k])
  {
    Longest(p, s, |s|)
  }

  /** The captured key of a secret, `\1`. */
  function KeyLength(w: string): (k: nat)
    requires SecretWord(w)
    ensures KeyAt(w, k)
  {
    KeyUnique(w);
    var k: nat :| k < |w| && KeyAt(w, k) && k + 1 < |w| && AllIn((c: char) => !Space(c), w[k + 1..]);
    k
  }

  function Replacement(p: Pattern, w: string): string
    requires Word(p, w)
  {
    match p
    case Email => EMAIL
    case Serial => SERIAL
    case Secret => w[..KeyLength(w) + 1] + SECRET
  }

  /** `re.sub`: scan from the left, continue after each match. */
  function Sub(p: Pattern, s: string): string
    decreases |s|
  {
    if s == "" then ""
    else
      var m := Head(p, s);
      if m == 0 then [s[0]] + Sub(p, s[1..]) else Replacement(p, s[..m]) + Sub(p, s[m..])
  }

  /** The number of substitutions `re.subn` reports. */
  function Count(p: Pattern, s: string): nat
    decreases |s|
  {
    if s == "" then 0
    else
      var m := Head(p, s);
      if m == 0 then Count(p, s[1..]) else 1 + Count(p, s[m..])
  }

  // ---- letters of keys ----

  lemma KeyLetters(w: string, i: nat)
    requires KeyName(w) && i < |w|
    ensures w[i] != '=' && w[i] != '[' && w[i] != ']' && !Space(w[i])
  {
  }

  lemma KeyUnique(w: string)
    ensures forall j: nat, k: nat :: KeyAt(w, j) && KeyAt(w, k) ==> j == k
  {
    forall j: nat, k: nat | KeyAt(w, j) && KeyAt(w, k) ensures j == k {
      if j < k {
        assert w[..k][j] == '=';
        KeyLetters(w[..k], j);
      } else if k < j {
        assert w[..j][k] == '=';
        KeyLetters(w[..j], k);
      }
    }
  }

  lemma SecretStarts(s: string)
    ensures Head(Secret, s) > 0 <==> exists k: nat :: KeyAt(s, k) && k + 1 < |s| && !Space(s[k + 1])
  {
    if Head(Secret, s) > 0 {
      var w := s[..Head(Secret, s)];
      var k := KeyLength(w);
      assert w[..k] == s[..k];
      assert KeyAt(s, k) && w[k + 1..][0] == s[k + 1];
    }
    if k: nat :| KeyAt(s, k) && k + 1 < |s| && !Space(s[k + 1]) {
      var w := s[..k + 2];
      assert w[..k] == s[..k];
      assert KeyAt(w, k) && AllIn((c: char) => !Space(c), w[k + 1..]);
      assert Word(Secret, w);
    }
  }

  lemma SecretExtends(w: string, c: char)
    requires SecretWord(w) && !Space(c)
    ensures SecretWord(w + [c])
  {
    var k := KeyLength(w);
    assert (w + [c])[..k] == w[..k];
    assert (w + [c])[k + 1..] == w[k + 1..] + [c];
    SecretTail(w, k);
    assert KeyAt(w + [c], k);
  }

  lemma SecretTail(w: string, k: nat)
    requires SecretWord(w) && KeyAt(w, k)
    ensures k + 1 < |w| && AllIn((c: char) => !Space(c), w[k + 1..])
  {
    KeyUnique(w);
  }

  /** A match of a secret runs to the next whitespace or to the end. */
  lemma SecretEnds(s: string)
    requires Head(Secret, s) > 0
    ensures Head(Secret, s) == |s| || Space(s[Head(Secret, s)])
  {
    var m := Head(Secret, s);
    if m < |s| {
      assert s[..m + 1] == s[..m] + [s[m]];
      if !Space(s[m]) {
        SecretExtends(s[..m], s[m]);
      }
    }
  }

  // ---- masked text agrees with its input up to the first marker ----

  /** `o` repeats the first `n` characters of `s` and then stops or shows an opening bracket. */
  predicate Agrees(s: string, o: string, n: nat) {
    n <= |s| && n <= |o| && s[..n] == o[..n] && (n == |o| || o[n] == '[')
  }

  lemma CopiedSecret(s: string, rest: string)
    requires Head(Secret, s) > 0
    ensures var w := s[..Head(Secret, s)];
            var n := KeyLength(w) + 1;
            var o := Replacement(Secret, w) + rest;
            Agrees(s, o, n) && n < |s| && !Space(s[n]) && o[n..] == SECRET + rest
  {
    var w := s[..Head(Secret, s)];
    var n := KeyLength(w) + 1;
    SecretTail(w, n - 1);
    assert w[n..][0] == s[n];
    assert Replacement(Secret, w) + rest == s[..n] + (SECRET + rest);
  }

  lemma AgreesCons(c: char, s: string, o: string, n: nat)
    requires Agrees(s, o, n)
    ensures Agrees([c] + s, [c] + o, n + 1)
    ensures ([c] + o)[n + 1..] == o[n..]
  {
    assert ([c] + s)[..n + 1] == [c] + s[..n];
    assert ([c] + o)[..n + 1] == [c] + o[..n];
  }

  /** The first `n` characters are copied; behind them, for secrets, stands a marker where a value stood. */
  ghost predicate CopiedUpTo(p: Pattern, s: string, o: string, n: nat) {
    && Agrees(s, o, n)
    && (p == Secret && n < |o| ==> SECRET <= o[n..] && n < |s| && !Space(s[n]))
  }

  lemma CopiedCons(p: Pattern, c: char, s: string, o: string, n: nat)
    requires CopiedUpTo(p, s, o, n)
    ensures CopiedUpTo(p, [c] + s, [c] + o, n + 1)
  {
    AgreesCons(c, s, o, n);
    assert n < |s| ==> ([c] + s)[n + 1] == s[n];
  }

  lemma SubOfChar(p: Pattern, s: string)
    requires s != "" && Head(p, s) == 0
    ensures s == [s[0]] + s[1..] && Sub(p, s) == [s[0]] + Sub(p, s[1..])
  {
  }

  lemma CopiedChar(p: Pattern, s: string, n: nat)
    requires s != "" && Head(p, s) == 0 && CopiedUpTo(p, s[1..], Sub(p, s[1..]), n)
    ensures CopiedUpTo(p, s, Sub(p, s), n + 1)
  {
    SubOfChar(p, s);
    CopiedCons(p, s[0], s[1..], Sub(p, s[1..]), n);
  }

  lemma {:induction false} Copied(p: Pattern, s: string) returns (n: nat)
    ensures CopiedUpTo(p, s, Sub(p, s), n)
    decreases |s|
  {
    if s == "" {
      n := 0;
    } else if Head(p, s) == 0 {
      var k := Copied(p, s[1..]);
      n := k + 1;
      CopiedChar(p, s, k);
    } else if p == Secret {
      n := KeyLength(s[..Head(p, s)]) + 1;
      CopiedSecret(s, Sub(p, s[Head(p, s)..]));
    } else {
      n := 0;
    }
  }

  lemma WordHasNoBracket(p: Pattern, w: string, i: nat)
    requires p != Secret && Word(p, w) && i < |w|
    ensures w[i] != '[' && w[i] != ']'
  {
    if p == Email {
      var a: nat, d: nat :| a < |w| && d < |w| && EmailParts(w, a, d);
      if i < a {
        assert LocalChar(w[..a][i]);
      } else if a < i < d {
        assert DomainChar(w[a + 1..d][i - a - 1]);
      } else if d < i {
        assert Letter(w[d + 1..][i - d - 1]);
      }
    } else if i < 3 {
      assert w[i] == w[..3][i];
    } else {
      assert SerialChar(w[3..][i - 3]);
    }
  }

  /** Replacing text behind an opening bracket creates no address and no serial. */
  lemma NoNewHead(p: Pattern, s: string, o: string, n: nat)
    requires p != Secret && Agrees(s, o, n) && Head(p, o) > 0
    ensures Head(p, s) > 0
  {
    var w := o[..Head(p, o)];
    if n < |w| {
      WordHasNoBracket(p, w, n);
    }
    assert w == s[..|w|];
  }

  lemma NoNewSecret(s: string, o: string, n: nat)
    requires Agrees(s, o, n) && Head(Secret, o) > 0
    requires n < |o| ==> n < |s| && !Space(s[n])
    ensures Head(Secret, s) > 0
  {
    SecretStarts(o);
    var k: nat :| KeyAt(o, k) && k + 1 < |o| && !Space(o[k + 1]);
    if n < k {
      KeyLetters(o[..k], n);
    }
    SecretStays(s, o, n, k);
  }

  lemma SecretStays(s: string, o: string, n: nat, k: nat)
    requires Agrees(s, o, n) && KeyAt(o, k) && k + 1 < |o| && !Space(o[k + 1]) && k <= n
    requires n < |o| ==> n < |s| && !Space(s[n])
    ensures Head(Secret, s) > 0
  {
    assert k < n && o[..k] == o[..n][..k] == s[..k];
    assert KeyAt(s, k);
    SecretStarts(s);
  }

  /** No match starts anywhere in the text. */
  predicate Clean(p: Pattern, s: string) {
    s == "" || (Head(p, s) == 0 && Clean(p, s[1..]))
  }

  lemma {:induction false} CleanTail(p: Pattern, s: string, k: nat)
    requires Clean(p, s) && k <= |s|
    ensures Clean(p, s[k..])
  {
    if k > 0 {
      CleanTail(p, s[1..], k - 1);
      assert s[1..][k - 1..] == s[k..];
    }
  }

  lemma TailOfConcat(u: string, rest: string)
    requires u != ""
    ensures (u + rest)[1..] == u[1..] + rest
    ensures |u| == 1 ==> (u + rest)[1..] == rest
  {
  }

  /** No address or serial starts at a marker. */
  lemma MarkerHasNoHead(q: Pattern, u: string, rest: string)
    requires q != Secret && u != "" && u[|u| - 1] == ']' && '@' !in u && '-' !in u
    ensures Head(q, u + rest) == 0
  {
    var o := u + rest;
    if Head(q, o) > 0 {
      var w := o[..Head(q, o)];
      WordInMarker(q, u, rest, w);
      WordHasMark(q, w);
    }
  }

  /** Nothing starts inside a marker, and nothing that starts there reaches beyond its closing bracket. */
  lemma {:induction false} CleanBehindMarker(q: Pattern, u: string, rest: string)
    requires q != Secret && Clean(q, rest)
    requires u != "" && u[|u| - 1] == ']' && '@' !in u && '-' !in u
    ensures Clean(q, u + rest)
  {
    MarkerHasNoHead(q, u, rest);
    TailOfConcat(u, rest);
    if |u| > 1 {
      assert forall c :: c in u[1..] ==> c in u;
      CleanBehindMarker(q, u[1..], rest);
    }
  }

  lemma WordHasMark(q: Pattern, w: string)
    requires q != Secret && Word(q, w)
    ensures '@' in w || '-' in w
  {
    if q == Serial {
      assert w[2] == w[..3][2];
    }
  }

  lemma WordInMarker(q: Pattern, u: string, rest: string, w: string)
    requires q != Secret && w <= u + rest && Word(q, w)
    requires u != "" && u[|u| - 1] == ']'
    ensures forall c :: c in w ==> c in u
  {
    assert |u| <= |w| ==> w[|u| - 1] == ']';
    if |u| <= |w| {
      WordHasNoBracket(q, w, |u| - 1);
    }
    assert forall i :: 0 <= i < |w| && i < |u| ==> w[i] == u[i];
  }

  /** Changing a clean text only from an opening bracket on keeps it clean if the changed part is. */
  lemma {:induction false} CleanPrefix(q: Pattern, s: string, o: string, n: nat)
    requires q != Secret && Agrees(s, o, n) && Clean(q, s) && Clean(q, o[n..])
    ensures Clean(q, o)
    decreases n
  {
    if n == 0 {
      assert o[n..] == o;
    } else {
      if Head(q, o) > 0 {
        NoNewHead(q, s, o, n);
      }
      assert s[1..][..n - 1] == s[..n][1..] && o[1..][..n - 1] == o[..n][1..];
      assert o[1..][n - 1..] == o[n..];
      CleanPrefix(q, s[1..], o[1..], n - 1);
    }
  }

  /** A character is copied where nothing of `p` starts. */
  lemma CopyKeepsClean(q: Pattern, p: Pattern, s: string)
    requires q != Secret && s != "" && Head(p, s) == 0 && Head(q, s) == 0 && Clean(q, Sub(p, s[1..]))
    ensures Clean(q, Sub(p, s))
  {
    var o := Sub(p, s);
    assert o[1..] == Sub(p, s[1..]);
    if Head(q, o) > 0 {
      var n := Copied(p, s);
      NoNewHead(q, s, o, n);
    }
  }

  /** A secret is replaced behind its key. */
  lemma SecretKeepsClean(q: Pattern, s: string, rest: string)
    requires q != Secret && s != "" && Head(Secret, s) > 0 && Clean(q, s)
    requires rest == Sub(Secret, s[Head(Secret, s)..]) && Clean(q, rest)
    ensures Clean(q, Sub(Secret, s))
  {
    CopiedSecret(s, rest);
    CleanBehindMarker(q, SECRET, rest);
    CleanPrefix(q, s, Sub(Secret, s), KeyLength(s[..Head(Secret, s)]) + 1);
  }

  /** An address or a serial is replaced as a whole. */
  lemma MarkerKeepsClean(q: Pattern, p: Pattern, s: string, rest: string)
    requires q != Secret && p != Secret && s != "" && Head(p, s) > 0
    requires rest == Sub(p, s[Head(p, s)..]) && Clean(q, rest)
    ensures Clean(q, Sub(p, s))
  {
    CleanBehindMarker(q, Replacement(p, s[..Head(p, s)]), rest);
  }

  lemma CleanThere(q: Pattern, p: Pattern, s: string)
    requires (p == q || Clean(q, s)) && s != ""
    ensures Head(p, s) == 0 ==> Head(q, s) == 0
    ensures p == q || Clean(q, s[1..])
  {
  }

  /** A substitution removes its own matches and, for addresses and serials, lets no match of another kind appear. */
  lemma {:induction false} SubKeepsClean(q: Pattern, p: Pattern, s: string)
    requires q != Secret && (p == q || Clean(q, s))
    ensures Clean(q, Sub(p, s))
    decreases |s|
  {
    if s == "" {
    } else if Head(p, s) == 0 {
      CleanThere(q, p, s);
      SubKeepsClean(q, p, s[1..]);
      CopyKeepsClean(q, p, s);
    } else {
      var m := Head(p, s);
      if p != q { CleanTail(q, s, m); }
      SubKeepsClean(q, p, s[m..]);
      if p == Secret {
        SecretKeepsClean(q, s, Sub(p, s[m..]));
      } else {
        MarkerKeepsClean(q, p, s, Sub(p, s[m..]));
      }
    }
  }

  lemma {:induction false} SubOfClean(p: Pattern, s: string)
    requires Clean(p, s)
    ensures Sub(p, s) == s && Count(p, s) == 0
  {
    if s != "" {
      SubOfClean(p, s[1..]);
    }
  }

  // ---- secrets ----

  /** The checker's `(?i)(token|api_key|password)=(?!\[SECRET\])\S+` matches at the start of `s`. */
  predicate SecretShows(s: string) {
    exists k: nat | k < |s| :: KeyAt(s, k) && k + 1 < |s| && !Space(s[k + 1]) && !(SECRET <= s[k + 1..])
  }

  predicate NoSecretShows(s: string) {
    s == "" || (!SecretShows(s) && NoSecretShows(s[1..]))
  }

  lemma KeyAtMarker(u: string, rest: string, k: nat)
    requires u != "" && u[|u| - 1] == ']' && KeyAt(u + rest, k)
    ensures '=' in u
  {
    assert (u + rest)[|u| - 1] == ']';
    if |u| <= k {
      KeyLetters((u + rest)[..k], |u| - 1);
    } else {
      assert u[k] == (u + rest)[k];
    }
  }

  lemma {:induction false} NoSecretBehindMarker(u: string, rest: string)
    requires u != "" && u[|u| - 1] == ']' && '=' !in u && NoSecretShows(rest)
    ensures NoSecretShows(u + rest)
  {
    var o := u + rest;
    if k: nat :| KeyAt(o, k) {
      KeyAtMarker(u, rest, k);
    }
    assert o[1..] == u[1..] + rest;
    if |u| > 1 {
      NoSecretBehindMarker(u[1..], rest);
    } else {
      assert o[1..] == rest;
    }
  }

  lemma KeyEndsAtFirstEquals(key: string, rest: string, k: nat)
    requires (forall i :: 0 <= i < |key| ==> key[i] != '=') && KeyAt(key + "=" + rest, k)
    ensures k == |key|
  {
    var o := key + "=" + rest;
    assert forall i :: 0 <= i < |key| ==> o[i] == key[i];
    assert o[|key|] == '=';
    if |key| < k {
      KeyLetters(o[..k], |key|);
    }
  }

  /** Within a key and its `=`, the only key that can be completed is followed by the marker. */
  lemma {:induction false} NoSecretInKey(key: string, rest: string)
    requires (forall i :: 0 <= i < |key| ==> key[i] != '=') && NoSecretShows(SECRET + rest)
    ensures NoSecretShows(key + "=" + (SECRET + rest))
  {
    var o := key + "=" + (SECRET + rest);
    assert o[|key| + 1..] == SECRET + rest;
    if k: nat :| KeyAt(o, k) {
      KeyEndsAtFirstEquals(key, SECRET + rest, k);
    }
    if key != "" {
      assert o[1..] == key[1..] + "=" + (SECRET + rest);
      NoSecretInKey(key[1..], rest);
    }
  }

  lemma SpaceStaysFirst(s: string)
    requires s == "" || Space(s[0])
    ensures s == "" <==> Sub(Secret, s) == ""
    ensures s != "" ==> Sub(Secret, s)[0] == s[0]
  {
    SecretStarts(s);
    if k: nat :| KeyAt(s, k) {
      if k > 0 { KeyLetters(s[..k], 0); }
    }
  }

  /** A secret is matched exactly up to the first whitespace. */
  lemma SecretRun(o: string, k: nat, end: nat)
    requires KeyAt(o, k) && k + 1 < end <= |o| && (end == |o| || Space(o[end]))
    requires forall i :: k < i < end ==> !Space(o[i])
    ensures Head(Secret, o) == end
  {
    var w := o[..end];
    assert w[..k] == o[..k];
    assert KeyAt(w, k) && AllIn((c: char) => !Space(c), w[k + 1..]);
    assert Word(Secret, w);
    var m := Head(Secret, o);
    assert o[..m][..k] == o[..k];
    SecretTail(o[..m], k);
    assert forall i :: k < i < m ==> o[i] == o[..m][k + 1..][i - k - 1];
  }

  lemma SubStep(p: Pattern, s: string, m: nat)
    requires m > 0 && Head(p, s) == m
    ensures Sub(p, s) == Replacement(p, s[..m]) + Sub(p, s[m..]) && Count(p, s) == 1 + Count(p, s[m..])
  {
  }

  lemma KeyOfMasked(key: string)
    requires KeyName(key)
    ensures SecretWord(key + "=" + SECRET) && Replacement(Secret, key + "=" + SECRET) == key + "=" + SECRET
  {
    var w := key + "=" + SECRET;
    assert w[..|key|] == key && w[|key| + 1..] == SECRET;
    assert KeyAt(w, |key|) && AllIn((c: char) => !Space(c), w[|key| + 1..]);
    KeyUnique(w);
    assert w[..|key| + 1] == key + "=";
  }

  /** A masked secret is matched again as a whole, only as far as its marker, and replaced by itself. */
  lemma MaskedSecretAgain(key: string, rest: string)
    requires KeyName(key) && (rest == "" || Space(rest[0]))
    ensures var o := key + "=" + SECRET + rest;
            Sub(Secret, o) == key + "=" + SECRET + Sub(Secret, rest) && Count(Secret, o) == 1 + Count(Secret, rest)
  {
    var w := key + "=" + SECRET;
    var o := w + rest;
    KeyOfMasked(key);
    assert o[..|key|] == key && o[|key|] == '=';
    forall i | |key| < i < |w| ensures !Space(o[i]) { assert o[i] == SECRET[i - |key| - 1]; }
    SecretRun(o, |key|, |w|);
    assert o[..|w|] == w && o[|w|..] == rest;
    SubStep(Secret, o, |w|);
  }

  /** The substitution leaves no visible secret, and running it again changes nothing. */
  lemma {:induction false} SecretsStayMasked(s: string)
    ensures NoSecretShows(Sub(Secret, s))
    ensures Sub(Secret, Sub(Secret, s)) == Sub(Secret, s)
    ensures Count(Secret, Sub(Secret, s)) == Count(Secret, s)
    decreases |s|
  {
    var m := Head(Secret, s);
    var o := Sub(Secret, s);
    if s != "" && m == 0 {
      SecretsStayMasked(s[1..]);
      assert o[1..] == Sub(Secret, s[1..]);
      var n := Copied(Secret, s);
      if Head(Secret, o) > 0 {
        NoNewSecret(s, o, n);
      }
      SecretStarts(o);
    } else if s != "" {
      var w, rest := s[..m], Sub(Secret, s[m..]);
      SecretsStayMasked(s[m..]);
      SecretEnds(s);
      SpaceStaysFirst(s[m..]);
      var key := ReplacementShape(w);
      MaskedSecretAgain(key, rest);
      SecretHidden(key, rest);
    }
  }

  lemma ReplacementShape(w: string) returns (key: string)
    requires SecretWord(w)
    ensures KeyName(key) && Replacement(Secret, w) == key + "=" + SECRET
  {
    var k := KeyLength(w);
    key := w[..k];
    assert w[..k + 1] == key + "=";
  }

  lemma SecretHidden(key: string, rest: string)
    requires KeyName(key) && NoSecretShows(rest)
    ensures NoSecretShows(key + "=" + SECRET + rest)
  {
    assert key + "=" + (SECRET + rest) == key + "=" + SECRET + rest;
    NoSecretBehindMarker(SECRET, rest);
    forall i | 0 <= i < |key| ensures key[i] != '=' { KeyLetters(key, i); }
    NoSecretInKey(key, rest);
  }

  // ---- the two entry points ----

  /** The policy pattern matches somewhere in the text: `re.search(pattern, text)`. The secret pattern of the checker
      differs from the masking pattern by its lookahead. */
  predicate Visible(p: Pattern, s: string) {
    exists k: nat | k <= |s| :: if p == Secret then SecretShows(s[k..]) else Head(p, s[k..]) > 0
  }

  lemma {:induction false} CleanIsNotVisible(p: Pattern, s: string)
    ensures p != Secret ==> (Clean(p, s) <==> !Visible(p, s))
    ensures p == Secret ==> (NoSecretShows(s) <==> !Visible(p, s))
  {
    assert s[0..] == s;
    if s != "" {
      CleanIsNotVisible(p, s[1..]);
      assert forall k: nat :: k <= |s[1..]| ==> s[1..][k..] == s[k + 1..];
      assert forall k: nat :: 0 < k <= |s| ==> s[k..] == s[1..][k - 1..];
    }
  }

  const PATTERNS: seq<Pattern> := [Email, Serial, Secret]

  /** The text after the first `n` substitutions. */
  function Stage(text: string, n: nat): string
    requires n <= |PATTERNS|
  {
    if n == 0 then text else Sub(PATTERNS[n - 1], Stage(text, n - 1))
  }

  // ---- what a pass does to a text ----

  /** A stretch without matches, the match behind it, and what stands for the match in the output. */
  datatype Turn = Turn(gap: string, word: string, marker: string)

  /** No word of the pattern starts within the first `n` characters. */
  ghost predicate NoneStarts(p: Pattern, s: string, n: nat) {
    forall i :: 0 <= i < n && i <= |s| ==> NoneAt(p, s[i..])
  }

  /** No prefix is a word. */
  ghost predicate NoneAt(p: Pattern, s: string) {
    forall j :: 0 <= j <= |s| ==> !Word(p, s[..j])
  }

  /** The word is a prefix, and no longer prefix is a word. */
  ghost predicate LongestWord(p: Pattern, s: string, word: string) {
    word <= s && Word(p, word) && forall k :: |word| < k <= |s| ==> !Word(p, s[..k])
  }

  /** An address and a serial give way to their markers; of a secret the key stays. */
  ghost predicate Marks(p: Pattern, word: string, marker: string) {
    match p
    case Email => marker == "[EMAIL]"
    case Serial => marker == "[DEVICE_SERIAL]"
    case Secret => exists key, value :: KeyName(key) && word == key + "=" + value && marker == key + "=[SECRET]"
  }

  /** The input is gaps and longest words in turn, the output the same gaps with the marker of each word. */
  ghost predicate Passed(p: Pattern, s: string, turns: seq<Turn>, o: string)
    decreases |turns|
  {
    if turns == [] then o == s && NoneStarts(p, s, |s|)
    else
      var t := turns[0];
      && t.gap + t.word <= s && t.gap + t.marker <= o
      && NoneStarts(p, s, |t.gap|) && LongestWord(p, s[|t.gap|..], t.word) && Marks(p, t.word, t.marker)
      && Passed(p, s[|t.gap + t.word|..], turns[1..], o[|t.gap + t.marker|..])
  }

  lemma HeadIsLongest(p: Pattern, s: string)
    requires Head(p, s) > 0
    ensures LongestWord(p, s, s[..Head(p, s)])
  {
  }

  lemma NothingAtHead(p: Pattern, s: string)
    requires Head(p, s) == 0
    ensures NoneAt(p, s)
  {
    NoEmptyWord(p);
    assert s[..0] == "";
  }

  lemma NoEmptyWord(p: Pattern)
    ensures !Word(p, "")
  {
  }

  lemma NoneStartsCons(p: Pattern, s: string, n: nat)
    requires s != "" && Head(p, s) == 0 && NoneStarts(p, s[1..], n)
    ensures NoneStarts(p, s, n + 1)
  {
    NothingAtHead(p, s);
    forall i | 0 <= i < n + 1 && i <= |s| ensures NoneAt(p, s[i..]) {
      assert s[0..] == s;
      assert i > 0 ==> s[i..] == s[1..][i - 1..];
    }
  }

  lemma MarksReplacement(p: Pattern, w: string)
    requires Word(p, w)
    ensures Marks(p, w, Replacement(p, w))
  {
    if p == Secret {
      var k := KeyLength(w);
      assert w == w[..k] + "=" + w[k + 1..];
      assert Replacement(p, w) == w[..k] + "=[SECRET]";
    }
  }

  lemma TurnInFront(p: Pattern, s: string, turns: seq<Turn>, m: nat)
    requires s != "" && m == Head(p, s) > 0 && Passed(p, s[m..], turns, Sub(p, s[m..]))
    ensures Passed(p, s, [Turn("", s[..m], Replacement(p, s[..m]))] + turns, Sub(p, s))
  {
    var t := Turn("", s[..m], Replacement(p, s[..m]));
    HeadIsLongest(p, s);
    MarksReplacement(p, s[..m]);
    var o := Sub(p, s);
    assert o == t.marker + Sub(p, s[m..]);
    assert t.gap + t.word == s[..m] && t.gap + t.marker == t.marker;
    assert s[|t.gap|..] == s && o[|t.marker|..] == Sub(p, s[m..]);
    assert ([t] + turns)[0] == t && ([t] + turns)[1..] == turns;
  }

  /** One turn and what comes behind it. */
  ghost predicate TurnThen(p: Pattern, s: string, t: Turn, later: seq<Turn>, o: string) {
    && t.gap + t.word <= s && t.gap + t.marker <= o
    && NoneStarts(p, s, |t.gap|) && LongestWord(p, s[|t.gap|..], t.word) && Marks(p, t.word, t.marker)
    && Passed(p, s[|t.gap + t.word|..], later, o[|t.gap + t.marker|..])
  }

  lemma PassedCons(p: Pattern, s: string, t: Turn, later: seq<Turn>, o: string)
    ensures Passed(p, s, [t] + later, o) <==> TurnThen(p, s, t, later, o)
  {
    assert ([t] + later)[0] == t && ([t] + later)[1..] == later;
  }

  lemma DropBehind(c: char, x: string, k: nat)
    requires k <= |x|
    ensures ([c] + x)[k + 1..] == x[k..]
  {
  }

  lemma GapBehind(c: char, gap: string, piece: string, x: string)
    requires gap + piece <= x
    ensures [c] + gap + piece <= [c] + x
    ensures ([c] + x)[|[c] + gap + piece|..] == x[|gap + piece|..]
  {
    assert [c] + gap + piece == [c] + (gap + piece);
    DropBehind(c, x, |gap + piece|);
  }

  /** One more character in front of the first gap. */
  lemma GapGrows(p: Pattern, c: char, s: string, t: Turn, u: Turn, later: seq<Turn>, o: string)
    requires Head(p, [c] + s) == 0 && TurnThen(p, s, t, later, o) && u == t.(gap := [c] + t.gap)
    ensures TurnThen(p, [c] + s, u, later, [c] + o)
  {
    assert ([c] + s)[1..] == s;
    NoneStartsCons(p, [c] + s, |t.gap|);
    GapBehind(c, t.gap, t.word, s);
    GapBehind(c, t.gap, t.marker, o);
    DropBehind(c, s, |t.gap|);
  }

  lemma CharInFront(p: Pattern, c: char, s: string, turns: seq<Turn>, o: string)
    requires Head(p, [c] + s) == 0 && turns != [] && Passed(p, s, turns, o)
    ensures Passed(p, [c] + s, [turns[0].(gap := [c] + turns[0].gap)] + turns[1..], [c] + o)
  {
    var t, u := turns[0], turns[0].(gap := [c] + turns[0].gap);
    assert turns == [t] + turns[1..];
    PassedCons(p, s, t, turns[1..], o);
    GapGrows(p, c, s, t, u, turns[1..], o);
    PassedCons(p, [c] + s, u, turns[1..], [c] + o);
  }

  lemma CharCase(p: Pattern, s: string, rest: seq<Turn>) returns (turns: seq<Turn>)
    requires s != "" && Head(p, s) == 0 && Passed(p, s[1..], rest, Sub(p, s[1..]))
    ensures Passed(p, s, turns, Sub(p, s)) && |turns| == |rest|
  {
    SubOfChar(p, s);
    turns := PassedChar(p, s[0], s[1..], rest, Sub(p, s[1..]));
  }

  lemma PassedChar(p: Pattern, c: char, s: string, rest: seq<Turn>, o: string) returns (turns: seq<Turn>)
    requires Head(p, [c] + s) == 0 && Passed(p, s, rest, o)
    ensures Passed(p, [c] + s, turns, [c] + o) && |turns| == |rest|
  {
    if rest == [] {
      assert ([c] + s)[1..] == s;
      NoneStartsCons(p, [c] + s, |s|);
      turns := [];
    } else {
      CharInFront(p, c, s, rest, o);
      turns := [rest[0].(gap := [c] + rest[0].gap)] + rest[1..];
    }
  }

  /** What `re.sub` gives, told without it. */
  lemma {:induction false} SubPasses(p: Pattern, s: string) returns (turns: seq<Turn>)
    ensures Passed(p, s, turns, Sub(p, s)) && |turns| == Count(p, s)
    decreases |s|
  {
    turns := [];
    if s != "" {
      var m := Head(p, s);
      if m > 0 {
        var rest := SubPasses(p, s[m..]);
        TurnInFront(p, s, rest, m);
        turns := [Turn("", s[..m], Replacement(p, s[..m]))] + rest;
      } else {
        var rest := SubPasses(p, s[1..]);
        turns := CharCase(p, s, rest);
      }
    }
  }

  /** One pass with its number of matches. */
  ghost predicate OnePass(p: Pattern, s: string, o: string, count: nat) {
    exists turns :: Passed(p, s, turns, o) && |turns| == count
  }

  /** Three passes, one after the other: addresses, serials, secrets. The redactions are all matches, the labels those of the passes
      that had any. */
  ghost predicate MaskedFrom(text: string, result: MaskingResult) {
    exists a, b, emails: nat, serials: nat, secrets: nat ::
      && OnePass(Email, text, a, emails) && OnePass(Serial, a, b, serials) && OnePass(Secret, b, result.text, secrets)
      && result.redactionCount == emails + serials + secrets
      && result.labels == (if emails > 0 then ["email"] else []) + (if serials > 0 then ["device_serial"] else [])
                          + if secrets > 0 then ["secret"] else []
  }

  function Redactions(text: string, n: nat): nat
    requires n <= |PATTERNS|
  {
    if n == 0 then 0 else Redactions(text, n - 1) + Count(PATTERNS[n - 1], Stage(text, n - 1))
  }

  function LabelOf(p: Pattern): string {
    match p
    case Email => "email"
    case Serial => "device_serial"
    case Secret => "secret"
  }

  function Labels(text: string, n: nat): seq<string>
    requires n <= |PATTERNS|
  {
    if n == 0 then []
    else Labels(text, n - 1) + if Count(PATTERNS[n - 1], Stage(text, n - 1)) > 0 then [LabelOf(PATTERNS[n - 1])] else []
  }

  function Masked(text: string): string {
    Stage(text, |PATTERNS|)
  }

  datatype MaskingResult = MaskingResult(text: string, redactionCount: nat, labels: seq<string>)

  method MaskText(text: string) returns (result: MaskingResult)
    ensures result.text == Masked(text)
    ensures result.redactionCount == Redactions(text, |PATTERNS|)
    ensures result.labels == Labels(text, |PATTERNS|)
    ensures MaskedFrom(text, result)
  {
    var labels, redactionCount, masked := [], 0, text;
    for i := 0 to |PATTERNS|
      invariant masked == Stage(text, i) && redactionCount == Redactions(text, i) && labels == Labels(text, i)
    {
      var count := Count(PATTERNS[i], masked);
      masked := Sub(PATTERNS[i], masked);
      if count > 0 {
        labels := labels + [LabelOf(PATTERNS[i])];
        redactionCount := redactionCount + count;
      }
    }
    result := MaskingResult(masked, redactionCount, labels);
    StagesPass(text, result);
  }

  lemma StageCounts(text: string)
    ensures var a := Sub(Email, text);
            var b := Sub(Serial, a);
            && Redactions(text, 3) == Count(Email, text) + Count(Serial, a) + Count(Secret, b)
            && Labels(text, 3) == (if Count(Email, text) > 0 then ["email"] else [])
                                  + (if Count(Serial, a) > 0 then ["device_serial"] else [])
                                  + if Count(Secret, b) > 0 then ["secret"] else []
  {
    StagesInOrder(text);
    assert Redactions(text, 0) == 0 && Labels(text, 0) == [];
    assert Redactions(text, 1) == Count(Email, text);
    assert Labels(text, 1) == if Count(Email, text) > 0 then ["email"] else [];
  }

  lemma StagesPass(text: string, result: MaskingResult)
    requires result == MaskingResult(Masked(text), Redactions(text, |PATTERNS|), Labels(text, |PATTERNS|))
    ensures MaskedFrom(text, result)
  {
    StagesInOrder(text);
    StageCounts(text);
    var a := Sub(Email, text);
    var b := Sub(Serial, a);
    SubIsPass(Email, text);
    SubIsPass(Serial, a);
    SubIsPass(Secret, b);
  }

  lemma SubIsPass(p: Pattern, s: string)
    ensures OnePass(p, s, Sub(p, s), Count(p, s))
  {
    var turns := SubPasses(p, s);
  }

  /** A pattern of the caller: one that is not a regular expression, or a search. */
  datatype Forbidden = Invalid | Searches(found: string -> bool)

  datatype Violation = Shown(pattern: Pattern) | InvalidPattern(index: nat) | ForbiddenPattern(index: nat)

  ghost predicate Distinct<T>(xs: seq<T>) {
    forall i, j :: 0 <= i < j < |xs| ==> xs[i] != xs[j]
  }

  /** The default policy: which labels stay visible, each reported once. */
  method FindDefaultViolations(text: string) returns (violations: seq<Violation>)
    ensures forall v :: v in violations <==> v.Shown? && Visible(v.pattern, text)
    ensures Distinct(violations)
  {
    violations := [];
    for i := 0 to 3
      invariant forall v :: v in violations <==> v.Shown? && v.pattern in PATTERNS[..i] && Visible(v.pattern, text)
      invariant Distinct(violations)
    {
      assert PATTERNS[..i + 1] == PATTERNS[..i] + [PATTERNS[i]];
      if Visible(PATTERNS[i], text) {
        violations := violations + [Shown(PATTERNS[i])];
      }
    }
    assert PATTERNS[..3] == PATTERNS;
    forall p: Pattern ensures p in PATTERNS { assert p == PATTERNS[0] || p == PATTERNS[1] || p == PATTERNS[2]; }
  }

  predicate Found(text: string, forbidden: seq<Forbidden>, v: Violation) {
    match v
    case Shown(p) => Visible(p, text)
    case InvalidPattern(i) => i < |forbidden| && forbidden[i].Invalid?
    case ForbiddenPattern(i) => i < |forbidden| && forbidden[i].Searches? && forbidden[i].found(text)
  }

  /** Every label still visible, every pattern of the caller that is invalid and every one that is found, each reported once. */
  method FindMaskingViolations(text: string, forbidden: seq<Forbidden>) returns (violations: seq<Violation>)
    ensures forall v :: v in violations <==> Found(text, forbidden, v)
    ensures Distinct(violations)
  {
    violations := FindDefaultViolations(text);
    for i := 0 to |forbidden|
      invariant forall v :: v in violations <==> Found(text, forbidden[..i], v)
      invariant Distinct(violations)
    {
      assert forall v :: Found(text, forbidden[..i + 1], v) <==>
        Found(text, forbidden[..i], v) || ((v == InvalidPattern(i) || v == ForbiddenPattern(i)) && Found(text, forbidden, v));
      assert !Found(text, forbidden[..i], InvalidPattern(i)) && !Found(text, forbidden[..i], ForbiddenPattern(i));
      if forbidden[i].Invalid? {
        violations := violations + [InvalidPattern(i)];
      } else if forbidden[i].found(text) {
        violations := violations + [ForbiddenPattern(i)];
      }
    }
    assert forbidden[..|forbidden|] == forbidden;
  }

  lemma StagesInOrder(text: string)
    ensures Stage(text, 1) == Sub(Email, text) && Stage(text, 2) == Sub(Serial, Sub(Email, text))
    ensures Masked(text) == Sub(Secret, Sub(Serial, Sub(Email, text)))
  {
    assert Stage(text, 0) == text;
  }

  /** For every text, nothing the checker looks for is visible after masking. */
  lemma MaskedTextHasNoViolation(text: string, p: Pattern)
    ensures !Visible(p, Masked(text))
  {
    var once := Sub(Email, text);
    var twice := Sub(Serial, once);
    SubKeepsClean(Email, Email, text);
    SubKeepsClean(Email, Serial, once);
    SubKeepsClean(Serial, Serial, once);
    SubKeepsClean(Email, Secret, twice);
    SubKeepsClean(Serial, Secret, twice);
    SecretsStayMasked(twice);
    StagesInOrder(text);
    CleanIsNotVisible(p, Masked(text));
  }

  /** Masking masked text leaves it unchanged; only the secrets are counted again. */
  lemma MaskingIsIdempotent(text: string)
    ensures Masked(Masked(text)) == Masked(text)
    ensures Redactions(Masked(text), |PATTERNS|) == Count(Secret, Stage(text, 2))
  {
    var twice := Sub(Serial, Sub(Email, text));
    var masked := Masked(text);
    SubKeepsClean(Email, Email, text);
    SubKeepsClean(Email, Serial, Sub(Email, text));
    SubKeepsClean(Serial, Serial, Sub(Email, text));
    SubKeepsClean(Email, Secret, twice);
    SubKeepsClean(Serial, Secret, twice);
    SecretsStayMasked(twice);
    StagesInOrder(text);
    StagesInOrder(masked);
    SubOfClean(Email, masked);
    SubOfClean(Serial, masked);
    assert Redactions(masked, 1) == Redactions(masked, 0) + Count(Email, Stage(masked, 0));
    assert Redactions(masked, 2) == Redactions(masked, 1) + Count(Serial, Stage(masked, 1));
  }
}
