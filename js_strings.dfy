/** The JavaScript string operations the proxy action performs, with their
    exact semantics: the trailing-slash regex replacement on the destination,
    the FIRST-occurrence `String.prototype.replace` on the path, the
    lower-casing of the method, the `/html/i` test on the content type and
    the decimal rendering of a status code inside an error message. */
module JsStrings {

  // ---------------------------------------------------------------------------
  // destUrl.replace(/\/+$/, '')
  // ---------------------------------------------------------------------------

  predicate EndsWithSlash(s: string) {
    |s| > 0 && s[|s| - 1] == '/'
  }

  /** `k` slash characters. */
  function Slashes(k: nat): (r: string)
    ensures |r| == k
    ensures forall i :: 0 <= i < k ==> r[i] == '/'
  {
    if k == 0 then "" else Slashes(k - 1) + "/"
  }

  /** The regex `/\/+$/` (no `g` or `m` flag) matches the maximal run of
      slashes that ends the string, if there is one; replacing it by '' leaves
      the longest prefix that does not end in a slash. The result is a prefix
      of the input, the part removed consists of slashes only, and the result
      itself no longer ends in a slash. */
  function StripTrailingSlashes(s: string): (r: string)
    ensures !EndsWithSlash(r)
    ensures |r| <= |s| && r == s[..|r|]
    ensures forall i :: |r| <= i < |s| ==> s[i] == '/'
    decreases |s|
  {
    if EndsWithSlash(s) then StripTrailingSlashes(s[..|s| - 1]) else s
  }

  /** The input is exactly the stripped result followed by some number of
      slashes. */
  lemma StripDecomposes(s: string)
    ensures s == StripTrailingSlashes(s) + Slashes(|s| - |StripTrailingSlashes(s)|)
  {
  }

  /** Reference characterisation of the stripping: whatever string `t` not
      ending in a slash is followed by `k` slashes, stripping gives back `t`. */
  lemma {:induction false} StripSlashSuffix(t: string, k: nat)
    requires !EndsWithSlash(t)
    ensures StripTrailingSlashes(t + Slashes(k)) == t
    decreases k
  {
    if k == 0 {
      assert t + Slashes(0) == t;
    } else {
      var s := t + Slashes(k);
      assert EndsWithSlash(s);
      assert s[..|s| - 1] == t + Slashes(k - 1);
      StripSlashSuffix(t, k - 1);
    }
  }

  /** Stripping twice is stripping once. */
  lemma StripIdempotent(s: string)
    ensures StripTrailingSlashes(StripTrailingSlashes(s)) == StripTrailingSlashes(s)
  {
  }

  // ---------------------------------------------------------------------------
  // path.replace(';', '%3B')
  // ---------------------------------------------------------------------------

  /** `String.prototype.replace` with a string pattern replaces only the
      first occurrence. */
  function EscapeFirstSemicolon(s: string): (r: string)
    ensures ';' !in s ==> r == s
    ensures ';' in s ==> |r| == |s| + 2
  {
    if s == [] then []
    else if s[0] == ';' then "%3B" + s[1..]
    else [s[0]] + EscapeFirstSemicolon(s[1..])
  }

  /** Index `i` holds the first semicolon of `s`. */
  predicate FirstSemicolonAt(s: string, i: nat) {
    i < |s| && s[i] == ';' && ';' !in s[..i]
  }

  /** Semicolon-free text in front of the path is copied and skipped. */
  lemma {:induction false} EscapeSkipsPrefix(a: string, t: string)
    requires ';' !in a
    ensures EscapeFirstSemicolon(a + t) == a + EscapeFirstSemicolon(t)
  {
    if a == [] {
      assert a + t == t;
    } else {
      assert a[0] != ';';
      assert (a + t)[1..] == a[1..] + t;
      EscapeSkipsPrefix(a[1..], t);
      assert [a[0]] + a[1..] == a;
    }
  }

  /** The escaped path is the part before the first semicolon, then `%3B`,
      then everything after it, untouched (later semicolons included). */
  lemma EscapeAt(s: string, i: nat)
    requires FirstSemicolonAt(s, i)
    ensures EscapeFirstSemicolon(s) == s[..i] + "%3B" + s[i + 1..]
  {
    assert s == s[..i] + s[i..];
    EscapeSkipsPrefix(s[..i], s[i..]);
    assert s[i..][1..] == s[i + 1..];
  }

  /** Exactly one semicolon disappears: every semicolon after the first one
      is still in the escaped path. */
  lemma EscapeRemovesOneSemicolon(s: string, i: nat)
    requires FirstSemicolonAt(s, i)
    ensures multiset(EscapeFirstSemicolon(s))[';'] == multiset(s)[';'] - 1
  {
    EscapeAt(s, i);
    assert s == s[..i] + [';'] + s[i + 1..];
    assert multiset("%3B")[';'] == 0;
  }

  /** The first semicolon, preceded by semicolon-free text, becomes `%3B`. */
  lemma EscapeFirst(a: string, rest: string)
    requires ';' !in a
    ensures EscapeFirstSemicolon(a + ";" + rest) == a + "%3B" + rest
  {
    assert a + ";" + rest == a + (";" + rest);
    EscapeSkipsPrefix(a, ";" + rest);
    assert (";" + rest)[1..] == rest;
  }

  /** Commentary rather than a step of the action, which escapes the path
      once: escaping again would replace the NEXT semicolon, so unlike the
      slash stripping the operation is not idempotent. */
  lemma EscapeTwice(a: string, b: string, c: string)
    requires ';' !in a && ';' !in b
    ensures EscapeFirstSemicolon(EscapeFirstSemicolon(a + ";" + b + ";" + c)) ==
      a + "%3B" + b + "%3B" + c
    ensures EscapeFirstSemicolon(EscapeFirstSemicolon(a + ";" + b + ";" + c)) !=
      EscapeFirstSemicolon(a + ";" + b + ";" + c)
  {
    var rest := b + ";" + c;
    assert a + ";" + b + ";" + c == a + ";" + rest;
    EscapeFirst(a, rest);
    var head := a + "%3B" + b;
    assert a + "%3B" + rest == head + ";" + c;
    assert ';' !in head by { assert ';' !in "%3B"; }
    EscapeFirst(head, c);
  }

  // ---------------------------------------------------------------------------
  // method.toLowerCase() == "options"
  // ---------------------------------------------------------------------------

  function LowerChar(c: char): char {
    if 'A' <= c <= 'Z' then (c as int + 32) as char else c
  }

  function UpperChar(c: char): char {
    if 'a' <= c <= 'z' then (c as int - 32) as char else c
  }

  function Lower(s: string): string {
    seq(|s|, i requires 0 <= i < |s| => LowerChar(s[i]))
  }

  const Options: string := "options"

  function IsOptions(verb: string): (r: bool)
    ensures r ==> |verb| == |Options|
    ensures verb == Options ==> r
  {
    Lower(verb) == Options
  }

  /** The preflight test accepts "options" in every mix of upper and lower
      case, and nothing else. */
  lemma OptionsAnyCase(verb: string)
    ensures IsOptions(verb) <==>
      |verb| == |Options| &&
      forall i :: 0 <= i < |Options| ==> verb[i] == Options[i] || verb[i] == UpperChar(Options[i])
  {
  }

  // ---------------------------------------------------------------------------
  // contentType.match(/html/i)
  // ---------------------------------------------------------------------------

  const Html: string := "html"

  /** A case-insensitive occurrence of "html" starts at index `i`. */
  predicate HtmlAt(c: string, i: int) {
    0 <= i && i + |Html| <= |c| && Lower(c[i..i + |Html|]) == Html
  }

  /** The left-to-right scan of the regex engine. */
  function ContainsHtml(c: string): (r: bool)
    ensures r ==> |c| >= |Html|
    ensures HtmlAt(c, 0) ==> r
    decreases |c|
  {
    if |c| < |Html| then false
    else Lower(c[..|Html|]) == Html || ContainsHtml(c[1..])
  }

  /** The scan succeeds exactly when some index starts a case-insensitive
      "html". */
  lemma {:induction false} ContainsHtmlSpec(c: string)
    ensures ContainsHtml(c) <==> exists i :: HtmlAt(c, i)
    decreases |c|
  {
    if |c| >= |Html| {
      ContainsHtmlSpec(c[1..]);
      if ContainsHtml(c) {
        if Lower(c[..|Html|]) == Html {
          assert HtmlAt(c, 0);
        } else {
          var j :| HtmlAt(c[1..], j);
          SliceOfTail(c, j + 1, |Html|);
          assert HtmlAt(c, j + 1);
        }
      }
      if exists i :: HtmlAt(c, i) {
        var i :| HtmlAt(c, i);
        if i > 0 {
          SliceOfTail(c, i, |Html|);
          assert HtmlAt(c[1..], i - 1);
        }
      }
    }
  }

  lemma SliceOfTail(c: string, i: nat, n: nat)
    requires 1 <= i && i + n <= |c|
    ensures c[1..][i - 1..i - 1 + n] == c[i..i + n]
  {
  }

  // ---------------------------------------------------------------------------
  // Number-to-string for the status code, and "contains"
  // ---------------------------------------------------------------------------

  predicate IsDigit(c: char) {
    '0' <= c <= '9'
  }

  function DigitChar(d: nat): (c: char)
    requires d < 10
    ensures IsDigit(c)
  {
    ('0' as int + d) as char
  }

  function DigitValue(c: char): (d: nat)
    requires IsDigit(c)
    ensures d < 10 && DigitChar(d) == c
  {
    c as int - '0' as int
  }

  /** Decimal rendering of a non-negative integer, as JavaScript's
      Number-to-String conversion gives it for integers. */
  function Decimal(n: nat): (r: string)
    ensures |r| >= 1
    ensures forall i :: 0 <= i < |r| ==> IsDigit(r[i])
    ensures |r| > 1 ==> r[0] != '0'
  {
    if n < 10 then [DigitChar(n)] else Decimal(n / 10) + [DigitChar(n % 10)]
  }

  /** The value a string of digits denotes. */
  function DecimalValue(s: string): nat
    requires forall i :: 0 <= i < |s| ==> IsDigit(s[i])
  {
    if s == [] then 0 else 10 * DecimalValue(s[..|s| - 1]) + DigitValue(s[|s| - 1])
  }

  /** The rendering loses nothing: reading the digits back gives the number. */
  lemma {:induction false} DecimalRoundTrip(n: nat)
    ensures DecimalValue(Decimal(n)) == n
  {
    if n >= 10 {
      var r := Decimal(n);
      assert r[..|r| - 1] == Decimal(n / 10);
      DecimalRoundTrip(n / 10);
    } else {
      assert Decimal(n)[..0] == [];
    }
  }

  /** `t` occurs in `s` at index `i`. */
  predicate OccursAt(s: string, t: string, i: int) {
    0 <= i && i + |t| <= |s| && s[i..i + |t|] == t
  }

  ghost predicate Contains(s: string, t: string) {
    exists i :: OccursAt(s, t, i)
  }

  lemma ContainsMiddle(a: string, t: string, b: string)
    ensures Contains(a + t + b, t)
  {
    assert (a + t + b)[|a|..|a| + |t|] == t;
    assert OccursAt(a + t + b, t, |a|);
  }

  /** An occurrence survives putting text in front. */
  lemma ContainsAfterPrefix(p: string, m: string, t: string)
    requires Contains(m, t)
    ensures Contains(p + m, t)
  {
    var i :| OccursAt(m, t, i);
    assert (p + m)[|p| + i..|p| + i + |t|] == m[i..i + |t|];
    assert OccursAt(p + m, t, |p| + i);
  }

  /** Each of the parts u, a, d of a six-part concatenation occurs in it. */
  lemma ContainsEachPart(p: string, u: string, q: string, a: string, r: string, d: string)
    ensures Contains(p + u + q + a + r + d, u)
    ensures Contains(p + u + q + a + r + d, a)
    ensures Contains(p + u + q + a + r + d, d)
  {
    var m := p + u + q + a + r + d;
    assert m == p + u + (q + a + r + d);
    ContainsMiddle(p, u, q + a + r + d);
    assert m == (p + u + q) + a + (r + d);
    ContainsMiddle(p + u + q, a, r + d);
    assert m == (p + u + q + a + r) + d + "";
    ContainsMiddle(p + u + q + a + r, d, "");
  }
}
