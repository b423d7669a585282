/** Credential generation of the store (src/store/app-state.tsx): `slugify`,
    the random four-digit suffix printed in decimal, and the generated
    usernames `fc-<slug>-<n>` and `ap-<slug>-<n>`. Lower-casing is modelled
    for ASCII letters only. */
module Slug {
  import opened Prelude

  /** `toLowerCase` on one character, ASCII letters only. */
  function LowerChar(c: char): char {
    if 'A' <= c <= 'Z' then (c as int + 32) as char else c
  }

  /** `s.toLowerCase()` for ASCII text: no upper-case letter is left and
      every other character is kept in place. */
  function Lower(s: string): (r: string)
    ensures |r| == |s|
    ensures forall k :: 0 <= k < |s| ==> !('A' <= r[k] <= 'Z')
    ensures forall k :: 0 <= k < |s| && 'A' <= s[k] <= 'Z' ==> r[k] == (s[k] as int + 32) as char
    ensures forall k :: 0 <= k < |s| && !('A' <= s[k] <= 'Z') ==> r[k] == s[k]
  {
    if s == [] then [] else [LowerChar(s[0])] + Lower(s[1..])
  }

  /** The class `[a-z0-9]` of the slug's regular expressions. */
  predicate IsSlugChar(c: char) {
    ('a' <= c <= 'z') || ('0' <= c <= '9')
  }

  /** No two hyphens stand next to each other. */
  predicate NoDoubleHyphen(t: string) {
    forall k :: 0 <= k < |t| - 1 ==> !(t[k] == '-' && t[k + 1] == '-')
  }

  /** Only `[a-z0-9-]`, and no run of hyphens: the shape after the first replace. */
  predicate Collapsed(t: string) {
    (forall k :: 0 <= k < |t| ==> IsSlugChar(t[k]) || t[k] == '-') && NoDoubleHyphen(t)
  }

  /** A slug: collapsed, and neither starting nor ending with a hyphen. */
  predicate IsSlug(t: string) {
    Collapsed(t) && (t != [] ==> t[0] != '-' && t[|t| - 1] != '-')
  }

  /** Drops the run of characters outside `[a-z0-9]` at the start of `s`. */
  function SkipRun(s: string): (r: string)
    ensures |r| <= |s| && r == s[|s| - |r|..]
    ensures forall k :: 0 <= k < |s| - |r| ==> !IsSlugChar(s[k])
    ensures r != [] ==> IsSlugChar(r[0])
  {
    if s != [] && !IsSlugChar(s[0]) then
      var r := SkipRun(s[1..]);
      assert forall k :: 1 <= k < |s| - |r| ==> s[k] == s[1..][k - 1];
      r
    else s
  }

  /** `.replace(/[^a-z0-9]+/g, "-")`: every maximal run of characters outside
      `[a-z0-9]` becomes one hyphen. */
  function Collapse(s: string): (r: string)
    ensures Collapsed(r)
    ensures s != [] && IsSlugChar(s[0]) ==> r != [] && r[0] == s[0]
    ensures r == [] <==> s == []
    decreases |s|
  {
    if s == [] then []
    else if IsSlugChar(s[0]) then [s[0]] + Collapse(s[1..])
    else "-" + Collapse(SkipRun(s[1..]))
  }

  /** `.replace(/(^-|-$)/g, "")`: drops one hyphen at the start and one at the end. */
  function StripEdges(t: string): string {
    var u := if t != [] && t[0] == '-' then t[1..] else t;
    if u != [] && u[|u| - 1] == '-' then u[..|u| - 1] else u
  }

  /** `slugify(s)`: its result uses only `[a-z0-9-]`, never two hyphens in a
      row, and neither starts nor ends with a hyphen. */
  function Slugify(s: string): (r: string)
    ensures IsSlug(r)
  {
    var t := Collapse(Lower(s));
    StripEdgesMakesSlug(t);
    StripEdges(t)
  }

  /** Dropping the edge hyphens of a collapsed string leaves a slug. */
  lemma StripEdgesMakesSlug(t: string)
    requires Collapsed(t)
    ensures IsSlug(StripEdges(t))
  {
    var u := if t != [] && t[0] == '-' then t[1..] else t;
    assert Collapsed(u) by {
      if t != [] && t[0] == '-' {
        assert forall k :: 0 <= k < |u| ==> u[k] == t[k + 1];
      }
    }
    assert u != [] ==> u[0] != '-';
    if u != [] && u[|u| - 1] == '-' {
      var v := u[..|u| - 1];
      assert forall k :: 0 <= k < |v| ==> v[k] == u[k];
      assert v != [] ==> v[|v| - 1] == u[|u| - 2];
    }
  }

  /** A collapsed string is left as it is by the first replace. */
  lemma {:induction false} CollapseFixesCollapsed(t: string)
    requires Collapsed(t)
    ensures Collapse(t) == t
    decreases |t|
  {
    if t != [] {
      assert Collapsed(t[1..]);
      if IsSlugChar(t[0]) {
        CollapseFixesCollapsed(t[1..]);
      } else {
        assert t[0] == '-';
        assert t[1..] == [] || t[1] != '-';
        assert SkipRun(t[1..]) == t[1..];
        CollapseFixesCollapsed(t[1..]);
      }
    }
  }

  /** A string is a fixed point of `slugify` exactly when it is a slug. */
  lemma SlugifyFixpoint(t: string)
    ensures Slugify(t) == t <==> IsSlug(t)
  {
    if IsSlug(t) {
      assert Lower(t) == t;
      CollapseFixesCollapsed(t);
    }
  }

  /** `slugify(slugify(s)) == slugify(s)`. */
  lemma SlugifyIdempotent(s: string)
    ensures Slugify(Slugify(s)) == Slugify(s)
  {
    SlugifyFixpoint(Slugify(s));
  }

  // ---------------------------------------------------------------------
  // The random suffix and the generated usernames
  // ---------------------------------------------------------------------

  predicate IsDigit(c: char) {
    '0' <= c <= '9'
  }

  function DigitChar(d: nat): char
    requires d < 10
  {
    ('0' as int + d) as char
  }

  /** `String(n)` for a natural number: decimal digits, most significant first. */
  function DecimalString(n: nat): (r: string)
    ensures r != []
    ensures forall k :: 0 <= k < |r| ==> IsDigit(r[k])
    ensures n >= 10 ==> r[0] != '0'
    decreases n
  {
    if n < 10 then [DigitChar(n)] else DecimalString(n / 10) + [DigitChar(n % 10)]
  }

  /** Reads a string of decimal digits back as a number. */
  function ParseDecimal(s: string): nat
    requires forall k :: 0 <= k < |s| ==> IsDigit(s[k])
  {
    if s == [] then 0
    else
      var last := s[|s| - 1];
      assert IsDigit(last);
      ParseDecimal(s[..|s| - 1]) * 10 + (last as int - '0' as int)
  }

  /** Printing a number in decimal and reading it back gives the number. */
  lemma {:induction false} DecimalRoundTrip(n: nat)
    ensures ParseDecimal(DecimalString(n)) == n
    decreases n
  {
    if n >= 10 {
      var r := DecimalString(n);
      assert r[..|r| - 1] == DecimalString(n / 10);
      DecimalRoundTrip(n / 10);
    }
  }

  /** The suffix `Math.floor(1000 + Math.random() * 9000)` prints as four digits. */
  lemma {:induction false} SuffixHasFourDigits(n: nat)
    requires 1000 <= n <= 9999
    ensures |DecimalString(n)| == 4
  {
    assert DecimalString(n) == DecimalString(n / 10) + [DigitChar(n % 10)];
    assert DecimalString(n / 10) == DecimalString(n / 100) + [DigitChar(n / 10 % 10)];
    assert DecimalString(n / 100) == DecimalString(n / 1000) + [DigitChar(n / 100 % 10)];
  }

  /** `` `${prefix}${slugify(name)}-${n}` `` */
  function Username(prefix: string, name: string, n: nat): string {
    prefix + Slugify(name) + "-" + DecimalString(n)
  }

  /** `fc-<slug>-<n>`, the username generated for a company. */
  function CompanyUsername(name: string, n: nat): string {
    Username("fc-", name, n)
  }

  /** `ap-<slug>-<n>`, the username generated for an applicant. */
  function ApplicantUsername(name: string, n: nat): string {
    Username("ap-", name, n)
  }

  /** Splits a generated username back into its three-character prefix, its
      slug and its four-digit suffix; `None` when the shape does not fit. */
  function ParseUsername(u: string): Option<(string, string, nat)> {
    if |u| >= 8 && u[|u| - 5] == '-' && forall k :: |u| - 4 <= k < |u| ==> IsDigit(u[k])
    then Some((u[..3], u[3..|u| - 5], ParseDecimal(u[|u| - 4..])))
    else None
  }

  /** A generated username is the prefix, the slug of the name, a hyphen and
      the four-digit suffix, and each part can be read back from it. */
  lemma UsernameRoundTrip(prefix: string, name: string, n: nat)
    requires |prefix| == 3 && 1000 <= n <= 9999
    ensures |Username(prefix, name, n)| == |Slugify(name)| + 8
    ensures ParseUsername(Username(prefix, name, n)) == Some((prefix, Slugify(name), n))
  {
    var u := Username(prefix, name, n);
    var sl := Slugify(name);
    var d := DecimalString(n);
    SuffixHasFourDigits(n);
    DecimalRoundTrip(n);
    var head := prefix + sl + "-";
    assert u == head + d;
    assert |head| == |sl| + 4 && |u| == |sl| + 8;
    assert u[|u| - 4..] == d;
    assert u[|u| - 5] == head[|sl| + 3] == '-';
    assert u[..3] == head[..3] == prefix;
    assert u[3..|u| - 5] == head[3..|sl| + 3] == sl;
  }

  /** Passwords come from `Math.random().toString(36).slice(2, 10)`: at most
      eight characters, each a digit or a lower-case letter. */
  predicate IsGeneratedPassword(p: string) {
    |p| <= 8 && forall k :: 0 <= k < |p| ==> IsSlugChar(p[k])
  }
}
