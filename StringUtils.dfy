/** The URL-scheme normalisers `formatHTTP` and `formatHTTPS`, written as free
    functions on strings, together with the pieces of JavaScript they are built
    from: `indexOf`, `replace` with a string pattern, and `RegExp.test` with the
    case-insensitive flag. */
module StringUtils {

  predicate StartsWith(s: string, prefix: string) {
    prefix <= s
  }

  /** `t` occurs in `s` starting at position `k` */
  predicate OccursAt(s: string, t: string, k: nat) {
    k + |t| <= |s| && s[k..k + |t|] == t
  }

  /** The first occurrence of `t` in `s` at or after `from`, or -1 */
  function IndexFrom(s: string, t: string, from: nat): (r: int)
    ensures r == -1 || (from <= r && OccursAt(s, t, r))
    ensures r >= 0 ==> forall k: nat :: from <= k < r ==> !OccursAt(s, t, k)
    ensures r == -1 ==> forall k: nat :: from <= k ==> !OccursAt(s, t, k)
    decreases |s| - from
  {
    if from + |t| > |s| then -1
    else if OccursAt(s, t, from) then from
    else IndexFrom(s, t, from + 1)
  }

  /** `s.indexOf(t)`: the position of the first occurrence of `t` in `s`, or -1 */
  function IndexOf(s: string, t: string): (r: int)
    ensures r == -1 || (r >= 0 && OccursAt(s, t, r))
    ensures r >= 0 ==> forall k: nat :: k < r ==> !OccursAt(s, t, k)
    ensures r == -1 ==> forall k: nat :: !OccursAt(s, t, k)
  {
    IndexFrom(s, t, 0)
  }

  /** `s.indexOf(t) == 0` is exactly the case-sensitive prefix test */
  lemma IndexOfZeroIffPrefix(s: string, t: string)
    ensures IndexOf(s, t) == 0 <==> StartsWith(s, t)
  {
    if StartsWith(s, t) {
      assert OccursAt(s, t, 0);
    }
  }

  /** `s.replace(pattern, replacement)` with a string pattern: only the first
      occurrence is replaced. `$` patterns in the replacement are not interpreted. */
  function ReplaceFirst(s: string, pattern: string, replacement: string): (r: string)
    ensures StartsWith(s, pattern) ==> r == replacement + s[|pattern|..]
    ensures (forall k: nat :: !OccursAt(s, pattern, k)) ==> r == s
  {
    var k := IndexOf(s, pattern);
    IndexOfZeroIffPrefix(s, pattern);
    if k < 0 then s else s[..k] + replacement + s[k + |pattern|..]
  }

  /** One element of a regular expression built from characters and starred
      one-character classes, such as `/http[s]*:\/\//` */
  datatype Atom = Lit(c: char) | Star(c: char)

  /** The `i` flag's character comparison, restricted to ASCII letters. For the
      pattern characters used here (h, t, p, s, `:` and `/`) it agrees with the
      canonicalisation of non-Unicode JavaScript regular expressions. */
  function LowerAscii(c: char): char {
    if 'A' <= c <= 'Z' then (c as int + 32) as char else c
  }

  predicate SameIgnoringCase(x: char, y: char) {
    LowerAscii(x) == LowerAscii(y)
  }

  /** The pattern `p` matches a prefix of `s[i..]`, backtracking through stars */
  function MatchAt(p: seq<Atom>, s: string, i: nat): bool
    requires i <= |s|
    decreases |p|, |s| - i
  {
    if p == [] then true
    else match p[0]
      case Lit(c) => i < |s| && SameIgnoringCase(s[i], c) && MatchAt(p[1..], s, i + 1)
      case Star(c) =>
        MatchAt(p[1..], s, i) || (i < |s| && SameIgnoringCase(s[i], c) && MatchAt(p, s, i + 1))
  }

  /** The pattern matches somewhere in `s[i..]` */
  function SearchFrom(p: seq<Atom>, s: string, i: nat): bool
    requires i <= |s|
    decreases |s| - i
  {
    MatchAt(p, s, i) || (i < |s| && SearchFrom(p, s, i + 1))
  }

  /** `new RegExp(p, 'gi').test(s)` on a freshly built expression */
  predicate Test(p: seq<Atom>, s: string) {
    SearchFrom(p, s, 0)
  }

  /** The pattern that matches exactly the string `t` (ignoring case) */
  function Literal(t: string): (p: seq<Atom>)
    ensures |p| == |t|
  {
    if t == [] then [] else [Lit(t[0])] + Literal(t[1..])
  }

  /** `/http[s]*:\/\//` */
  function AnySchemePattern(): seq<Atom> {
    Literal("http") + [Star('s')] + Literal("://")
  }

  /** `/http:\/\//` */
  function HttpPattern(): seq<Atom> {
    Literal("http://")
  }

  /** `/https:\/\//` */
  function HttpsPattern(): seq<Atom> {
    Literal("https://")
  }

  /** `t` occurs in `s` at position `k` when case is ignored */
  predicate OccursIgnoringCaseAt(s: string, t: string, k: nat) {
    k + |t| <= |s| && forall j :: 0 <= j < |t| ==> SameIgnoringCase(s[k + j], t[j])
  }

  /** An exact occurrence is also an occurrence when case is ignored */
  lemma ExactIsIgnoringCase(s: string, t: string, k: nat)
    requires OccursAt(s, t, k)
    ensures OccursIgnoringCaseAt(s, t, k)
  {
    forall j | 0 <= j < |t| ensures SameIgnoringCase(s[k + j], t[j]) {
      assert s[k + j] == s[k..k + |t|][j];
    }
  }

  /** A literal prefix of a pattern consumes exactly its own characters, in
      either case */
  lemma {:induction false} LiteralThen(t: string, q: seq<Atom>, s: string, i: nat)
    requires OccursIgnoringCaseAt(s, t, i)
    ensures MatchAt(Literal(t) + q, s, i) == MatchAt(q, s, i + |t|)
  {
    if t != [] {
      assert Literal(t) + q == [Lit(t[0])] + (Literal(t[1..]) + q);
      assert SameIgnoringCase(s[i + 0], t[0]);
      assert OccursIgnoringCaseAt(s, t[1..], i + 1) by {
        forall j | 0 <= j < |t[1..]| ensures SameIgnoringCase(s[i + 1 + j], t[1..][j]) {
          assert SameIgnoringCase(s[i + (j + 1)], t[j + 1]);
        }
      }
      LiteralThen(t[1..], q, s, i + 1);
    } else {
      assert Literal(t) + q == q;
    }
  }

  /** The scheme regular expression accepts every string that begins with
      `http://` or `https://` in lower case */
  lemma AnySchemeAcceptsPrefix(s: string)
    ensures StartsWith(s, "http://") || StartsWith(s, "https://") ==> Test(AnySchemePattern(), s)
  {
    var rest := [Star('s')] + Literal("://");
    assert AnySchemePattern() == Literal("http") + rest;
    assert rest[1..] == Literal("://") + [];
    if StartsWith(s, "http://") {
      assert OccursAt(s, "http", 0) && OccursAt(s, "://", 4);
      ExactIsIgnoringCase(s, "http", 0);
      ExactIsIgnoringCase(s, "://", 4);
      LiteralThen("http", rest, s, 0);
      LiteralThen("://", [], s, 4);
      assert MatchAt(rest, s, 4);
    } else if StartsWith(s, "https://") {
      assert OccursAt(s, "http", 0) && OccursAt(s, "://", 5);
      ExactIsIgnoringCase(s, "http", 0);
      ExactIsIgnoringCase(s, "://", 5);
      LiteralThen("http", rest, s, 0);
      LiteralThen("://", [], s, 5);
      assert MatchAt(rest, s, 5);
      assert s[4] == 's';
      assert MatchAt(rest, s, 4);
    }
  }

  /** A literal regular expression accepts every string that begins with its text */
  lemma LiteralAcceptsPrefix(t: string, s: string)
    ensures StartsWith(s, t) ==> Test(Literal(t), s)
  {
    if StartsWith(s, t) {
      assert OccursAt(s, t, 0);
      ExactIsIgnoringCase(s, t, 0);
      LiteralThen(t, [], s, 0);
      assert Literal(t) + [] == Literal(t);
    }
  }

  /** `formatHTTP`: prefix `http://` unless the string already begins,
      case-sensitively, with `http://` or `https://` */
  function FormatHttp(s: string): (r: string)
    ensures r == if StartsWith(s, "http://") || StartsWith(s, "https://") then s else "http://" + s
  {
    AnySchemeAcceptsPrefix(s);
    IndexOfZeroIffPrefix(s, "http://");
    IndexOfZeroIffPrefix(s, "https://");
    if !Test(AnySchemePattern(), s) then "http://" + s
    else if IndexOf(s, "http://") != 0 && IndexOf(s, "https://") != 0 then "http://" + s
    else s
  }

  /** `formatHTTPS`: turn a leading `http://` into `https://`, keep a leading
      `https://`, and prefix `https://` to anything else */
  function FormatHttps(s: string): (r: string)
    ensures r == if StartsWith(s, "http://") then "https://" + s[7..]
                 else if StartsWith(s, "https://") then s
                 else "https://" + s
  {
    LiteralAcceptsPrefix("http://", s);
    LiteralAcceptsPrefix("https://", s);
    IndexOfZeroIffPrefix(s, "http://");
    IndexOfZeroIffPrefix(s, "https://");
    if !Test(HttpPattern(), s) && !Test(HttpsPattern(), s) then "https://" + s
    else if IndexOf(s, "http://") == 0 then ReplaceFirst(s, "http://", "https://")
    else if IndexOf(s, "http://") != 0 && IndexOf(s, "https://") != 0 then "https://" + s
    else s
  }

  /** Whatever `formatHTTP` returns begins with `http://` or `https://` */
  lemma FormatHttpHasScheme(s: string)
    ensures StartsWith(FormatHttp(s), "http://") || StartsWith(FormatHttp(s), "https://")
  {
  }

  /** `formatHTTP` leaves a string unchanged exactly when it already begins,
      case-sensitively, with `http://` or `https://` */
  lemma FormatHttpUnchangedIff(s: string)
    ensures FormatHttp(s) == s <==> StartsWith(s, "http://") || StartsWith(s, "https://")
  {
    if FormatHttp(s) == s {
      assert |FormatHttp(s)| == |s| ==> StartsWith(s, "http://") || StartsWith(s, "https://");
    }
  }

  lemma FormatHttpIdempotent(s: string)
    ensures FormatHttp(FormatHttp(s)) == FormatHttp(s)
  {
    FormatHttpHasScheme(s);
  }

  /** The scheme regular expression ignores case but the prefix test does not:
      `HTTP://...` passes the regular expression, yet both normalisers prefix it */
  lemma UpperCaseSchemeIsPrefixed(rest: string)
    ensures Test(AnySchemePattern(), "HTTP://" + rest)
    ensures FormatHttp("HTTP://" + rest) == "http://" + "HTTP://" + rest
    ensures FormatHttps("HTTP://" + rest) == "https://" + "HTTP://" + rest
  {
    var s := "HTTP://" + rest;
    assert s[0] == 'H';
    assert !StartsWith(s, "http://") && !StartsWith(s, "https://");
    var tail := [Star('s')] + Literal("://");
    assert AnySchemePattern() == Literal("http") + tail;
    assert tail[1..] == Literal("://") + [];
    assert OccursIgnoringCaseAt(s, "http", 0) by {
      assert s[0] == 'H' && s[1] == 'T' && s[2] == 'T' && s[3] == 'P';
    }
    assert OccursAt(s, "://", 4) by {
      assert s[4..7] == "://";
    }
    ExactIsIgnoringCase(s, "://", 4);
    LiteralThen("http", tail, s, 0);
    LiteralThen("://", [], s, 4);
    assert MatchAt(tail, s, 4);
  }

  /** A scheme that occurs after the start of the string is not a scheme: a
      string such as `x?u=http://y` gets prefixed, by both normalisers */
  lemma LaterSchemeIsPrefixed(s: string)
    requires !StartsWith(s, "http://") && !StartsWith(s, "https://")
    ensures FormatHttp(s) == "http://" + s
    ensures FormatHttps(s) == "https://" + s
  {
  }

  /** Whatever `formatHTTPS` returns begins with `https://` */
  lemma FormatHttpsHasScheme(s: string)
    ensures StartsWith(FormatHttps(s), "https://")
  {
  }

  /** A string that begins with `https://` never begins with `http://` */
  lemma HttpsIsNotHttp(s: string)
    requires StartsWith(s, "https://")
    ensures !StartsWith(s, "http://")
  {
    assert s[4] == 's';
  }

  lemma FormatHttpsIdempotent(s: string)
    ensures FormatHttps(FormatHttps(s)) == FormatHttps(s)
  {
    FormatHttpsHasScheme(s);
    HttpsIsNotHttp(FormatHttps(s));
  }

  /** Normalising to `http` first makes no difference to `formatHTTPS` */
  lemma FormatHttpsAbsorbsFormatHttp(s: string)
    ensures FormatHttps(FormatHttp(s)) == FormatHttps(s)
  {
    if !StartsWith(s, "http://") && !StartsWith(s, "https://") {
      var h := "http://" + s;
      assert StartsWith(h, "http://");
      assert h[7..] == s;
    }
  }

  /** On a string that begins with `http://` only that leading occurrence is
      rewritten; the rest is kept as it is */
  lemma FormatHttpsUpgradesLeadingHttp(rest: string)
    ensures FormatHttps("http://" + rest) == "https://" + rest
  {
    var s := "http://" + rest;
    assert StartsWith(s, "http://") && s[7..] == rest;
  }

}
