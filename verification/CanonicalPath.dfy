/**
 One spelling per artifact. Handlers serve the cleaned form of a request path; a check judged on the
 path as requested must therefore refuse every spelling that cleaning would rewrite, at any layer of
 percent-encoding, and a routing rule must decide alike for the spellings that remain.

 A character stands for a byte.
 */
module CanonicalPath {
  import opened Prelude

  const MAX_PATH_DECODES := 8

  datatype PathError =
    | EmptySegment
    | DotSegment(seg: string)
    | EncodedSlash
    | EncodedTooOften

  // ---------------------------------------------------------------- splitting and cleaning

  function Split(s: string): (segs: seq<string>)
    ensures segs != []
  {
    if s == "" then [""]
    else
      var rest := Split(s[1..]);
      if s[0] == '/' then [""] + rest else [[s[0]] + rest[0]] + rest[1..]
  }

  function Join(segs: seq<string>): string {
    if segs == [] then ""
    else if |segs| == 1 then segs[0]
    else segs[0] + "/" + Join(segs[1..])
  }

  function TrimSlash(p: string): string {
    if p != "" && p[0] == '/' then p[1..] else p
  }

  predicate IsDots(seg: string) {
    seg == "." || seg == ".."
  }

  /** Neither dropped nor followed by cleaning. */
  predicate Plain(seg: string) {
    seg != "" && !IsDots(seg) && '/' !in seg
  }

  /** What is left of `segs` under the root once empty and dot segments are resolved, `kept` coming before. */
  function Resolve(segs: seq<string>, kept: seq<string>): seq<string> {
    if segs == [] then kept
    else if segs[0] == "" || segs[0] == "." then Resolve(segs[1..], kept)
    else if segs[0] == ".." then Resolve(segs[1..], if kept == [] then [] else kept[..|kept| - 1])
    else Resolve(segs[1..], kept + [segs[0]])
  }

  /** The shortest name of a rooted path: section 5.2.4 of RFC 3986, with repeated and trailing slashes removed. */
  function Clean(p: string): string {
    "/" + Join(Resolve(Split(p), []))
  }

  lemma {:induction false} JoinSplit(s: string)
    ensures Join(Split(s)) == s
    ensures forall i :: 0 <= i < |Split(s)| ==> '/' !in Split(s)[i]
  {
    if s != "" {
      JoinSplit(s[1..]);
      var rest := Split(s[1..]);
      if s[0] == '/' {
        assert Split(s)[1..] == rest;
      } else if |rest| > 1 {
        assert Split(s)[1..] == rest[1..];
      }
    }
  }

  lemma {:induction false} SplitOfTwo(a: string, b: string)
    requires '/' !in a
    ensures Split(a + "/" + b) == [a] + Split(b)
  {
    if a == "" {
      assert (a + "/" + b)[1..] == b;
    } else {
      assert (a + "/" + b)[1..] == a[1..] + "/" + b;
      SplitOfTwo(a[1..], b);
      assert ([a[1..]] + Split(b))[1..] == Split(b);
      assert [a[0]] + a[1..] == a;
    }
  }

  lemma {:induction false} SplitOfOne(a: string)
    requires '/' !in a
    ensures Split(a) == [a]
  {
    if a != "" {
      SplitOfOne(a[1..]);
      assert [a[0]] + a[1..] == a;
    }
  }

  lemma {:induction false} SplitJoin(segs: seq<string>)
    requires segs != [] && forall i :: 0 <= i < |segs| ==> '/' !in segs[i]
    ensures Split(Join(segs)) == segs
  {
    if |segs| == 1 {
      SplitOfOne(segs[0]);
    } else {
      SplitJoin(segs[1..]);
      SplitOfTwo(segs[0], Join(segs[1..]));
    }
  }

  lemma {:induction false} JoinThenSlash(segs: seq<string>)
    requires segs != []
    ensures Join(segs + [""]) == Join(segs) + "/"
  {
    assert (segs + [""])[1..] == segs[1..] + [""];
    if |segs| > 1 {
      JoinThenSlash(segs[1..]);
    }
  }

  lemma {:induction false} ResolvePlain(segs: seq<string>, kept: seq<string>)
    requires forall i :: 0 <= i < |segs| ==> Plain(segs[i])
    ensures Resolve(segs, kept) == kept + segs
    ensures Resolve(segs + [""], kept) == kept + segs
  {
    if segs == [] {
      assert Resolve([""], kept) == Resolve([], kept);
    } else {
      assert (segs + [""])[1..] == segs[1..] + [""];
      ResolvePlain(segs[1..], kept + [segs[0]]);
    }
  }

  // ---------------------------------------------------------------- percent-decoding

  function HexDigit(c: char): (d: Option<nat>)
    ensures d.Some? ==> d.value < 16
  {
    if '0' <= c <= '9' then Some((c - '0') as nat)
    else if 'a' <= c <= 'f' then Some((c - 'a') as nat + 10)
    else if 'A' <= c <= 'F' then Some((c - 'A') as nat + 10)
    else None
  }

  /** Section 2.1 of RFC 3986; a "%" that starts no escape makes the whole segment undecodable. */
  function Unescape(s: string): Option<string> {
    if s == "" then Some("")
    else if s[0] != '%' then
      match Unescape(s[1..])
      case Some(r) => Some([s[0]] + r)
      case None => None
    else if |s| < 3 || HexDigit(s[1]).None? || HexDigit(s[2]).None? then None
    else
      match Unescape(s[3..])
      case Some(r) => Some([(HexDigit(s[1]).value * 16 + HexDigit(s[2]).value) as char] + r)
      case None => None
  }

  /** What an upstream makes of a segment: an undecodable one is a literal name. */
  function Decoded(seg: string): string {
    match Unescape(seg)
    case Some(d) => d
    case None => seg
  }

  function Peeled(seg: string, layers: nat): string {
    if layers == 0 then seg else Decoded(Peeled(seg, layers - 1))
  }

  lemma {:induction false} DecodingShrinks(s: string)
    ensures Unescape(s).Some? ==> |Unescape(s).value| <= |s| && (s != "" ==> Unescape(s).value != "")
  {
    if s == "" {
    } else if s[0] != '%' {
      DecodingShrinks(s[1..]);
    } else if |s| >= 3 {
      DecodingShrinks(s[3..]);
    }
  }

  lemma {:induction false} PeelingNeverEmpties(seg: string, layers: nat)
    requires seg != ""
    ensures Peeled(seg, layers) != ""
  {
    if layers > 0 {
      PeelingNeverEmpties(seg, layers - 1);
      DecodingShrinks(Peeled(seg, layers - 1));
    }
  }

  lemma {:induction false} SettledStaysSettled(seg: string, m: nat, n: nat)
    requires m <= n && Peeled(seg, m + 1) == Peeled(seg, m)
    ensures Peeled(seg, n) == Peeled(seg, m)
  {
    if m < n {
      SettledStaysSettled(seg, m, n - 1);
    }
  }

  // ---------------------------------------------------------------- the check

  /** No layer of encoding hides a dot segment or a separator, and there are fewer layers than the bound. */
  predicate Settled(seg: string) {
    && Peeled(seg, MAX_PATH_DECODES) == Peeled(seg, MAX_PATH_DECODES - 1)
    && forall k :: 0 <= k < MAX_PATH_DECODES ==> !IsDots(Peeled(seg, k)) && '/' !in Peeled(seg, k)
  }

  method CheckSegment(segment: string) returns (err: Option<PathError>)
    requires '/' !in segment
    ensures err.None? <==> Settled(segment)
    ensures err.Some? ==>
      match err.value
      case DotSegment(seg) => IsDots(seg) && exists k :: 0 <= k < MAX_PATH_DECODES && seg == Peeled(segment, k)
      case EncodedSlash => exists k :: 0 < k <= MAX_PATH_DECODES && '/' in Peeled(segment, k)
      case EncodedTooOften => forall k :: 0 <= k < MAX_PATH_DECODES ==> Peeled(segment, k + 1) != Peeled(segment, k)
      case EmptySegment => false
  {
    var seg := segment;
    for i := 0 to MAX_PATH_DECODES
      invariant seg == Peeled(segment, i)
      invariant forall k :: 0 <= k < i ==> !IsDots(Peeled(segment, k))
      invariant forall k :: 0 <= k <= i ==> '/' !in Peeled(segment, k)
      invariant forall k :: 0 <= k < i ==> Peeled(segment, k + 1) != Peeled(segment, k)
    {
      if IsDots(seg) {
        return Some(DotSegment(seg));
      }
      var decoded := Unescape(seg);
      assert Peeled(segment, i + 1) == Decoded(seg);
      if decoded.None? || decoded.value == seg {
        forall n: nat | i <= n <= MAX_PATH_DECODES ensures Peeled(segment, n) == seg {
          SettledStaysSettled(segment, i, n);
        }
        return None;
      }
      if '/' in decoded.value {
        if i + 1 == MAX_PATH_DECODES {
          assert !Settled(segment);
        }
        return Some(EncodedSlash);
      }
      seg := decoded.value;
    }
    assert Peeled(segment, MAX_PATH_DECODES - 1 + 1) != Peeled(segment, MAX_PATH_DECODES - 1);
    return Some(EncodedTooOften);
  }

  function Segments(p: string): (segs: seq<string>)
    ensures segs != []
  {
    Split(TrimSlash(p))
  }

  /** The segment may stand at position `i` of `n`: only the last may be empty. */
  predicate Passes(seg: string, i: nat, n: nat) {
    if seg == "" then i + 1 == n else Settled(seg)
  }

  predicate Accepted(p: string) {
    var segs := Segments(p);
    forall i :: 0 <= i < |segs| ==> Passes(segs[i], i, |segs|)
  }

  /** Segment `i` is the first that does not pass, and `e` tells an empty one from an encoded one. */
  predicate RefusedAt(p: string, i: nat, e: PathError) {
    var segs := Segments(p);
    && i < |segs| && !Passes(segs[i], i, |segs|)
    && (forall j :: 0 <= j < i ==> Passes(segs[j], j, |segs|))
    && (e.EmptySegment? <==> segs[i] == "")
  }

  function Canonical(p: string): string {
    Clean("/" + TrimSlash(p))
  }

  method CanonicalPath(p: string) returns (r: Result<string, PathError>)
    ensures r.Ok? <==> Accepted(p)
    ensures r.Ok? ==> r.value == Canonical(p)
    ensures r.Err? ==> exists i: nat :: RefusedAt(p, i, r.error)
  {
    var segs := Segments(p);
    JoinSplit(TrimSlash(p));
    for i := 0 to |segs|
      invariant forall j :: 0 <= j < i ==> Passes(segs[j], j, |segs|)
    {
      if segs[i] == "" {
        if i != |segs| - 1 {
          assert RefusedAt(p, i, EmptySegment);
          return Err(EmptySegment);
        }
      } else {
        var err := CheckSegment(segs[i]);
        if err.Some? {
          assert RefusedAt(p, i, err.value);
          return Err(err.value);
        }
      }
    }
    return Ok(Clean("/" + TrimSlash(p)));
  }

  // ---------------------------------------------------------------- one spelling

  /** The segments an accepted path names: all of them but an empty last one. */
  function Named(p: string): seq<string> {
    var segs := Segments(p);
    if segs[|segs| - 1] == "" then segs[..|segs| - 1] else segs
  }

  lemma NamedArePlain(p: string)
    requires Accepted(p)
    ensures forall i :: 0 <= i < |Named(p)| ==> Plain(Named(p)[i]) && Settled(Named(p)[i])
  {
    JoinSplit(TrimSlash(p));
    forall i | 0 <= i < |Named(p)| ensures Plain(Named(p)[i]) && Settled(Named(p)[i]) {
      assert Passes(Segments(p)[i], i, |Segments(p)|);
      assert Peeled(Named(p)[i], 0) == Named(p)[i];
    }
  }

  lemma CanonicalNames(p: string)
    requires Accepted(p)
    ensures Canonical(p) == "/" + Join(Named(p))
  {
    NamedArePlain(p);
    var t := TrimSlash(p);
    SplitOfTwo("", t);
    assert "" + "/" + t == "/" + t;
    assert ([""] + Split(t))[1..] == Split(t);
    assert Resolve([""] + Split(t), []) == Resolve(Split(t), []);
    ResolvePlain(Named(p), []);
    if Split(t) != Named(p) {
      assert Split(t) == Named(p) + [""];
    }
    assert [] + Named(p) == Named(p);
  }

  /** The spellings a request may use for the artifact served as `c`. */
  function Spellings(c: string): set<string>
    requires c != ""
  {
    if c == "/" then {"", "/"} else {c, c[1..], c + "/", c[1..] + "/"}
  }

  /** An accepted path is what its handler serves, up to the leading slash and one trailing slash. */
  lemma AcceptedIsASpelling(p: string)
    requires Accepted(p)
    ensures Canonical(p) != "" && p in Spellings(Canonical(p))
  {
    CanonicalNames(p);
    NamedArePlain(p);
    var t := TrimSlash(p);
    JoinSplit(t);
    var body := Named(p);
    var c := Canonical(p);
    assert c[1..] == Join(body);
    if Split(t) == body {
      assert t == c[1..];
    } else {
      assert Split(t) == body + [""];
      if body == [] {
        assert t == "";
      } else {
        JoinThenSlash(body);
        assert t == c[1..] + "/";
      }
    }
    if body != [] {
      JoinIsNotEmpty(body);
    }
    assert p == t || p == "/" + t;
    assert "/" + (c[1..] + "/") == c + "/";
  }

  lemma JoinIsNotEmpty(segs: seq<string>)
    requires segs != [] && segs[0] != ""
    ensures Join(segs) != "" && Join(segs)[0] == segs[0][0]
  {
  }

  lemma TrimmedSpelling(t: string, q: string)
    requires t != "" ==> t[0] != '/'
    requires q in Spellings("/" + t)
    ensures TrimSlash(q) == t || (t != "" && TrimSlash(q) == t + "/")
  {
    var c := "/" + t;
    assert c[1..] == t;
    assert c + "/" == "/" + (t + "/");
  }

  lemma NoSlashIn(segs: seq<string>)
    requires forall i :: 0 <= i < |segs| ==> segs[i] == "" || Plain(segs[i])
    ensures forall i :: 0 <= i < |segs| ==> '/' !in segs[i]
  {
  }

  lemma NamedOf(names: seq<string>, q: string)
    requires forall i :: 0 <= i < |names| ==> Plain(names[i]) && Settled(names[i])
    requires Segments(q) == names + [""] || (names != [] && Segments(q) == names)
    ensures Named(q) == names && Accepted(q)
  {
  }

  /** The names of a spelling are those of the canonical path, so it passes too. */
  lemma SpellingIsAccepted(names: seq<string>, q: string)
    requires forall i :: 0 <= i < |names| ==> Plain(names[i]) && Settled(names[i])
    requires q in Spellings("/" + Join(names))
    ensures Accepted(q) && Canonical(q) == "/" + Join(names)
  {
    if names != [] {
      JoinIsNotEmpty(names);
    }
    TrimmedSpelling(Join(names), q);
    hide Settled, Plain, Split, Spellings, Clean;
    if TrimSlash(q) == Join(names) {
      if names != [] {
        SplitJoin(names) by { NoSlashIn(names); }
      } else {
        SplitOfOne("");
      }
    } else {
      JoinThenSlash(names);
      SplitJoin(names + [""]) by { NoSlashIn(names + [""]); }
    }
    NamedOf(names, q);
    CanonicalNames(q);
  }

  /**
   The spellings of a canonical path are exactly the accepted paths served as it. Everything else
   that cleans to it is refused.
   */
  lemma SpellingsExactly(p: string, q: string)
    requires Accepted(p)
    ensures Canonical(p) != ""
    ensures Accepted(q) && Canonical(q) == Canonical(p) <==> q in Spellings(Canonical(p))
  {
    CanonicalNames(p);
    NamedArePlain(p);
    if q in Spellings(Canonical(p)) {
      SpellingIsAccepted(Named(p), q);
    }
    if Accepted(q) {
      AcceptedIsASpelling(q);
    }
  }

  lemma CanonicalIsFixed(p: string)
    requires Accepted(p)
    ensures Accepted(Canonical(p)) && Canonical(Canonical(p)) == Canonical(p)
  {
    SpellingsExactly(p, Canonical(p));
  }

  // ---------------------------------------------------------------- every layer

  function PeelEach(segs: seq<string>, layers: nat): seq<string> {
    seq(|segs|, i requires 0 <= i < |segs| => Peeled(segs[i], layers))
  }

  lemma SettledAtEveryLayer(seg: string, layers: nat)
    requires Settled(seg) && seg != ""
    ensures Plain(Peeled(seg, layers))
  {
    PeelingNeverEmpties(seg, layers);
    if layers >= MAX_PATH_DECODES {
      SettledStaysSettled(seg, MAX_PATH_DECODES - 1, layers);
    }
  }

  /**
   However many layers of encoding an upstream takes off an accepted path, there is nothing left to
   clean: it has the same number of segments, and none is empty, a dot segment or split in two.
   */
  lemma DecodedPathStaysPut(p: string, layers: nat)
    requires Accepted(p)
    ensures var decoded := "/" + Join(PeelEach(Named(p), layers));
            Clean(decoded) == decoded
                 && Split(Join(PeelEach(Named(p), layers)))
                    == (if Named(p) == [] then [""] else PeelEach(Named(p), layers))
  {
    NamedArePlain(p);
    var segs := PeelEach(Named(p), layers);
    forall i | 0 <= i < |segs| ensures Plain(segs[i]) {
      SettledAtEveryLayer(Named(p)[i], layers);
    }
    var t := Join(segs);
    if segs == [] {
      assert Resolve(["", ""], []) == Resolve([""], []) == [];
      assert Split("/") == ["", ""];
    } else {
      SplitJoin(segs);
      SplitOfTwo("", t);
      assert "" + "/" + t == "/" + t;
      assert ([""] + segs)[1..] == segs;
      ResolvePlain(segs, []);
      assert [] + segs == segs;
    }
  }

  // ---------------------------------------------------------------- routing rules

  /** A matcher that does not compile matches nothing. */
  datatype Rule = Rule(allow: bool, matchers: seq<Option<string -> bool>>)

  predicate MatchesAny(matchers: seq<Option<string -> bool>>, p: string) {
    exists i :: 0 <= i < |matchers| && matchers[i].Some? && matchers[i].value(p)
  }

  predicate Admits(rule: Rule, p: string) {
    if rule.allow then MatchesAny(rule.matchers, p) else !MatchesAny(rule.matchers, p)
  }

  predicate RuleAllows(rule: Option<Rule>, p: string) {
    match rule
    case None => true
    case Some(r) => Accepted(p) && Admits(r, p) && (r.allow || Admits(r, Canonical(p)))
  }

  /** A BLOCK rule lets the artifact through under some spelling exactly when it lets its canonical path through. */
  lemma BlockedUnderEverySpelling(rule: Rule, c: string)
    requires !rule.allow && Accepted(c) && Canonical(c) == c
    ensures RuleAllows(Some(rule), c) <==> exists q :: q in Spellings(c) && RuleAllows(Some(rule), q)
  {
    AcceptedIsASpelling(c);
    forall q | q in Spellings(c) && RuleAllows(Some(rule), q) ensures RuleAllows(Some(rule), c) {
      SpellingsExactly(c, q);
    }
  }

  /** A rule refuses every path that is not a spelling of what is served for it. */
  lemma SecondSpellingsRefused(rule: Rule, p: string)
    requires p !in Spellings(Canonical(p))
    ensures !RuleAllows(Some(rule), p)
  {
    if Accepted(p) {
      AcceptedIsASpelling(p);
    }
  }

  /** The other way round does not hold: refusing the spelling with the slash says nothing about the one without. */
  lemma RefusedSlashDoesNotRefuseTheName()
    ensures var rule := Rule(false, [Some((p: string) => p == "/a/")]);
            !RuleAllows(Some(rule), "/a/") && RuleAllows(Some(rule), "/a") && "/a/" in Spellings("/a")
  {
    SplitOfOne("a");
    assert "a"[1..] == "";
    assert Unescape("") == Some("") && ['a'] + "" == "a";
    assert Unescape("a") == Some("a");
    SettledStaysSettled("a", 0, 7);
    SettledStaysSettled("a", 0, 8);
    forall k | 0 <= k < MAX_PATH_DECODES ensures Peeled("a", k) == "a" {
      SettledStaysSettled("a", 0, k);
    }
    var rule := Rule(false, [Some((p: string) => p == "/a/")]);
    assert Join(["a"]) == "a" && "/" + "a" == "/a" && "/a" + "/" == "/a/";
    SpellingIsAccepted(["a"], "/a");
    SpellingIsAccepted(["a"], "/a/");
    assert rule.matchers[0].value("/a/");
    assert MatchesAny(rule.matchers, "/a/");
  }
}
