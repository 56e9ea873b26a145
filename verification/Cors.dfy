/**
 The allow-list of browser origins (src/config/cors.ts): from two environment variables to the
 answer of the checker.
 */
module Cors {
  import opened Wrappers
  import opened Strings
  import opened SearchText

  // ---------------------------------------------------------------------------
  // One origin
  // ---------------------------------------------------------------------------

  /** `replace(/\/+$/, '')`. */
  function DropSlashes(s: string): (r: string)
    ensures r <= s && (r != "" ==> r[|r| - 1] != '/')
  {
    if s != "" && s[|s| - 1] == '/' then DropSlashes(s[..|s| - 1]) else s
  }

  function Stripped(raw: string): string {
    DropSlashes(Trim(raw))
  }

  lemma {:induction false} DroppedAreSlashes(s: string)
    ensures exists slashes :: s == DropSlashes(s) + slashes && forall c :: c in slashes ==> c == '/'
  {
    if s != "" && s[|s| - 1] == '/' {
      DroppedAreSlashes(s[..|s| - 1]);
      var slashes :| s[..|s| - 1] == DropSlashes(s[..|s| - 1]) + slashes && forall c :: c in slashes ==> c == '/';
      assert s == DropSlashes(s) + (slashes + "/");
    } else {
      assert s == DropSlashes(s) + "";
    }
  }

  lemma {:induction false} LeftAreSpaces(s: string)
    ensures exists a :: s == a + TrimLeft(s) && forall c :: c in a ==> IsSpace(c)
  {
    if s != "" && IsSpace(s[0]) {
      LeftAreSpaces(s[1..]);
      var a :| s[1..] == a + TrimLeft(s[1..]) && forall c :: c in a ==> IsSpace(c);
      assert s == ([s[0]] + a) + TrimLeft(s);
    } else {
      assert s == "" + TrimLeft(s);
    }
  }

  lemma {:induction false} RightAreSpaces(s: string)
    ensures exists b :: s == TrimRight(s) + b && forall c :: c in b ==> IsSpace(c)
  {
    if s != "" && IsSpace(s[|s| - 1]) {
      RightAreSpaces(s[..|s| - 1]);
      var b :| s[..|s| - 1] == TrimRight(s[..|s| - 1]) + b && forall c :: c in b ==> IsSpace(c);
      assert s == TrimRight(s) + (b + [s[|s| - 1]]);
    } else {
      assert s == TrimRight(s) + "";
    }
  }

  /** What stripping takes away: white space around the text, and slashes right before that behind it. */
  lemma StrippedOf(raw: string) returns (before: string, slashes: string, behind: string)
    ensures var t := Stripped(raw);
            && raw == before + t + slashes + behind
            && (forall c :: c in before + behind ==> IsSpace(c)) && (forall c :: c in slashes ==> c == '/')
            && (t != "" ==> !IsSpace(t[0]) && t[|t| - 1] != '/' && (slashes == "" ==> !IsSpace(t[|t| - 1])))
  {
    hide IsSpace, TrimLeft, TrimRight, DropSlashes;
    LeftAreSpaces(raw);
    RightAreSpaces(TrimLeft(raw));
    DroppedAreSlashes(Trim(raw));
    before :| raw == before + TrimLeft(raw) && forall c :: c in before ==> IsSpace(c);
    behind :| TrimLeft(raw) == Trim(raw) + behind && forall c :: c in behind ==> IsSpace(c);
    slashes :| Trim(raw) == Stripped(raw) + slashes && forall c :: c in slashes ==> c == '/';
    InOnePiece(raw, before, Stripped(raw), slashes, behind);
    StrippedEnds(raw, slashes, behind);
  }

  lemma InOnePiece(raw: string, a: string, t: string, slashes: string, b: string)
    requires raw == a + (t + slashes + b)
    ensures raw == a + t + slashes + b
  {
  }

  lemma StrippedEnds(raw: string, slashes: string, behind: string)
    requires TrimLeft(raw) == Trim(raw) + behind && Trim(raw) == Stripped(raw) + slashes
    ensures var t := Stripped(raw);
            t != "" ==> !IsSpace(t[0]) && t[|t| - 1] != '/' && (slashes == "" ==> !IsSpace(t[|t| - 1]))
  {
    hide IsSpace;
    var t := Stripped(raw);
    if t != "" {
      assert TrimLeft(raw)[0] == Trim(raw)[0] == t[0];
      if slashes == "" { assert t == Trim(raw); }
    }
  }

  predicate IsAsciiLetter(c: char) {
    'a' <= c <= 'z' || 'A' <= c <= 'Z'
  }

  predicate IsSchemeChar(c: char) {
    IsAsciiLetter(c) || '0' <= c <= '9' || c == '+' || c == '.' || c == '-'
  }

  /** What `.` does not match. */
  predicate IsLineEnd(c: char) {
    c == '\n' || c == '\r' || c == '\U{2028}' || c == '\U{2029}'
  }

  predicate EndsAuthority(c: char) {
    c == '/' || c == '?' || c == '#'
  }

  datatype Parts = Parts(scheme: string, authority: string, rest: string)

  /** The length of the longest prefix in a class of characters. */
  function Span(p: char -> bool, s: string): (n: nat)
    ensures n <= |s| && (forall i :: 0 <= i < n ==> p(s[i])) && (n < |s| ==> !p(s[n]))
  {
    if s == "" || !p(s[0]) then 0 else 1 + Span(p, s[1..])
  }

  function InAuthority(c: char): bool { !EndsAuthority(c) }

  /** `/^([a-z][a-z0-9+.-]*:\/\/)([^/?#]*)(.*)$/i`. */
  function SplitOrigin(s: string): Option<Parts> {
    var n := Span(IsSchemeChar, s);
    if n == 0 || !IsAsciiLetter(s[0]) || !("://" <= s[n..]) then None
    else
      var behind := s[n + 3..];
      var m := Span(InAuthority, behind);
      if exists i :: m <= i < |behind| && IsLineEnd(behind[i]) then None
      else Some(Parts(s[..n + 3], behind[..m], behind[m..]))
  }

  function LowerParts(s: string): string {
    match SplitOrigin(s)
    case None => ToLower(s)
    case Some(p) => ToLower(p.scheme) + ToLower(p.authority) + p.rest
  }

  function NormalizeOrigin(raw: string): Option<string> {
    if Stripped(raw) == "" then None else Some(LowerParts(Stripped(raw)))
  }

  // ---------------------------------------------------------------------------
  // The lists
  // ---------------------------------------------------------------------------

  /** The normalized entries, blanks dropped. */
  function NormAll(parts: seq<string>): seq<string> {
    if parts == [] then []
    else
      var last := NormalizeOrigin(parts[|parts| - 1]);
      NormAll(parts[..|parts| - 1]) + if last.Some? then [last.value] else []
  }

  function Push(out: seq<string>, x: string): seq<string> {
    if x in out then out else out + [x]
  }

  /** `out` with the elements of `s` that are new, each once. */
  function PushAll(out: seq<string>, s: seq<string>): seq<string> {
    if s == [] then out else Push(PushAll(out, s[..|s| - 1]), s[|s| - 1])
  }

  /** First occurrences only. */
  function Dedupe(s: seq<string>): seq<string> {
    PushAll([], s)
  }

  method ParseOriginList(raw: string) returns (out: seq<string>)
    ensures out == Dedupe(NormAll(Split(raw, ',')))
  {
    hide NormalizeOrigin, Split;
    out := [];
    var parts := Split(raw, ',');
    for i := 0 to |parts|
      invariant out == Dedupe(NormAll(parts[..i]))
    {
      assert parts[..i + 1][..i] == parts[..i];
      ghost var before := NormAll(parts[..i]);
      var origin := NormalizeOrigin(parts[i]);
      if origin.Some? {
        assert NormAll(parts[..i + 1]) == before + [origin.value];
        assert (before + [origin.value])[..|before|] == before;
        if origin.value !in out { out := out + [origin.value]; }
      } else {
        assert NormAll(parts[..i + 1]) == before;
      }
    }
    assert parts[..|parts|] == parts;
  }

  /** All the entries of the two variables, in order. */
  function Entries(webOrigin: string, corsOrigins: string): seq<string> {
    Split(webOrigin, ',') + Split(corsOrigins, ',')
  }

  method ResolveCorsOrigins(webOrigin: string, corsOrigins: string) returns (allowed: seq<string>)
    ensures allowed == Dedupe(NormAll(Entries(webOrigin, corsOrigins)))
  {
    hide NormAll, Split;
    allowed := ParseOriginList(webOrigin);
    ghost var web := allowed;
    var extras := ParseOriginList(corsOrigins);
    for i := 0 to |extras|
      invariant allowed == PushAll(web, extras[..i])
    {
      assert extras[..i + 1][..i] == extras[..i];
      if extras[i] !in allowed { allowed := allowed + [extras[i]]; }
    }
    assert extras[..|extras|] == extras;
    var (w, c) := (NormAll(Split(webOrigin, ',')), NormAll(Split(corsOrigins, ',')));
    PushDeduped(web, c);
    PushAllAppend([], w, c);
    NormAllAppend(Split(webOrigin, ','), Split(corsOrigins, ','));
  }

  lemma {:induction false} NormAllAppend(a: seq<string>, b: seq<string>)
    ensures NormAll(a + b) == NormAll(a) + NormAll(b)
  {
    hide NormalizeOrigin;
    if b == [] {
      assert a + b == a;
    } else {
      NormAllAppend(a, b[..|b| - 1]);
      assert (a + b)[..|a + b| - 1] == a + b[..|b| - 1];
    }
  }

  lemma {:induction false} PushAllAppend(out: seq<string>, a: seq<string>, b: seq<string>)
    ensures PushAll(PushAll(out, a), b) == PushAll(out, a + b)
  {
    if b == [] {
      assert a + b == a;
    } else {
      PushAllAppend(out, a, b[..|b| - 1]);
      assert (a + b)[..|a + b| - 1] == a + b[..|b| - 1];
    }
  }

  lemma {:induction false} PushAllMembers(out: seq<string>, s: seq<string>)
    ensures forall x :: x in PushAll(out, s) <==> x in out || x in s
  {
    if s != [] {
      PushAllMembers(out, s[..|s| - 1]);
      assert s == s[..|s| - 1] + [s[|s| - 1]];
    }
  }

  /** Deduplicating the additions first makes no difference. */
  lemma {:induction false} PushDeduped(out: seq<string>, s: seq<string>)
    ensures PushAll(out, Dedupe(s)) == PushAll(out, s)
  {
    if s != [] {
      var (rest, x) := (s[..|s| - 1], s[|s| - 1]);
      PushDeduped(out, rest);
      var d := Dedupe(rest);
      if x in d {
        PushAllMembers([], rest);
        PushAllMembers(out, rest);
      } else {
        assert Dedupe(s) == d + [x] && (d + [x])[..|d|] == d;
      }
    }
  }

  // ---------------------------------------------------------------------------
  // The checker
  // ---------------------------------------------------------------------------

  /** `new Set(allowed.map(normalizeOrigin).filter(Boolean))`. */
  function AllowSet(allowed: seq<string>): set<string> {
    set o | o in allowed && NormalizeOrigin(o).Some? :: NormalizeOrigin(o).value
  }

  const HTTPS := "https://"
  const VERCEL := ".vercel.app"

  predicate IsPreviewChar(c: char) {
    IsAsciiLetter(c) || '0' <= c <= '9' || c == '-'
  }

  /** `/^https:\/\/[a-z0-9-]+\.vercel\.app$/i`. */
  predicate IsVercelPreview(s: string) {
    && |HTTPS| + |VERCEL| < |s|
    && ToLower(s[..|HTTPS|]) == HTTPS && ToLower(s[|s| - |VERCEL|..]) == VERCEL
    && forall c :: c in s[|HTTPS|..|s| - |VERCEL|] ==> IsPreviewChar(c)
  }

  /** The answer to a request with this `Origin` header. */
  function Admits(allow: set<string>, origin: Option<string>): bool {
    if origin == None || origin.value == "" then true
    else
      var n := NormalizeOrigin(origin.value);
      n.Some? && (n.value in allow || IsVercelPreview(n.value))
  }

  // ---------------------------------------------------------------------------
  // When is the normal form a normal form?
  // ---------------------------------------------------------------------------

  lemma {:induction false} LowerAt(s: string)
    ensures |ToLower(s)| == |s| && forall i :: 0 <= i < |s| ==> ToLower(s)[i] == Lower(s[i])
  {
    hide Lower;
    if s != "" { LowerAt(s[1..]); }
  }

  lemma LowerLaws(c: char)
    ensures Lower(Lower(c)) == Lower(c)
    ensures IsSpace(Lower(c)) <==> IsSpace(c)
    ensures EndsAuthority(c) || c == ':' ==> Lower(c) == c
    ensures EndsAuthority(Lower(c)) ==> Lower(c) == c
    ensures IsAsciiLetter(c) ==> IsAsciiLetter(Lower(c))
    ensures IsSchemeChar(c) ==> IsSchemeChar(Lower(c))
  {
  }

  lemma LowerTwice(s: string)
    ensures ToLower(ToLower(s)) == ToLower(s)
  {
    hide Lower, ToLower;
    LowerAt(s);
    LowerAt(ToLower(s));
    forall i | 0 <= i < |s|
      ensures ToLower(ToLower(s))[i] == ToLower(s)[i]
    {
      LowerLaws(s[i]);
    }
  }

  /** The texts that `SplitOrigin` splits, written out. */
  ghost predicate OriginShape(name: string, authority: string, rest: string) {
    && name != "" && ('a' <= name[0] <= 'z' || 'A' <= name[0] <= 'Z')
    && (forall c :: c in name ==>
          'a' <= c <= 'z' || 'A' <= c <= 'Z' || '0' <= c <= '9' || c == '+' || c == '.' || c == '-')
    && (forall c :: c in authority ==> c != '/' && c != '?' && c != '#')
    && (rest == "" || rest[0] == '/' || rest[0] == '?' || rest[0] == '#')
    && (forall c :: c in rest ==> c != '\n' && c != '\r' && c != '\U{2028}' && c != '\U{2029}')
  }

  lemma ShapesAgree(name: string, authority: string, rest: string)
    ensures OriginShape(name, authority, rest) <==> Shaped(name, authority, rest)
  {
  }

  /** A text splits into a scheme, an authority and a rest exactly when it is made of such parts. */
  lemma SplitsExactly(s: string, name: string, authority: string, rest: string)
    ensures SplitOrigin(s) == Some(Parts(name + "://", authority, rest)) <==>
              s == name + "://" + authority + rest && OriginShape(name, authority, rest)
  {
    ShapesAgree(name, authority, rest);
    hide OriginShape;
    if Shaped(name, authority, rest) { SplitMade(name, authority, rest); }
    if SplitOrigin(s) == Some(Parts(name + "://", authority, rest)) { SplitIsShaped(s, name, authority, rest); }
  }

  lemma SplitIsShaped(s: string, name: string, authority: string, rest: string)
    requires SplitOrigin(s) == Some(Parts(name + "://", authority, rest))
    ensures s == name + "://" + authority + rest && Shaped(name, authority, rest)
  {
    hide SplitOrigin, ShapedAt, Shaped;
    var n, m := SplitIsAt(s);
    PiecesAreShaped(s, n, m);
    assert |name + "://"| == n + 3 && name == (name + "://")[..n] == s[..n];
  }

  lemma PiecesAreShaped(s: string, n: nat, m: nat)
    requires ShapedAt(s, n, m)
    ensures n + 3 <= m <= |s| && Shaped(s[..n], s[n + 3..m], s[m..])
    ensures s == s[..n] + "://" + s[n + 3..m] + s[m..]
  {
    hide IsSchemeChar, IsAsciiLetter, IsLineEnd, InAuthority, EndsAuthority;
    assert s == s[..n] + s[n..n + 3] + s[n + 3..m] + s[m..];
  }

  lemma {:induction false} SpanIs(p: char -> bool, s: string, n: nat)
    requires n <= |s| && (forall i :: 0 <= i < n ==> p(s[i])) && (n < |s| ==> !p(s[n]))
    ensures Span(p, s) == n
  {
    if n != 0 { SpanIs(p, s[1..], n - 1); }
  }

  /** The shape of a text that splits: a name, `://`, an authority, and the rest. */
  ghost predicate Shaped(name: string, authority: string, rest: string) {
    && name != "" && IsAsciiLetter(name[0]) && (forall c :: c in name ==> IsSchemeChar(c))
    && (forall c :: c in authority ==> InAuthority(c))
    && (rest != "" ==> EndsAuthority(rest[0])) && (forall c :: c in rest ==> !IsLineEnd(c))
  }

  /** The same by positions: the name ends at `n`, the authority at `m`. */
  ghost predicate ShapedAt(s: string, n: nat, m: nat) {
    && 0 < n && n + 3 <= m <= |s| && IsAsciiLetter(s[0]) && s[n..n + 3] == "://"
    && (forall i :: 0 <= i < n ==> IsSchemeChar(s[i]))
    && (forall i :: n + 3 <= i < m ==> InAuthority(s[i]))
    && (m < |s| ==> EndsAuthority(s[m])) && (forall i :: m <= i < |s| ==> !IsLineEnd(s[i]))
  }

  lemma SchemeEndsAt(s: string, n: nat, m: nat)
    requires ShapedAt(s, n, m)
    ensures Span(IsSchemeChar, s) == n && "://" <= s[n..]
  {
    hide IsSchemeChar, IsAsciiLetter, IsLineEnd, EndsAuthority, Span;
    assert s[n..][..3] == s[n..n + 3] && s[n..n + 3][0] == s[n];
    Punctuation();
    SpanIs(IsSchemeChar, s, n);
  }

  lemma AuthorityEndsAt(s: string, n: nat, m: nat)
    requires ShapedAt(s, n, m)
    ensures var behind := s[n + 3..];
            && Span(InAuthority, behind) == m - n - 3
            && forall i :: m - n - 3 <= i < |behind| ==> !IsLineEnd(behind[i])
  {
    hide IsSchemeChar, IsAsciiLetter, IsLineEnd, EndsAuthority, Span;
    SpanIs(InAuthority, s[n + 3..], m - n - 3);
  }

  lemma SplitAt(s: string, n: nat, m: nat)
    requires ShapedAt(s, n, m)
    ensures SplitOrigin(s) == Some(Parts(s[..n + 3], s[n + 3..m], s[m..]))
  {
    hide IsSchemeChar, IsAsciiLetter, IsLineEnd, EndsAuthority, InAuthority, Span;
    SchemeEndsAt(s, n, m);
    AuthorityEndsAt(s, n, m);
    var behind := s[n + 3..];
    assert behind[..m - n - 3] == s[n + 3..m] && behind[m - n - 3..] == s[m..];
  }

  lemma SplitMade(name: string, authority: string, rest: string)
    requires Shaped(name, authority, rest)
    ensures SplitOrigin(name + "://" + authority + rest) == Some(Parts(name + "://", authority, rest))
  {
    hide SplitOrigin, IsSchemeChar, IsAsciiLetter, IsLineEnd, EndsAuthority, InAuthority;
    var s := name + "://" + authority + rest;
    var (n, m) := (|name|, |name| + 3 + |authority|);
    Slices(name, "://", authority, rest);
    forall i | 0 <= i < n
      ensures IsSchemeChar(s[i])
    {
      assert s[i] == name[i] && name[i] in name;
    }
    forall i | n + 3 <= i < m
      ensures InAuthority(s[i])
    {
      assert s[i] == authority[i - n - 3] && authority[i - n - 3] in authority;
    }
    forall i | m <= i < |s|
      ensures !IsLineEnd(s[i])
    {
      assert s[i] == rest[i - m] && rest[i - m] in rest;
    }
    SplitAt(s, n, m);
  }

  lemma Slices(a: string, b: string, c: string, d: string)
    ensures var (s, n, m) := (a + b + c + d, |a| + |b|, |a| + |b| + |c|);
            s[..n] == a + b && s[|a|..n] == b && s[n..m] == c && s[m..] == d
  {
  }

  lemma SplitIsAt(s: string) returns (n: nat, m: nat)
    requires SplitOrigin(s).Some?
    ensures ShapedAt(s, n, m) && SplitOrigin(s) == Some(Parts(s[..n + 3], s[n + 3..m], s[m..]))
  {
    hide IsSchemeChar, IsAsciiLetter, IsLineEnd, EndsAuthority, Span;
    n := Span(IsSchemeChar, s);
    var behind := s[n + 3..];
    m := n + 3 + Span(InAuthority, behind);
    assert s[n..][..3] == "://" && s[n..][..3] == s[n..n + 3];
    assert forall i :: n + 3 <= i < |s| ==> s[i] == behind[i - n - 3];
    assert behind[..m - n - 3] == s[n + 3..m] && behind[m - n - 3..] == s[m..];
  }

  lemma SplitShape(s: string) returns (name: string)
    requires SplitOrigin(s).Some?
    ensures var p := SplitOrigin(s).value;
            p.scheme == name + "://" && Shaped(name, p.authority, p.rest) && p.scheme + p.authority + p.rest == s
  {
    hide SplitOrigin, IsSchemeChar, IsAsciiLetter, IsLineEnd, InAuthority, EndsAuthority;
    var n, m := SplitIsAt(s);
    name := s[..n];
    assert s[..n + 3] == s[..n] + s[n..n + 3];
    assert s[..n + 3] + s[n + 3..m] + s[m..] == s;
    assert forall c :: c in s[n + 3..m] ==> InAuthority(c);
    assert forall c :: c in s[m..] ==> !IsLineEnd(c);
  }

  lemma ShapedLowered(name: string, authority: string, rest: string)
    requires Shaped(name, authority, rest)
    ensures Shaped(ToLower(name), ToLower(authority), rest)
  {
    hide Lower, ToLower, IsSchemeChar, IsAsciiLetter, IsLineEnd, EndsAuthority;
    LowerAt(name);
    LowerAt(authority);
    LowerLaws(name[0]);
    forall c | c in ToLower(name)
      ensures IsSchemeChar(c)
    {
      var i :| 0 <= i < |name| && ToLower(name)[i] == c;
      assert name[i] in name;
      LowerLaws(name[i]);
    }
    forall c | c in ToLower(authority)
      ensures InAuthority(c)
    {
      var i :| 0 <= i < |authority| && ToLower(authority)[i] == c;
      assert authority[i] in authority && InAuthority(authority[i]);
      LowerLaws(authority[i]);
    }
  }

  /** A split text splits again the same way once scheme and authority are in lower case. */
  lemma SplitLowered(s: string)
    requires SplitOrigin(s).Some?
    ensures var p := SplitOrigin(s).value;
            && p.scheme + p.authority + p.rest == s
            && SplitOrigin(LowerParts(s)) == Some(Parts(ToLower(p.scheme), ToLower(p.authority), p.rest))
  {
    hide Lower, ToLower, SplitOrigin, Shaped;
    var p := SplitOrigin(s).value;
    var name := SplitShape(s);
    ShapedLowered(name, p.authority, p.rest);
    SplitMade(ToLower(name), ToLower(p.authority), p.rest);
    SchemeLowered(name);
  }

  lemma SchemeLowered(name: string)
    ensures ToLower(name + "://") == ToLower(name) + "://"
  {
    hide ToLower, Lower;
    LowerAt(name + "://");
    LowerAt(name);
    Punctuation();
    var (a, b) := (ToLower(name + "://"), ToLower(name) + "://");
    assert |a| == |b| && forall i :: 0 <= i < |a| ==> a[i] == b[i];
  }

  lemma Punctuation()
    ensures Lower(':') == ':' && Lower('/') == '/' && !IsSchemeChar(':') && EndsAuthority('/')
  {
  }

  lemma LowerPartsTwice(s: string)
    ensures LowerParts(LowerParts(s)) == LowerParts(s)
  {
    hide Lower, ToLower;
    if SplitOrigin(s).Some? {
      SplitLowered(s);
      LowerTwice(SplitOrigin(s).value.scheme);
      LowerTwice(SplitOrigin(s).value.authority);
    } else {
      var t := LowerParts(s);
      LowerTwice(s);
      match SplitOrigin(t) {
        case None =>
        case Some(p) =>
          SplitLowered(t);
          LowerFixed(t, p);
      }
    }
  }

  lemma LowerFixed(t: string, p: Parts)
    requires ToLower(t) == t && p.scheme + p.authority + p.rest == t
    ensures ToLower(p.scheme) + ToLower(p.authority) + p.rest == t
  {
    hide Lower;
    MapConcatAppend(LowerText, p.scheme, p.authority);
    MapConcatAppend(LowerText, p.scheme + p.authority, p.rest);
    LowerAt(p.scheme);
    LowerAt(p.authority);
    LowerAt(p.rest);
    assert ToLower(p.scheme) + ToLower(p.authority) == t[..|p.scheme + p.authority|];
    assert p.rest == t[|p.scheme + p.authority|..];
  }

  /** Lower case character by character, except for what is behind the authority. */
  lemma LowerPartsAt(s: string)
    ensures |LowerParts(s)| == |s|
    ensures forall i :: 0 <= i < |s| ==> LowerParts(s)[i] == s[i] || LowerParts(s)[i] == Lower(s[i])
  {
    hide Lower, ToLower, SplitOrigin;
    LowerAt(s);
    match SplitOrigin(s) {
      case None =>
      case Some(p) =>
        SplitLowered(s);
        LowerAt(p.scheme);
        LowerAt(p.authority);
        PiecewiseLower(p.scheme, p.authority, p.rest);
    }
  }

  lemma PiecewiseLower(a: string, b: string, c: string)
    ensures var (s, t) := (a + b + c, ToLower(a) + ToLower(b) + c);
            |s| == |t| && forall i :: 0 <= i < |s| ==> t[i] == s[i] || t[i] == Lower(s[i])
  {
    hide Lower, ToLower;
    LowerAt(a);
    LowerAt(b);
  }

  /** No white space directly before the slashes that are dropped. */
  predicate Tidy(raw: string) {
    Stripped(raw) != "" && !IsSpace(Stripped(raw)[|Stripped(raw)| - 1])
  }

  lemma TrimEnds(s: string)
    ensures Trim(s) != "" ==> !IsSpace(Trim(s)[0])
    ensures s != "" && !IsSpace(s[0]) && !IsSpace(s[|s| - 1]) ==> Trim(s) == s
    ensures s != "" && IsSpace(s[|s| - 1]) ==> |Trim(s)| < |s|
  {
  }

  /** Normalizing is idempotent exactly on the tidy entries. */
  lemma IdempotentExactlyWhenTidy(raw: string)
    requires NormalizeOrigin(raw).Some?
    ensures NormalizeOrigin(NormalizeOrigin(raw).value) == NormalizeOrigin(raw) <==> Tidy(raw)
  {
    hide LowerParts, Lower, Trim, IsSpace;
    var (t, n) := (Stripped(raw), NormalizeOrigin(raw).value);
    TrimEnds(raw);
    TrimEnds(n);
    LowerPartsAt(t);
    LowerPartsAt(Stripped(n));
    LowerPartsTwice(t);
    LowerLaws(t[0]);
    LowerLaws(t[|t| - 1]);
    assert t[0] == Trim(raw)[0];
    if Tidy(raw) {
      assert t[|t| - 1] != '/' && n[|n| - 1] != '/' by { SlashStays(t[|t| - 1]); }
    }
  }

  lemma SlashStays(c: char)
    ensures Lower(c) == '/' <==> c == '/'
  {
  }

  lemma {:induction false} TrimLeftSkips(a: string, s: string)
    requires (forall c :: c in a ==> IsSpace(c)) && (s != "" ==> !IsSpace(s[0]))
    ensures TrimLeft(a + s) == s
  {
    hide IsSpace;
    if a == "" {
      assert a + s == s;
    } else {
      assert a[0] in a && (a + s)[1..] == a[1..] + s;
      TrimLeftSkips(a[1..], s);
    }
  }

  lemma {:induction false} TrimRightSkips(s: string, b: string)
    requires (forall c :: c in b ==> IsSpace(c)) && (s != "" ==> !IsSpace(s[|s| - 1]))
    ensures TrimRight(s + b) == s
  {
    hide IsSpace;
    if b == "" {
      assert s + b == s;
    } else {
      var front := b[..|b| - 1];
      assert b[|b| - 1] in b && (s + b)[..|s + b| - 1] == s + front;
      TrimRightSkips(s, front);
    }
  }

  lemma {:induction false} DropSlashesSkips(s: string, slashes: string)
    requires forall c :: c in slashes ==> c == '/'
    ensures DropSlashes(s + slashes) == DropSlashes(s)
  {
    if slashes == "" {
      assert s + slashes == s;
    } else {
      var front := slashes[..|slashes| - 1];
      assert slashes[|slashes| - 1] in slashes && (s + slashes)[..|s + slashes| - 1] == s + front;
      assert forall c :: c in front ==> c in slashes;
      DropSlashesSkips(s, front);
    }
  }

  /** Spaces around an origin and slashes behind it do not matter. */
  lemma SpacesAndSlashesDoNotMatter(before: string, origin: string, slashes: string, behind: string)
    requires forall c :: c in before || c in behind ==> IsSpace(c)
    requires forall c :: c in slashes ==> c == '/'
    requires origin != "" && !IsSpace(origin[0]) && !IsSpace(origin[|origin| - 1])
    ensures NormalizeOrigin(before + origin + slashes + behind) == NormalizeOrigin(origin)
  {
    hide LowerParts;
    assert !IsSpace('/');
    hide IsSpace, TrimLeft, TrimRight, DropSlashes;
    var core := origin + slashes;
    assert core[|core| - 1] in slashes || core[|core| - 1] == origin[|origin| - 1];
    assert before + origin + slashes + behind == before + (core + behind);
    TrimLeftSkips(before, core + behind);
    TrimRightSkips(core, behind);
    DropSlashesSkips(origin, slashes);
    TrimEnds(origin);
  }

  // ---------------------------------------------------------------------------
  // From the variables to the answer
  // ---------------------------------------------------------------------------

  function FirstIndex(s: seq<string>, x: string): (i: nat)
    ensures i <= |s| && (i < |s| ==> s[i] == x) && (x in s <==> i < |s|)
    ensures forall j :: 0 <= j < i ==> s[j] != x
  {
    if s == [] || s[0] == x then 0 else 1 + FirstIndex(s[1..], x)
  }

  /** The list has no duplicates and keeps the order of first occurrence. */
  lemma {:induction false} DedupeKeepsOrder(s: seq<string>)
    ensures forall x :: x in Dedupe(s) <==> x in s
    ensures forall i, j :: 0 <= i < j < |Dedupe(s)| ==>
              Dedupe(s)[i] != Dedupe(s)[j] && FirstIndex(s, Dedupe(s)[i]) < FirstIndex(s, Dedupe(s)[j])
    ensures s != [] ==> Dedupe(s) != [] && Dedupe(s)[0] == s[0]
  {
    PushAllMembers([], s);
    if s != [] {
      var (rest, x) := (s[..|s| - 1], s[|s| - 1]);
      assert s == rest + [x];
      DedupeKeepsOrder(rest);
      var d := Dedupe(rest);
      forall y | y in d
        ensures FirstIndex(s, y) == FirstIndex(rest, y)
      {
        FirstIndexAppend(rest, x, y);
      }
    }
  }

  lemma FirstIndexAppend(s: seq<string>, x: string, y: string)
    requires y in s
    ensures FirstIndex(s + [x], y) == FirstIndex(s, y)
  {
    var (i, j) := (FirstIndex(s + [x], y), FirstIndex(s, y));
    assert (s + [x])[j] == y;
    if i < j { assert s[i] == y; }
  }

  lemma {:induction false} NormAllMembers(parts: seq<string>)
    ensures forall o :: o in NormAll(parts) <==> exists e :: e in parts && NormalizeOrigin(e) == Some(o)
  {
    hide NormalizeOrigin;
    if parts != [] {
      var (rest, e) := (parts[..|parts| - 1], parts[|parts| - 1]);
      assert parts == rest + [e];
      NormAllMembers(rest);
      forall o | o in NormAll(parts)
        ensures exists e :: e in parts && NormalizeOrigin(e) == Some(o)
      {
        if o in NormAll(rest) {
          var f :| f in rest && NormalizeOrigin(f) == Some(o);
          assert f in parts;
        }
      }
      forall f | f in parts && NormalizeOrigin(f).Some?
        ensures NormalizeOrigin(f).value in NormAll(parts)
      {
        if f in rest { assert NormalizeOrigin(f).value in NormAll(rest); }
      }
    }
  }

  /** The list starts with the first entry of `WEB_ORIGIN` that is not blank. */
  lemma {:induction false} CanonicalFirst(parts: seq<string>, more: seq<string>, i: nat)
    requires i < |parts| && NormalizeOrigin(parts[i]).Some?
    requires forall j :: 0 <= j < i ==> NormalizeOrigin(parts[j]) == None
    ensures var list := Dedupe(NormAll(parts + more));
            list != [] && Some(list[0]) == NormalizeOrigin(parts[i])
  {
    hide NormalizeOrigin, Dedupe, NormAll;
    var behind := parts[i + 1..] + more;
    Blanks(parts[..i]);
    NormAllOne(parts[i]);
    NormAllAppend(parts[..i], [parts[i]]);
    NormAllAppend(parts[..i] + [parts[i]], behind);
    assert parts[..i] + [parts[i]] + behind == parts + more;
    DedupeKeepsOrder(NormAll(parts + more));
  }

  lemma NormAllOne(part: string)
    requires NormalizeOrigin(part).Some?
    ensures NormAll([part]) == [NormalizeOrigin(part).value]
  {
    hide NormalizeOrigin;
    assert [part][..0] == [] && NormAll([]) == [];
  }

  lemma {:induction false} Blanks(parts: seq<string>)
    requires forall j :: 0 <= j < |parts| ==> NormalizeOrigin(parts[j]) == None
    ensures NormAll(parts) == []
  {
    hide NormalizeOrigin;
    if parts != [] { Blanks(parts[..|parts| - 1]); }
  }

  /** Entries are normalized once into the list and once more into the set. */
  function NormalizeTwice(entry: string): Option<string> {
    match NormalizeOrigin(entry)
    case None => None
    case Some(n) => NormalizeOrigin(n)
  }

  ghost predicate ConfiguredTwice(entries: seq<string>, n: string) {
    exists e :: e in entries && NormalizeTwice(e) == Some(n)
  }

  /**
   End to end, for every configuration: a browser origin is admitted exactly when its normal form is
   what two normalizations make of a configured entry, or a preview deployment's; a request without
   an origin always is.
   */
  lemma AdmitsExactly(entries: seq<string>, origin: Option<string>)
    ensures Admits(AllowSet(Dedupe(NormAll(entries))), origin) <==>
              || origin == None || origin.value == ""
              || (&& NormalizeOrigin(origin.value).Some?
                  && (|| ConfiguredTwice(entries, NormalizeOrigin(origin.value).value)
                      || IsVercelPreview(NormalizeOrigin(origin.value).value)))
  {
    hide NormalizeOrigin, IsVercelPreview, Dedupe, NormAll;
    var list := Dedupe(NormAll(entries));
    DedupeKeepsOrder(NormAll(entries));
    NormAllMembers(entries);
    forall n
      ensures n in AllowSet(list) <==> ConfiguredTwice(entries, n)
    {
      if n in AllowSet(list) {
        var o :| o in list && NormalizeOrigin(o) == Some(n);
        var e :| e in entries && NormalizeOrigin(e) == Some(o);
        assert NormalizeTwice(e) == Some(n);
      }
      if ConfiguredTwice(entries, n) {
        var e :| e in entries && NormalizeTwice(e) == Some(n);
        assert NormalizeOrigin(e).value in list;
      }
    }
  }

  /** Some entry of the variables has this normal form. */
  ghost predicate Configured(entries: seq<string>, n: string) {
    exists e :: e in entries && NormalizeOrigin(e) == Some(n)
  }

  /** With tidy entries the second normalization changes nothing. */
  lemma TidyEntriesAdmitTheirNormalForms(webOrigin: string, corsOrigins: string, origin: Option<string>)
    requires var es := Entries(webOrigin, corsOrigins);
             forall e :: e in es && NormalizeOrigin(e).Some? ==> Tidy(e)
    ensures var es := Entries(webOrigin, corsOrigins);
            Admits(AllowSet(Dedupe(NormAll(es))), origin) <==>
              || origin == None || origin.value == ""
              || (&& NormalizeOrigin(origin.value).Some?
                  && (|| Configured(es, NormalizeOrigin(origin.value).value)
                      || IsVercelPreview(NormalizeOrigin(origin.value).value)))
  {
    hide NormalizeOrigin, IsVercelPreview, Split, Dedupe, NormAll, Tidy, Admits;
    var es := Entries(webOrigin, corsOrigins);
    AdmitsExactly(es, origin);
    forall e | e in es
      ensures NormalizeTwice(e) == NormalizeOrigin(e)
    {
      if NormalizeOrigin(e).Some? { IdempotentExactlyWhenTidy(e); }
    }
    assert forall n :: ConfiguredTwice(es, n) <==> Configured(es, n);
  }

  // ---------------------------------------------------------------------------
  // Which entries lock their own site out
  // ---------------------------------------------------------------------------

  /** The text of an origin: solid at both ends, without a slash behind. */
  predicate IsOriginText(o: string) {
    o != "" && !IsSpace(o[0]) && !IsSpace(o[|o| - 1]) && o[|o| - 1] != '/'
  }

  ghost predicate IsJunk(s: string) {
    forall c :: c in s ==> IsSpace(c) || c == '/'
  }

  /** One round of trimming and dropping slashes, on what stands behind an origin. */
  function Peel(junk: string): (r: string)
    ensures r <= junk
  {
    DropSlashes(TrimRight(junk))
  }

  lemma {:induction false} TrimRightBehind(o: string, junk: string)
    requires o != "" && !IsSpace(o[|o| - 1])
    ensures TrimRight(o + junk) == o + TrimRight(junk)
  {
    hide IsSpace;
    if junk == "" {
      assert o + junk == o;
    } else {
      assert (o + junk)[|o + junk| - 1] == junk[|junk| - 1];
      assert (o + junk)[..|o + junk| - 1] == o + junk[..|junk| - 1];
      TrimRightBehind(o, junk[..|junk| - 1]);
    }
  }

  lemma {:induction false} DropSlashesBehind(o: string, junk: string)
    requires o != "" && o[|o| - 1] != '/'
    ensures DropSlashes(o + junk) == o + DropSlashes(junk)
  {
    if junk == "" {
      assert o + junk == o;
    } else {
      assert (o + junk)[|o + junk| - 1] == junk[|junk| - 1];
      assert (o + junk)[..|o + junk| - 1] == o + junk[..|junk| - 1];
      DropSlashesBehind(o, junk[..|junk| - 1]);
    }
  }

  lemma StrippedBehind(o: string, junk: string)
    requires IsOriginText(o)
    ensures Stripped(o + junk) == o + Peel(junk)
  {
    hide IsSpace, TrimRight, DropSlashes;
    assert TrimLeft(o + junk) == o + junk;
    TrimRightBehind(o, junk);
    DropSlashesBehind(o, TrimRight(junk));
  }

  /** Where the part begins that keeps its case. */
  function Cut(s: string): (n: nat)
    ensures n <= |s|
  {
    match SplitOrigin(s)
    case None => |s|
    case Some(p) => |p.scheme| + |p.authority|
  }

  lemma LowerPartsByCut(s: string)
    ensures |LowerParts(s)| == |s|
    ensures forall i :: 0 <= i < |s| ==> LowerParts(s)[i] == if i < Cut(s) then Lower(s[i]) else s[i]
  {
    hide Lower, ToLower, SplitOrigin;
    LowerAt(s);
    match SplitOrigin(s) {
      case None =>
      case Some(p) =>
        SplitLowered(s);
        LowerAt(p.scheme);
        LowerAt(p.authority);
    }
  }

  ghost predicate HasLineEnd(s: string) {
    exists c :: c in s && IsLineEnd(c)
  }

  /** Junk behind an origin moves the cut only if it holds a line end. */
  lemma CutBehind(o: string, junk: string)
    requires IsJunk(junk) && o != ""
    ensures if Cut(o) < |o| && !HasLineEnd(junk) then Cut(o + junk) == Cut(o) else |o| <= Cut(o + junk)
  {
    hide SplitOrigin, IsSchemeChar, IsAsciiLetter, IsLineEnd, EndsAuthority, IsSpace;
    var s := o + junk;
    if SplitOrigin(o).Some? {
      var n, m := SplitIsAt(o);
      if m < |o| && !HasLineEnd(junk) {
        assert s[n..n + 3] == o[n..n + 3];
        assert forall i :: |o| <= i < |s| ==> s[i] == junk[i - |o|] && junk[i - |o|] in junk;
        assert ShapedAt(s, n, m);
        SplitAt(s, n, m);
      }
    }
    if Cut(s) < |o| {
      var n, m := SplitIsAt(s);
      assert s[n..n + 3] == o[n..n + 3];
      assert forall i :: 0 <= i < |o| ==> s[i] == o[i];
      SplitAt(o, n, m);
      forall c | c in junk
        ensures !IsLineEnd(c)
      {
        var i :| 0 <= i < |junk| && junk[i] == c;
        assert s[|o| + i] == c;
      }
    }
  }

  lemma JunkIsFixed(junk: string)
    requires IsJunk(junk)
    ensures forall i :: 0 <= i < |junk| ==> Lower(junk[i]) == junk[i]
  {
    forall i | 0 <= i < |junk|
      ensures Lower(junk[i]) == junk[i]
    {
      assert junk[i] in junk;
      SpaceIsFixed(junk[i]);
    }
  }

  lemma SpaceIsFixed(c: char)
    ensures IsSpace(c) || c == '/' ==> Lower(c) == c
  {
  }

  lemma LowerPartsBehind(o: string, junk: string)
    requires IsJunk(junk) && o != ""
    ensures LowerParts(o + junk) == (if HasLineEnd(junk) then ToLower(o) else LowerParts(o)) + junk
  {
    hide Lower, ToLower, LowerParts, Cut, HasLineEnd, IsJunk;
    CutBehind(o, junk);
    LowerPartsByCut(o);
    LowerPartsByCut(o + junk);
    LowerAt(o);
    JunkIsFixed(junk);
    var (a, b) := (LowerParts(o + junk), (if HasLineEnd(junk) then ToLower(o) else LowerParts(o)) + junk);
    forall i | 0 <= i < |a|
      ensures a[i] == b[i]
    {
      if i < |o| { assert (o + junk)[i] == o[i]; } else { assert (o + junk)[i] == junk[i - |o|]; }
    }
  }

  lemma LoweredIsOriginText(o: string, x: string)
    requires IsOriginText(o) && |x| == |o|
    requires forall i :: 0 <= i < |o| ==> x[i] == o[i] || x[i] == Lower(o[i])
    ensures IsOriginText(x)
  {
    hide Lower, IsSpace;
    LowerLaws(o[0]);
    LowerLaws(o[|o| - 1]);
    SlashStays(o[|o| - 1]);
  }

  lemma LowerPartsOfLower(o: string)
    ensures LowerParts(ToLower(o)) == ToLower(o)
  {
    hide Lower, ToLower, LowerParts;
    LowerAt(o);
    LowerPartsAt(ToLower(o));
    forall i | 0 <= i < |o|
      ensures LowerParts(ToLower(o))[i] == ToLower(o)[i]
    {
      LowerLaws(o[i]);
    }
  }

  /** What has to be left behind an origin so that two normalizations give its normal form. */
  ghost predicate Harmless(o: string, junk: string) {
    Peel(Peel(junk)) == "" && (HasLineEnd(Peel(junk)) ==> LowerParts(o) == ToLower(o))
  }

  lemma TwiceBehind(o: string, junk: string)
    requires IsOriginText(o) && IsJunk(junk)
    ensures NormalizeOrigin(o) == Some(LowerParts(o))
    ensures NormalizeTwice(o + junk).Some?
    ensures NormalizeTwice(o + junk) == NormalizeOrigin(o) <==> Harmless(o, junk)
  {
    hide LowerParts, ToLower, Lower, Peel, IsOriginText, HasLineEnd, Stripped;
    var (once, twice) := (Peel(junk), Peel(Peel(junk)));
    var x := if HasLineEnd(once) then ToLower(o) else LowerParts(o);
    OriginTextIsSome(o);
    NothingPeels();
    assert o + "" == o && x + "" == x;
    StrippedBehind(o, "");
    StrippedBehind(o, junk);
    LowerPartsBehind(o, once);
    LowerAt(o);
    LowerPartsAt(o);
    LoweredIsOriginText(o, x);
    OriginTextIsSome(x);
    StrippedBehind(x, once);
    LowerPartsBehind(x, twice);
    LowerAt(x);
    LowerPartsAt(x);
    LowerPartsTwice(o);
    LowerPartsOfLower(o);
    assert NormalizeOrigin(o + junk) == Some(x + once);
    assert NormalizeTwice(o + junk) == Some(LowerParts(x + twice));
    LowerPartsAt(x + twice);
  }

  lemma OriginTextIsSome(o: string)
    requires IsOriginText(o)
    ensures o != ""
  {
  }

  lemma NothingPeels()
    ensures Peel("") == ""
  {
  }

  /**
   A configured origin followed by spaces and slashes: its own site is admitted exactly when two
   rounds of trimming take all of them away (or it is a preview deployment).
   */
  lemma SiteIsAdmittedExactlyWhenHarmless(o: string, junk: string)
    requires IsOriginText(o) && IsJunk(junk)
    ensures NormalizeOrigin(o).Some?
    ensures Admits(AllowSet(Dedupe(NormAll([o + junk]))), Some(o)) <==>
              Harmless(o, junk) || IsVercelPreview(NormalizeOrigin(o).value)
  {
    hide NormalizeOrigin, NormalizeTwice, IsVercelPreview, Dedupe, NormAll, Harmless, IsOriginText, IsJunk, Admits;
    TwiceBehind(o, junk);
    OriginTextIsSome(o);
    AdmitsExactly([o + junk], Some(o));
    assert o + junk in [o + junk];
  }

  /** One gap is mended by the second normalization, two gaps are not. */
  lemma TwoGapsLockTheSiteOut()
    ensures Admits(AllowSet(Dedupe(NormAll(["https://a.de /"]))), Some("https://a.de"))
    ensures !Admits(AllowSet(Dedupe(NormAll(["https://a.de / /"]))), Some("https://a.de"))
  {
    hide Admits, AllowSet, Dedupe, NormAll, NormalizeOrigin, LowerParts, ToLower;
    var o := "https://a.de";
    TwoGaps();
    hide IsOriginText, IsJunk, Harmless, Peel, IsVercelPreview;
    assert o + " /" == "https://a.de /" && o + " / /" == "https://a.de / /";
    SiteIsAdmittedExactlyWhenHarmless(o, " /");
    SiteIsAdmittedExactlyWhenHarmless(o, " / /");
    TwiceBehind(o, "");
    LowerPartsAt(o);
    PreviewIsLong(LowerParts(o));
  }

  lemma PreviewIsLong(s: string)
    ensures |s| <= 19 ==> !IsVercelPreview(s)
  {
  }

  lemma SlashIsSolid()
    ensures !IsSpace('/') && IsSpace(' ') && !IsSpace('h') && !IsSpace('e') && !IsLineEnd(' ')
  {
  }

  lemma SiteText()
    ensures IsOriginText("https://a.de") && IsJunk("") && IsJunk(" /") && IsJunk(" / /")
  {
    SlashIsSolid();
    hide IsSpace;
  }

  lemma TwoGaps()
    ensures IsOriginText("https://a.de") && IsJunk("") && IsJunk(" /") && IsJunk(" / /")
    ensures Harmless("https://a.de", " /") && !Harmless("https://a.de", " / /")
  {
    SiteText();
    hide IsOriginText, IsJunk;
    OneGap();
    OneMoreGap();
  }

  lemma OneGap()
    ensures Harmless("https://a.de", " /")
  {
    SlashIsSolid();
    hide LowerParts, ToLower, IsSpace, Peel, IsLineEnd, DropSlashes;
    PeelGap("", ' ');
    LastSlash("");
    assert "" + [' '] + "/" == " /" && "" + [' '] == " ";
    assert !HasLineEnd(" ");
  }

  lemma OneMoreGap()
    ensures !Harmless("https://a.de", " / /")
  {
    SlashIsSolid();
    hide LowerParts, ToLower, IsSpace, Peel, IsLineEnd, DropSlashes, HasLineEnd;
    PeelGap(" /", ' ');
    LastSlash(" ");
    assert " /" + [' '] + "/" == " / /" && " " + "/" == " /";
    assert Peel(Peel(" / /")) == " ";
  }

  lemma LastSlash(s: string)
    requires s == "" || s[|s| - 1] != '/'
    ensures DropSlashes(s + "/") == s && DropSlashes(s) == s
  {
    DropSlashesSkips(s, "/");
  }

  /** A gap and a slash: the slash goes in the first round, the gap in the second. */
  lemma PeelGap(front: string, gap: char)
    requires IsSpace(gap) && gap != '/' && (front == "" || front[|front| - 1] == '/')
    ensures Peel(front + [gap] + "/") == front + [gap]
    ensures Peel(front + [gap]) == DropSlashes(front)
  {
    SlashIsSolid();
    hide IsSpace, DropSlashes;
    TrimRightSkips(front + [gap] + "/", "");
    assert front + [gap] + "/" + "" == front + [gap] + "/";
    LastSlash(front + [gap]);
    TrimRightSkips(front, [gap]);
  }

  /** An `Origin` header that repeats the text of an entry, gap and slash included, is refused. */
  lemma ConfiguredOriginIsAdmittedExactlyWhenTidy(entry: string)
    requires NormalizeOrigin(entry).Some?
    ensures Admits(AllowSet(Dedupe(NormAll([entry]))), Some(entry)) <==> Tidy(entry)
  {
    hide LowerParts, IsVercelPreview, Dedupe, NormAll, Stripped, IsSpace;
    var n := NormalizeOrigin(entry).value;
    DedupeKeepsOrder(NormAll([entry]));
    NormAllMembers([entry]);
    assert entry in [entry];
    assert forall o :: o in Dedupe(NormAll([entry])) <==> o == n;
    IdempotentExactlyWhenTidy(entry);
    StrippedOfBlank();
    if !Tidy(entry) {
      LowerPartsAt(Stripped(entry));
      LowerLaws(n[|n| - 1]);
      LowerLaws(Stripped(entry)[|n| - 1]);
      if IsVercelPreview(n) { PreviewEnds(n); }
    }
  }

  lemma StrippedOfBlank()
    ensures Stripped("") == ""
  {
  }

  lemma PreviewEnds(n: string)
    requires IsVercelPreview(n)
    ensures n != "" && !IsSpace(n[|n| - 1])
  {
    hide ToLower, Lower;
    LowerAt(n[|n| - |VERCEL|..]);
    LowerLaws(n[|n| - 1]);
    assert ToLower(n[|n| - |VERCEL|..])[|VERCEL| - 1] == Lower(n[|n| - 1]);
  }

  /** The normal forms agree exactly where RFC 3986, section 6.2.2.1, says the case may differ. */
  lemma SameOriginExactlyUpToCase(a: string, b: string)
    requires SplitOrigin(Stripped(a)).Some? && SplitOrigin(Stripped(b)).Some?
    requires Stripped(a) != "" && Stripped(b) != ""
    ensures var (p, q) := (SplitOrigin(Stripped(a)).value, SplitOrigin(Stripped(b)).value);
            NormalizeOrigin(a) == NormalizeOrigin(b) <==>
              ToLower(p.scheme) == ToLower(q.scheme) && ToLower(p.authority) == ToLower(q.authority) && p.rest == q.rest
  {
    hide SplitOrigin, ToLower, Stripped;
    SplitLowered(Stripped(a));
    SplitLowered(Stripped(b));
  }

  lemma HttpsShape(s: string)
    requires ToLower(s) == HTTPS
    ensures |s| == 8 && s == s[..5] + "://" && IsAsciiLetter(s[0]) && forall c :: c in s[..5] ==> IsSchemeChar(c)
  {
    LowerAt(s);
    hide ToLower;
    assert forall i :: 0 <= i < |s| ==> Lower(s[i]) == HTTPS[i];
  }

  lemma VercelShape(s: string)
    requires ToLower(s) == VERCEL
    ensures forall c :: c in s ==> InAuthority(c)
  {
    hide ToLower, Lower;
    LowerAt(s);
    forall i | 0 <= i < |s|
      ensures InAuthority(s[i])
    {
      LowerLaws(s[i]);
      assert Lower(s[i]) == VERCEL[i] && VERCEL[i] in VERCEL && !EndsAuthority(VERCEL[i]);
    }
  }

  /** The names of preview deployments in a normal form. */
  ghost predicate IsPreviewName(name: string) {
    name != "" && forall c :: c in name ==> 'a' <= c <= 'z' || '0' <= c <= '9' || c == '-'
  }

  /** A preview deployment is one name in front of the Vercel domain, over https, and nothing else. */
  lemma PreviewsAreVercelHosts(raw: string) returns (name: string)
    requires NormalizeOrigin(raw).Some? && IsVercelPreview(NormalizeOrigin(raw).value)
    ensures name != "" && '.' !in name && IsPreviewName(name)
    ensures SplitOrigin(NormalizeOrigin(raw).value) == Some(Parts(HTTPS, name + VERCEL, ""))
  {
    hide ToLower, Lower, SplitOrigin, Stripped, Shaped, LowerParts, IsPreviewChar;
    var n := NormalizeOrigin(raw).value;
    var (front, middle, end) := (n[..|HTTPS|], n[|HTTPS|..|n| - |VERCEL|], n[|n| - |VERCEL|..]);
    PreviewShape(front, middle, end);
    SplitMade(front[..5], middle + end, "");
    assert front[..5] + "://" + (middle + end) + "" == n;
    SplitLowered(n);
    LowerPartsTwice(Stripped(raw));
    name := ToLower(middle);
    LowerAt(middle);
    LowerAppend(middle, end);
    PreviewNamesLowered(middle);
  }

  /** And every such name makes one. */
  lemma PreviewsExactly(raw: string)
    ensures NormalizeOrigin(raw).Some? && IsVercelPreview(NormalizeOrigin(raw).value) <==>
              exists name :: IsPreviewName(name) && NormalizeOrigin(raw) == Some("https://" + name + ".vercel.app")
  {
    hide NormalizeOrigin, IsVercelPreview, IsPreviewName;
    if NormalizeOrigin(raw).Some? && IsVercelPreview(NormalizeOrigin(raw).value) {
      var name := PreviewsAreVercelHosts(raw);
      SplitPreview(NormalizeOrigin(raw).value, name);
    }
    forall name | IsPreviewName(name)
      ensures IsVercelPreview("https://" + name + ".vercel.app")
    {
      PreviewNameChars(name);
      NamesMakePreviews(name);
    }
  }

  lemma PreviewNameChars(name: string)
    requires IsPreviewName(name)
    ensures name != "" && forall c :: c in name ==> IsPreviewChar(c)
  {
  }

  lemma SplitPreview(n: string, name: string)
    requires SplitOrigin(n) == Some(Parts(HTTPS, name + VERCEL, ""))
    ensures n == "https://" + name + ".vercel.app"
  {
    hide SplitOrigin, OriginShape;
    SplitsExactly(n, "https", name + VERCEL, "");
    assert "https" + "://" == HTTPS;
  }

  lemma NamesMakePreviews(name: string)
    requires name != "" && forall c :: c in name ==> IsPreviewChar(c)
    ensures IsVercelPreview("https://" + name + ".vercel.app")
  {
    var s := HTTPS + name + VERCEL;
    assert s[..|HTTPS|] == HTTPS && s[|s| - |VERCEL|..] == VERCEL && s[|HTTPS|..|s| - |VERCEL|] == name;
    FixedTexts();
    hide ToLower, IsPreviewChar;
  }

  lemma FixedTexts()
    ensures ToLower(HTTPS) == HTTPS && ToLower(VERCEL) == VERCEL
  {
    LowerAt(HTTPS);
    LowerAt(VERCEL);
    hide ToLower;
  }

  /** So the site of every preview deployment, in any case, is admitted by every list. */
  lemma PreviewsAreAdmitted(allow: set<string>, name: string)
    requires name != ""
    requires forall c :: c in name ==> 'a' <= c <= 'z' || 'A' <= c <= 'Z' || '0' <= c <= '9' || c == '-'
    ensures Admits(allow, Some("https://" + name + ".vercel.app"))
  {
    assert forall c :: c in name ==> IsPreviewChar(c);
    PreviewNamesLowered(name);
    assert forall c :: c in ToLower(name) ==> IsPreviewChar(c);
    hide ToLower, NormalizeOrigin, IsVercelPreview, IsPreviewChar, IsPreviewName;
    PreviewNormal(name);
    NamesMakePreviews(ToLower(name));
  }

  lemma PreviewNormal(name: string)
    requires name != "" && forall c :: c in name ==> IsPreviewChar(c)
    ensures NormalizeOrigin("https://" + name + ".vercel.app") == Some("https://" + ToLower(name) + ".vercel.app")
  {
    var raw := "https://" + name + ".vercel.app";
    SolidEnds(name);
    PreviewIsShaped(name);
    hide ToLower, Stripped, SplitOrigin, Shaped, IsOriginText, IsPreviewChar, LowerParts;
    StrippedBehind(raw, "");
    NothingPeels();
    assert raw + "" == raw;
    LowerPreview(name);
  }

  lemma LowerPreview(name: string)
    requires Shaped("https", name + VERCEL, "")
    ensures LowerParts("https://" + name + ".vercel.app") == "https://" + ToLower(name) + ".vercel.app"
  {
    FixedTexts();
    hide ToLower, SplitOrigin, Shaped;
    SplitMade("https", name + VERCEL, "");
    LowerAppend(name, VERCEL);
    PreviewTexts(name);
    PreviewTexts(ToLower(name));
  }

  lemma PreviewTexts(name: string)
    ensures "https" + "://" + (name + VERCEL) + "" == "https://" + name + ".vercel.app"
    ensures HTTPS + (name + VERCEL) + "" == "https://" + name + ".vercel.app" && "https" + "://" == HTTPS
  {
  }

  lemma SolidEnds(name: string)
    ensures IsOriginText(HTTPS + name + VERCEL)
  {
    var s := HTTPS + name + VERCEL;
    assert s[0] == 'h' && s[|s| - 1] == 'p';
  }

  lemma PreviewIsShaped(name: string)
    requires forall c :: c in name ==> IsPreviewChar(c)
    ensures Shaped("https", name + VERCEL, "")
  {
    PreviewCharsAreInAuthority();
    assert forall c :: c in VERCEL ==> InAuthority(c);
  }

  lemma PreviewShape(front: string, middle: string, end: string)
    requires ToLower(front) == HTTPS && ToLower(end) == VERCEL && forall c :: c in middle ==> IsPreviewChar(c)
    ensures |front| == 8 && front == front[..5] + "://" && Shaped(front[..5], middle + end, "")
  {
    hide ToLower, Lower, IsAsciiLetter, IsSchemeChar;
    HttpsShape(front);
    VercelShape(end);
    PreviewCharsAreInAuthority();
  }

  lemma PreviewCharsAreInAuthority()
    ensures forall c :: IsPreviewChar(c) ==> InAuthority(c)
  {
  }

  lemma LowerAppend(a: string, b: string)
    ensures ToLower(a + b) == ToLower(a) + ToLower(b)
  {
    MapConcatAppend(LowerText, a, b);
  }

  lemma PreviewNamesLowered(s: string)
    requires s != "" && forall c :: c in s ==> IsPreviewChar(c)
    ensures '.' !in ToLower(s) && IsPreviewName(ToLower(s))
  {
    hide ToLower;
    LowerAt(s);
    forall i | 0 <= i < |s|
      ensures var c := ToLower(s)[i]; 'a' <= c <= 'z' || '0' <= c <= '9' || c == '-'
    {
      assert s[i] in s;
    }
  }
}
