/**
 Which spellings of a city reach each other (src/common/search-text.ts, `citySearchKeys`):
 the umlaut spellings and the alias groups.
 */
module CityKeys {
  import opened Wrappers
  import opened Strings
  import opened SearchText
  import opened Transliteration
  import C = CanonicalForm

  // ---------------------------------------------------------------------------
  // The ae / oe / ue / ss spelling of a word
  // ---------------------------------------------------------------------------

  /** How somebody without umlauts on the keyboard writes a composed letter. */
  function Spelled(c: char): string {
    match c
    case 'ä' => "ae" case 'ö' => "oe" case 'ü' => "ue" case 'ß' => "ss"
    case 'Ä' => "Ae" case 'Ö' => "Oe" case 'Ü' => "Ue"
    case _ => [c]
  }

  function Spell(word: string): string { MapConcat(Spelled, word) }

  function SpelledLetter(c: char): string { MapConcat(C.Letter, Spelled(c)) }

  function GermanLower(c: char): string { Lookup(GERMAN, Lower(c)) }

  lemma TwoLetters(f: char -> string, a: char, b: char)
    ensures MapConcat(f, [a, b]) == f(a) + f(b)
  {
    assert [a, b][1..] == [b];
    MapConcatSingle(f, b);
  }

  /** Lower-casing first does not change what a character contributes. */
  lemma LetterOfLower(c: char)
    ensures C.Letter(Lower(c)) == C.Letter(c)
  {
    hide Lower;
    C.LowerTwice(c);
  }

  predicate IsGerman(c: char) { c in "äöüßÄÖÜ" }

  lemma GermanLookup(c: char)
    ensures !IsGerman(c) ==> GermanLower(c) == [Lower(c)] && Spelled(c) == [c]
    ensures IsGerman(c) ==> |Spelled(c)| == |GermanLower(c)| == 2
    ensures IsGerman(c) ==> GermanLower(c)[0] == Lower(Spelled(c)[0]) && GermanLower(c)[1] == Spelled(c)[1]
  {
  }

  lemma SpellingContributes(c: char)
    ensures MapConcat(C.Letter, GermanLower(c)) == SpelledLetter(c)
  {
    hide Lower, C.Letter, GermanLower, Spelled, IsGerman;
    GermanLookup(c);
    if IsGerman(c) {
      var (s, g) := (Spelled(c), GermanLower(c));
      assert s == [s[0], s[1]] && g == [g[0], g[1]];
      TwoLetters(C.Letter, s[0], s[1]);
      TwoLetters(C.Letter, g[0], g[1]);
      LetterOfLower(s[0]);
    } else {
      MapConcatSingle(C.Letter, c);
      MapConcatSingle(C.Letter, Lower(c));
      LetterOfLower(c);
    }
  }

  lemma {:induction false} OnePassOfLower(s: string)
    ensures OnePass(GERMAN, ToLower(s)) == MapConcat(GermanLower, s)
  {
    hide Lower, Lookup;
    if s != "" { OnePassOfLower(s[1..]); }
  }

  lemma {:induction false} SameContributions(s: string)
    ensures MapConcat(C.Letter, MapConcat(GermanLower, s)) == MapConcat(C.Letter, Spell(s))
  {
    hide GermanLower, Spelled, C.Letter;
    forall c
      ensures MapConcat(C.Letter, GermanLower(c)) == SpelledLetter(c)
      ensures MapConcat(C.Letter, Spelled(c)) == SpelledLetter(c)
    {
      SpellingContributes(c);
    }
    MapConcatCompose(GermanLower, C.Letter, SpelledLetter, s);
    MapConcatCompose(Spelled, C.Letter, SpelledLetter, s);
  }

  /** The umlaut loop builds the normal form of the spelled-out word. */
  lemma GermanKeyIsSpelling(word: string)
    ensures Norm(Substitute(GERMAN, ToLower(word))) == Norm(Spell(word))
  {
    hide Norm, ToLower, Spelled;
    var german := Substitute(GERMAN, ToLower(word));
    SequentialIsOnePass(GERMAN, ToLower(word));
    OnePassOfLower(word);
    SameContributions(word);
    C.NormIsMap(german);
    C.NormIsMap(Spell(word));
  }

  /** From the umlaut to the digraph: the spelled-out form is among the keys of the word. */
  lemma WordReachesItsSpelling(index: Index, word: string)
    requires Norm(Spell(word)) != ""
    ensures IsKey(index, word, Norm(Spell(word)))
  {
    hide Norm, ToLower, Spell;
    GermanKeyIsSpelling(word);
    assert Direct(word, Norm(Spell(word)));
  }

  // ---------------------------------------------------------------------------
  // And back: collapsing the digraphs
  // ---------------------------------------------------------------------------

  /** A letter of a normalized word, and whether it came from an umlaut. */
  datatype Token = Token(c: char, umlaut: bool)

  predicate IsVowel(c: char) { c == 'a' || c == 'o' || c == 'u' }

  predicate IsUmlaut(c: char) { c in "äöüÄÖÜ" }

  ghost predicate Genuine(t: seq<Token>) {
    forall i :: 0 <= i < |t| && t[i].umlaut ==> IsVowel(t[i].c)
  }

  function Unmarked(s: string): (t: seq<Token>)
    ensures |t| == |s| && forall i :: 0 <= i < |t| ==> t[i] == Token(s[i], false)
  {
    seq(|s|, i requires 0 <= i < |s| => Token(s[i], false))
  }

  function TokensOf(c: char): seq<Token> {
    if IsUmlaut(c) then [Token(Base(Lower(c)), true)] else Unmarked(C.Letter(c))
  }

  function Tokens(word: string): seq<Token> {
    if word == "" then [] else TokensOf(word[0]) + Tokens(word[1..])
  }

  /** The spelled-out form, in which the umlauts on the vowels `v` carry an `e`. */
  function Expand(v: set<char>, t: seq<Token>): string {
    if t == [] then "" else Written(v, t[0]) + Expand(v, t[1..])
  }

  /** The plain fold of the tokens. */
  function Erase(t: seq<Token>): string { Expand({}, t) }

  function Written(v: set<char>, x: Token): string {
    if x.umlaut && x.c in v then [x.c, 'e'] else [x.c]
  }

  lemma {:induction false} ExpandAppend(v: set<char>, a: seq<Token>, b: seq<Token>)
    ensures Expand(v, a + b) == Expand(v, a) + Expand(v, b)
  {
    if a == [] {
      assert a + b == b;
    } else {
      assert (a + b)[1..] == a[1..] + b;
      ExpandAppend(v, a[1..], b);
    }
  }

  lemma {:induction false} UnmarkedLaws(v: set<char>, s: string)
    ensures Expand(v, Unmarked(s)) == s
  {
    if s != "" {
      UnmarkedLaws(v, s[1..]);
      assert Unmarked(s)[1..] == Unmarked(s[1..]);
    }
  }

  const VOWELS: set<char> := {'a', 'o', 'u'}

  lemma UmlautLaws(c: char)
    requires IsUmlaut(c)
    ensures IsVowel(Base(Lower(c))) && !IsTableLetter(Lower(c)) && !IsMark(c)
    ensures |Spelled(c)| == 2 && Spelled(c)[1] == 'e' && Lower(Spelled(c)[0]) == Base(Lower(c))
  {
  }

  lemma TokenLaws(c: char)
    requires c != 'ß'
    ensures Genuine(TokensOf(c))
    ensures Erase(TokensOf(c)) == C.Letter(c)
    ensures Expand(VOWELS, TokensOf(c)) == SpelledLetter(c)
  {
    hide Lower, Base, C.Letter, Spelled, IsUmlaut, IsGerman;
    UnmarkedLaws(VOWELS, C.Letter(c));
    UnmarkedLaws({}, C.Letter(c));
    if IsUmlaut(c) {
      UmlautLaws(c);
      C.LetterOutside(c);
      var b := Base(Lower(c));
      assert [Token(b, true)][1..] == [];
      assert Erase([Token(b, true)]) == [b];
      var s := Spelled(c);
      assert s == [s[0], 'e'];
      TwoLetters(C.Letter, s[0], 'e');
      LetterOfLower(s[0]);
      C.AsciiIsSettled(b);
      C.AsciiIsSettled('e');
    } else {
      OnlyGermanSpells(c);
      MapConcatSingle(C.Letter, c);
    }
  }

  lemma OnlyGermanSpells(c: char)
    requires !IsUmlaut(c) && c != 'ß'
    ensures Spelled(c) == [c]
  {
  }

  lemma {:induction false} WordLaws(word: string)
    requires 'ß' !in word
    ensures Genuine(Tokens(word))
    ensures Erase(Tokens(word)) == MapConcat(C.Letter, word)
    ensures Expand(VOWELS, Tokens(word)) == MapConcat(SpelledLetter, word)
  {
    hide C.Letter, TokensOf, SpelledLetter;
    if word != "" {
      TokenLaws(word[0]);
      WordLaws(word[1..]);
      ExpandAppend({}, TokensOf(word[0]), Tokens(word[1..]));
      ExpandAppend(VOWELS, TokensOf(word[0]), Tokens(word[1..]));
    }
  }

  /** White space handling, on tokens. */
  function TidyTokens(q: Reader, t: seq<Token>): seq<Token>
    decreases |t|
  {
    if t == [] then []
    else if IsSpace(t[0].c) then TidyTokens(OnSpace(q), t[1..])
    else (if q == Gap then [Token(' ', false)] else []) + [t[0]] + TidyTokens(Strings.Letter, t[1..])
  }

  lemma TidyWritten(vs: set<char>, q: Reader, x: Token, s: string)
    requires x.umlaut ==> IsVowel(x.c)
    requires !IsSpace(x.c)
    ensures Tidy(q, Written(vs, x) + s) ==
              (if q == Gap then " " else "") + Written(vs, x) + Tidy(Strings.Letter, s)
  {
    var w := Written(vs, x) + s;
    if x.umlaut && x.c in vs {
      assert w[1..] == ['e'] + s && (['e'] + s)[1..] == s;
    } else {
      assert w[1..] == s;
    }
  }

  lemma {:induction false} TidyTokensGenuine(q: Reader, t: seq<Token>)
    requires Genuine(t)
    ensures Genuine(TidyTokens(q, t))
    decreases |t|
  {
    if t != [] {
      TidyTokensGenuine(if IsSpace(t[0].c) then OnSpace(q) else Strings.Letter, t[1..]);
    }
  }

  lemma {:induction false} TidyTokensExpand(vs: set<char>, q: Reader, t: seq<Token>)
    requires Genuine(t)
    ensures Expand(vs, TidyTokens(q, t)) == Tidy(q, Expand(vs, t))
    decreases |t|
  {
    if t == [] {
    } else if IsSpace(t[0].c) {
      TidyTokensExpand(vs, OnSpace(q), t[1..]);
      assert Expand(vs, t)[1..] == Expand(vs, t[1..]);
    } else {
      TidyTokensExpand(vs, Strings.Letter, t[1..]);
      TidyOneToken(vs, q, t[0], t[1..]);
      assert t == [t[0]] + t[1..];
    }
  }

  lemma TidyOneToken(vs: set<char>, q: Reader, x: Token, t: seq<Token>)
    requires x.umlaut ==> IsVowel(x.c)
    requires !IsSpace(x.c)
    requires Expand(vs, TidyTokens(Strings.Letter, t)) == Tidy(Strings.Letter, Expand(vs, t))
    ensures Expand(vs, TidyTokens(q, [x] + t)) == Tidy(q, Expand(vs, [x] + t))
  {
    var rest := TidyTokens(Strings.Letter, t);
    TidyTokensCons(q, x, t);
    hide Expand, Tidy, Written, IsSpace, TidyTokens;
    ExpandCons(vs, x, t);
    TidyWritten(vs, q, x, Expand(vs, t));
    ExpandCons(vs, x, rest);
    if q == Gap {
      ExpandAppend(vs, [Token(' ', false)], [x] + rest);
      GapExpands(vs);
    }
    Glue(if q == Gap then " " else "", Written(vs, x), Expand(vs, rest));
  }

  lemma Glue(a: string, b: string, c: string)
    ensures a + (b + c) == a + b + c && "" + b == b
  {
  }

  lemma TidyTokensCons(q: Reader, x: Token, t: seq<Token>)
    requires !IsSpace(x.c)
    ensures TidyTokens(q, [x] + t) ==
              if q == Gap then [Token(' ', false)] + ([x] + TidyTokens(Strings.Letter, t))
              else [x] + TidyTokens(Strings.Letter, t)
  {
    assert ([x] + t)[1..] == t;
  }

  lemma GapExpands(vs: set<char>)
    ensures Expand(vs, [Token(' ', false)]) == " "
  {
    assert [Token(' ', false)][1..] == [];
  }

  /** The tokens of the normal form of a word. */
  function NormTokens(word: string): seq<Token> {
    TidyTokens(Start, Tokens(word))
  }

  lemma NormIsErased(word: string)
    requires 'ß' !in word
    ensures Genuine(NormTokens(word))
    ensures Norm(word) == Erase(NormTokens(word))
    ensures Norm(Spell(word)) == Expand(VOWELS, NormTokens(word))
  {
    hide Norm, C.Letter, Tokens, Spelled;
    WordLaws(word);
    TidyTokensExpand({}, Start, Tokens(word));
    TidyTokensExpand(VOWELS, Start, Tokens(word));
    TidyTokensGenuine(Start, Tokens(word));
    C.NormIsMap(word);
    C.NormIsMap(Spell(word));
    forall c
      ensures MapConcat(C.Letter, Spelled(c)) == SpelledLetter(c)
    {
    }
    MapConcatCompose(Spelled, C.Letter, SpelledLetter, word);
  }

  /** What removing the `e` after every `v` leaves of the tokens: umlauts keep their neighbours. */
  function DropTokens(v: char, t: seq<Token>): (r: seq<Token>)
    ensures |r| <= |t|
  {
    if t == [] then []
    else if t[0] == Token(v, false) && 1 < |t| && t[1].c == 'e' then [t[0]] + DropTokens(v, t[2..])
    else [t[0]] + DropTokens(v, t[1..])
  }

  lemma DropESkips(v: char, c: char, s: string)
    requires c != v || s == "" || s[0] != 'e'
    ensures DropE(v, [c] + s) == [c] + DropE(v, s)
  {
    assert ([c] + s)[1..] == s;
  }

  lemma DropETakes(v: char, s: string)
    ensures DropE(v, [v, 'e'] + s) == [v] + DropE(v, s)
  {
    assert ([v, 'e'] + s)[2..] == s;
  }

  lemma {:induction false} DropExpanded(v: char, vs: set<char>, t: seq<Token>)
    requires Genuine(t) && IsVowel(v) && v in vs && vs <= VOWELS
    ensures Genuine(DropTokens(v, t))
    ensures DropE(v, Expand(vs, t)) == Expand(vs - {v}, DropTokens(v, t))
    decreases |t|
  {
    if t == [] {
    } else if t[0] == Token(v, false) && 1 < |t| && t[1].c == 'e' {
      DropExpanded(v, vs, t[2..]);
      DropPair(v, vs, t);
      ExpandCons(vs - {v}, t[0], DropTokens(v, t[2..]));
    } else {
      DropExpanded(v, vs, t[1..]);
      ExpandCons(vs - {v}, t[0], DropTokens(v, t[1..]));
      hide DropE, DropTokens;
      DropOneToken(v, vs, t[0], Expand(vs, t[1..]));
    }
  }

  lemma DropPair(v: char, vs: set<char>, t: seq<Token>)
    requires Genuine(t) && 1 < |t| && t[0] == Token(v, false) && t[1].c == 'e'
    ensures DropE(v, Expand(vs, t)) == [v] + DropE(v, Expand(vs, t[2..]))
  {
    assert t[1..][1..] == t[2..];
    var rest := Expand(vs, t[2..]);
    assert Expand(vs, t) == [v] + (['e'] + rest) == [v, 'e'] + rest;
    DropETakes(v, rest);
  }

  lemma ExpandCons(vs: set<char>, x: Token, t: seq<Token>)
    ensures Expand(vs, [x] + t) == Written(vs, x) + Expand(vs, t)
  {
    assert ([x] + t)[1..] == t;
  }

  lemma DropOneToken(v: char, vs: set<char>, x: Token, rest: string)
    requires (x.umlaut ==> IsVowel(x.c)) && IsVowel(v) && v in vs && vs <= VOWELS
    requires x == Token(v, false) ==> rest == "" || rest[0] != 'e'
    ensures DropE(v, Written(vs, x) + rest) == Written(vs - {v}, x) + DropE(v, rest)
  {
    hide DropE;
    if x.umlaut && x.c in vs {
      if x.c == v {
        DropETakes(v, rest);
      } else {
        assert [x.c, 'e'] + rest == [x.c] + (['e'] + rest);
        DropESkips(v, x.c, ['e'] + rest);
        DropESkips(v, 'e', rest);
      }
    } else {
      DropESkips(v, x.c, rest);
    }
  }

  /** An unmarked `v` directly before an `e`: what the collapse takes for a digraph. */
  ghost predicate HasPlainPair(v: char, t: seq<Token>) {
    exists i :: 0 <= i < |t| - 1 && t[i] == Token(v, false) && t[i + 1].c == 'e'
  }

  lemma {:induction false} DropsExactlyPairs(v: char, t: seq<Token>)
    requires v != 'e'
    ensures if HasPlainPair(v, t) then |DropTokens(v, t)| < |t| else DropTokens(v, t) == t
  {
    if t == [] {
    } else if t[0] == Token(v, false) && 1 < |t| && t[1].c == 'e' {
      assert HasPlainPair(v, t);
    } else {
      DropsExactlyPairs(v, t[1..]);
      if HasPlainPair(v, t[1..]) {
        var i :| 0 <= i < |t[1..]| - 1 && t[1..][i] == Token(v, false) && t[1..][i + 1].c == 'e';
        assert t[i + 1] == Token(v, false) && t[i + 2].c == 'e';
      }
      if HasPlainPair(v, t) {
        var i :| 0 <= i < |t| - 1 && t[i] == Token(v, false) && t[i + 1].c == 'e';
        assert t[1..][i - 1] == t[i] && t[1..][i] == t[i + 1];
      }
    }
  }

  lemma {:induction false} EraseLength(t: seq<Token>)
    ensures |Erase(t)| == |t|
  {
    if t != [] { EraseLength(t[1..]); }
  }

  ghost predicate PlainDigraph(word: string) {
    exists v :: v in VOWELS && HasPlainPair(v, NormTokens(word))
  }

  /**
   Collapsing `ae`, `oe`, `ue` in the spelled-out form gives back the plain fold exactly
   when the word has no plain `a`, `o` or `u` directly before an `e`.
   */
  lemma CollapseUndoesSpelling(word: string)
    requires 'ß' !in word
    ensures Collapse(Norm(Spell(word))) == Norm(word) <==> !PlainDigraph(word)
  {
    hide Norm, NormTokens, Spell;
    var t := NormTokens(word);
    NormIsErased(word);
    DropExpanded('a', VOWELS, t);
    var ta := DropTokens('a', t);
    DropExpanded('o', {'o', 'u'}, ta);
    var to := DropTokens('o', ta);
    DropExpanded('u', {'u'}, to);
    var tu := DropTokens('u', to);
    assert VOWELS - {'a'} == {'o', 'u'} && {'o', 'u'} - {'o'} == {'u'} && {'u'} - {'u'} == {};
    assert Collapse(Norm(Spell(word))) == Expand({}, tu);
    EraseLength(t);
    EraseLength(tu);
    DropsExactlyPairs('a', t);
    DropsExactlyPairs('o', ta);
    DropsExactlyPairs('u', to);
  }

  /** From the digraph to the umlaut: the plain fold is among the keys of the spelled-out word. */
  lemma SpellingReachesWord(index: Index, word: string)
    requires 'ß' !in word && 3 <= |Norm(word)| && !PlainDigraph(word)
    ensures IsKey(index, Spell(word), Norm(word))
  {
    hide Norm, Spell, PlainDigraph;
    CollapseUndoesSpelling(word);
    assert Direct(Spell(word), Norm(word));
  }

  lemma {:induction false} EraseAt(t: seq<Token>, i: nat)
    requires i < |t|
    ensures |Erase(t)| == |t| && Erase(t)[i] == t[i].c
  {
    if i != 0 { EraseAt(t[1..], i - 1); } else { EraseLength(t); }
  }

  /** A word with a plain pair shows the digraph in its plain fold; most words do not. */
  lemma PlainDigraphShows(word: string)
    requires 'ß' !in word && PlainDigraph(word)
    ensures exists v :: v in VOWELS && Within([v, 'e'], Norm(word))
  {
    hide Norm, NormTokens, Erase, Expand;
    NormIsErased(word);
    var t := NormTokens(word);
    var v :| v in VOWELS && HasPlainPair(v, t);
    var i :| 0 <= i < |t| - 1 && t[i] == Token(v, false) && t[i + 1].c == 'e';
    EraseAt(t, i);
    EraseAt(t, i + 1);
    var n := Norm(word);
    assert n == n[..i] + [v, 'e'] + n[i + 2..];
  }

  // ---------------------------------------------------------------------------
  // The filter, end to end
  // ---------------------------------------------------------------------------

  lemma NormHas(s: string, c: char, x: char)
    requires c in s && x in C.Letter(c) && !IsSpace(x)
    ensures x in Norm(s)
  {
    hide Norm, C.Letter, IsSpace;
    C.NormIsMap(s);
    MapConcatMembers(C.Letter, s);
    TidyMembers(Start, MapConcat(C.Letter, s));
  }

  lemma SpelledLast(c: char)
    ensures Spelled(c) != "" && (!IsGerman(c) ==> Spelled(c) == [c])
    ensures IsGerman(c) ==> Spelled(c)[|Spelled(c)| - 1] in "es"
  {
  }

  /** Spelling a word out does not make it blank. */
  lemma SpellingIsNotBlank(word: string)
    requires Norm(word) != ""
    ensures Norm(Spell(word)) != ""
  {
    hide Norm, Spelled, C.Letter, IsGerman, Lower, IsSpace;
    C.NormIsMap(word);
    var x := Norm(word)[0];
    TidyStartsSolid(MapConcat(C.Letter, word));
    var c := C.NormMember(word, x);
    SpelledLast(c);
    MapConcatMembers(Spelled, word);
    if IsGerman(c) {
      var e := Spelled(c)[|Spelled(c)| - 1];
      C.AsciiIsSettled(e);
      SolidLetters();
      NormHas(Spell(word), e, e);
    } else {
      NormHas(Spell(word), c, x);
    }
  }

  lemma SolidLetters()
    ensures !IsSpace('e') && !IsSpace('s')
  {
  }

  lemma {:induction false} TidyStartsSolid(s: string)
    ensures Tidy(Start, s) != "" ==> !IsSpace(Tidy(Start, s)[0]) && Tidy(Start, s)[0] != ' '
  {
    if s != "" && IsSpace(s[0]) { TidyStartsSolid(s[1..]); }
  }

  /** "Muenchen", typed in full or in part, finds the row stored as "München". */
  lemma SpellingFindsWord(index: Index, typed: string, raw: string)
    requires Within(typed, raw) && 'ß' !in typed && 3 <= |Norm(typed)| && !PlainDigraph(typed)
    ensures C.CityFilterKeeps(index, Some(Spell(typed)), NormalizeSearchText(Some(raw)))
  {
    EmptyNorm();
    hide Norm, Spell, PlainDigraph, IsKey;
    SpellingReachesWord(index, typed);
    C.NormWithin(typed, raw);
  }

  /** And "München" finds the row stored as "Muenchen". */
  lemma WordFindsSpelling(index: Index, typed: string, raw: string)
    requires Within(Spell(typed), raw)
    ensures C.CityFilterKeeps(index, Some(typed), NormalizeSearchText(Some(raw)))
  {
    EmptyNorm();
    hide Norm, Spell, IsKey;
    if NormalizeSearchText(Some(typed)) != "" {
      SpellingIsNotBlank(typed);
      WordReachesItsSpelling(index, typed);
      C.NormWithin(Spell(typed), raw);
    }
  }

  // ---------------------------------------------------------------------------
  // All the keys of a search
  // ---------------------------------------------------------------------------

  /** From position `i` on, without every `e` right behind a `v`. */
  ghost function WithoutE(v: char, s: string, i: nat): string
    requires i <= |s|
    decreases |s| - i
  {
    if i == |s| then ""
    else (if s[i] == 'e' && 0 < i && s[i - 1] == v then "" else [s[i]]) + WithoutE(v, s, i + 1)
  }

  lemma {:induction false} DropEIsWithoutE(v: char, s: string, i: nat)
    requires v != 'e' && i <= |s| && (0 < i < |s| && s[i] == 'e' ==> s[i - 1] != v)
    ensures DropE(v, s[i..]) == WithoutE(v, s, i)
    decreases |s| - i
  {
    if i < |s| {
      assert s[i..][1..] == s[i + 1..];
      if s[i] == v && i + 1 < |s| && s[i + 1] == 'e' {
        assert s[i..][2..] == s[i + 2..];
        DropEIsWithoutE(v, s, i + 2);
        assert WithoutE(v, s, i + 1) == "" + WithoutE(v, s, i + 2);
      } else {
        DropEIsWithoutE(v, s, i + 1);
      }
    }
  }

  /** The collapsed form, vowel after vowel. */
  lemma CollapseDropsE(s: string)
    ensures var a := WithoutE('a', s, 0);
            var o := WithoutE('o', a, 0);
            Collapse(s) == WithoutE('u', o, 0)
  {
    var a := WithoutE('a', s, 0);
    var o := WithoutE('o', a, 0);
    DropEIsWithoutE('a', s, 0);
    DropEIsWithoutE('o', a, 0);
    DropEIsWithoutE('u', o, 0);
    assert s[0..] == s && a[0..] == a && o[0..] == o;
  }

  /**
   The keys of a search that is not blank: its normal form, that of its ae/oe/ue/ss spelling, the
   collapsed form if it differs and has three letters or more, and what the table knows of these.
   */
  lemma KeysWrittenOut(index: Index, typed: string, k: string)
    ensures var own := (d: string) =>
              d == Norm(typed)
              || (d == Norm(Spell(typed)) && d != "")
              || (d == Collapse(Norm(typed)) && d != Norm(typed) && |d| >= 3);
            IsKey(index, typed, k) <==> own(k) || exists d :: own(d) && d in index && k in index[d]
  {
    GermanKeyIsSpelling(typed);
    hide Norm, Spell, Collapse;
  }

  // ---------------------------------------------------------------------------
  // Alias groups
  // ---------------------------------------------------------------------------

  /** No normalized spelling belongs to two groups. */
  ghost predicate Disjoint(groups: Groups) {
    forall g, h, n :: 0 <= g < h < |groups| ==> !(n in NormAll(groups[g]) && n in NormAll(groups[h]))
  }

  lemma IndexOfLast(groups: Groups, n: string)
    requires groups != []
    ensures var (front, names) := (groups[..|groups| - 1], NormAll(groups[|groups| - 1]));
            && (n in IndexOf(groups) <==> n in names || n in IndexOf(front))
            && (n in names ==> IndexOf(groups)[n] == names)
            && (n !in names && n in IndexOf(front) ==> IndexOf(groups)[n] == IndexOf(front)[n])
  {
    hide NormAll;
  }

  /** The index sends `n` to the group. */
  predicate PointsAt(index: Index, n: string, group: seq<string>) {
    n in index && index[n] == NormAll(group)
  }

  lemma DisjointWithoutLast(groups: Groups, g: nat, n: string)
    requires Disjoint(groups) && g < |groups| - 1 && n in NormAll(groups[g])
    ensures var front := groups[..|groups| - 1];
            Disjoint(front) && front[g] == groups[g]
    ensures PointsAt(IndexOf(groups[..|groups| - 1]), n, groups[g]) ==> PointsAt(IndexOf(groups), n, groups[g])
  {
    hide NormAll, IndexOf;
    IndexOfLast(groups, n);
    var front := groups[..|groups| - 1];
    assert forall i :: 0 <= i < |front| ==> front[i] == groups[i];
  }

  lemma LastGroupIsIndexed(groups: Groups, n: string)
    requires groups != [] && n in NormAll(groups[|groups| - 1])
    ensures PointsAt(IndexOf(groups), n, groups[|groups| - 1])
  {
    hide NormAll, IndexOf;
    IndexOfLast(groups, n);
  }

  lemma {:induction false} IndexHasGroup(groups: Groups, g: nat, n: string)
    requires Disjoint(groups) && g < |groups| && n in NormAll(groups[g])
    ensures PointsAt(IndexOf(groups), n, groups[g])
    decreases |groups|
  {
    hide NormAll, IndexOf, Disjoint, PointsAt;
    if g < |groups| - 1 {
      DisjointWithoutLast(groups, g, n);
      IndexHasGroup(groups[..|groups| - 1], g, n);
    } else {
      LastGroupIsIndexed(groups, n);
    }
  }

  lemma EmptyIndex()
    ensures IndexOf([]) == map[]
  {
  }

  lemma {:induction false} IndexOnlyHasGroups(groups: Groups, n: string) returns (g: nat)
    requires n in IndexOf(groups)
    ensures g < |groups| && n in NormAll(groups[g]) && IndexOf(groups)[n] == NormAll(groups[g])
  {
    hide NormAll, IndexOf;
    var last := |groups| - 1;
    EmptyIndex();
    IndexOfLast(groups, n);
    if n in NormAll(groups[last]) {
      g := last;
    } else {
      g := IndexOnlyHasGroups(groups[..last], n);
    }
  }

  /** A search with a name of the group among its direct keys has all its names among its keys. */
  lemma WholeGroupIsReached(groups: Groups, g: nat, typed: string, d: string, stored: string)
    requires Disjoint(groups) && g < |groups| && Direct(typed, d) && d in NormAll(groups[g])
    requires stored in groups[g]
    ensures IsKey(IndexOf(groups), typed, Norm(stored))
  {
    hide Norm, IndexOf, Disjoint, Direct;
    var i :| 0 <= i < |groups[g]| && groups[g][i] == stored;
    assert NormAll(groups[g])[i] == Norm(stored);
    IndexHasGroup(groups, g, d);
  }

  /** Any two spellings of a group reach each other's normal form. */
  lemma SpellingsReachEachOther(groups: Groups, g: nat, i: nat, j: nat)
    requires Disjoint(groups) && g < |groups| && i < |groups[g]| && j < |groups[g]|
    ensures IsKey(IndexOf(groups), groups[g][i], Norm(groups[g][j]))
  {
    hide Norm, IndexOf, Disjoint;
    var d := Norm(groups[g][i]);
    assert NormAll(groups[g])[i] == d;
    assert Direct(groups[g][i], d);
    WholeGroupIsReached(groups, g, groups[g][i], d, groups[g][j]);
  }

  /** Such a search finds every row that holds the city under any of the names. */
  lemma AnyNameFindsEveryName(groups: Groups, g: nat, typed: string, d: string, stored: string, raw: string)
    requires Disjoint(groups) && g < |groups| && Direct(typed, d) && d in NormAll(groups[g])
    requires stored in groups[g] && Within(stored, raw)
    ensures C.CityFilterKeeps(IndexOf(groups), Some(typed), NormalizeSearchText(Some(raw)))
  {
    EmptyNorm();
    hide Norm, IsKey, Disjoint, IndexOf, Direct;
    WholeGroupIsReached(groups, g, typed, d, stored);
    C.NormWithin(stored, raw);
  }

  /** One expansion pass is enough: looking the keys up again adds nothing. */
  lemma KeysAreClosed(groups: Groups, typed: string, k: string, alias: string)
    requires Disjoint(groups) && IsKey(IndexOf(groups), typed, k)
    requires k in IndexOf(groups) && alias in IndexOf(groups)[k]
    ensures IsKey(IndexOf(groups), typed, alias)
  {
    hide Norm, IndexOf, NormAll, Direct;
    if !Direct(typed, k) {
      var d :| Direct(typed, d) && d in IndexOf(groups) && k in IndexOf(groups)[d];
      var g := IndexOnlyHasGroups(groups, d);
      IndexHasGroup(groups, g, k);
    }
  }

  /** A `contains` filter never gets an empty key. */
  lemma NoKeyIsEmpty(groups: Groups, typed: string, k: string)
    requires Norm(typed) != "" && IsKey(IndexOf(groups), typed, k)
    requires forall g, n :: 0 <= g < |groups| && n in groups[g] ==> Norm(n) != ""
    ensures k != ""
  {
    hide Norm, IndexOf;
    if !Direct(typed, k) {
      var d :| Direct(typed, d) && d in IndexOf(groups) && k in IndexOf(groups)[d];
      var g := IndexOnlyHasGroups(groups, d);
      var i :| 0 <= i < |NormAll(groups[g])| && NormAll(groups[g])[i] == k;
      assert groups[g][i] in groups[g];
    }
  }
}
