/**
 What `normalizeSearchText` and `normalizeCompact` promise: the filters built on them
 lose no match, and the canonical form is stable exactly away from twenty letters and their capitals.
 */
module CanonicalForm {
  import opened Wrappers
  import opened Strings
  import opened SearchText
  import opened Transliteration

  // ---------------------------------------------------------------------------
  // The whole chain as one character map
  // ---------------------------------------------------------------------------

  /** Decompose, drop marks, lower-case. */
  function Plain(c: char): string {
    if IsMark(Base(c)) then "" else [Lower(Base(c))]
  }

  /** What one character of the input contributes before white space is collapsed. */
  function Letter(c: char): string {
    MapConcat(Plain, Roman(Lower(c)))
  }

  function RomanLower(c: char): string { Roman(Lower(c)) }

  function Stripped(c: char): string {
    if IsMark(Base(c)) then "" else [Base(c)]
  }

  lemma {:induction false} OnePassIsRoman(s: string)
    ensures OnePass(CYRILLIC, s) == MapConcat(Roman, s)
  {
    if s != "" {
      OnePassIsRoman(s[1..]);
      LookupIsRoman(s[0]);
    }
  }

  lemma LookupIsRoman(c: char)
    ensures Lookup(CYRILLIC, c) == Roman(c)
  {
    hide CYRILLIC, Lookup, Roman, IsTableLetter;
    if IsTableLetter(c) {
      CyrillicHasEntry(c);
      LookupFinds(CYRILLIC, (c, Roman(c)));
      CyrillicEntries((c, Lookup(CYRILLIC, c)));
    } else {
      forall e | e in CYRILLIC
        ensures e.0 != c
      {
        CyrillicEntries(e);
      }
      LookupSkips(CYRILLIC, c);
      RomanOutside(c);
    }
  }

  /** The transliteration loop computes the one-pass map, whatever the order of its table. */
  lemma TransliterateIsRoman(s: string)
    ensures Transliterate(s) == MapConcat(RomanLower, s)
  {
    forall e, f | e in CYRILLIC && f in CYRILLIC
      ensures f.0 !in e.1
    {
      CyrillicEntries(e);
      CyrillicEntries(f);
      RomanIsAscii(e.0);
    }
    SequentialIsOnePass(CYRILLIC, ToLower(s));
    OnePassIsRoman(ToLower(s));
    forall c
      ensures RomanLower(c) == MapConcat(Roman, LowerText(c))
    {
      MapConcatSingle(Roman, Lower(c));
    }
    MapConcatCompose(LowerText, Roman, RomanLower, s);
  }

  lemma {:induction false} MarksVanish(m: string)
    requires forall x :: x in m ==> IsMark(x)
    ensures MapConcat(DropMark, m) == ""
  {
    if m != "" { MarksVanish(m[1..]); }
  }

  lemma FoldIsPlain(s: string)
    ensures Fold(s) == Tidy(Start, MapConcat(Plain, s))
  {
    forall c
      ensures Stripped(c) == MapConcat(DropMark, Decompose(c))
    {
      MarksVanish(Marks(c));
      assert Decompose(c)[1..] == Marks(c);
    }
    MapConcatCompose(Decompose, DropMark, Stripped, s);
    forall c
      ensures Plain(c) == MapConcat(LowerText, Stripped(c))
    {
      if !IsMark(Base(c)) { MapConcatSingle(LowerText, Base(c)); }
    }
    MapConcatCompose(Stripped, LowerText, Plain, s);
    SqueezeTrimIsTidy(MapConcat(Plain, s));
  }

  lemma NormIsMap(s: string)
    ensures Norm(s) == Tidy(Start, MapConcat(Letter, s))
  {
    TransliterateIsRoman(s);
    FoldIsPlain(Transliterate(s));
    MapConcatCompose(RomanLower, Plain, Letter, s);
  }

  // ---------------------------------------------------------------------------
  // The filters lose no match
  // ---------------------------------------------------------------------------

  /** Typed text that occurs in the raw column occurs, normalized, in the stored column. */
  lemma NormWithin(typed: string, raw: string)
    requires Within(typed, raw)
    ensures Within(Norm(typed), Norm(raw))
  {
    NormIsMap(typed);
    NormIsMap(raw);
    MapConcatWithin(Letter, typed, raw);
    TidyWithin(MapConcat(Letter, typed), MapConcat(Letter, raw));
  }

  /** The `citySearch` clause of the listing filter; no keys means no clause. */
  ghost predicate CityFilterKeeps(index: Index, typed: Option<string>, stored: string) {
    NormalizeSearchText(typed) == "" || exists k :: IsKey(index, typed.value, k) && Within(k, stored)
  }

  /** The `makeSearch` and `modelSearch` clauses. */
  ghost predicate CompactFilterKeeps(typed: Option<string>, stored: string) {
    NormalizeCompact(typed) == "" || Within(NormalizeCompact(typed), stored)
  }

  lemma FiltersKeepEveryMatch(index: Index, typed: string, raw: string)
    requires Within(typed, raw)
    ensures CityFilterKeeps(index, Some(typed), NormalizeSearchText(Some(raw)))
    ensures CompactFilterKeeps(Some(typed), NormalizeCompact(Some(raw)))
  {
    EmptyNorm();
    NormWithin(typed, raw);
    assert Direct(typed, Norm(typed));
    assert IsKey(index, typed, Norm(typed));
    MapConcatWithin(KeepAlnum, Norm(typed), Norm(raw));
  }

  // ---------------------------------------------------------------------------
  // Laws of the character tables
  // ---------------------------------------------------------------------------

  lemma LowerTwice(c: char)
    ensures Lower(Lower(c)) == Lower(c)
  {
  }

  /** What a lower-case letter is built on is a lower-case letter that is built on nothing else. */
  lemma LowerBaseLaws(l: char)
    requires Lower(l) == l
    ensures Lower(LowerBase(l)) == LowerBase(l) == LowerBase(LowerBase(l))
    ensures LowerBase(l) != l ==> Lower(Upper(LowerBase(l))) == LowerBase(l)
  {
    if '\U{0400}' <= l {
      CyrillicBaseLaws(l);
    } else if LatinBase(l) != l {
      LatinBaseLaws(l);
    }
  }

  lemma LatinBaseLaws(l: char)
    requires Lower(l) == l && LatinBase(l) != l
    ensures var b := LatinBase(l); 'a' <= b <= 'z' && Lower(b) == b == LatinBase(b) && Lower(Upper(b)) == b
  {
  }

  lemma CyrillicBaseLaws(l: char)
    requires '\U{0400}' <= l
    ensures var b := CyrillicBase(l);
            b != l ==> '\U{0400}' <= b && Lower(b) == b == CyrillicBase(b) && Lower(Upper(b)) == b
  {
  }

  /** Decomposition is complete and commutes with case. */
  lemma BaseLaws(c: char)
    ensures Base(Base(c)) == Base(c) && Base(Lower(c)) == Lower(Base(c)) == LowerBase(Lower(c))
  {
    hide Lower, LowerBase, Upper;
    LowerTwice(c);
    LowerBaseLaws(Lower(c));
  }

  lemma MarkLaws(c: char)
    ensures IsMark(c) ==> Lower(c) == c && Base(c) == c && !IsTableLetter(c)
    ensures IsMark(Base(c)) <==> IsMark(c)
    ensures IsMark(Lower(c)) <==> IsMark(c)
  {
  }

  lemma AsciiLaws(c: char)
    requires c < '\U{0080}'
    ensures Base(c) == c && !IsMark(c) && !IsTableLetter(c)
    ensures 'a' <= c <= 'z' || '0' <= c <= '9' || c == ' ' ==> Lower(c) == c
  {
  }

  lemma TableLetterLaws(c: char)
    requires IsTableLetter(c)
    ensures Lower(c) == c && IsTableLetter(Base(c)) && Roman(Base(c)) == Roman(c)
  {
  }

  /** A composed letter outside the Cyrillic table that is built on a letter of the table. */
  predicate Troubled(c: char) {
    !IsTableLetter(Lower(c)) && IsTableLetter(Base(Lower(c)))
  }

  /** Twenty letters, with their capitals forty. */
  const TROUBLED := "ѐѝўѓќӂӑӓӗӝӟӣӥӧӭӯӱӳӵӹ"

  lemma TroubledByBase(l: char)
    ensures !IsTableLetter(l) && IsTableLetter(CyrillicBase(l)) <==> l in TROUBLED
  {
  }

  lemma TroubledLetters(c: char)
    ensures Troubled(c) <==> Lower(c) in TROUBLED
  {
    BaseLaws(c);
    LowerTwice(c);
    TroubledByBase(Lower(c));
    TroubledIsCyrillic(Lower(c));
    hide Lower, Base, CyrillicBase, LatinBase, IsTableLetter, TROUBLED;
    BaseLaws(Lower(c));
  }

  lemma TroubledIsCyrillic(l: char)
    ensures l in TROUBLED ==> '\U{0400}' <= l
    ensures l < '\U{0400}' ==> !IsTableLetter(LatinBase(l)) && !IsTableLetter(l)
  {
  }

  // ---------------------------------------------------------------------------
  // Where the canonical form is stable
  // ---------------------------------------------------------------------------

  /** A character the chain maps to itself. */
  predicate Settled(x: char) {
    Letter(x) == [x] && !IsTableLetter(x)
  }

  lemma RomanOutside(c: char)
    requires !IsTableLetter(c)
    ensures Roman(c) == [c]
  {
  }

  /** Outside the Cyrillic table a letter becomes its lower-case base, a mark vanishes. */
  lemma LetterOutside(c: char)
    requires !IsTableLetter(Lower(c))
    ensures Letter(c) == if IsMark(c) then "" else [Base(Lower(c))]
  {
    hide Lower, Base, Roman, IsTableLetter, IsMark;
    RomanOutside(Lower(c));
    MapConcatSingle(Plain, Lower(c));
    LowerTwice(c);
    BaseLaws(Lower(c));
    MarkLaws(c);
    MarkLaws(Lower(c));
  }

  lemma AsciiIsSettled(x: char)
    requires 'a' <= x <= 'z' || '0' <= x <= '9' || x == ' '
    ensures Settled(x)
  {
    hide Letter;
    AsciiLaws(x);
    LetterOutside(x);
  }

  lemma TableLetterOutputs(c: char)
    requires IsTableLetter(Lower(c))
    ensures forall o :: o in Letter(c) ==> 'a' <= o <= 'z'
  {
    var to := Roman(Lower(c));
    RomanIsAscii(Lower(c));
    MapConcatMembers(Plain, to);
    forall o | o in Letter(c)
      ensures 'a' <= o <= 'z'
    {
      var x :| x in to && o in Plain(x);
      AsciiLaws(x);
    }
  }

  /** Every output is settled, except that a troubled letter yields its Cyrillic base. */
  lemma Outputs(c: char, o: char)
    requires o in Letter(c)
    ensures if Troubled(c) then IsTableLetter(o) else Settled(o)
  {
    hide Lower, Base, Roman, IsTableLetter, IsMark, Letter;
    if IsTableLetter(Lower(c)) {
      TableLetterOutputs(c);
      AsciiIsSettled(o);
    } else {
      LetterOutside(c);
      assert o == Base(Lower(c));
      LowerTwice(c);
      BaseLaws(Lower(c));
      MarkLaws(Lower(c));
      MarkLaws(c);
      if !IsTableLetter(o) { LetterOutside(o); }
    }
  }

  lemma TroubledOutput(c: char)
    requires Troubled(c)
    ensures Letter(c) == [Base(Lower(c))]
    ensures IsTableLetter(Base(Lower(c))) && !IsSpace(Base(Lower(c)))
  {
    hide Lower, Base, Roman, IsMark, Letter;
    LetterOutside(c);
    MarkLaws(c);
    MarkLaws(Lower(c));
    MarkLaws(Base(Lower(c)));
  }

  /** Decomposing first changes nothing, except for a troubled letter. */
  lemma DecomposeFirst(c: char)
    ensures !Troubled(c) ==> MapConcat(Letter, Decompose(c)) == Letter(c)
    ensures forall o :: o in MapConcat(Letter, Decompose(c)) ==> Settled(o)
  {
    hide Lower, Base, Roman, IsTableLetter, IsMark, Marks, Settled;
    var b := Base(c);
    MarksGiveNothing(Marks(c));
    assert Decompose(c)[1..] == Marks(c);
    assert MapConcat(Letter, Decompose(c)) == Letter(b);
    BaseLaws(c);
    BaseLaws(Lower(c));
    LowerTwice(c);
    MarkLaws(c);
    if IsTableLetter(Lower(c)) {
      TableLetterLaws(Lower(c));
    } else if !Troubled(c) {
      LetterOutside(c);
      LetterOutside(b);
    }
    forall o | o in Letter(b)
      ensures Settled(o)
    {
      Outputs(b, o);
    }
  }

  lemma {:induction false} MarksGiveNothing(m: string)
    requires forall x :: x in m ==> IsMark(x)
    ensures MapConcat(Letter, m) == ""
  {
    if m != "" {
      hide Letter;
      MarkLaws(m[0]);
      LetterOutside(m[0]);
      MarksGiveNothing(m[1..]);
    }
  }

  predicate NoTableLetter(s: string) {
    forall x :: x in s ==> !IsTableLetter(x)
  }

  lemma TroubledShows(s: string, c: char)
    requires c in s && Troubled(c)
    ensures !NoTableLetter(Norm(s))
  {
    NormIsMap(s);
    TroubledOutput(c);
    var o := Base(Lower(c));
    assert o in Letter(c);
    MapConcatMembers(Letter, s);
    TidyMembers(Start, MapConcat(Letter, s));
    assert IsTableLetter(o);
  }

  lemma NormMember(s: string, x: char) returns (c: char)
    requires x in Norm(s) && x != ' '
    ensures c in s && x in Letter(c)
  {
    hide Norm, Letter;
    NormIsMap(s);
    TidyMembers(Start, MapConcat(Letter, s));
    MapConcatMembers(Letter, s);
    c :| c in s && x in Letter(c);
  }

  predicate Untroubled(s: string) {
    forall c :: c in s ==> !Troubled(c)
  }

  lemma NormMembers(s: string)
    ensures forall x :: x in Norm(s) ==> Settled(x) || IsTableLetter(x)
    ensures Untroubled(s) ==> forall x :: x in Norm(s) ==> Settled(x)
  {
    hide Norm, Letter, Settled, Troubled, IsTableLetter;
    forall x | x in Norm(s)
      ensures Settled(x) || IsTableLetter(x)
      ensures Untroubled(s) ==> Settled(x)
    {
      if x == ' ' {
        AsciiIsSettled(x);
      } else {
        var c := NormMember(s, x);
        Outputs(c, x);
      }
    }
  }

  lemma NormOfNorm(s: string)
    ensures NoTableLetter(Norm(Norm(s)))
    ensures Untroubled(s) ==> Norm(Norm(s)) == Norm(s)
  {
    hide Norm, Letter, Lower, IsTableLetter, Troubled;
    var n := Norm(s);
    NormMembers(s);
    forall o | o in Norm(n)
      ensures !IsTableLetter(o)
    {
      if o == ' ' {
        AsciiIsSettled(o);
      } else {
        var x := NormMember(n, o);
        if IsTableLetter(x) {
          TableLetterLaws(x);
          TableLetterOutputs(x);
          AsciiIsSettled(o);
        }
      }
    }
    if Untroubled(s) {
      NormIsMap(s);
      NormIsMap(n);
      FixedMap(Letter, n);
      TidyTwice(MapConcat(Letter, s));
    }
  }

  function DecomposedLetter(c: char): string {
    MapConcat(Letter, Decompose(c))
  }

  lemma {:induction false} SameMaps(s: string)
    requires Untroubled(s)
    ensures MapConcat(DecomposedLetter, s) == MapConcat(Letter, s)
  {
    if s != "" {
      assert s[0] in s;
      DecomposeFirst(s[0]);
      SameMaps(s[1..]);
    }
  }

  lemma NormOfNfd(s: string)
    ensures NoTableLetter(Norm(Nfd(s)))
    ensures Untroubled(s) ==> Norm(Nfd(s)) == Norm(s)
  {
    NormIsMap(s);
    NormIsMap(Nfd(s));
    MapConcatCompose(Decompose, Letter, DecomposedLetter, s);
    MapConcatMembers(DecomposedLetter, s);
    TidyMembers(Start, MapConcat(DecomposedLetter, s));
    AsciiIsSettled(' ');
    forall o | o in MapConcat(DecomposedLetter, s)
      ensures !IsTableLetter(o)
    {
      var c :| c in s && o in DecomposedLetter(c);
      DecomposeFirst(c);
    }
    if Untroubled(s) { SameMaps(s); }
  }

  /**
   The canonical form is idempotent, and blind to composed against decomposed input,
   exactly for the texts without one of the troubled letters.
   */
  lemma StableExactlyWithoutTroubledLetters(s: string)
    ensures Norm(Norm(s)) == Norm(s) <==> forall c :: c in s ==> Lower(c) !in TROUBLED
    ensures Norm(Nfd(s)) == Norm(s) <==> forall c :: c in s ==> Lower(c) !in TROUBLED
  {
    forall c
      ensures Troubled(c) <==> Lower(c) in TROUBLED
    {
      TroubledLetters(c);
    }
    NormOfNorm(s);
    NormOfNfd(s);
    if c :| c in s && Troubled(c) {
      TroubledShows(s, c);
    }
  }

  lemma NormOfLetter(c: char, o: char, marks: string)
    requires Letter(c) == [o] && !IsSpace(o) && MapConcat(Letter, marks) == ""
    ensures Norm([c] + marks) == [o]
  {
    hide Letter;
    NormIsMap([c] + marks);
    MapConcatAppend(Letter, [c], marks);
    MapConcatSingle(Letter, c);
    assert [o] + "" == [o] && [o][1..] == "";
  }

  lemma TajikTables()
    ensures Lower('ӯ') == 'ӯ' && Base('ӯ') == 'у' && !IsTableLetter('ӯ') && Marks('ӯ') == "\U{0304}"
    ensures Lower('у') == 'у' && Roman('у') == "u" && Lower('u') == 'u' && Roman('u') == "u"
  {
  }

  lemma MarkIsNothing()
    ensures !IsTableLetter('\U{0304}') && Lower('\U{0304}') == '\U{0304}' && IsMark('\U{0304}') && !IsMark('ӯ')
    ensures !IsSpace('у') && !IsSpace('u')
  {
  }

  lemma TajikLetters()
    ensures Letter('ӯ') == "у" && Letter('у') == "u" && !IsSpace('у') && !IsSpace('u')
    ensures Decompose('ӯ') == "у\U{0304}" && MapConcat(Letter, "\U{0304}") == ""
  {
    TajikTables();
    MarkIsNothing();
    AsciiIsSettled('u');
    hide Lower, Base, IsTableLetter, IsMark, Marks, Roman, IsSpace, MapConcat;
    LetterOutside('ӯ');
    LetterOutside('\U{0304}');
    MapConcatSingle(Letter, '\U{0304}');
  }

  /** A Tajik letter whose first normal form is still Cyrillic; decomposed it is read at once. */
  lemma ATroubledLetter()
    ensures Norm("ӯ") == "у" && Norm(Norm("ӯ")) == "u" && Norm(Nfd("ӯ")) == "u"
  {
    TajikLetters();
    hide *;
    NoLetters();
    NormOfLetter('ӯ', 'у', "");
    NormOfLetter('у', 'u', "");
    NormOfLetter('у', 'u', "\U{0304}");
    assert ['ӯ'] + "" == "ӯ" && ['у'] + "" == "у" && ['у'] + "\U{0304}" == "у\U{0304}";
    NfdOfOne('ӯ');
  }

  lemma NoLetters()
    ensures MapConcat(Letter, "") == ""
  {
  }

  lemma NfdOfOne(c: char)
    ensures Nfd([c]) == Decompose(c)
  {
    hide Decompose;
    MapConcatSingle(Decompose, c);
  }

  // ---------------------------------------------------------------------------
  // Case, accents and nothing at all
  // ---------------------------------------------------------------------------

  /** A capital and its small letter: ASCII, Latin-1, the Cyrillic alphabet, and its first row. */
  ghost predicate IsCapitalOf(u: char, l: char) {
    || (('A' <= u <= 'Z' || ('À' <= u <= 'Þ' && u != '×') || 'А' <= u <= 'Я') && l as int == u as int + 32)
    || ('Ѐ' <= u <= 'Џ' && l as int == u as int + 80)
  }

  lemma CapitalsFold(u: char, l: char)
    requires IsCapitalOf(u, l)
    ensures Letter(u) == Letter(l)
  {
    assert Lower(u) == Lower(l);
    hide Lower;
  }

  /** A text normalizes as it does in any other case. */
  lemma {:induction false} CaseDoesNotMatter(s: string, t: string)
    requires |s| == |t|
    requires forall i :: 0 <= i < |s| ==> s[i] == t[i] || IsCapitalOf(s[i], t[i]) || IsCapitalOf(t[i], s[i])
    ensures Norm(s) == Norm(t)
    ensures NormalizeCompact(Some(s)) == NormalizeCompact(Some(t))
  {
    SameLetters(s, t);
    NormIsMap(s);
    NormIsMap(t);
    EmptyNorm();
    hide Norm;
  }

  lemma {:induction false} SameLetters(s: string, t: string)
    requires |s| == |t|
    requires forall i :: 0 <= i < |s| ==> s[i] == t[i] || IsCapitalOf(s[i], t[i]) || IsCapitalOf(t[i], s[i])
    ensures MapConcat(Letter, s) == MapConcat(Letter, t)
  {
    hide Letter;
    if s != "" {
      hide IsCapitalOf;
      if IsCapitalOf(s[0], t[0]) { CapitalsFold(s[0], t[0]); }
      if IsCapitalOf(t[0], s[0]) { CapitalsFold(t[0], s[0]); }
      SameLetters(s[1..], t[1..]);
    }
  }

  /** The small letters of Latin-1 that carry marks, by what is left of them. */
  ghost function WithoutMarks1(c: char): string {
    if c in "àáâãäå" then "a" else if c == 'ç' then "c" else if c in "èéêë" then "e" else if c in "ìíîï" then "i"
    else if c == 'ñ' then "n" else if c in "òóôõö" then "o" else if c in "ùúûü" then "u" else if c in "ýÿ" then "y"
    else [c]
  }

  /** And those of Latin Extended-A. */
  ghost function WithoutMarks2(c: char): string {
    if c in "āăą" then "a" else if c in "ćĉċč" then "c" else if c == 'ď' then "d" else if c in "ēĕėęě" then "e" else [c]
  }

  ghost function WithoutMarks3(c: char): string {
    if c in "ĝğġģ" then "g" else if c == 'ĥ' then "h" else if c in "ĩīĭį" then "i" else if c == 'ĵ' then "j"
    else if c == 'ķ' then "k" else [c]
  }

  ghost function WithoutMarks4(c: char): string {
    if c in "ĺļľ" then "l" else if c in "ńņň" then "n" else if c in "ōŏő" then "o" else if c in "ŕŗř" then "r"
    else if c in "śŝşš" then "s" else [c]
  }

  ghost function WithoutMarks5(c: char): string {
    if c in "ţť" then "t" else if c in "ũūŭůűų" then "u" else if c == 'ŵ' then "w" else if c == 'ŷ' then "y"
    else if c in "źżž" then "z" else [c]
  }

  ghost function WithoutMarks(c: char): string {
    if c < 'Ā' then WithoutMarks1(c)
    else if c < 'Ĝ' then WithoutMarks2(c)
    else if c < 'ĸ' then WithoutMarks3(c)
    else if c < 'Ţ' then WithoutMarks4(c)
    else WithoutMarks5(c)
  }

  lemma LatinWithoutMarks(c: char)
    requires c < '\U{0180}' && Lower(c) == c
    ensures [LatinBase(c)] == WithoutMarks(c)
  {
    hide LatinBase, WithoutMarks1, WithoutMarks2, WithoutMarks3, WithoutMarks4, WithoutMarks5, Lower;
    if c < 'Ā' { Latin1(c); }
    else if c < 'Ĝ' { Latin2(c); }
    else if c < 'ĸ' { Latin3(c); }
    else if c < 'Ţ' { Latin4(c); }
    else { Latin5(c); }
  }

  lemma Latin1(c: char)
    requires c < 'Ā'
    ensures [LatinBase(c)] == WithoutMarks1(c)
  {
  }

  lemma Latin2(c: char)
    requires 'Ā' <= c < 'Ĝ' && Lower(c) == c
    ensures [LatinBase(c)] == WithoutMarks2(c)
  {
  }

  lemma Latin3(c: char)
    requires 'Ĝ' <= c < 'ĸ' && Lower(c) == c
    ensures [LatinBase(c)] == WithoutMarks3(c)
  {
  }

  lemma Latin4(c: char)
    requires 'ĸ' <= c < 'Ţ' && Lower(c) == c
    ensures [LatinBase(c)] == WithoutMarks4(c)
  {
  }

  lemma Latin5(c: char)
    requires 'Ţ' <= c < '\U{0180}' && Lower(c) == c
    ensures [LatinBase(c)] == WithoutMarks5(c)
  {
  }

  /** A small Latin letter contributes what is left of it without its marks. */
  lemma AccentsFold(c: char)
    requires c < '\U{0180}' && Lower(c) == c
    ensures Letter(c) == WithoutMarks(c)
  {
    LatinIsOutside(c);
    hide Lower, IsTableLetter, WithoutMarks, LatinBase;
    LatinWithoutMarks(c);
    LetterOutside(c);
  }

  lemma LatinIsOutside(c: char)
    requires c < '\U{0180}' && Lower(c) == c
    ensures !IsTableLetter(c) && !IsMark(c) && Base(c) == LatinBase(c)
  {
  }

  /** ASCII but for the capitals is kept as it is, and so is everything behind the Cyrillic block. */
  lemma OthersAreKept(c: char)
    requires (c < '\U{0080}' && !('A' <= c <= 'Z')) || '\U{0500}' <= c
    ensures Letter(c) == [c]
  {
    OthersLaws(c);
    hide Letter, Lower, Base, IsTableLetter, IsMark;
    LetterOutside(c);
  }

  lemma OthersLaws(c: char)
    requires (c < '\U{0080}' && !('A' <= c <= 'Z')) || '\U{0500}' <= c
    ensures Lower(c) == c && Base(c) == c && !IsTableLetter(c) && !IsMark(c)
  {
  }

  /** No text, an empty one and a blank one are the same. */
  lemma NothingGivesNothing(s: string)
    requires forall c :: c in s ==> IsSpace(c)
    ensures NormalizeSearchText(None) == NormalizeSearchText(Some(s)) == ""
    ensures NormalizeCompact(None) == NormalizeCompact(Some(s)) == ""
  {
    NormIsMap(s);
    EmptyNorm();
    AllBlank(s);
    hide Norm, Letter, IsSpace;
  }

  lemma {:induction false} AllBlank(s: string)
    requires forall c :: c in s ==> IsSpace(c)
    ensures Tidy(Start, MapConcat(Letter, s)) == ""
  {
    if s != "" {
      hide Letter, IsSpace;
      AllBlank(s[1..]);
      SpaceIsSpace(s[0]);
      assert ([s[0]] + MapConcat(Letter, s[1..]))[1..] == MapConcat(Letter, s[1..]);
    }
  }

  lemma SpaceIsSpace(c: char)
    requires IsSpace(c)
    ensures Letter(c) == [c]
  {
    SpaceLaws(c);
    hide Letter, Lower, Base, IsTableLetter, IsMark, IsSpace;
    LetterOutside(c);
  }

  lemma SpaceLaws(c: char)
    requires IsSpace(c)
    ensures Lower(c) == c && Base(c) == c && !IsTableLetter(c) && !IsMark(c)
  {
  }

  // ---------------------------------------------------------------------------
  // The compact form
  // ---------------------------------------------------------------------------

  /** The small ASCII letters and the digits of a text. */
  ghost function LettersAndDigits(s: string): string {
    if s == "" then ""
    else (if 'a' <= s[0] <= 'z' || '0' <= s[0] <= '9' then [s[0]] else "") + LettersAndDigits(s[1..])
  }

  /** The compact form keeps the letters and digits of the normal form, in order, and nothing else. */
  lemma CompactKeepsLettersAndDigits(s: string)
    ensures NormalizeCompact(Some(s)) == LettersAndDigits(Norm(s))
  {
    EmptyNorm();
    hide Norm;
    KeptAre(Norm(s));
  }

  lemma {:induction false} KeptAre(s: string)
    ensures MapConcat(KeepAlnum, s) == LettersAndDigits(s)
  {
    if s != "" { KeptAre(s[1..]); }
  }

  function AlnumLetter(c: char): string {
    MapConcat(KeepAlnum, Letter(c))
  }

  lemma {:induction false} KeepIgnoresTidy(q: Reader, s: string)
    ensures MapConcat(KeepAlnum, Tidy(q, s)) == MapConcat(KeepAlnum, s)
    decreases |s|
  {
    if s == "" {
    } else if IsSpace(s[0]) {
      KeepIgnoresTidy(OnSpace(q), s[1..]);
    } else {
      KeepIgnoresTidy(Strings.Letter, s[1..]);
      var t := Tidy(Strings.Letter, s[1..]);
      assert ([s[0]] + t)[1..] == t;
      if q == Gap { assert (" " + [s[0]] + t)[1..] == [s[0]] + t; }
    }
  }

  /** The compact form is a character map: no context matters. */
  lemma CompactIsMap(s: string)
    ensures NormalizeCompact(Some(s)) == MapConcat(AlnumLetter, s)
  {
    EmptyNorm();
    NormIsMap(s);
    KeepIgnoresTidy(Start, MapConcat(Letter, s));
    MapConcatCompose(Letter, KeepAlnum, AlnumLetter, s);
  }

  /** White space, ASCII punctuation and control characters. */
  predicate IsSeparator(c: char) {
    IsSpace(c) || (c < '\U{0080}' && !IsAlnum(Lower(c)))
  }

  lemma SeparatorGivesNothing(c: char)
    requires IsSeparator(c)
    ensures AlnumLetter(c) == ""
  {
    hide Letter;
    SeparatorLaws(c);
    LetterOutside(c);
    MapConcatSingle(KeepAlnum, c);
  }

  lemma SeparatorLaws(c: char)
    requires IsSeparator(c)
    ensures Lower(c) == c && Base(c) == c && !IsTableLetter(c) && !IsAlnum(c)
  {
  }

  lemma {:induction false} SeparatorsGiveNothing(s: string)
    requires forall c :: c in s ==> IsSeparator(c)
    ensures MapConcat(AlnumLetter, s) == ""
  {
    if s != "" {
      SeparatorGivesNothing(s[0]);
      SeparatorsGiveNothing(s[1..]);
    }
  }

  /** Separators may be put in or left out anywhere. */
  lemma CompactIgnoresSeparators(a: string, separators: string, b: string)
    requires forall c :: c in separators ==> IsSeparator(c)
    ensures NormalizeCompact(Some(a + separators + b)) == NormalizeCompact(Some(a + b))
  {
    hide NormalizeCompact, AlnumLetter;
    CompactIsMap(a + separators + b);
    CompactIsMap(a + b);
    MapConcatAppend(AlnumLetter, a + separators, b);
    MapConcatAppend(AlnumLetter, a, separators);
    MapConcatAppend(AlnumLetter, a, b);
    SeparatorsGiveNothing(separators);
  }

  /** Normalizing a second time changes nothing, on every input. */
  lemma CompactIdempotent(s: string)
    ensures NormalizeCompact(Some(NormalizeCompact(Some(s)))) == NormalizeCompact(Some(s))
  {
    hide AlnumLetter, NormalizeSearchText, Letter;
    var n := NormalizeCompact(Some(s));
    CompactIsMap(n);
    MapConcatMembers(KeepAlnum, NormalizeSearchText(Some(s)));
    forall c | c in n
      ensures AlnumLetter(c) == [c]
    {
      AlnumIsKept(c);
    }
    FixedMap(AlnumLetter, n);
  }

  lemma AlnumIsKept(c: char)
    requires IsAlnum(c)
    ensures AlnumLetter(c) == [c]
  {
    hide Letter;
    AsciiIsSettled(c);
    MapConcatSingle(KeepAlnum, c);
  }
}
