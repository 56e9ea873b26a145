/** The alias table of the source meets what `CityKeys` asks of a table (src/common/search-text.ts:115-193). */
module CityAliases {
  import opened Wrappers
  import opened Strings
  import opened SearchText
  import opened Transliteration
  import C = CanonicalForm
  import opened CityKeys

  // ---------------------------------------------------------------------------
  // The table, in pieces that keep each proof small
  // ---------------------------------------------------------------------------

  const ALIASES_1: Groups := [
    ["moskva", "moscow", "moskau", "Москва"],
    ["kiev", "kyiv", "kiew", "Киев", "Київ"],
    ["wien", "vienna", "vena", "Вена"],
    ["praha", "prague", "prag", "Прага"],
    ["warszawa", "warsaw", "warschau", "Варшава"],
    ["munchen", "muenchen", "munich", "Мюнхен"]
  ]

  const ALIASES_2: Groups := [
    ["koln", "koeln", "cologne", "Кёльн", "Кельн"],
    ["zurich", "zuerich", "Цюрих"],
    ["berlin", "Берлин"],
    ["hamburg", "Гамбург"],
    ["frankfurt", "Франкфурт"],
    ["stuttgart", "Штутгарт"],
    ["dusseldorf", "duesseldorf", "Дюссельдорф"]
  ]

  const ALIASES_3: Groups := [
    ["leipzig", "Лейпциг"],
    ["dresden", "Дрезден"],
    ["paris", "Париж"],
    ["london", "Лондон"],
    ["madrid", "Мадрид"],
    ["barcelona", "Барселона"],
    ["amsterdam", "Амстердам"]
  ]

  const ALIASES_4: Groups := [
    ["nurnberg", "nuernberg", "nuremberg"],
    ["hannover", "hanover"],
    ["braunschweig", "brunswick"],
    ["lisboa", "lisbon", "lissabon"],
    ["milano", "milan", "mailand"],
    ["roma", "rome", "rom"]
  ]

  const ALIASES_5: Groups := [
    ["torino", "turin"],
    ["firenze", "florence", "florenz"],
    ["napoli", "naples", "neapel"],
    ["venezia", "venice", "venedig"],
    ["genova", "genoa", "genua"],
    ["antwerpen", "antwerp", "anvers"]
  ]

  const ALIASES_6: Groups := [
    ["brussel", "bruxelles", "brussels", "bruessel"],
    ["den haag", "the hague", "la haye", "haag"],
    ["gent", "ghent"],
    ["liege", "luik", "luttich"],
    ["athina", "athens", "athen"],
    ["beograd", "belgrade", "belgrad"]
  ]

  const ALIASES_7: Groups := [
    ["bucuresti", "bucharest", "bukarest"],
    ["sofiya", "sofia"],
    ["zagreb", "agram"],
    ["ljubljana", "laibach"],
    ["bratislava", "pressburg"],
    ["gdansk", "danzig"]
  ]

  const ALIASES_8: Groups := [
    ["wroclaw", "breslau"],
    ["krakow", "cracow", "krakau"],
    ["poznan", "posen"],
    ["szczecin", "stettin"],
    ["lodz", "lodsch"]
  ]

  const ALIASES_9: Groups := [
    ["lviv", "lvov", "lemberg", "lwow", "Львов", "Львів"],
    ["odesa", "odessa", "Одесса", "Одеса"],
    ["kharkiv", "charkiw", "Харьков", "Харків"],
    ["dnipro", "dnepr", "dnipropetrovsk", "Днепр"]
  ]

  const ALIASES_10: Groups := [
    ["sankt peterburg", "saint petersburg", "st petersburg", "petersburg", "Санкт-Петербург"],
    ["goteborg", "gothenburg", "gotheborg"],
    ["kobenhavn", "copenhagen", "kopenhagen"],
    ["helsinki", "helsingfors"]
  ]

  const ALIASES_11: Groups := [
    ["tallinn", "reval"],
    ["riga", "ryga"],
    ["vilnius", "wilna", "wilno"],
    ["tbilisi", "tiflis"],
    ["istanbul", "stambul", "konstantinopol"],
    ["izmir", "smyrna"]
  ]

  const ALIASES_12: Groups := [
    ["basel", "basle", "bale"],
    ["geneve", "geneva", "genf", "zheneva"],
    ["bern", "berne"],
    ["luzern", "lucerne"],
    ["salzburg", "salcburg"],
    ["graz", "gradec"],
    ["sevilla", "seville"]
  ]

  const ALIASES_13: Groups := [
    ["zaragoza", "saragossa"],
    ["a coruna", "la coruna", "corunna"],
    ["donostia", "san sebastian"],
    ["marseille", "marseilles"],
    ["lyon", "lyons"],
    ["dunkerque", "dunkirk"],
    ["strasbourg", "strassburg", "straatsburg"]
  ]

  const CITY_ALIASES: Groups :=
    ALIASES_1 + ALIASES_2 + ALIASES_3 + ALIASES_4 + ALIASES_5 + ALIASES_6
    + ALIASES_7 + ALIASES_8 + ALIASES_9 + ALIASES_10 + ALIASES_11 + ALIASES_12 + ALIASES_13

  // ---------------------------------------------------------------------------
  // How a normal form begins
  // ---------------------------------------------------------------------------

  /** A normal form begins with the normal form of any front of the text. */
  lemma NormBegins(a: string, b: string)
    ensures Norm(a) <= Norm(a + b)
  {
    C.NormIsMap(a);
    C.NormIsMap(a + b);
    MapConcatAppend(C.Letter, a, b);
    TidyAppend(Start, MapConcat(C.Letter, a), MapConcat(C.Letter, b));
  }

  predicate IsSmall(c: char) { 'a' <= c <= 'z' }

  lemma Spaces(c: char)
    ensures IsSmall(c) ==> !IsSpace(c)
    ensures IsSpace(' ')
  {
  }

  /** Small letters, with single blanks between them. */
  predicate Tight(s: string) {
    && (forall i :: 0 <= i < |s| ==> IsSmall(s[i]) || s[i] == ' ')
    && (forall i :: 0 <= i < |s| && s[i] == ' ' ==> 0 < i < |s| - 1 && IsSmall(s[i - 1]) && IsSmall(s[i + 1]))
  }

  /** What the reader has seen of a tight text, and the blank it has not written yet. */
  function ReaderAt(s: string, n: nat): Reader
    requires n <= |s|
  {
    if n == 0 then Start else if s[n - 1] == ' ' then Gap else Letter
  }

  function Owed(q: Reader): string { if q == Gap then " " else "" }

  lemma {:induction false} TidyTight(s: string, n: nat)
    requires Tight(s) && n <= |s|
    ensures Tidy(ReaderAt(s, n), s[n..]) == Owed(ReaderAt(s, n)) + s[n..]
    decreases |s| - n
  {
    if n < |s| {
      hide IsSpace, IsSmall;
      Spaces(s[n]);
      TidyTight(s, n + 1);
      OneRead(ReaderAt(s, n), s[n], s[n + 1..]);
      assert s[n..] == [s[n]] + s[n + 1..];
    }
  }

  lemma OneRead(q: Reader, c: char, rest: string)
    ensures Tidy(q, [c] + rest)
         == if IsSpace(c) then Tidy(OnSpace(q), rest) else Owed(q) + [c] + Tidy(Letter, rest)
  {
    hide IsSpace;
    assert ([c] + rest)[1..] == rest;
  }

  lemma TightIsNormal(s: string)
    requires Tight(s)
    ensures Norm(s) == s
  {
    hide Norm;
    forall c | c in s
      ensures C.Letter(c) == [c]
    {
      C.AsciiIsSettled(c);
    }
    C.NormIsMap(s);
    FixedMap(C.Letter, s);
    TidyTight(s, 0);
  }

  // ---------------------------------------------------------------------------
  // No two groups begin alike
  // ---------------------------------------------------------------------------

  function At(n: string, i: nat): char { if i < |n| then n[i] else '.' }

  /** The group of a normalized name, which its first four letters tell. */
  function GroupOf(n: string): nat { GroupOfLetters(At(n, 0), At(n, 1), At(n, 2), At(n, 3)) }

  /** On texts that begin like no name the answer means nothing. */
  function GroupOfLetters(a: char, b: char, c: char, d: char): nat {
    match a
    case 'o' => 50
    case 'a' => (match b case ' ' => 71 case 'g' => 40 case 'm' => 19 case 'n' => 31 case _ => 36)
    case 'b' => (match b case 'u' => 38
      case 'a' => (match c case 'l' | 's' => 63 case _ => 18)
      case 'e' => (match c case 'l' | 'o' => 37 case _ => (match d case 'l' => 8 case _ => 65))
      case _ => (match c case 'e' => 44
        case 'a' => (match d case 't' => 42 case _ => 22)
        case _ => (match d case 'e' | 's' | 'x' => 32 case _ => 22)))
    case 'c' => (match b case 'h' => 51 case 'r' => 45
      case _ => (match c case 'l' => 6 case 'p' => 55 case _ => 71))
    case 'd' => (match b case 'a' => 43 case 'e' => 33 case 'n' => 52 case 'o' => 72 case 'r' => 14 case 'y' => 12
      case _ => (match c case 'e' | 's' => 12 case _ => 75))
    case 'f' => (match b case 'i' | 'l' => 27 case _ => 10)
    case 'g' => (match b case 'a' => 9 case 'd' => 43 case 'h' => 34 case 'o' => 54 case 'r' => 68
      case _ => (match d case 'e' | 'f' => 64 case 'o' | 'u' => 30 case _ => 34))
    case 'h' => (match b case 'e' => 56
      case _ => (match c case 'a' => 33 case 'm' => 9 case 'n' => 21 case _ => 51))
    case 'i' => (match b case 's' => 61 case _ => 62)
    case 'k' => (match b case 'e' => 6 case 'h' => 51 case 'i' | 'y' => 1 case 'r' => 45
      case _ => (match c case 'b' | 'p' => 55 case 'e' | 'l' => 6 case _ => 61))
    case 'l' => (match b case 'j' => 41 case 'v' | 'w' => 49 case 'y' => 74
      case 'a' => (match c case 'i' => 41 case _ => (match d case 'c' => 71 case _ => 33))
      case 'e' => (match c case 'i' => 13 case _ => 49)
      case 'i' => (match c case 'e' => 35 case _ => 23)
      case 'o' => (match c case 'd' => 48 case _ => 16)
      case _ => (match c case 'c' | 'z' => 66 case _ => 35))
    case 'm' => (match b case 'i' => 24 case 'o' => 0 case 'u' | 'y' => 5
      case _ => (match c case 'd' => 17 case 'i' => 24 case _ => 73))
    case 'n' => (match b case 'a' | 'e' => 28 case _ => 20)
    case 'p' => (match b case 'a' => 15 case 'e' => 53 case 'o' => 46
      case _ => (match c case 'a' => 3 case _ => 42))
    case 'r' => (match b case 'e' => 57 case 'i' | 'y' => 58 case _ => 25)
    case 's' => (match b case 'e' => 69 case 'h' => 11 case 'm' => 62 case 'o' => 39 case 'z' => 47
      case 'a' => (match c case 'i' => 53 case 'l' => 67 case 'r' => 70
        case _ => (match d case ' ' => 72 case _ => 53))
      case _ => (match c case ' ' => 53 case 'a' => 61 case 'e' => 47 case 'r' => 76 case _ => 11))
    case 't' => (match b case 'a' => 57 case 'b' | 'i' => 60 case 'h' => 33 case 'o' | 'u' => 26 case _ => 7)
    case 'v' => (match b case 'a' => 4
      case 'e' => (match d case 'a' => 2 case _ => 29)
      case _ => (match c case 'e' => 2 case _ => 59))
    case 'w' => (match b case 'a' => 4 case 'r' => 44
      case _ => (match c case 'e' => 2 case _ => 59))
    case _ => (match b case 'h' => 64 case 'u' => 7
      case _ => (match c case 'g' => 40 case _ => 70))
  }

  /** The normal form of the name is not empty and shows the group. */
  predicate Owned(name: string, g: nat) { Norm(name) != "" && GroupOf(Norm(name)) == g }

  /** A name whose normal form begins as the name does. */
  predicate Plain(s: string) {
    && 3 <= |s| && IsSmall(s[0])
    && (IsSmall(s[1]) || (s[1] == ' ' && IsSmall(s[2])))
    && (IsSmall(s[2]) || (s[2] == ' ' && IsSmall(s[1]) && 3 < |s| && IsSmall(s[3])))
    && (3 < |s| ==> IsSmall(s[3]) || (s[3] == ' ' && IsSmall(s[2]) && 4 < |s| && IsSmall(s[4])))
  }

  lemma PlainIsOwned(s: string)
    requires Plain(s)
    ensures Owned(s, GroupOf(s))
  {
    hide Norm, GroupOfLetters;
    var n := if |s| == 3 then 3 else if s[3] == ' ' then 5 else 4;
    assert Tight(s[..n]);
    TightIsNormal(s[..n]);
    NormBegins(s[..n], s[n..]);
    assert s == s[..n] + s[n..];
    assert |s| == 3 ==> s[..n] == s;
    assert forall i :: 0 <= i < n ==> Norm(s)[i] == s[..n][i];
  }

  lemma Reads(c: char, r: string)
    requires IsTableLetter(Lower(c)) && Roman(Lower(c)) == r
    ensures C.Letter(c) == r
  {
    hide Roman, Lower, IsTableLetter;
    RomanIsAscii(Lower(c));
    forall x | x in r
      ensures C.Plain(x) == [x]
    {
      C.AsciiIsSettled(x);
      C.AsciiLaws(x);
    }
    FixedMap(C.Plain, r);
  }

  lemma Letters1()
    ensures C.Letter('А') == "a" && C.Letter('Б') == "b" && C.Letter('В') == "v" && C.Letter('Г') == "g"
    ensures C.Letter('Д') == "d" && C.Letter('К') == "k" && C.Letter('Л') == "l" && C.Letter('М') == "m"
    ensures C.Letter('О') == "o" && C.Letter('П') == "p" && C.Letter('С') == "s" && C.Letter('Ф') == "f"
    ensures C.Letter('Х') == "h" && C.Letter('Ц') == "ts" && C.Letter('Ш') == "sh"
  {
    hide C.Letter;
    Reads('А', "a"); Reads('Б', "b"); Reads('В', "v"); Reads('Г', "g"); Reads('Д', "d"); Reads('К', "k");
    Reads('Л', "l"); Reads('М', "m"); Reads('О', "o"); Reads('П', "p"); Reads('С', "s"); Reads('Ф', "f");
    Reads('Х', "h"); Reads('Ц', "ts"); Reads('Ш', "sh");
  }

  lemma Letters2()
    ensures C.Letter('а') == "a" && C.Letter('в') == "v" && C.Letter('д') == "d" && C.Letter('е') == "e"
    ensures C.Letter('и') == "i" && C.Letter('й') == "i" && C.Letter('к') == "k" && C.Letter('л') == "l"
    ensures C.Letter('м') == "m" && C.Letter('н') == "n" && C.Letter('о') == "o" && C.Letter('р') == "r"
    ensures C.Letter('ь') == "" && C.Letter('ю') == "yu" && C.Letter('ё') == "e"
  {
    hide C.Letter;
    Reads('а', "a"); Reads('в', "v"); Reads('д', "d"); Reads('е', "e"); Reads('и', "i"); Reads('й', "i");
    Reads('к', "k"); Reads('л', "l"); Reads('м', "m"); Reads('н', "n"); Reads('о', "o"); Reads('р', "r");
    Reads('ь', ""); Reads('ю', "yu"); Reads('ё', "e");
  }

  /** With `Letters2` and `Letters4` the whole table, letter by letter. */
  lemma Letters3()
    ensures C.Letter('б') == "b" && C.Letter('г') == "g" && C.Letter('ґ') == "g" && C.Letter('э') == "e"
    ensures C.Letter('є') == "ie" && C.Letter('ж') == "zh" && C.Letter('з') == "z" && C.Letter('і') == "i"
    ensures C.Letter('ї') == "i" && C.Letter('п') == "p" && C.Letter('с') == "s"
  {
    hide C.Letter;
    Reads('б', "b"); Reads('г', "g"); Reads('ґ', "g"); Reads('э', "e"); Reads('є', "ie"); Reads('ж', "zh");
    Reads('з', "z"); Reads('і', "i"); Reads('ї', "i"); Reads('п', "p"); Reads('с', "s");
  }

  lemma Letters4()
    ensures C.Letter('т') == "t" && C.Letter('у') == "u" && C.Letter('ф') == "f" && C.Letter('х') == "h"
    ensures C.Letter('ц') == "ts" && C.Letter('ч') == "ch" && C.Letter('ш') == "sh" && C.Letter('щ') == "shch"
    ensures C.Letter('ъ') == "" && C.Letter('ы') == "y" && C.Letter('я') == "ya"
  {
    hide C.Letter;
    Reads('т', "t"); Reads('у', "u"); Reads('ф', "f"); Reads('х', "h"); Reads('ц', "ts"); Reads('ч', "ch");
    Reads('ш', "sh"); Reads('щ', "shch"); Reads('ъ', ""); Reads('ы', "y"); Reads('я', "ya");
  }

  function LetterUpTo(s: string, n: nat, i: nat): string { if i < n && i < |s| then C.Letter(s[i]) else "" }

  /** What up to four letters of a name contribute is where its normal form begins. */
  lemma Begins(s: string, n: nat, p: string)
    requires n <= |s| && n <= 4
    requires p == LetterUpTo(s, n, 0) + (LetterUpTo(s, n, 1) + (LetterUpTo(s, n, 2) + LetterUpTo(s, n, 3)))
    requires forall i :: 0 <= i < |p| ==> IsSmall(p[i])
    ensures p <= Norm(s)
  {
    hide Norm, C.Letter;
    var front := s[..n];
    FirstFour(front);
    C.NormIsMap(front);
    TidyTight(p, 0);
    NormBegins(front, s[n..]);
    assert s == front + s[n..];
  }

  function LettersFrom(s: string, i: nat): string { if i <= |s| then MapConcat(C.Letter, s[i..]) else "" }

  lemma OneLetter(s: string, i: nat)
    ensures LettersFrom(s, i) == LetterUpTo(s, |s|, i) + LettersFrom(s, i + 1)
  {
    hide C.Letter;
    if i < |s| { assert s[i..][1..] == s[i + 1..]; }
  }

  lemma LettersEnds(s: string)
    ensures LettersFrom(s, 0) == MapConcat(C.Letter, s)
    ensures |s| <= 4 ==> LettersFrom(s, 4) == ""
  {
    hide C.Letter;
    assert s[0..] == s;
  }

  lemma FirstFour(s: string)
    requires |s| <= 4
    ensures var n := |s|;
            MapConcat(C.Letter, s)
            == LetterUpTo(s, n, 0) + (LetterUpTo(s, n, 1) + (LetterUpTo(s, n, 2) + LetterUpTo(s, n, 3)))
  {
    hide C.Letter, LetterUpTo, LettersFrom, MapConcat;
    LettersEnds(s);
    OneLetter(s, 0);
    OneLetter(s, 1);
    OneLetter(s, 2);
    OneLetter(s, 3);
  }

  ghost predicate AllOwned(row: seq<string>, g: nat) {
    forall name :: name in row ==> Owned(name, g)
  }

  ghost predicate OwnedFrom(groups: Groups, first: nat) {
    forall g :: 0 <= g < |groups| ==> AllOwned(groups[g], first + g)
  }

  /** Names that begin in small letters show their group themselves, of the others it is known already. */
  predicate Shows(name: string, g: nat) { Owned(name, g) || (Plain(name) && GroupOf(name) == g) }

  lemma Row(row: seq<string>, g: nat)
    requires 0 < |row| <= 6
    requires Shows(row[0], g) && (1 < |row| ==> Shows(row[1], g)) && (2 < |row| ==> Shows(row[2], g))
    requires (3 < |row| ==> Shows(row[3], g)) && (4 < |row| ==> Shows(row[4], g)) && (5 < |row| ==> Shows(row[5], g))
    ensures AllOwned(row, g)
  {
    hide Owned, Plain, GroupOf;
    forall name | name in row
      ensures Owned(name, g)
    {
      if Plain(name) { PlainIsOwned(name); }
    }
  }

  lemma Cyrillic1()
    ensures Owned("Москва", 0) && Owned("Киев", 1) && Owned("Київ", 1) && Owned("Вена", 2)
    ensures Owned("Прага", 3)
  {
    Letters1();
    Letters2();
    hide Norm, C.Letter;
    Begins("Москва", 2, "mo"); Begins("Киев", 2, "ki"); Begins("Київ", 2, "ki"); Begins("Вена", 4, "vena");
    Begins("Прага", 3, "pra");
  }

  lemma Cyrillic2()
    ensures Owned("Варшава", 4) && Owned("Мюнхен", 5) && Owned("Кёльн", 6) && Owned("Кельн", 6)
    ensures Owned("Цюрих", 7)
  {
    Letters1();
    Letters2();
    hide Norm, C.Letter;
    Begins("Варшава", 2, "va"); Begins("Мюнхен", 2, "myu"); Begins("Кёльн", 2, "ke"); Begins("Кельн", 2, "ke");
    Begins("Цюрих", 1, "ts");
  }

  lemma Cyrillic3()
    ensures Owned("Берлин", 8) && Owned("Гамбург", 9) && Owned("Франкфурт", 10) && Owned("Штутгарт", 11)
  {
    Letters1();
    Letters2();
    hide Norm, C.Letter;
    Begins("Берлин", 4, "berl"); Begins("Гамбург", 2, "ga"); Begins("Франкфурт", 2, "fr");
    Begins("Штутгарт", 1, "sh");
  }

  lemma Cyrillic4()
    ensures Owned("Дюссельдорф", 12) && Owned("Лейпциг", 13) && Owned("Дрезден", 14) && Owned("Париж", 15)
  {
    Letters1();
    Letters2();
    hide Norm, C.Letter;
    Begins("Дюссельдорф", 2, "dyu"); Begins("Лейпциг", 3, "lei"); Begins("Дрезден", 2, "dr");
    Begins("Париж", 2, "pa");
  }

  lemma Cyrillic5()
    ensures Owned("Лондон", 16) && Owned("Мадрид", 17) && Owned("Барселона", 18) && Owned("Амстердам", 19)
  {
    Letters1();
    Letters2();
    hide Norm, C.Letter;
    Begins("Лондон", 3, "lon"); Begins("Мадрид", 3, "mad"); Begins("Барселона", 3, "bar");
    Begins("Амстердам", 2, "am");
  }

  lemma Cyrillic6()
    ensures Owned("Львов", 49) && Owned("Львів", 49) && Owned("Одесса", 50) && Owned("Одеса", 50)
  {
    Letters1();
    Letters2();
    hide Norm, C.Letter;
    Begins("Львов", 3, "lv"); Begins("Львів", 3, "lv"); Begins("Одесса", 1, "o"); Begins("Одеса", 1, "o");
  }

  lemma Cyrillic7()
    ensures Owned("Харьков", 51) && Owned("Харків", 51) && Owned("Днепр", 52) && Owned("Санкт-Петербург", 53)
  {
    Letters1();
    Letters2();
    hide Norm, C.Letter;
    Begins("Харьков", 3, "har"); Begins("Харків", 3, "har"); Begins("Днепр", 2, "dn");
    Begins("Санкт-Петербург", 4, "sank");
  }

  lemma Rows1()
    ensures OwnedFrom(ALIASES_1, 0)
  {
    hide Norm, Owned, AllOwned;
    Cyrillic1(); Cyrillic2();
    Row(ALIASES_1[0], 0); Row(ALIASES_1[1], 1); Row(ALIASES_1[2], 2); Row(ALIASES_1[3], 3); Row(ALIASES_1[4], 4);
    Row(ALIASES_1[5], 5);
  }

  lemma Rows2()
    ensures OwnedFrom(ALIASES_2, 6)
  {
    hide Norm, Owned, AllOwned;
    Cyrillic2(); Cyrillic3(); Cyrillic4();
    Row(ALIASES_2[0], 6); Row(ALIASES_2[1], 7); Row(ALIASES_2[2], 8); Row(ALIASES_2[3], 9); Row(ALIASES_2[4], 10);
    Row(ALIASES_2[5], 11); Row(ALIASES_2[6], 12);
  }

  lemma Rows3()
    ensures OwnedFrom(ALIASES_3, 13)
  {
    hide Norm, Owned, AllOwned;
    Cyrillic4(); Cyrillic5();
    Row(ALIASES_3[0], 13); Row(ALIASES_3[1], 14); Row(ALIASES_3[2], 15); Row(ALIASES_3[3], 16);
    Row(ALIASES_3[4], 17); Row(ALIASES_3[5], 18); Row(ALIASES_3[6], 19);
  }

  lemma Rows4()
    ensures OwnedFrom(ALIASES_4, 20)
  {
    hide Norm, Owned, AllOwned;
    Row(ALIASES_4[0], 20); Row(ALIASES_4[1], 21); Row(ALIASES_4[2], 22); Row(ALIASES_4[3], 23);
    Row(ALIASES_4[4], 24); Row(ALIASES_4[5], 25);
  }

  lemma Rows5()
    ensures OwnedFrom(ALIASES_5, 26)
  {
    hide Norm, Owned, AllOwned;
    Row(ALIASES_5[0], 26); Row(ALIASES_5[1], 27); Row(ALIASES_5[2], 28); Row(ALIASES_5[3], 29);
    Row(ALIASES_5[4], 30); Row(ALIASES_5[5], 31);
  }

  lemma Rows6()
    ensures OwnedFrom(ALIASES_6, 32)
  {
    hide Norm, Owned, AllOwned;
    Row(ALIASES_6[0], 32); Row(ALIASES_6[1], 33); Row(ALIASES_6[2], 34); Row(ALIASES_6[3], 35);
    Row(ALIASES_6[4], 36); Row(ALIASES_6[5], 37);
  }

  lemma Rows7()
    ensures OwnedFrom(ALIASES_7, 38)
  {
    hide Norm, Owned, AllOwned;
    Row(ALIASES_7[0], 38); Row(ALIASES_7[1], 39); Row(ALIASES_7[2], 40); Row(ALIASES_7[3], 41);
    Row(ALIASES_7[4], 42); Row(ALIASES_7[5], 43);
  }

  lemma Rows8()
    ensures OwnedFrom(ALIASES_8, 44)
  {
    hide Norm, Owned, AllOwned;
    Row(ALIASES_8[0], 44); Row(ALIASES_8[1], 45); Row(ALIASES_8[2], 46); Row(ALIASES_8[3], 47);
    Row(ALIASES_8[4], 48);
  }

  lemma Rows9()
    ensures OwnedFrom(ALIASES_9, 49)
  {
    hide Norm, Owned, AllOwned;
    Cyrillic6(); Cyrillic7();
    Row(ALIASES_9[0], 49); Row(ALIASES_9[1], 50); Row(ALIASES_9[2], 51); Row(ALIASES_9[3], 52);
  }

  lemma Rows10()
    ensures OwnedFrom(ALIASES_10, 53)
  {
    hide Norm, Owned, AllOwned;
    Cyrillic7();
    Row(ALIASES_10[0], 53); Row(ALIASES_10[1], 54); Row(ALIASES_10[2], 55); Row(ALIASES_10[3], 56);
  }

  lemma Rows11()
    ensures OwnedFrom(ALIASES_11, 57)
  {
    hide Norm, Owned, AllOwned;
    Row(ALIASES_11[0], 57); Row(ALIASES_11[1], 58); Row(ALIASES_11[2], 59); Row(ALIASES_11[3], 60);
    Row(ALIASES_11[4], 61); Row(ALIASES_11[5], 62);
  }

  lemma Rows12()
    ensures OwnedFrom(ALIASES_12, 63)
  {
    hide Norm, Owned, AllOwned;
    Row(ALIASES_12[0], 63); Row(ALIASES_12[1], 64); Row(ALIASES_12[2], 65); Row(ALIASES_12[3], 66);
    Row(ALIASES_12[4], 67); Row(ALIASES_12[5], 68); Row(ALIASES_12[6], 69);
  }

  lemma Rows13()
    ensures OwnedFrom(ALIASES_13, 70)
  {
    hide Norm, Owned, AllOwned;
    Row(ALIASES_13[0], 70); Row(ALIASES_13[1], 71); Row(ALIASES_13[2], 72); Row(ALIASES_13[3], 73);
    Row(ALIASES_13[4], 74); Row(ALIASES_13[5], 75); Row(ALIASES_13[6], 76);
  }

  // ---------------------------------------------------------------------------
  // The table
  // ---------------------------------------------------------------------------

  lemma OwnedAppend(a: Groups, b: Groups)
    requires OwnedFrom(a, 0) && OwnedFrom(b, |a|)
    ensures OwnedFrom(a + b, 0)
  {
    hide AllOwned;
  }

  lemma TableIsOwned()
    ensures OwnedFrom(CITY_ALIASES, 0) && |CITY_ALIASES| == 77
  {
    Rows1(); Rows2(); Rows3(); Rows4(); Rows5(); Rows6(); Rows7(); Rows8(); Rows9(); Rows10(); Rows11(); Rows12();
    Rows13();
    hide OwnedFrom;
    var a2 := ALIASES_1 + ALIASES_2;
    OwnedAppend(ALIASES_1, ALIASES_2);
    var a3 := a2 + ALIASES_3;
    OwnedAppend(a2, ALIASES_3);
    var a4 := a3 + ALIASES_4;
    OwnedAppend(a3, ALIASES_4);
    var a5 := a4 + ALIASES_5;
    OwnedAppend(a4, ALIASES_5);
    var a6 := a5 + ALIASES_6;
    OwnedAppend(a5, ALIASES_6);
    var a7 := a6 + ALIASES_7;
    OwnedAppend(a6, ALIASES_7);
    var a8 := a7 + ALIASES_8;
    OwnedAppend(a7, ALIASES_8);
    var a9 := a8 + ALIASES_9;
    OwnedAppend(a8, ALIASES_9);
    var a10 := a9 + ALIASES_10;
    OwnedAppend(a9, ALIASES_10);
    var a11 := a10 + ALIASES_11;
    OwnedAppend(a10, ALIASES_11);
    var a12 := a11 + ALIASES_12;
    OwnedAppend(a11, ALIASES_12);
    OwnedAppend(a12, ALIASES_13);
  }

  lemma OwnedNorm(row: seq<string>, g: nat, n: string)
    requires AllOwned(row, g) && n in NormAll(row)
    ensures n != "" && GroupOf(n) == g
  {
    hide GroupOf, Norm;
    var i :| 0 <= i < |row| && NormAll(row)[i] == n;
    assert row[i] in row;
  }

  /** No two groups of the table share a normalized name, and no name of it is blank. */
  lemma GroupsAreApart()
    ensures Disjoint(CITY_ALIASES)
    ensures forall g, n :: 0 <= g < |CITY_ALIASES| && n in CITY_ALIASES[g] ==> Norm(n) != ""
  {
    hide CITY_ALIASES, Norm, NormAll, GroupOf;
    TableIsOwned();
    forall g, h, n | 0 <= g < h < |CITY_ALIASES| && n in NormAll(CITY_ALIASES[g])
      ensures n !in NormAll(CITY_ALIASES[h])
    {
      OwnedNorm(CITY_ALIASES[g], g, n);
      if n in NormAll(CITY_ALIASES[h]) { OwnedNorm(CITY_ALIASES[h], h, n); }
    }
  }

  /** The names of a city in the table are keys of each other. */
  lemma CityNamesReachEachOther(g: nat, i: nat, j: nat)
    requires g < |CITY_ALIASES| && i < |CITY_ALIASES[g]| && j < |CITY_ALIASES[g]|
    ensures IsKey(IndexOf(CITY_ALIASES), CITY_ALIASES[g][i], Norm(CITY_ALIASES[g][j]))
  {
    hide CITY_ALIASES, Disjoint, IndexOf, IsKey, Norm;
    GroupsAreApart();
    SpellingsReachEachOther(CITY_ALIASES, g, i, j);
  }

  /**
   A search that has a name of a city of the table among its direct keys (the typed name itself, its
   umlaut spelling, or what collapsing makes of it) finds every row that holds the city under any name.
   */
  lemma AnyCityNameFindsEveryCityName(g: nat, typed: string, d: string, stored: string, raw: string)
    requires g < |CITY_ALIASES| && Direct(typed, d) && d in NormAll(CITY_ALIASES[g])
    requires stored in CITY_ALIASES[g] && Within(stored, raw)
    ensures C.CityFilterKeeps(IndexOf(CITY_ALIASES), Some(typed), NormalizeSearchText(Some(raw)))
  {
    hide CITY_ALIASES, Disjoint, IndexOf, Direct, C.CityFilterKeeps;
    GroupsAreApart();
    AnyNameFindsEveryName(CITY_ALIASES, g, typed, d, stored, raw);
  }

  /** Looking the keys of a search up again adds nothing. */
  lemma CityKeysAreClosed(typed: string, k: string, alias: string)
    requires IsKey(IndexOf(CITY_ALIASES), typed, k)
    requires k in IndexOf(CITY_ALIASES) && alias in IndexOf(CITY_ALIASES)[k]
    ensures IsKey(IndexOf(CITY_ALIASES), typed, alias)
  {
    hide CITY_ALIASES, Disjoint, IndexOf, IsKey;
    GroupsAreApart();
    KeysAreClosed(CITY_ALIASES, typed, k, alias);
  }

  /** A search that is not blank has no blank key. */
  lemma NoCityKeyIsEmpty(typed: string, k: string)
    requires Norm(typed) != "" && IsKey(IndexOf(CITY_ALIASES), typed, k)
    ensures k != ""
  {
    hide CITY_ALIASES, Disjoint, IndexOf, IsKey, Norm;
    GroupsAreApart();
    NoKeyIsEmpty(CITY_ALIASES, typed, k);
  }
}
