/** Sequential substitution is a one-pass character map, for the tables of search-text.ts. */
module Transliteration {
  import opened Strings
  import opened SearchText

  lemma {:induction false} OnePassAppend(table: Table, a: string, b: string)
    ensures OnePass(table, a + b) == OnePass(table, a) + OnePass(table, b)
  {
    if a == "" {
      assert a + b == b;
    } else {
      OnePassAppend(table, a[1..], b);
      assert (a + b)[1..] == a[1..] + b;
    }
  }

  lemma {:induction false} OnePassSkips(table: Table, s: string)
    requires forall e :: e in table ==> e.0 !in s
    ensures OnePass(table, s) == s
  {
    if s != "" {
      LookupSkips(table, s[0]);
      OnePassSkips(table, s[1..]);
    }
  }

  lemma {:induction false} LookupSkips(table: Table, c: char)
    requires forall e :: e in table ==> e.0 != c
    ensures Lookup(table, c) == [c]
  {
    if table != [] {
      assert table[0] in table;
      LookupSkips(table[1..], c);
    }
  }

  lemma {:induction false} LookupFinds(table: Table, e: (char, string))
    requires e in table
    ensures (e.0, Lookup(table, e.0)) in table
  {
    if table[0].0 != e.0 { LookupFinds(table[1..], e); }
  }

  lemma {:induction false} ReplaceThenOnePass(table: Table, s: string)
    requires 0 < |table| && WritesNoKeys(table)
    ensures OnePass(table[1..], Replace(s, table[0].0, table[0].1)) == OnePass(table, s)
  {
    if s != "" {
      var (from, to) := table[0];
      ReplaceThenOnePass(table, s[1..]);
      OnePassAppend(table[1..], if s[0] == from then to else [s[0]], Replace(s[1..], from, to));
      if s[0] == from {
        assert table[0] in table;
        OnePassSkips(table[1..], to);
      } else {
        assert [s[0]][1..] == "";
      }
    }
  }

  /** Replacing entry by entry is one pass over the characters. */
  lemma {:induction false} SequentialIsOnePass(table: Table, s: string)
    requires WritesNoKeys(table)
    ensures Substitute(table, s) == OnePass(table, s)
  {
    if table == [] {
      OnePassSkips(table, s);
    } else {
      SequentialIsOnePass(table[1..], Replace(s, table[0].0, table[0].1));
      ReplaceThenOnePass(table, s);
    }
  }

  lemma {:induction false} OnePassByEntries(t: Table, t': Table, s: string)
    requires forall e :: e in t <==> e in t'
    requires forall e, f :: e in t && f in t && e.0 == f.0 ==> e == f
    ensures OnePass(t, s) == OnePass(t', s)
  {
    if s != "" {
      OnePassByEntries(t, t', s[1..]);
      if e :| e in t && e.0 == s[0] {
        LookupFinds(t, e);
        LookupFinds(t', e);
      } else {
        LookupSkips(t, s[0]);
        LookupSkips(t', s[0]);
      }
    }
  }

  /** The order of the entries is irrelevant when every entry has its own single character. */
  lemma OrderDoesNotMatter(t: Table, t': Table, s: string)
    requires forall e :: e in t <==> e in t'
    requires forall e, f :: e in t && f in t && e.0 == f.0 ==> e == f
    requires WritesNoKeys(t)
    ensures Substitute(t, s) == Substitute(t', s)
  {
    SequentialIsOnePass(t, s);
    SequentialIsOnePass(t', s);
    OnePassByEntries(t, t', s);
  }

  /** The character map of the Cyrillic table, letter by letter. */
  function Roman(c: char): string {
    match c
    case 'а' => "a" case 'б' => "b" case 'в' => "v" case 'г' | 'ґ' => "g" case 'д' => "d"
    case 'е' | 'ё' | 'э' => "e" case 'є' => "ie" case 'ж' => "zh" case 'з' => "z"
    case 'и' | 'й' | 'і' | 'ї' => "i" case 'к' => "k" case 'л' => "l" case 'м' => "m"
    case 'н' => "n" case 'о' => "o" case 'п' => "p" case 'р' => "r" case 'с' => "s"
    case 'т' => "t" case 'у' => "u" case 'ф' => "f" case 'х' => "h" case 'ц' => "ts"
    case 'ч' => "ch" case 'ш' => "sh" case 'щ' => "shch" case 'ъ' | 'ь' => ""
    case 'ы' => "y" case 'ю' => "yu" case 'я' => "ya"
    case _ => [c]
  }

  predicate IsTableLetter(c: char) {
    ('а' <= c <= 'я') || c == 'ё' || c == 'є' || c == 'і' || c == 'ї' || c == 'ґ'
  }

  lemma Rows1And2(e: (char, string))
    requires e in CYRILLIC_1 + CYRILLIC_2
    ensures IsTableLetter(e.0) && e.1 == Roman(e.0)
  {
  }

  lemma Rows3And4(e: (char, string))
    requires e in CYRILLIC_3 + CYRILLIC_4
    ensures IsTableLetter(e.0) && e.1 == Roman(e.0)
  {
  }

  lemma Rows5And6(e: (char, string))
    requires e in CYRILLIC_5 + CYRILLIC_6
    ensures IsTableLetter(e.0) && e.1 == Roman(e.0)
  {
  }

  lemma Rows7And8(e: (char, string))
    requires e in CYRILLIC_7 + CYRILLIC_8
    ensures IsTableLetter(e.0) && e.1 == Roman(e.0)
  {
  }

  lemma CyrillicEntries(e: (char, string))
    requires e in CYRILLIC
    ensures IsTableLetter(e.0) && e.1 == Roman(e.0)
  {
    if e in CYRILLIC_1 + CYRILLIC_2 { Rows1And2(e); }
    else if e in CYRILLIC_3 + CYRILLIC_4 { Rows3And4(e); }
    else if e in CYRILLIC_5 + CYRILLIC_6 { Rows5And6(e); }
    else { Rows7And8(e); }
  }

  lemma RomanIsAscii(c: char)
    requires IsTableLetter(c)
    ensures forall x :: x in Roman(c) ==> 'a' <= x <= 'z'
  {
  }

  lemma CyrillicHasEntry(c: char)
    requires IsTableLetter(c)
    ensures (c, Roman(c)) in CYRILLIC
  {
  }
}
