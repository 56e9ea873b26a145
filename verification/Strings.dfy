/** The JavaScript string operations the models use, one character at a time. */
module Strings {

  /** Replace every character by a string. */
  function MapConcat(f: char -> string, s: string): string {
    if s == "" then "" else f(s[0]) + MapConcat(f, s[1..])
  }

  lemma MapConcatCons(f: char -> string, s: string)
    ensures MapConcat(f, s) == if s == "" then "" else f(s[0]) + MapConcat(f, s[1..])
  {
  }

  lemma {:induction false} MapConcatAppend(f: char -> string, a: string, b: string)
    ensures MapConcat(f, a + b) == MapConcat(f, a) + MapConcat(f, b)
  {
    hide MapConcat;
    MapConcatCons(f, a);
    if a == "" {
      assert a + b == b;
    } else {
      MapConcatCons(f, a + b);
      assert (a + b)[0] == a[0] && (a + b)[1..] == a[1..] + b;
      MapConcatAppend(f, a[1..], b);
    }
  }

  lemma {:induction false} MapConcatCompose(f: char -> string, g: char -> string, h: char -> string, s: string)
    requires forall c :: c in s ==> h(c) == MapConcat(g, f(c))
    ensures MapConcat(g, MapConcat(f, s)) == MapConcat(h, s)
  {
    if s == "" {
    } else {
      MapConcatCompose(f, g, h, s[1..]);
      MapConcatAppend(g, f(s[0]), MapConcat(f, s[1..]));
    }
  }

  lemma {:induction false} MapConcatMembers(f: char -> string, s: string)
    ensures forall x :: x in MapConcat(f, s) <==> exists c :: c in s && x in f(c)
  {
    if s == "" {
    } else {
      MapConcatMembers(f, s[1..]);
      assert s == [s[0]] + s[1..];
    }
  }

  lemma {:induction false} FixedMap(f: char -> string, s: string)
    requires forall x :: x in s ==> f(x) == [x]
    ensures MapConcat(f, s) == s
  {
    if s != "" { FixedMap(f, s[1..]); }
  }

  lemma MapConcatSingle(f: char -> string, c: char)
    ensures MapConcat(f, [c]) == f(c)
  {
    assert [c][1..] == "";
  }

  /** `x` occurs in `y` as one piece: what `includes` and a `contains` filter test. */
  ghost predicate Within(x: string, y: string) {
    exists a, b :: y == a + x + b
  }

  lemma MapConcatWithin(f: char -> string, x: string, y: string)
    requires Within(x, y)
    ensures Within(MapConcat(f, x), MapConcat(f, y))
  {
    var a, b :| y == a + x + b;
    MapConcatAppend(f, a + x, b);
    MapConcatAppend(f, a, x);
  }

  // ---------------------------------------------------------------------------
  // split and join
  // ---------------------------------------------------------------------------

  function Split(s: string, sep: char): (parts: seq<string>)
    ensures 0 < |parts|
  {
    if s == "" then [""]
    else if s[0] == sep then [""] + Split(s[1..], sep)
    else
      var rest := Split(s[1..], sep);
      [[s[0]] + rest[0]] + rest[1..]
  }

  function Join(parts: seq<string>, glue: string): string
    requires 0 < |parts|
  {
    if |parts| == 1 then parts[0] else parts[0] + glue + Join(parts[1..], glue)
  }

  function Replace(s: string, from: char, to: string): string {
    if s == "" then "" else (if s[0] == from then to else [s[0]]) + Replace(s[1..], from, to)
  }

  /** `s.split(from).join(to)` replaces every occurrence of a one-character `from`. */
  lemma {:induction false} SplitJoinReplaces(s: string, from: char, to: string)
    ensures Join(Split(s, from), to) == Replace(s, from, to)
  {
    if s == "" {
    } else {
      SplitJoinReplaces(s[1..], from, to);
      var rest := Split(s[1..], from);
      if s[0] == from {
        assert ([""] + rest)[1..] == rest;
        assert Join([""] + rest, to) == "" + to + Join(rest, to);
      } else {
        var parts := [[s[0]] + rest[0]] + rest[1..];
        assert parts[1..] == rest[1..];
        assert Join(parts, to) == [s[0]] + Join(rest, to);
      }
    }
  }

  // ---------------------------------------------------------------------------
  // White space
  // ---------------------------------------------------------------------------

  /** The class `\s`, which is also what `trim` removes. */
  predicate IsSpace(c: char) {
    || '\t' <= c <= '\r' || c == ' ' || c == '\U{00A0}' || c == '\U{1680}'
    || '\U{2000}' <= c <= '\U{200A}' || c == '\U{2028}' || c == '\U{2029}'
    || c == '\U{202F}' || c == '\U{205F}' || c == '\U{3000}' || c == '\U{FEFF}'
  }

  /** Tab, line feed, vertical tab, form feed, carriage return, blank, and the spaces of Unicode. */
  lemma WhiteSpace(c: char)
    ensures IsSpace(c) <==>
              c in "\t\n\U{000B}\U{000C}\r \U{00A0}\U{1680}\U{2028}\U{2029}\U{202F}\U{205F}\U{3000}\U{FEFF}"
              || c in "\U{2000}\U{2001}\U{2002}\U{2003}\U{2004}\U{2005}\U{2006}\U{2007}\U{2008}\U{2009}\U{200A}"
  {
  }

  function TrimLeft(s: string): (r: string)
    ensures r != "" ==> !IsSpace(r[0])
    ensures |r| <= |s|
  {
    if s != "" && IsSpace(s[0]) then TrimLeft(s[1..]) else s
  }

  function TrimRight(s: string): (r: string)
    ensures r != "" ==> !IsSpace(r[|r| - 1])
    ensures r <= s
  {
    if s != "" && IsSpace(s[|s| - 1]) then TrimRight(s[..|s| - 1]) else s
  }

  function Trim(s: string): string {
    TrimRight(TrimLeft(s))
  }

  /** `replace(/\s+/g, ' ')`. */
  function Squeeze(s: string): string
    decreases |s|
  {
    if s == "" then ""
    else if IsSpace(s[0]) then " " + Squeeze(TrimLeft(s[1..]))
    else [s[0]] + Squeeze(s[1..])
  }

  /** What a left-to-right reader has seen: nothing yet, a letter, or a letter and then a gap. */
  datatype Reader = Start | Letter | Gap

  function OnSpace(q: Reader): Reader {
    if q == Start then Start else Gap
  }

  /** One pass that writes a gap only once a further letter has come. */
  function Tidy(q: Reader, s: string): string
    decreases |s|
  {
    if s == "" then ""
    else if IsSpace(s[0]) then Tidy(OnSpace(q), s[1..])
    else (if q == Gap then " " else "") + [s[0]] + Tidy(Letter, s[1..])
  }

  function After(q: Reader, s: string): Reader
    decreases |s|
  {
    if s == "" then q else After(if IsSpace(s[0]) then OnSpace(q) else Letter, s[1..])
  }

  lemma {:induction false} TrimRightCons(c: char, s: string)
    ensures TrimRight([c] + s) == if TrimRight(s) == "" && IsSpace(c) then "" else [c] + TrimRight(s)
    decreases |s|
  {
    if s == "" {
      assert [c] + s == [c] && [c][..0] == "";
    } else if IsSpace(s[|s| - 1]) {
      TrimRightCons(c, s[..|s| - 1]);
      assert ([c] + s)[..|s|] == [c] + s[..|s| - 1];
      assert ([c] + s)[|s|] == s[|s| - 1];
    } else {
      assert ([c] + s)[|s|] == s[|s| - 1];
    }
  }

  lemma {:induction false} TidyGap(s: string)
    ensures Tidy(Gap, s) == if Tidy(Start, s) == "" then "" else " " + Tidy(Start, s)
  {
    if s != "" && IsSpace(s[0]) { TidyGap(s[1..]); }
  }

  lemma {:induction false} TidyStart(s: string)
    ensures Tidy(Start, s) == Tidy(Letter, TrimLeft(s))
  {
    if s != "" && IsSpace(s[0]) { TidyStart(s[1..]); }
  }

  lemma {:induction false} TidyLetter(s: string)
    ensures Tidy(Letter, s) == TrimRight(Squeeze(s))
    decreases |s|
  {
    if s == "" {
    } else if IsSpace(s[0]) {
      var rest := TrimLeft(s[1..]);
      TidyGap(s[1..]);
      TidyStart(s[1..]);
      TidyLetter(rest);
      TrimRightCons(' ', Squeeze(rest));
    } else {
      TidyLetter(s[1..]);
      TrimRightCons(s[0], Squeeze(s[1..]));
    }
  }

  /** `replace(/\s+/g, ' ').trim()` is the one pass. */
  lemma SqueezeTrimIsTidy(s: string)
    ensures Trim(Squeeze(s)) == Tidy(Start, s)
  {
    var rest := TrimLeft(s);
    TidyStart(s);
    TidyLetter(rest);
    if s != "" && IsSpace(s[0]) {
      assert (" " + Squeeze(rest))[1..] == Squeeze(rest);
    }
  }

  lemma {:induction false} TidyAppend(q: Reader, a: string, b: string)
    ensures Tidy(q, a + b) == Tidy(q, a) + Tidy(After(q, a), b)
    decreases |a|
  {
    if a == "" {
      assert a + b == b;
    } else {
      assert (a + b)[1..] == a[1..] + b;
      TidyAppend(if IsSpace(a[0]) then OnSpace(q) else Letter, a[1..], b);
    }
  }

  lemma TidyLate(q: Reader, s: string)
    ensures Tidy(q, s) == Tidy(Start, s) || Tidy(q, s) == " " + Tidy(Start, s)
  {
    TidyGap(s);
    if s != "" && IsSpace(s[0]) { TidyGap(s[1..]); }
  }

  /** Collapsing and trimming keep every occurrence. */
  lemma TidyWithin(x: string, y: string)
    requires Within(x, y)
    ensures Within(Tidy(Start, x), Tidy(Start, y))
  {
    hide Tidy, After;
    var a, b :| y == a + x + b;
    TidyAppend(Start, a + x, b);
    TidyAppend(Start, a, x);
    var q := After(Start, a);
    TidyLate(q, x);
    var blank := if Tidy(q, x) == Tidy(Start, x) then "" else " ";
    assert Tidy(q, x) == blank + Tidy(Start, x);
    var (before, behind) := (Tidy(Start, a) + blank, Tidy(After(Start, a + x), b));
    assert Tidy(Start, y) == before + Tidy(Start, x) + behind;
  }

  /** The pass writes the letters it reads and single blanks, nothing else. */
  lemma {:induction false} TidyMembers(q: Reader, s: string)
    ensures forall x :: x in Tidy(q, s) ==> (x in s && !IsSpace(x)) || x == ' '
    ensures forall x :: x in s && !IsSpace(x) ==> x in Tidy(q, s)
    decreases |s|
  {
    if s == "" {
    } else {
      assert s == [s[0]] + s[1..];
      TidyMembers(if IsSpace(s[0]) then OnSpace(q) else Letter, s[1..]);
    }
  }

  lemma {:induction false} TidyTwice(s: string)
    ensures Tidy(Start, Tidy(Start, s)) == Tidy(Start, s)
    ensures Tidy(Letter, Tidy(Letter, s)) == Tidy(Letter, s)
    decreases |s|
  {
    if s == "" {
    } else {
      TidyTwice(s[1..]);
      if IsSpace(s[0]) {
        TidyGap(s[1..]);
        var t := Tidy(Start, s[1..]);
        if t != "" {
          assert (" " + t)[1..] == t;
          TidyGap(t);
        }
      } else {
        var t := Tidy(Letter, s[1..]);
        assert ([s[0]] + t)[1..] == t;
      }
    }
  }
}
