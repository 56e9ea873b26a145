/**
 The canonical form of free text (src/common/search-text.ts): tables, folding,
 transliteration and the keys of a city search.

 Characters are mapped one by one: `Lower` and the decomposition `Base` / `Marks`
 cover ASCII, Latin-1, Latin Extended-A and the whole Cyrillic block (U+0400 to U+04FF), every
 other character maps to itself.
 */
module SearchText {
  import opened Wrappers
  import opened Strings

  // ---------------------------------------------------------------------------
  // Case and canonical decomposition
  // ---------------------------------------------------------------------------

  function Lower(c: char): char {
    if 'A' <= c <= 'Z' || ('À' <= c <= 'Þ' && c != '×') || 'А' <= c <= 'Я' then (c as int + 32) as char
    else if 'Ѐ' <= c <= 'Џ' then (c as int + 80) as char
    else if 'Ā' <= c <= 'ķ' && c != 'İ' && c != 'ı' then OddOfPair(c)
    else if 'Ĺ' <= c <= 'ň' then EvenOfPair(c)
    else if 'Ŋ' <= c <= 'ŷ' then OddOfPair(c)
    else if c == 'Ÿ' then 'ÿ'
    else if 'Ź' <= c <= 'ž' then EvenOfPair(c)
    else if 'Ѡ' <= c <= 'ҁ' || 'Ҋ' <= c <= 'ҿ' || 'Ӑ' <= c <= 'ӿ' then OddOfPair(c)
    else if 'Ӂ' <= c <= 'ӎ' then EvenOfPair(c)
    else if c == 'Ӏ' then 'ӏ'
    else c
  }

  /** Blocks where upper and lower case alternate, the lower case on odd or on even codes. */
  function OddOfPair(c: char): char
    requires c < '\U{0500}'
  {
    if c as int % 2 == 0 then (c as int + 1) as char else c
  }

  function EvenOfPair(c: char): char
    requires c < '\U{0500}'
  {
    if c as int % 2 == 1 then (c as int + 1) as char else c
  }

  /** The letter a composed character is built on; other characters are their own. */
  function Base(c: char): char {
    var l := Lower(c);
    var b := LowerBase(l);
    if b == l then c else if l == c then b else Upper(b)
  }

  function LowerBase(l: char): char {
    if l < '\U{0400}' then LatinBase(l) else CyrillicBase(l)
  }

  /** The capital of a letter that carries marks. */
  function Upper(b: char): char {
    if 'a' <= b <= 'z' || 'а' <= b <= 'я' then (b as int - 32) as char
    else if b == 'і' then 'І'
    else if b == 'ѵ' then 'Ѵ'
    else if b == 'ә' then 'Ә'
    else if b == 'ө' then 'Ө'
    else b
  }

  /** The Latin letter under a lower-case composed letter. */
  function LatinBase(l: char): (b: char)
    ensures b != l ==> 'a' <= b <= 'z'
  {
    if l < 'à' || 'ž' < l then l
    else if 'à' <= l <= 'å' || 'ā' <= l <= 'ą' then 'a'
    else if l == 'ç' || 'ć' <= l <= 'č' then 'c'
    else if l == 'ď' then 'd'
    else if 'è' <= l <= 'ë' || 'ē' <= l <= 'ě' then 'e'
    else if 'ĝ' <= l <= 'ģ' then 'g'
    else if l == 'ĥ' then 'h'
    else if 'ì' <= l <= 'ï' || 'ĩ' <= l <= 'į' then 'i'
    else if l == 'ĵ' then 'j'
    else if l == 'ķ' then 'k'
    else if 'ĺ' <= l <= 'ľ' then 'l'
    else if l == 'ñ' || 'ń' <= l <= 'ň' then 'n'
    else if 'ò' <= l <= 'ö' || 'ō' <= l <= 'ő' then 'o'
    else if 'ŕ' <= l <= 'ř' then 'r'
    else if 'ś' <= l <= 'š' then 's'
    else if 'ţ' <= l <= 'ť' then 't'
    else if 'ù' <= l <= 'ü' || 'ũ' <= l <= 'ų' then 'u'
    else if l == 'ŵ' then 'w'
    else if l == 'ý' || l == 'ÿ' || l == 'ŷ' then 'y'
    else if 'ź' <= l <= 'ž' then 'z'
    else l
  }

  /** The Cyrillic letter under a lower-case composed letter. */
  function CyrillicBase(l: char): char {
    match l
    case 'ӑ' | 'ӓ' => 'а'
    case 'ѓ' => 'г'
    case 'ё' | 'ѐ' | 'ӗ' => 'е'
    case 'ӂ' | 'ӝ' => 'ж'
    case 'ӟ' => 'з'
    case 'й' | 'ѝ' | 'ӣ' | 'ӥ' => 'и'
    case 'ї' => 'і'
    case 'ќ' => 'к'
    case 'ӧ' => 'о'
    case 'ў' | 'ӯ' | 'ӱ' | 'ӳ' => 'у'
    case 'ӵ' => 'ч'
    case 'ӹ' => 'ы'
    case 'ӭ' => 'э'
    case 'ѷ' => 'ѵ'
    case 'ӛ' => 'ә'
    case 'ӫ' => 'ө'
    case _ => l
  }

  /** The range `[̀-ͯ]` of combining marks that `fold` removes. */
  predicate IsMark(c: char) {
    '\U{0300}' <= c <= '\U{036F}'
  }

  /** The marks a composed character carries. Only that they are marks matters below. */
  function Marks(c: char): (m: string)
    ensures forall x :: x in m ==> IsMark(x)
  {
    if Base(c) == c then ""
    else match Lower(c)
      case 'à' | 'è' | 'ì' | 'ò' | 'ù' | 'ѐ' | 'ѝ' => "\U{0300}"
      case 'á' | 'é' | 'í' | 'ó' | 'ú' | 'ý' | 'ć' | 'ĺ' | 'ń' | 'ŕ' | 'ś' | 'ź' | 'ѓ' | 'ќ' => "\U{0301}"
      case 'â' | 'ê' | 'î' | 'ô' | 'û' | 'ĉ' | 'ĝ' | 'ĥ' | 'ĵ' | 'ŝ' | 'ŵ' | 'ŷ' => "\U{0302}"
      case 'ã' | 'ñ' | 'õ' | 'ĩ' | 'ũ' => "\U{0303}"
      case 'ā' | 'ē' | 'ī' | 'ō' | 'ū' | 'ӣ' | 'ӯ' => "\U{0304}"
      case 'ă' | 'ĕ' | 'ğ' | 'ĭ' | 'ŏ' | 'ŭ' | 'й' | 'ў' | 'ӂ' | 'ӑ' | 'ӗ' => "\U{0306}"
      case 'ċ' | 'ė' | 'ġ' | 'ż' => "\U{0307}"
      case 'ä' | 'ë' | 'ï' | 'ö' | 'ü' | 'ÿ' | 'ё' | 'ї' => "\U{0308}"
      case 'ӓ' | 'ӛ' | 'ӝ' | 'ӟ' | 'ӥ' | 'ӧ' | 'ӫ' | 'ӭ' | 'ӱ' | 'ӵ' | 'ӹ' => "\U{0308}"
      case 'å' | 'ů' => "\U{030A}"
      case 'ő' | 'ű' | 'ӳ' => "\U{030B}"
      case 'ѷ' => "\U{030F}"
      case 'č' | 'ď' | 'ě' | 'ľ' | 'ň' | 'ř' | 'š' | 'ť' | 'ž' => "\U{030C}"
      case 'ç' | 'ģ' | 'ķ' | 'ļ' | 'ņ' | 'ŗ' | 'ş' | 'ţ' => "\U{0327}"
      case _ => "\U{0328}"
  }

  function Decompose(c: char): string {
    [Base(c)] + Marks(c)
  }

  function LowerText(c: char): string { [Lower(c)] }

  function DropMark(c: char): string {
    if IsMark(c) then "" else [c]
  }

  /** `toLowerCase()` and `normalize('NFD')`. */
  function ToLower(s: string): string { MapConcat(LowerText, s) }

  function Nfd(s: string): string { MapConcat(Decompose, s) }

  // ---------------------------------------------------------------------------
  // Transliteration
  // ---------------------------------------------------------------------------

  type Table = seq<(char, string)>

  /** The rows of the Cyrillic table, in its order. */
  const CYRILLIC_1: Table := [('щ', "shch"), ('ш', "sh"), ('ч', "ch"), ('ц', "ts"), ('ж', "zh")]
  const CYRILLIC_2: Table := [('ю', "yu"), ('я', "ya"), ('ё', "e"), ('э', "e"), ('ы', "y")]
  const CYRILLIC_3: Table := [('й', "i"), ('ї', "i"), ('і', "i"), ('є', "ie"), ('ґ', "g")]
  const CYRILLIC_4: Table := [('а', "a"), ('б', "b"), ('в', "v"), ('г', "g"), ('д', "d")]
  const CYRILLIC_5: Table := [('е', "e"), ('з', "z"), ('и', "i"), ('к', "k"), ('л', "l")]
  const CYRILLIC_6: Table := [('м', "m"), ('н', "n"), ('о', "o"), ('п', "p"), ('р', "r")]
  const CYRILLIC_7: Table := [('с', "s"), ('т', "t"), ('у', "u"), ('ф', "f"), ('х', "h")]
  const CYRILLIC_8: Table := [('ь', ""), ('ъ', "")]

  const CYRILLIC: Table :=
    CYRILLIC_1 + CYRILLIC_2 + CYRILLIC_3 + CYRILLIC_4 + CYRILLIC_5 + CYRILLIC_6 + CYRILLIC_7 + CYRILLIC_8

  const GERMAN: Table := [('ä', "ae"), ('ö', "oe"), ('ü', "ue"), ('ß', "ss")]

  /** The replacements one after the other, as both loops of the source make them. */
  function Substitute(table: Table, s: string): string {
    if table == [] then s else Substitute(table[1..], Replace(s, table[0].0, table[0].1))
  }

  /** No replacement text is touched by a replacement of the table. */
  ghost predicate WritesNoKeys(table: Table) {
    forall e, f :: e in table && f in table ==> f.0 !in e.1
  }

  function Lookup(table: Table, c: char): string {
    if table == [] then [c] else if table[0].0 == c then table[0].1 else Lookup(table[1..], c)
  }

  function OnePass(table: Table, s: string): string {
    if s == "" then "" else Lookup(table, s[0]) + OnePass(table, s[1..])
  }

  method SubstituteAll(table: Table, input: string) returns (out: string)
    ensures out == Substitute(table, input)
  {
    out := input;
    for i := 0 to |table|
      invariant Substitute(table[i..], out) == Substitute(table, input)
    {
      SplitJoinReplaces(out, table[i].0, table[i].1);
      assert table[i..][1..] == table[i + 1..];
      out := Join(Split(out, table[i].0), table[i].1);
    }
    assert table[|table|..] == [];
  }

  function Transliterate(input: string): string {
    Substitute(CYRILLIC, ToLower(input))
  }

  // ---------------------------------------------------------------------------
  // The canonical forms
  // ---------------------------------------------------------------------------

  function Fold(input: string): string {
    Trim(Squeeze(ToLower(MapConcat(DropMark, Nfd(input)))))
  }

  function NormalizeSearchText(input: Option<string>): string {
    if input == None || input.value == "" then "" else Norm(input.value)
  }

  function Norm(input: string): string {
    Fold(Transliterate(input))
  }

  predicate IsAlnum(c: char) {
    'a' <= c <= 'z' || '0' <= c <= '9'
  }

  function KeepAlnum(c: char): string {
    if IsAlnum(c) then [c] else ""
  }

  function NormalizeCompact(input: Option<string>): string {
    MapConcat(KeepAlnum, NormalizeSearchText(input))
  }

  // ---------------------------------------------------------------------------
  // City keys
  // ---------------------------------------------------------------------------

  /** `replace(/ae/g, 'a')` for `v == 'a'`, and likewise for the other vowels. */
  function DropE(v: char, s: string): string {
    if s == "" then ""
    else if s[0] == v && 1 < |s| && s[1] == 'e' then [v] + DropE(v, s[2..])
    else [s[0]] + DropE(v, s[1..])
  }

  function Collapse(s: string): string {
    DropE('u', DropE('o', DropE('a', s)))
  }

  type Groups = seq<seq<string>>
  type Index = map<string, seq<string>>

  function NormAll(group: seq<string>): (r: seq<string>)
    ensures |r| == |group| && forall i :: 0 <= i < |r| ==> r[i] == Norm(group[i])
  {
    seq(|group|, i requires 0 <= i < |group| => Norm(group[i]))
  }

  /** Every spelling of every group, later groups overwriting earlier ones. */
  function IndexOf(groups: Groups): Index {
    if groups == [] then map[]
    else
      var last := NormAll(groups[|groups| - 1]);
      IndexOf(groups[..|groups| - 1]) + map n | n in last :: last
  }

  /** The inner loop: `index.set(name, normalized)` for every name of one group. */
  method IndexGroup(before: Index, normalized: seq<string>) returns (index: Index)
    ensures index == before + map n | n in normalized :: normalized
  {
    index := before;
    for i := 0 to |normalized|
      invariant index == before + map n | n in normalized[..i] :: normalized
    {
      assert normalized[..i + 1] == normalized[..i] + [normalized[i]];
      index := index[normalized[i] := normalized];
    }
    assert normalized[..|normalized|] == normalized;
  }

  method BuildIndex(groups: Groups) returns (index: Index)
    ensures index == IndexOf(groups)
  {
    index := map[];
    for g := 0 to |groups|
      invariant index == IndexOf(groups[..g])
    {
      assert groups[..g + 1][..g] == groups[..g];
      index := IndexGroup(index, NormAll(groups[g]));
    }
    assert groups[..|groups|] == groups;
  }

  /** Adding to a `Set` that remembers insertion order. */
  function Add(keys: seq<string>, k: string): (r: seq<string>)
    ensures keys <= r && k in r && forall x :: x in r <==> x in keys || x == k
    ensures Unique(keys) ==> Unique(r)
  {
    if k in keys then keys else keys + [k]
  }

  ghost predicate Unique(keys: seq<string>) {
    forall i, j :: 0 <= i < j < |keys| ==> keys[i] != keys[j]
  }

  /** The keys that do not come from the alias table. */
  ghost predicate Direct(input: string, k: string) {
    IsDirect(Norm(input), Norm(Substitute(GERMAN, ToLower(input))), k)
  }

  ghost predicate IsDirect(base: string, germanKey: string, k: string) {
    || k == base
    || (k == germanKey && k != "")
    || (k == Collapse(base) && k != base && 3 <= |k|)
  }

  ghost predicate IsKey(index: Index, input: string, k: string) {
    || Direct(input, k)
    || exists d :: Direct(input, d) && d in index && k in index[d]
  }

  method AddAll(before: seq<string>, more: seq<string>) returns (keys: seq<string>)
    requires Unique(before)
    ensures before <= keys && Unique(keys)
    ensures forall k :: k in keys <==> k in before || k in more
  {
    keys := before;
    for i := 0 to |more|
      invariant before <= keys && Unique(keys)
      invariant forall k :: k in keys <==> k in before || k in more[..i]
    {
      assert more[..i + 1] == more[..i] + [more[i]];
      keys := Add(keys, more[i]);
    }
    assert more[..|more|] == more;
  }

  /** The loop over a snapshot of the keys that adds the aliases of each. */
  method AddAliases(index: Index, direct: seq<string>) returns (keys: seq<string>)
    requires Unique(direct)
    ensures direct <= keys && Unique(keys)
    ensures forall k :: k in keys <==> k in direct || exists d :: d in direct && d in index && k in index[d]
  {
    keys := direct;
    for i := 0 to |direct|
      invariant direct <= keys && Unique(keys)
      invariant forall k :: k in keys <==>
                  k in direct || exists j :: 0 <= j < i && direct[j] in index && k in index[direct[j]]
    {
      if direct[i] in index {
        keys := AddAll(keys, index[direct[i]]);
      }
    }
  }

  method DirectKeys(base: string, germanKey: string) returns (keys: seq<string>)
    ensures Unique(keys) && 0 < |keys| && keys[0] == base
    ensures forall k :: k in keys <==> IsDirect(base, germanKey, k)
  {
    keys := [base];
    if germanKey != "" { keys := Add(keys, germanKey); }
    var collapsed := Collapse(base);
    if collapsed != base && 3 <= |collapsed| { keys := Add(keys, collapsed); }
  }

  method CitySearchKeys(index: Index, input: Option<string>) returns (keys: seq<string>)
    ensures NormalizeSearchText(input) == "" ==> keys == []
    ensures NormalizeSearchText(input) != "" ==>
              && 0 < |keys| && keys[0] == Norm(input.value) && Unique(keys)
              && forall k :: k in keys <==> IsKey(index, input.value, k)
  {
    if NormalizeSearchText(input) == "" { return []; }
    var german := SubstituteAll(GERMAN, ToLower(input.value));
    EmptyNorm();
    var direct := DirectKeys(NormalizeSearchText(input), NormalizeSearchText(Some(german)));
    keys := AddAliases(index, direct);
  }

  lemma EmptyNorm()
    ensures Norm("") == ""
  {
    EmptySubstitute(CYRILLIC);
  }

  lemma {:induction false} EmptySubstitute(table: Table)
    ensures Substitute(table, "") == ""
  {
    if table != [] { EmptySubstitute(table[1..]); }
  }
}
