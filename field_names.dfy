/**
 * The three field-name cleaners of the export scripts.
 *
 * `clean_field_name` (export_produkty_with_orders.py) folds the Polish letters, turns
 * separators into `_` and `%` into `procent`, drops what is not alphanumeric and lower-cases.
 * The inline cleaners of export_produkty_analytics.py and create_supabase_table.py, the same
 * code in both scripts, only turn ` `, `-` and `.` into `_` and drop the rest; they keep case
 * and do not fold.
 */
module FieldNames {
  import opened PyStr

  /** One `pattern -> text` entry of a `str.replace` chain whose pattern is a single character. */
  datatype Replacement = Replacement(pattern: char, text: string)

  /** The replacement table of `clean_field_name`, in the dictionary's order. */
  const Replacements: seq<Replacement> := [
    Replacement('\U{0105}', "a"), Replacement('\U{0107}', "c"), Replacement('\U{0119}', "e"),
    Replacement('\U{0142}', "l"), Replacement('\U{0144}', "n"), Replacement('\U{00F3}', "o"),
    Replacement('\U{015B}', "s"), Replacement('\U{017A}', "z"), Replacement('\U{017C}', "z"),
    Replacement('\U{0104}', "A"), Replacement('\U{0106}', "C"), Replacement('\U{0118}', "E"),
    Replacement('\U{0141}', "L"), Replacement('\U{0143}', "N"), Replacement('\U{00D3}', "O"),
    Replacement('\U{015A}', "S"), Replacement('\U{0179}', "Z"), Replacement('\U{017B}', "Z"),
    Replacement(' ', "_"), Replacement('-', "_"), Replacement('.', "_"), Replacement(',', "_"),
    Replacement('%', "procent")
  ]

  /** The `.replace` chain of the inline cleaner. */
  const InlineReplacements: seq<Replacement> :=
    [Replacement(' ', "_"), Replacement('-', "_"), Replacement('.', "_")]

  /** `s.replace(pattern, text)` for a one-character pattern. */
  function ReplaceChar(s: string, pattern: char, text: string): string
    decreases |s|
  {
    if s == [] then [] else (if s[0] == pattern then text else [s[0]]) + ReplaceChar(s[1..], pattern, text)
  }

  /** What the first entry of `table` for `c` turns `c` into; `c` itself if there is none. */
  function Subst(table: seq<Replacement>, c: char): string {
    SubstFrom(table, c, 0)
  }

  function SubstFrom(table: seq<Replacement>, c: char, i: nat): string
    requires i <= |table|
    decreases |table| - i
  {
    if i == |table| then [c] else if table[i].pattern == c then table[i].text else SubstFrom(table, c, i + 1)
  }

  predicate IsKey(table: seq<Replacement>, c: char) { exists j :: 0 <= j < |table| && table[j].pattern == c }

  /** Every character of `s` replaced at once, by its first entry in `table`. */
  function SubstAll(table: seq<Replacement>, s: string): string
    decreases |s|
  {
    if s == [] then [] else Subst(table, s[0]) + SubstAll(table, s[1..])
  }

  /** `''.join(c for c in s if c.isalnum() or c == '_')` */
  function KeepAlnum(s: string): (r: string)
    ensures forall i :: 0 <= i < |r| ==> IsAlnum(r[i]) || r[i] == '_'
    decreases |s|
  {
    if s == [] then [] else (if IsAlnum(s[0]) || s[0] == '_' then [s[0]] else []) + KeepAlnum(s[1..])
  }

  /** Specification of `clean_field_name`. */
  function Cleaned(name: string): string {
    LowerStr(KeepAlnum(SubstAll(Replacements, name)))
  }

  /**
   * The inline cleaner export_produkty_analytics.py applies to an item's name before using it
   * as a record key: a chain of three `.replace` calls and the filter.
   */
  function RecordColumnName(name: string): string {
    KeepAlnum(ReplaceChar(ReplaceChar(ReplaceChar(name, ' ', "_"), '-', "_"), '.', "_"))
  }

  /** The inline cleaner create_supabase_table.py applies to a field name to name its column. */
  function TableColumnName(fieldName: string): string {
    KeepAlnum(ReplaceChar(ReplaceChar(ReplaceChar(fieldName, ' ', "_"), '-', "_"), '.', "_"))
  }

  /** The two scripts clean a name the same way, so a record key meets its table column. */
  lemma InlineCleanersAgree(name: string)
    ensures TableColumnName(name) == RecordColumnName(name)
  {
  }

  /** A character `clean_field_name` can produce. */
  predicate IsCleanChar(c: char) { c == '_' || IsDigit(c) || IsAsciiLower(c) || IsCyrillicLower(c) }

  predicate IsCleanName(s: string) { forall i :: 0 <= i < |s| ==> IsCleanChar(s[i]) }

  // ---------------------------------------------------------------------------------------
  // clean_field_name, step by step

  /**
   * `clean_field_name`: one `str.replace` per table entry, in the table's order, then the
   * filter and `lower()`.
   */
  method CleanFieldName(name: string) returns (clean: string)
    ensures clean == Cleaned(name)
  {
    clean := name;
    SubstAllNone(Replacements[..0], name);
    for i := 0 to |Replacements|
      invariant clean == SubstAll(Replacements[..i], name)
    {
      ReplacementsIndependent(i);
      ReplaceCharStep(Replacements[..i], Replacements[i], name);
      assert Replacements[..i + 1] == Replacements[..i] + [Replacements[i]];
      clean := ReplaceChar(clean, Replacements[i].pattern, Replacements[i].text);
    }
    assert Replacements[..|Replacements|] == Replacements;
    clean := KeepAlnum(clean);
    clean := LowerStr(clean);
  }

  predicate IsAsciiWordChar(c: char) { IsAsciiLower(c) || IsAsciiUpper(c) || c == '_' }

  /** Every replacement text is made of ASCII letters and `_`; no pattern is such a character. */
  lemma ReplacementsShape()
    ensures forall j, k :: 0 <= j < |Replacements| && 0 <= k < |Replacements[j].text| ==>
      IsAsciiWordChar(Replacements[j].text[k])
    ensures forall j :: 0 <= j < |Replacements| ==>
      !IsAsciiWordChar(Replacements[j].pattern) && !IsCleanChar(Replacements[j].pattern)
  {
    ShapeOfEntries0();
    ShapeOfEntries8();
    ShapeOfEntries16();
  }

  predicate EntryShaped(r: Replacement) {
    && (forall k :: 0 <= k < |r.text| ==> IsAsciiWordChar(r.text[k]))
    && !IsAsciiWordChar(r.pattern) && !IsCleanChar(r.pattern)
  }

  lemma ShapeOfEntries0()
    ensures forall j :: 0 <= j < 8 ==> EntryShaped(Replacements[j])
  {
  }

  lemma ShapeOfEntries8()
    ensures forall j :: 8 <= j < 16 ==> EntryShaped(Replacements[j])
  {
  }

  lemma ShapeOfEntries16()
    ensures forall j :: 16 <= j < 23 ==> EntryShaped(Replacements[j])
  {
  }

  /** No entry's pattern occurs in what an earlier entry produced. */
  lemma ReplacementsIndependent(i: nat)
    requires i < |Replacements|
    ensures forall j :: 0 <= j < i ==> Replacements[i].pattern !in Replacements[j].text
  {
    ReplacementsShape();
  }

  lemma {:induction false} SubstAllNone(table: seq<Replacement>, s: string)
    requires table == []
    ensures SubstAll(table, s) == s
    decreases |s|
  {
    if s != [] {
      SubstAllNone(table, s[1..]);
      assert s == [s[0]] + s[1..];
    }
  }

  lemma {:induction false} ReplaceCharConcat(a: string, b: string, pattern: char, text: string)
    ensures ReplaceChar(a + b, pattern, text) == ReplaceChar(a, pattern, text) + ReplaceChar(b, pattern, text)
    decreases |a|
  {
    if a != [] {
      var head := if a[0] == pattern then text else [a[0]];
      assert (a + b)[0] == a[0] && (a + b)[1..] == a[1..] + b;
      ReplaceCharConcat(a[1..], b, pattern, text);
      calc {
        ReplaceChar(a + b, pattern, text);
        head + ReplaceChar(a[1..] + b, pattern, text);
        head + (ReplaceChar(a[1..], pattern, text) + ReplaceChar(b, pattern, text));
        (head + ReplaceChar(a[1..], pattern, text)) + ReplaceChar(b, pattern, text);
        ReplaceChar(a, pattern, text) + ReplaceChar(b, pattern, text);
      }
    } else {
      assert a + b == b;
    }
  }

  lemma {:induction false} ReplaceCharAbsent(s: string, pattern: char, text: string)
    requires pattern !in s
    ensures ReplaceChar(s, pattern, text) == s
    decreases |s|
  {
    if s != [] {
      ReplaceCharAbsent(s[1..], pattern, text);
      assert s == [s[0]] + s[1..];
    }
  }

  lemma {:induction false} SubstFromFirst(table: seq<Replacement>, c: char, i: nat, j: nat)
    requires i <= j < |table| && table[j].pattern == c
    requires forall k :: i <= k < j ==> table[k].pattern != c
    ensures SubstFrom(table, c, i) == table[j].text
    decreases j - i
  {
    if i < j {
      SubstFromFirst(table, c, i + 1, j);
    }
  }

  lemma {:induction false} SubstFromNone(table: seq<Replacement>, c: char, i: nat)
    requires i <= |table|
    requires forall k :: i <= k < |table| ==> table[k].pattern != c
    ensures SubstFrom(table, c, i) == [c]
    decreases |table| - i
  {
    if i < |table| {
      SubstFromNone(table, c, i + 1);
    }
  }

  /** The first entry of `table` for `c`. */
  lemma {:induction false} FirstKey(table: seq<Replacement>, c: char, i: nat) returns (j: nat)
    requires i <= |table|
    requires exists k :: i <= k < |table| && table[k].pattern == c
    ensures i <= j < |table| && table[j].pattern == c
    ensures forall k :: i <= k < j ==> table[k].pattern != c
    decreases |table| - i
  {
    if table[i].pattern == c {
      j := i;
    } else {
      j := FirstKey(table, c, i + 1);
    }
  }

  /** `Subst` is either the character itself (no entry for it) or the text of some entry. */
  lemma SubstCases(table: seq<Replacement>, c: char)
    ensures !IsKey(table, c) ==> Subst(table, c) == [c]
    ensures IsKey(table, c) ==> exists j :: 0 <= j < |table| && Subst(table, c) == table[j].text
  {
    if IsKey(table, c) {
      var j := FirstKey(table, c, 0);
      SubstFromFirst(table, c, 0, j);
    } else {
      SubstFromNone(table, c, 0);
    }
  }

  lemma SubstAppend(table: seq<Replacement>, r: Replacement, c: char)
    ensures Subst(table + [r], c) == if IsKey(table, c) then Subst(table, c) else if r.pattern == c then r.text else [c]
  {
    var t := table + [r];
    if IsKey(table, c) {
      var j := FirstKey(table, c, 0);
      SubstFromFirst(table, c, 0, j);
      SubstFromFirst(t, c, 0, j);
    } else if r.pattern == c {
      SubstFromFirst(t, c, 0, |table|);
    } else {
      SubstFromNone(t, c, 0);
    }
  }

  /** Applying one more `.replace` to a string already rewritten by `table`. */
  lemma {:induction false} ReplaceCharStep(table: seq<Replacement>, r: Replacement, s: string)
    requires forall j :: 0 <= j < |table| ==> r.pattern !in table[j].text
    ensures ReplaceChar(SubstAll(table, s), r.pattern, r.text) == SubstAll(table + [r], s)
    decreases |s|
  {
    if s != [] {
      ReplaceCharConcat(Subst(table, s[0]), SubstAll(table, s[1..]), r.pattern, r.text);
      ReplaceCharStep(table, r, s[1..]);
      SubstAppend(table, r, s[0]);
      SubstCases(table, s[0]);
      if IsKey(table, s[0]) {
        ReplaceCharAbsent(Subst(table, s[0]), r.pattern, r.text);
      }
    }
  }

  // ---------------------------------------------------------------------------------------
  // What clean_field_name produces

  /** Every Polish letter has an entry in the table. */
  lemma PolishIsKey(c: char)
    requires IsPolishUpper(c) || IsPolishLower(c)
    ensures IsKey(Replacements, c)
  {
    var j :=
      if c == '\U{0105}' then 0 else if c == '\U{0107}' then 1 else if c == '\U{0119}' then 2
      else if c == '\U{0142}' then 3 else if c == '\U{0144}' then 4 else if c == '\U{00F3}' then 5
      else if c == '\U{015B}' then 6 else if c == '\U{017A}' then 7 else if c == '\U{017C}' then 8
      else if c == '\U{0104}' then 9 else if c == '\U{0106}' then 10 else if c == '\U{0118}' then 11
      else if c == '\U{0141}' then 12 else if c == '\U{0143}' then 13 else if c == '\U{00D3}' then 14
      else if c == '\U{015A}' then 15 else if c == '\U{0179}' then 16 else 17;
    assert Replacements[j].pattern == c;
  }

  lemma SubstNoPolish(c: char)
    ensures forall k :: 0 <= k < |Subst(Replacements, c)| ==>
      !IsPolishUpper(Subst(Replacements, c)[k]) && !IsPolishLower(Subst(Replacements, c)[k])
  {
    ReplacementsShape();
    SubstCases(Replacements, c);
    if IsPolishUpper(c) || IsPolishLower(c) {
      PolishIsKey(c);
    }
  }

  lemma {:induction false} SubstAllNoPolish(s: string)
    ensures forall k :: 0 <= k < |SubstAll(Replacements, s)| ==>
      !IsPolishUpper(SubstAll(Replacements, s)[k]) && !IsPolishLower(SubstAll(Replacements, s)[k])
    decreases |s|
  {
    if s != [] {
      SubstNoPolish(s[0]);
      SubstAllNoPolish(s[1..]);
    }
  }

  lemma {:induction false} KeepAlnumSubseq(s: string)
    ensures forall k :: 0 <= k < |KeepAlnum(s)| ==> KeepAlnum(s)[k] in s
    decreases |s|
  {
    if s != [] {
      KeepAlnumSubseq(s[1..]);
    }
  }

  /**
   * The output of `clean_field_name` holds only `_`, digits and lower-case letters: no space,
   * `-`, `.`, `,`, `%`, Polish letter or upper-case letter survives.
   */
  lemma CleanedIsClean(name: string)
    ensures IsCleanName(Cleaned(name))
  {
    var folded := SubstAll(Replacements, name);
    SubstAllNoPolish(name);
    KeepAlnumSubseq(folded);
    var kept := KeepAlnum(folded);
    forall k | 0 <= k < |kept| ensures IsCleanChar(Lower(kept[k])) {
      assert kept[k] in folded;
    }
  }

  lemma {:induction false} KeepAlnumOfClean(s: string)
    requires IsCleanName(s)
    ensures KeepAlnum(s) == s
    decreases |s|
  {
    if s != [] {
      KeepAlnumOfClean(s[1..]);
      assert s == [s[0]] + s[1..];
    }
  }

  lemma {:induction false} SubstAllOfClean(s: string)
    requires IsCleanName(s)
    ensures SubstAll(Replacements, s) == s
    decreases |s|
  {
    if s != [] {
      SubstAllOfClean(s[1..]);
      SubstOfCleanChar(s[0]);
      assert s == [s[0]] + s[1..];
    }
  }

  lemma SubstOfCleanChar(c: char)
    requires IsCleanChar(c)
    ensures Subst(Replacements, c) == [c]
  {
    ReplacementsShape();
    SubstFromNone(Replacements, c, 0);
  }

  /** A name that is already clean comes back unchanged. */
  lemma CleanedFixesCleanNames(s: string)
    requires IsCleanName(s)
    ensures Cleaned(s) == s
  {
    SubstAllOfClean(s);
    KeepAlnumOfClean(s);
  }

  /** Cleaning is idempotent. */
  lemma CleanedIdempotent(name: string)
    ensures Cleaned(Cleaned(name)) == Cleaned(name)
  {
    CleanedIsClean(name);
    CleanedFixesCleanNames(Cleaned(name));
  }

  lemma {:induction false} KeepAlnumConcat(a: string, b: string)
    ensures KeepAlnum(a + b) == KeepAlnum(a) + KeepAlnum(b)
    decreases |a|
  {
    if a != [] {
      var head := if IsAlnum(a[0]) || a[0] == '_' then [a[0]] else [];
      assert (a + b)[0] == a[0] && (a + b)[1..] == a[1..] + b;
      KeepAlnumConcat(a[1..], b);
      calc {
        KeepAlnum(a + b);
        head + KeepAlnum(a[1..] + b);
        head + (KeepAlnum(a[1..]) + KeepAlnum(b));
        (head + KeepAlnum(a[1..])) + KeepAlnum(b);
        KeepAlnum(a) + KeepAlnum(b);
      }
    } else {
      assert a + b == b;
    }
  }

  lemma {:induction false} SubstAllConcat(table: seq<Replacement>, a: string, b: string)
    ensures SubstAll(table, a + b) == SubstAll(table, a) + SubstAll(table, b)
    decreases |a|
  {
    if a != [] {
      assert (a + b)[0] == a[0] && (a + b)[1..] == a[1..] + b;
      SubstAllConcat(table, a[1..], b);
    } else {
      assert a + b == b;
    }
  }

  /** `clean_field_name` works character by character. */
  lemma CleanedConcat(a: string, b: string)
    ensures Cleaned(a + b) == Cleaned(a) + Cleaned(b)
  {
    SubstAllConcat(Replacements, a, b);
    KeepAlnumConcat(SubstAll(Replacements, a), SubstAll(Replacements, b));
    var x := KeepAlnum(SubstAll(Replacements, a));
    var y := KeepAlnum(SubstAll(Replacements, b));
    assert LowerStr(x + y) == LowerStr(x) + LowerStr(y);
  }

  lemma PatternsDistinct()
    ensures forall a, b :: 0 <= a < b < |Replacements| ==> Replacements[a].pattern != Replacements[b].pattern
  {
  }

  lemma CleanedOfEntry(j: nat)
    requires j < |Replacements|
    ensures Cleaned([Replacements[j].pattern]) == LowerStr(KeepAlnum(Replacements[j].text))
  {
    var c := Replacements[j].pattern;
    assert forall k :: 0 <= k < j ==> Replacements[k].pattern != c by {
      PatternsDistinct();
    }
    SubstFromFirst(Replacements, c, 0, j);
    assert Subst(Replacements, c) == Replacements[j].text;
    assert SubstAll(Replacements, [c]) == Replacements[j].text by {
      assert [c][1..] == [];
      assert SubstAll(Replacements, [c]) == Subst(Replacements, c) + SubstAll(Replacements, []);
    }
  }

  /** An entry that replaces its character by one ASCII letter or `_`. */
  lemma CleanedOfOneCharEntry(j: nat, c: char, t: char)
    requires j < |Replacements| && Replacements[j].pattern == c && Replacements[j].text == [t]
    requires IsAsciiWordChar(t)
    ensures Cleaned([c]) == [Lower(t)]
  {
    CleanedOfEntry(j);
    assert KeepAlnum([t]) == [t];
  }

  /** The eighteen Polish letters, in the table's order, and the ASCII letters they fold to. */
  const PolishLetters: string :=
    "\U{0105}\U{0107}\U{0119}\U{0142}\U{0144}\U{00F3}\U{015B}\U{017A}\U{017C}\U{0104}\U{0106}\U{0118}\U{0141}\U{0143}\U{00D3}\U{015A}\U{0179}\U{017B}"
  const PolishBases: string := "acelnoszzacelnoszz"

  /** Each Polish letter becomes its ASCII base letter, in lower case. */
  lemma CleanedFoldsPolish()
    ensures |PolishLetters| == |PolishBases| == 18
    ensures forall j :: 0 <= j < 18 ==> Cleaned([PolishLetters[j]]) == [PolishBases[j]]
  {
    PolishEntries();
    forall j | 0 <= j < 18 ensures Cleaned([PolishLetters[j]]) == [PolishBases[j]] {
      CleanedOfFoldEntry(j, PolishLetters[j], PolishBases[j]);
    }
  }

  /** An entry that replaces `c` by one ASCII letter whose lower case is `b`. */
  lemma CleanedOfFoldEntry(j: nat, c: char, b: char)
    requires j < |Replacements| && FoldsTo(Replacements[j], c, b)
    ensures Cleaned([c]) == [b]
  {
    var t := Replacements[j].text[0];
    assert Replacements[j].text == [t];
    CleanedOfOneCharEntry(j, c, t);
  }

  /** The first eighteen entries map the Polish letters to one ASCII letter each. */
  lemma PolishEntries()
    ensures |PolishLetters| == |PolishBases| == 18
    ensures forall j :: 0 <= j < 18 ==> FoldsTo(Replacements[j], PolishLetters[j], PolishBases[j])
  {
    PolishEntries0();
    PolishEntries3();
    PolishEntries6();
    PolishEntries9();
    PolishEntries12();
    PolishEntries15();
  }

  /** The entry replaces `c` by one ASCII letter whose lower case is `b`. */
  predicate FoldsTo(r: Replacement, c: char, b: char) {
    r.pattern == c && |r.text| == 1 && IsAsciiWordChar(r.text[0]) && Lower(r.text[0]) == b
  }

  lemma PolishEntries0()
    ensures forall j :: 0 <= j < 3 ==> FoldsTo(Replacements[j], PolishLetters[j], PolishBases[j])
  {
  }

  lemma PolishEntries3()
    ensures forall j :: 3 <= j < 6 ==> FoldsTo(Replacements[j], PolishLetters[j], PolishBases[j])
  {
  }

  lemma PolishEntries6()
    ensures forall j :: 6 <= j < 9 ==> FoldsTo(Replacements[j], PolishLetters[j], PolishBases[j])
  {
  }

  lemma PolishEntries9()
    ensures forall j :: 9 <= j < 12 ==> FoldsTo(Replacements[j], PolishLetters[j], PolishBases[j])
  {
  }

  lemma PolishEntries12()
    ensures forall j :: 12 <= j < 15 ==> FoldsTo(Replacements[j], PolishLetters[j], PolishBases[j])
  {
  }

  lemma PolishEntries15()
    ensures forall j :: 15 <= j < 18 ==> FoldsTo(Replacements[j], PolishLetters[j], PolishBases[j])
  {
  }

  /** ` `, `-`, `.` and `,` become `_`. */
  lemma CleanedSeparators()
    ensures forall c :: c in " -.," ==> Cleaned([c]) == "_"
  {
    SeparatorEntries();
    CleanedOfOneCharEntry(18, ' ', '_');
    CleanedOfOneCharEntry(19, '-', '_');
    CleanedOfOneCharEntry(20, '.', '_');
    CleanedOfOneCharEntry(21, ',', '_');
  }

  lemma SeparatorEntries()
    ensures Replacements[18] == Replacement(' ', "_") && Replacements[19] == Replacement('-', "_")
    ensures Replacements[20] == Replacement('.', "_") && Replacements[21] == Replacement(',', "_")
  {
  }

  lemma ProcentEntry()
    ensures Replacements[22] == Replacement('%', "procent")
  {
  }

  /** A word of lower-case ASCII letters survives the filter and `lower()` unchanged. */
  lemma LowerWordKept(w: string)
    requires forall i :: 0 <= i < |w| ==> IsAsciiLower(w[i])
    ensures LowerStr(KeepAlnum(w)) == w
  {
    assert forall i :: 0 <= i < |w| ==> IsAlnum(w[i]) && !IsUpper(w[i]);
    KeepAlnumOfAlnum(w);
    LowerStrKeeps(w);
  }

  /** `%` becomes `procent`. */
  lemma CleanedPercent()
    ensures Cleaned("%") == "procent"
  {
    ProcentEntry();
    CleanedOfEntry(22);
    LowerWordKept("procent");
  }

  // ---------------------------------------------------------------------------------------
  // The inline cleaner

  lemma ColumnNameIsSubstAll(name: string)
    ensures RecordColumnName(name) == KeepAlnum(SubstAll(InlineReplacements, name))
  {
    var t := InlineReplacements;
    SubstAllNone(t[..0], name);
    assert t[..1] == t[..0] + [t[0]];
    ReplaceCharStep(t[..0], t[0], name);
    assert t[..2] == t[..1] + [t[1]];
    ReplaceCharStep(t[..1], t[1], name);
    assert t == t[..2] + [t[2]];
    ReplaceCharStep(t[..2], t[2], name);
  }

  lemma {:induction false} SubstAllInlineOfAlnum(s: string)
    requires forall i :: 0 <= i < |s| ==> IsAlnum(s[i]) || s[i] == '_'
    ensures SubstAll(InlineReplacements, s) == s
    decreases |s|
  {
    if s != [] {
      SubstAllInlineOfAlnum(s[1..]);
      assert s == [s[0]] + s[1..];
    }
  }

  lemma {:induction false} KeepAlnumOfAlnum(s: string)
    requires forall i :: 0 <= i < |s| ==> IsAlnum(s[i]) || s[i] == '_'
    ensures KeepAlnum(s) == s
    decreases |s|
  {
    if s != [] {
      KeepAlnumOfAlnum(s[1..]);
      assert s == [s[0]] + s[1..];
    }
  }

  /**
   * The inline cleaner leaves only alphanumerics and `_`, keeps every alphanumeric it is
   * given (upper case and Polish letters included), and is idempotent.
   */
  lemma ColumnNameProperties(name: string)
    ensures forall i :: 0 <= i < |RecordColumnName(name)| ==> IsAlnum(RecordColumnName(name)[i]) || RecordColumnName(name)[i] == '_'
    ensures (forall i :: 0 <= i < |name| ==> IsAlnum(name[i]) || name[i] == '_') ==> RecordColumnName(name) == name
    ensures RecordColumnName(RecordColumnName(name)) == RecordColumnName(name)
  {
    ColumnNameIsSubstAll(name);
    if forall i :: 0 <= i < |name| ==> IsAlnum(name[i]) || name[i] == '_' {
      SubstAllInlineOfAlnum(name);
      KeepAlnumOfAlnum(name);
    }
    var c := RecordColumnName(name);
    ColumnNameIsSubstAll(c);
    SubstAllInlineOfAlnum(c);
    KeepAlnumOfAlnum(c);
  }

  /** A character the two cleaners treat differently (besides case). */
  predicate OnlyFoldedBy(c: char) { IsPolishUpper(c) || IsPolishLower(c) || c == ',' || c == '%' }

  lemma SubstAgree(c: char)
    requires !OnlyFoldedBy(c)
    ensures Subst(Replacements, c) == Subst(InlineReplacements, c)
  {
    PatternsDistinct();
    if c == ' ' {
      SubstFromFirst(Replacements, c, 0, 18);
      SubstFromFirst(InlineReplacements, c, 0, 0);
    } else if c == '-' {
      SubstFromFirst(Replacements, c, 0, 19);
      SubstFromFirst(InlineReplacements, c, 0, 1);
    } else if c == '.' {
      SubstFromFirst(Replacements, c, 0, 20);
      SubstFromFirst(InlineReplacements, c, 0, 2);
    } else {
      assert forall j :: 0 <= j < |Replacements| ==> OnlyFoldedBy(Replacements[j].pattern) || Replacements[j].pattern in " -.";
      SubstFromNone(Replacements, c, 0);
      SubstFromNone(InlineReplacements, c, 0);
    }
  }

  /**
   * On a name with no Polish letter, `,` or `%`, `clean_field_name` is the inline cleaner
   * followed by `lower()`: the two agree up to case and nowhere else.
   */
  lemma {:induction false} CleanersAgreeUpToCase(name: string)
    requires forall i :: 0 <= i < |name| ==> !OnlyFoldedBy(name[i])
    ensures Cleaned(name) == LowerStr(RecordColumnName(name))
    decreases |name|
  {
    ColumnNameIsSubstAll(name);
    if name != [] {
      var c, rest := name[0], name[1..];
      CleanersAgreeUpToCase(rest);
      ColumnNameIsSubstAll(rest);
      assert name == [c] + rest;
      CleanedConcat([c], rest);
      CharCleanersAgree(c);
      SubstAllConcat(InlineReplacements, [c], rest);
      var a := SubstAll(InlineReplacements, [c]);
      var b := SubstAll(InlineReplacements, rest);
      KeepAlnumConcat(a, b);
      LowerStrConcat(KeepAlnum(a), KeepAlnum(b));
    }
  }

  lemma CharCleanersAgree(c: char)
    requires !OnlyFoldedBy(c)
    ensures Cleaned([c]) == LowerStr(KeepAlnum(SubstAll(InlineReplacements, [c])))
  {
    assert SubstAll(InlineReplacements, [c]) == Subst(InlineReplacements, c);
    assert SubstAll(Replacements, [c]) == Subst(Replacements, c);
    SubstAgree(c);
  }

  lemma LowerStrConcat(a: string, b: string)
    ensures LowerStr(a + b) == LowerStr(a) + LowerStr(b)
  {
  }
}
