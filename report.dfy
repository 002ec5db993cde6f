/**
 * The text `printTokens` of the counting lexer writes: one line per category
 * with at least one entry, then a blank line and the grand total.
 */
module Report {
  import opened Tokens
  import opened LinkedMaps
  import opened Counting

  // ---------------------------------------------------------------------------
  // Decimal numerals

  function DigitChar(d: nat): (c: char)
    requires d < 10
    ensures '0' <= c <= '9'
  {
    "0123456789"[d]
  }

  /** The value of a digit character. */
  function DigitValue(c: char): int
  {
    c as int - '0' as int
  }

  /** `Integer.toString` of a non-negative count. */
  function Decimal(n: nat): (s: string)
    ensures |s| >= 1
  {
    if n < 10 then [DigitChar(n)] else Decimal(n / 10) + [DigitChar(n % 10)]
  }

  /** A printed count is decimal digits without a leading zero. */
  lemma {:induction false} DecimalDigits(n: nat)
    ensures forall i :: 0 <= i < |Decimal(n)| ==> '0' <= Decimal(n)[i] <= '9'
    ensures Decimal(n)[0] == '0' ==> n == 0
  {
    if n >= 10 {
      DecimalDigits(n / 10);
      assert Decimal(n)[0] == Decimal(n / 10)[0];
    }
  }

  /** Reading a string of decimal digits, most significant first. */
  function ParseDecimal(s: string): int
  {
    if s == [] then 0 else ParseDecimal(s[..|s| - 1]) * 10 + DigitValue(s[|s| - 1])
  }

  /** A printed count reads back as the same number. */
  lemma {:induction false} DecimalRoundTrip(n: nat)
    ensures ParseDecimal(Decimal(n)) == n
  {
    var s := Decimal(n);
    if n < 10 {
      assert s[..0] == [];
      assert DigitValue(DigitChar(n)) == n by {
        assert "0123456789"[n] as int == '0' as int + n;
      }
    } else {
      DecimalRoundTrip(n / 10);
      assert s[..|s| - 1] == Decimal(n / 10);
      assert DigitValue(DigitChar(n % 10)) == n % 10 by {
        assert "0123456789"[n % 10] as int == '0' as int + n % 10;
      }
    }
  }

  // ---------------------------------------------------------------------------
  // The printed text

  /** `String.join(sep, parts)`. */
  function Join(sep: string, parts: seq<string>): string
  {
    if parts == [] then ""
    else if |parts| == 1 then parts[0]
    else Join(sep, parts[..|parts| - 1]) + sep + parts[|parts| - 1]
  }

  /** The separator goes between the first part and the join of the rest. */
  lemma {:induction false} JoinCons(sep: string, parts: seq<string>)
    requires |parts| >= 2
    ensures Join(sep, parts) == parts[0] + sep + Join(sep, parts[1..])
    decreases |parts|
  {
    var init := parts[..|parts| - 1];
    if |parts| > 2 {
      JoinCons(sep, init);
      assert init[1..] == parts[1..][..|parts| - 2];
    } else {
      assert parts[1..] == [parts[1]];
    }
  }

  /** One map entry as `text[count]`. */
  function EntryText(e: (string, nat)): string
  {
    e.0 + "[" + Decimal(e.1) + "]"
  }

  /** The formatted entries of one category, in iteration order. */
  function Formatted(m: Entries): (parts: seq<string>)
    ensures |parts| == |m|
  {
    if m == [] then [] else Formatted(m[..|m| - 1]) + [EntryText(m[|m| - 1])]
  }

  /** The line of one category: nothing when its map is empty. */
  function Section(entry: (TokenType, Entries)): (line: string)
    ensures line == "" <==> entry.1 == []
    ensures line != "" ==> line[|line| - 1] == '\n'
  {
    if entry.1 == [] then "" else TypeName(entry.0) + ": " + Join(", ", Formatted(entry.1)) + "\n"
  }

  /** The lines of all categories, in the table's order. */
  function Sections(tab: Table): string
  {
    if tab == [] then "" else Sections(tab[..|tab| - 1]) + Section(tab[|tab| - 1])
  }

  /** Nothing is printed for the categories exactly when every one of them is empty. */
  lemma SectionsEmptyIff(tab: Table)
    ensures Sections(tab) == "" <==> forall k :: 0 <= k < |tab| ==> tab[k].1 == []
  {
    if Sections(tab) == "" {
      forall k | 0 <= k < |tab| ensures tab[k].1 == [] {
        SilentSection(tab, k);
      }
    } else if forall k :: 0 <= k < |tab| ==> tab[k].1 == [] {
      SectionsOfEmptyMaps(tab);
    }
  }

  lemma {:induction false} SilentSection(tab: Table, k: nat)
    requires k < |tab| && Sections(tab) == ""
    ensures tab[k].1 == []
  {
    var init, last := tab[..|tab| - 1], tab[|tab| - 1];
    assert Sections(tab) == Sections(init) + Section(last);
    assert |Sections(init)| == 0 && |Section(last)| == 0;
    if k < |init| {
      assert init[k] == tab[k];
      SilentSection(init, k);
    }
  }

  /**
   * One more category: its line, and its sum, come after those of the
   * earlier ones; a category with no entries adds neither.
   */
  lemma SectionsPrefix(tab: Table, k: nat)
    requires k < |tab|
    ensures Sections(tab[..k + 1]) == Sections(tab[..k]) + Section(tab[k])
    ensures TableTotal(tab[..k + 1]) == TableTotal(tab[..k]) + Sum(tab[k].1)
    ensures tab[k].1 == [] ==> Section(tab[k]) == "" && Sum(tab[k].1) == 0
  {
    assert tab[..k + 1] == tab[..k] + [tab[k]];
    SectionsSnoc(tab[..k], tab[k]);
  }

  /** The sections and total of a table with one more category. */
  lemma SectionsSnoc(tab: Table, e: (TokenType, Entries))
    ensures Sections(tab + [e]) == Sections(tab) + Section(e)
    ensures TableTotal(tab + [e]) == TableTotal(tab) + Sum(e.1)
  {
    assert (tab + [e])[..|tab|] == tab;
  }

  /** One more entry: its text, and its count, come after those of the earlier ones. */
  lemma FormattedPrefix(m: Entries, e: nat)
    requires e < |m|
    ensures Formatted(m[..e + 1]) == Formatted(m[..e]) + [EntryText(m[e])]
    ensures Sum(m[..e + 1]) == Sum(m[..e]) + m[e].1
  {
    assert m[..e + 1][..e] == m[..e];
  }

  /** The line of a category with entries, from its formatted entries. */
  lemma SectionLine(entry: (TokenType, Entries), formatted: seq<string>)
    requires entry.1 != [] && formatted == Formatted(entry.1)
    ensures Section(entry) == TypeName(entry.0) + ": " + Join(", ", formatted) + "\n"
  {
  }

  const TotalLabel := "Total tokens found: "

  /** Everything `printTokens` writes, with `\n` as the line separator. */
  function ReportText(tab: Table): string
  {
    Sections(tab) + "\n" + TotalLabel + Decimal(TableTotal(tab)) + "\n"
  }

  /** A table of empty maps prints no category line, only the zero total. */
  lemma {:induction false} SectionsOfEmptyMaps(tab: Table)
    requires forall k :: 0 <= k < |tab| ==> tab[k].1 == []
    ensures Sections(tab) == ""
    ensures TableTotal(tab) == 0
  {
    if tab != [] {
      var init := tab[..|tab| - 1];
      assert forall k :: 0 <= k < |init| ==> init[k] == tab[k];
      SectionsOfEmptyMaps(init);
    }
  }

  /** The report of no tokens at all. */
  lemma ReportOfNothing()
    ensures ReportText(Tally([])) == "\nTotal tokens found: 0\n"
  {
    SectionsOfEmptyMaps(PerType([]));
    assert Decimal(0) == "0";
    ZeroReportText();
  }

  lemma ZeroReportText()
    ensures "" + "\n" + TotalLabel + "0" + "\n" == "\nTotal tokens found: 0\n"
  {
  }

  /** The last line of a report is the total line, and its number reads back as the table total. */
  lemma ReportEndsWithTotal(tab: Table)
    ensures var text := ReportText(tab);
            var num := Decimal(TableTotal(tab));
            |text| >= |TotalLabel| + |num| + 1
            && text[|text| - |num| - 1 - |TotalLabel|..] == TotalLabel + num + "\n"
            && ParseDecimal(text[|text| - |num| - 1..|text| - 1]) == TableTotal(tab)
  {
    TotalLine(ReportText(tab), Sections(tab), TotalLabel, TableTotal(tab));
  }

  /** A total line after any text: it is the suffix, and its number reads back. */
  lemma TotalLine(text: string, head: string, caption: string, n: nat)
    requires text == head + "\n" + caption + Decimal(n) + "\n"
    ensures var num := Decimal(n);
            |text| >= |caption| + |num| + 1
            && text[|text| - |num| - 1 - |caption|..] == caption + num + "\n"
            && ParseDecimal(text[|text| - |num| - 1..|text| - 1]) == n
  {
    LastLine(text, head, caption, Decimal(n));
    DecimalRoundTrip(n);
  }

  lemma LastLine(text: string, head: string, caption: string, num: string)
    requires text == head + "\n" + caption + num + "\n"
    ensures |text| >= |caption| + |num| + 1
    ensures text[|text| - |num| - 1 - |caption|..] == caption + num + "\n"
    ensures text[|text| - |num| - 1..|text| - 1] == num
  {
    assert text[|text| - |num| - 1 - |caption|..] == caption + num + "\n";
    assert text[|text| - |num| - 1..|text| - 1] == num;
  }

  /**
   * The report of any token sequence ends with the total line, and the
   * number on it reads back as the number of tokens counted.
   */
  lemma ReportTotal(toks: seq<Token>)
    ensures var text := ReportText(Tally(toks));
            var num := Decimal(|toks|);
            |text| >= |TotalLabel| + |num| + 1
            && text[|text| - |num| - 1 - |TotalLabel|..] == TotalLabel + num + "\n"
            && ParseDecimal(text[|text| - |num| - 1..|text| - 1]) == |toks|
  {
    TallyTotal(toks);
    ReportEndsWithTotal(Tally(toks));
  }
}
