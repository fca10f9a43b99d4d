/**
 * Concrete runs of the locator's components on small examples.
 */
module Scenarios {
  import opened Text
  import opened Paths
  import opened Matcher
  import opened Unmatched

  /** Any folder holding `Invoice1.pdf`, `invoice1.docx` and `other.txt`, searched for `Invoice1`. */
  lemma InvoiceScenario(dir: string)
    ensures MatchFiles([Combine(dir, "Invoice1.pdf"), Combine(dir, "invoice1.docx"),
                        Combine(dir, "other.txt")], "Invoice1")
         == [Combine(dir, "Invoice1.pdf"), Combine(dir, "invoice1.docx")]
  {
    InvoiceStems(dir);
    WhereThree(Combine(dir, "Invoice1.pdf"), Combine(dir, "invoice1.docx"),
               Combine(dir, "other.txt"), f => StemMatches(f, "Invoice1"));
  }

  lemma InvoiceStems(dir: string)
    ensures StemMatches(Combine(dir, "Invoice1.pdf"), "Invoice1")
    ensures StemMatches(Combine(dir, "invoice1.docx"), "Invoice1")
    ensures !StemMatches(Combine(dir, "other.txt"), "Invoice1")
  {
    SameSpellingMatches(dir);
    OtherCaseMatches(dir);
    OtherStemMisses(dir);
  }

  lemma SameSpellingMatches(dir: string)
    ensures StemMatches(Combine(dir, "Invoice1.pdf"), "Invoice1")
  {
    assert "Invoice1" + "." + "pdf" == "Invoice1.pdf";
    StemOfCombined(dir, "Invoice1", "pdf");
  }

  lemma OtherCaseMatches(dir: string)
    ensures StemMatches(Combine(dir, "invoice1.docx"), "Invoice1")
  {
    assert "invoice1" + "." + "docx" == "invoice1.docx";
    StemOfCombined(dir, "invoice1", "docx");
    assert Lower("invoice1") == Lower("Invoice1");
  }

  lemma OtherStemMisses(dir: string)
    ensures !StemMatches(Combine(dir, "other.txt"), "Invoice1")
  {
    assert "other" + "." + "txt" == "other.txt";
    StemOfCombined(dir, "other", "txt");
    assert |Lower("other")| != |Lower("Invoice1")|;
  }

  lemma WhereThree(a: string, b: string, c: string, keep: string -> bool)
    requires keep(a) && keep(b) && !keep(c)
    ensures Where([a, b, c], keep) == [a, b]
  {
    assert [a, b, c][1..] == [b, c];
    assert [b, c][1..] == [c];
    assert [c][1..] == [];
    assert Where([c], keep) == [];
    assert Where([b, c], keep) == [b];
  }

  lemma OrderOfTwo()
    ensures OrderBy(["b", "A"]) == ["A", "b"]
  {
    assert ["b", "A"][1..] == ["A"];
    assert OrderBy(["A"]) == ["A"];
    assert !Leq("b", "A");
  }

  /**
   * Recording the cell texts `b`, `A` and `a` in that order: `a` is refused as the key of `A`,
   * and the record is rendered as `A` then `b`.
   */
  method RecordScenario() returns (third: bool, lines: seq<string>)
    ensures !third
    ensures lines == ["A", "b"]
  {
    var record := new UnmatchedRegistry();
    assert Lower("b") == "b" && Lower("A") == "a" && Lower("a") == "a";
    var first := record.AddUnmatchedFile("b");
    assert record.entries == ["b"] && record.Keys == {"b"};
    var second := record.AddUnmatchedFile("A");
    assert record.entries == ["b", "A"] && record.Keys == {"b", "a"};
    third := record.AddUnmatchedFile("a");
    assert record.entries == ["b", "A"];
    lines := record.Export();
    OrderOfTwo();
  }

  /** "Foo" and "foo" are one key of the record. */
  lemma RecordFoldsCaseScenario()
    ensures FoldKeys(["Foo"]) == FoldKeys(["foo"]) == {"foo"}
  {
    assert Lower("Foo") == "foo";
    assert Lower("foo") == "foo";
  }
}
