/** Concrete runs of the model on the inputs the app's behaviour is usually
    described with. */
module Scenarios {
  import opened Options
  import opened Json
  import opened Py
  import opened Classify
  import opened Normalizer
  import opened Client
  import opened Batch

  /** A score of 0.55 is shown as "55%". */
  lemma ScoreOfFiftyFive()
    ensures Percent(Float(0.55)) == Returned("55%")
  {
    assert Truncate(0.55 * 100.0) == 55;
    assert TimesHundred(Float(0.55)) == Returned(55);
    assert Text.NatText(5) == "5";
    assert Text.NatText(55) == Text.NatText(5) + [Text.DigitChar(5)];
    assert Text.IntText(55) == "55";
    assert Text.IntText(55) + "%" == "55%";
    assert Percent(Float(0.55)) == Returned(Text.IntText(55) + "%");
  }

  /** Python's True == 1, so a binary audit scored `true` counts as passed, while a
      manual audit scored 1 is still a manual check. */
  lemma ClassifierEdgeCases()
    ensures CategoryOf(Bool(true), Str("binary")) == Passed
    ensures CategoryOf(Float(0.0), Str("binary")) == Failed
    ensures CategoryOf(Int(1), Str("manual")) == ManualCheck
    ensures CategoryOf(Null, Str("notApplicable")) == NotApplicable
    ensures CategoryOf(Float(0.5), Str("binary")) == Other
  {
  }

  /** ["example.com", NaN, "  "] keeps only the first row. */
  lemma CleaningExample()
    ensures CleanRows([Text("example.com"), Missing, Text("  ")]) == [Text("example.com")]
  {
    var cells := [Text("example.com"), Missing, Text("  ")];
    assert Usable(cells[0]) by {
      ExampleHostStripped();
    }
    assert Seqs.Filter(cells[1..], Usable) == [] by {
      var tail := cells[1..];
      assert tail == [Missing, Text("  ")];
      Seqs.FilterStep(tail, Usable);
      BlankCellUnusable();
      Seqs.FilterStep(tail[1..], Usable);
      assert tail[1..][1..] == [];
    }
    Seqs.FilterStep(cells, Usable);
  }

  lemma BlankCellUnusable()
    ensures !Usable(Text("  "))
  {
    assert Text.AllSpace("  ");
  }

  lemma ExampleHostStripped()
    ensures Text.Strip("example.com") == "example.com"
  {
    var u := "example.com";
    assert !Text.IsSpace(u[0]) && !Text.IsSpace(u[|u| - 1]);
    Text.StripFixed(u);
  }

  /** A stripped host without a scheme is cleaned by prefixing "https://". */
  lemma CleanedBareHost(u: string)
    requires |u| > 0 && Text.Strip(u) == u && !HasScheme(u)
    ensures CleanUrl(Text(u)) == Some("https://" + u)
  {
    assert Text.Strip(u) != "";
    assert WithScheme(u) == "https://" + u;
  }

  /** A URL that already names its scheme is kept as it is. */
  lemma SchemeKept()
    ensures CleanUrl(Text("http://x.org")) == Some("http://x.org")
  {
    var u := "http://x.org";
    assert !Text.IsSpace(u[0]) && !Text.IsSpace(u[|u| - 1]);
    assert Text.TrimStart(u) == u;
    assert Text.TrimEnd(u) == u;
    assert Text.Strip(u) == u;
    assert Text.StartsWith(u, "http://") by { assert u[..7] == "http://"; }
  }

  /** Blank input is not a URL. */
  lemma BlankRejected()
    ensures CleanUrl(Text(" \t ")) == None
  {
    assert Text.AllSpace(" \t ");
  }
}
