/** The knowledge base `FUNCTION_KB` (app.py:13-366): a fixed table from an
    upper-case function code to a descriptor of what the function is for, where
    it applies, what it outputs, what it assumes, when not to use it and which
    illustrative chart goes with it. */
module KnowledgeBase {

  /** The `chart` field: Python's `None` or one of six chart names. */
  datatype Chart =
    | NoChart
    | CreditCurve
    | PriceCompare
    | PdCurve
    | CreditMarket
    | RrgQuadrant
    | TechnicalPrice

  /** One entry of the table. The texts are prose shown verbatim. */
  datatype Descriptor = Descriptor(
    purpose: string,
    universe: string,
    output: string,
    assumptions: string,
    notApplicable: seq<string>,
    chart: Chart)

  /** Every text present, and at least one misuse case, each non-empty. */
  predicate WellFormed(d: Descriptor) {
    && d.purpose != []
    && d.universe != []
    && d.output != []
    && d.assumptions != []
    && d.notApplicable != []
    && forall j :: 0 <= j < |d.notApplicable| ==> d.notApplicable[j] != []
  }

  /** A key of the table: one or more capital ASCII letters. */
  predicate IsCode(k: string) {
    k != [] && forall i :: 0 <= i < |k| ==> 'A' <= k[i] <= 'Z'
  }

  /** The dictionary a Python dict literal denotes: entries are inserted in
      order, so a key written twice keeps the value written last. */
  function Build(entries: seq<(string, Descriptor)>): map<string, Descriptor> {
    if entries == [] then
      map[]
    else
      var last := entries[|entries| - 1];
      Build(entries[..|entries| - 1])[last.0 := last.1]
  }

  /** The keys are exactly the keys written, and every value is one written
      with its key. */
  lemma {:induction false} BuildSpec(entries: seq<(string, Descriptor)>)
    ensures forall k :: k in Build(entries) <==> exists i :: 0 <= i < |entries| && entries[i].0 == k
    ensures forall k :: k in Build(entries) ==> (k, Build(entries)[k]) in entries
  {
    if entries != [] {
      var init := entries[..|entries| - 1];
      BuildSpec(init);
      assert forall i :: 0 <= i < |init| ==> init[i] == entries[i];
      assert entries == init + [entries[|entries| - 1]];
    }
  }

  /** The last entry written for a key is the one the dictionary holds. */
  lemma {:induction false} BuildLastWins(entries: seq<(string, Descriptor)>, i: int)
    requires 0 <= i < |entries|
    requires forall j :: i < j < |entries| ==> entries[j].0 != entries[i].0
    ensures entries[i].0 in Build(entries)
    ensures Build(entries)[entries[i].0] == entries[i].1
  {
    if i < |entries| - 1 {
      var init := entries[..|entries| - 1];
      assert init[i] == entries[i];
      BuildLastWins(init, i);
    }
  }

  /** Stand-in texts: the prose of each entry is not modelled, only its shape
      (how many misuse cases) and its chart. `name` tells entries apart. */
  function Placeholder(name: string, misuses: nat, chart: Chart): (d: Descriptor)
    requires misuses > 0
    ensures WellFormed(d) && |d.notApplicable| == misuses && d.chart == chart
  {
    Descriptor(
      name + ": purpose",
      name + ": universe",
      name + ": output",
      name + ": assumptions",
      seq(misuses, j requires 0 <= j < misuses => name + ": misuse"),
      chart)
  }

  /** The literal, entry by entry and in source order; RRG is written twice. */
  const Entries: seq<(string, Descriptor)> := [
    ("XLTP", Placeholder("XLTP", 3, NoChart)),
    ("NIA",  Placeholder("NIA", 3, CreditCurve)),
    ("BVAL", Placeholder("BVAL", 3, PriceCompare)),
    ("BGN",  Placeholder("BGN", 2, PriceCompare)),
    ("MIPD", Placeholder("MIPD", 3, PdCurve)),
    ("BOB",  Placeholder("BOB", 3, NoChart)),
    ("BT",   Placeholder("BT", 3, PriceCompare)),
    ("BI",   Placeholder("BI", 3, NoChart)),
    ("ECFC", Placeholder("ECFC", 3, NoChart)),
    ("RELS", Placeholder("RELS", 3, NoChart)),
    ("HDS",  Placeholder("HDS", 3, NoChart)),
    ("CACS", Placeholder("CACS", 3, NoChart)),
    ("PORT", Placeholder("PORT", 3, NoChart)),
    ("MODL", Placeholder("MODL", 3, NoChart)),
    ("FA",   Placeholder("FA", 3, NoChart)),
    ("RRG",  Placeholder("RRG (first)", 3, NoChart)),
    ("GF",   Placeholder("GF", 3, NoChart)),
    ("FIT",  Placeholder("FIT", 3, CreditCurve)),
    ("SOVR", Placeholder("SOVR", 3, NoChart)),
    ("BTMM", Placeholder("BTMM", 3, NoChart)),
    ("RATC", Placeholder("RATC", 3, NoChart)),
    ("CRPR", Placeholder("CRPR", 3, CreditMarket)),
    ("RRG",  Placeholder("RRG (second)", 3, RrgQuadrant)),
    ("CHRT", Placeholder("CHRT", 3, TechnicalPrice)),
    ("TOP",  Placeholder("TOP", 3, NoChart)),
    ("W",    Placeholder("W", 3, NoChart)),
    ("EQS",  Placeholder("EQS", 3, NoChart))
  ]

  /** `FUNCTION_KB`. */
  function Kb(): map<string, Descriptor> {
    Build(Entries)
  }

  /** Every key is an upper-case code, and every descriptor has all its texts
      and a non-empty list of misuse cases. */
  lemma KbWellFormed()
    ensures forall k :: k in Kb() ==> IsCode(k) && WellFormed(Kb()[k])
  {
    EntriesWellFormed();
    BuildSpec(Entries);
    forall k | k in Kb() ensures IsCode(k) && WellFormed(Kb()[k]) {
      var i :| 0 <= i < |Entries| && Entries[i] == (k, Kb()[k]);
    }
  }

  lemma EntriesWellFormed()
    ensures forall i :: 0 <= i < |Entries| ==> IsCode(Entries[i].0) && WellFormed(Entries[i].1)
  {
  }

  /** NIA is documented with the credit-curve chart. */
  lemma KbNia()
    ensures "NIA" in Kb() && Kb()["NIA"] == Entries[1].1 && Kb()["NIA"].chart == CreditCurve
  {
    NiaWrittenOnce();
    BuildLastWins(Entries, 1);
  }

  lemma NiaWrittenOnce()
    ensures Entries[1].0 == "NIA" && Entries[1].1.chart == CreditCurve
    ensures forall j :: 1 < j < |Entries| ==> Entries[j].0 != Entries[1].0
  {
  }

  /** TOP is documented, with no chart. */
  lemma KbTop()
    ensures "TOP" in Kb() && Kb()["TOP"] == Entries[24].1 && Kb()["TOP"].chart == NoChart
  {
    TopWrittenOnce();
    BuildLastWins(Entries, 24);
  }

  lemma TopWrittenOnce()
    ensures Entries[24].0 == "TOP" && Entries[24].1.chart == NoChart
    ensures forall j :: 24 < j < |Entries| ==> Entries[j].0 != Entries[24].0
  {
  }

  /** Lookup is exact: the table is keyed by upper-case codes, so a lower-case
      spelling of a documented code is not found. */
  lemma KbCaseSensitive()
    ensures "nia" !in Kb()
  {
    KbWellFormed();
    assert !IsCode("nia") by {
      assert "nia"[0] == 'n';
    }
  }

  /** A code that no entry writes is not found. */
  lemma KbLacksUnwritten()
    ensures "ZZZZ" !in Kb()
  {
    NoEntryWritesZzzz();
    BuildOmits(Entries, "ZZZZ");
  }

  lemma NoEntryWritesZzzz()
    ensures forall i :: 0 <= i < |Entries| ==> Entries[i].0 != "ZZZZ"
  {
  }

  lemma BuildOmits(entries: seq<(string, Descriptor)>, k: string)
    requires forall i :: 0 <= i < |entries| ==> entries[i].0 != k
    ensures k !in Build(entries)
  {
    BuildSpec(entries);
  }

  /** RRG is written twice; only the two RRG entries share a key. */
  lemma OnlyRrgRepeated()
    ensures Entries[15].0 == "RRG" && Entries[22].0 == "RRG"
    ensures forall i, j :: 0 <= i < j < |Entries| && Entries[i].0 == Entries[j].0 ==> i == 15 && j == 22
  {
    EarlyKeysUnique();
    MiddleKeysUnique();
    LateKeysUnique();
  }

  lemma EarlyKeysUnique()
    ensures forall i, j :: 0 <= i < 9 && i < j < |Entries| ==> Entries[i].0 != Entries[j].0
  {
  }

  lemma MiddleKeysUnique()
    ensures forall i, j :: 9 <= i < 18 && i < j < |Entries| && Entries[i].0 == Entries[j].0 ==> i == 15 && j == 22
  {
  }

  lemma LateKeysUnique()
    ensures forall i, j :: 18 <= i < j < |Entries| ==> Entries[i].0 != Entries[j].0
  {
  }

  /** The second RRG entry overrides the first: the table holds the second
      descriptor, with the quadrant chart, and the first is unreachable. */
  lemma RrgSecondWins()
    ensures "RRG" in Kb() && Kb()["RRG"] == Entries[22].1
    ensures Kb()["RRG"].chart == RrgQuadrant
    ensures Kb()["RRG"] != Entries[15].1
  {
    RrgWrittenLast();
    BuildLastWins(Entries, 22);
  }

  lemma RrgWrittenLast()
    ensures Entries[22].0 == "RRG" && Entries[22].1.chart == RrgQuadrant
    ensures Entries[22].1 != Entries[15].1
    ensures forall j :: 22 < j < |Entries| ==> Entries[j].0 != Entries[22].0
  {
  }
}
