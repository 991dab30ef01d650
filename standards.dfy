/**
  The table of permissible concentrations (WHO drinking-water guideline
  values, mg/L) and the lookup every index formula uses, with its fallback
  standard of 1 for a metal the table does not list. The table is an object
  literal; it is kept as its entries in written order.
 */
module Standards {
  import opened Rows

  type Table = seq<(string, real)>

  /** Guideline value per metal symbol; symbols are case-sensitive. */
  const WhoStandards: Table := [
    ("As", 0.01),
    ("Cd", 0.003),
    ("Cr", 0.05),
    ("Cu", 2.0),
    ("Fe", 0.3),
    ("Pb", 0.01),
    ("Mn", 0.4),
    ("Ni", 0.07),
    ("Zn", 3.0),
    ("Hg", 0.006)
  ]

  /** Every value the table lists is positive. */
  predicate AllPositive(t: Table) {
    t == [] || (t[0].1 > 0.0 && AllPositive(t[1..]))
  }

  /** `table[symbol]`: the value listed under the symbol, or None. */
  function Lookup(t: Table, symbol: string): Option<real> {
    if t == [] then None
    else if t[0].0 == symbol then Some(t[0].1)
    else Lookup(t[1..], symbol)
  }

  /** A table of positive values yields only positive values. */
  lemma {:induction false} LookupPositive(t: Table, symbol: string)
    requires AllPositive(t)
    ensures Lookup(t, symbol).Some? ==> Lookup(t, symbol).value > 0.0
  {
    if t != [] && t[0].0 != symbol {
      LookupPositive(t[1..], symbol);
    }
  }

  /** The first entry with the symbol is the one read. */
  lemma {:induction false} LookupFirst(t: Table, symbol: string, i: nat)
    requires i < |t| && t[i].0 == symbol
    requires forall j | 0 <= j < i :: t[j].0 != symbol
    ensures Lookup(t, symbol) == Some(t[i].1)
  {
    if i > 0 {
      LookupFirst(t[1..], symbol, i - 1);
    }
  }

  /** A symbol the table does not list reads as None. */
  lemma {:induction false} LookupMissing(t: Table, symbol: string)
    requires forall j | 0 <= j < |t| :: t[j].0 != symbol
    ensures Lookup(t, symbol) == None
  {
    if t != [] {
      LookupMissing(t[1..], symbol);
    }
  }

  /** `WHO_STANDARDS[metal] || 1`: the listed value, or 1 for any other key
      (a listed 0 would fall back to 1 as well). Every standard is strictly
      positive, so no index divides by zero. */
  function Standard(metal: string): (s: real)
    ensures s > 0.0
  {
    LookupPositive(WhoStandards, metal);
    match Lookup(WhoStandards, metal)
    case Some(v) => if v != 0.0 then v else 1.0
    case None => 1.0
  }

  /** The symbols of the table are distinct, so each has one value. */
  lemma DistinctSymbols()
    ensures forall i, j | 0 <= i < j < |WhoStandards| :: WhoStandards[i].0 != WhoStandards[j].0
  {
    forall i, j | 0 <= i < j < |WhoStandards|
      ensures WhoStandards[i].0 != WhoStandards[j].0
    {
      assert WhoStandards[i].0[0] != WhoStandards[j].0[0] || WhoStandards[i].0[1] != WhoStandards[j].0[1];
    }
  }

  /** A listed symbol's standard is the value listed with it. */
  lemma StandardListed(metal: string, i: nat)
    requires i < |WhoStandards| && WhoStandards[i].0 == metal
    ensures Standard(metal) == WhoStandards[i].1
  {
    DistinctSymbols();
    LookupFirst(WhoStandards, metal, i);
  }

  /** A symbol the table does not list has standard 1. */
  lemma StandardUnlisted(metal: string)
    requires forall i | 0 <= i < |WhoStandards| :: WhoStandards[i].0 != metal
    ensures Standard(metal) == 1.0
  {
    LookupMissing(WhoStandards, metal);
  }

  /** The ten guideline values. */
  lemma StandardTable()
    ensures |WhoStandards| == 10
    ensures Standard("As") == 0.01 && Standard("Cd") == 0.003 && Standard("Cr") == 0.05
    ensures Standard("Cu") == 2.0 && Standard("Fe") == 0.3 && Standard("Pb") == 0.01
    ensures Standard("Mn") == 0.4 && Standard("Ni") == 0.07 && Standard("Zn") == 3.0
    ensures Standard("Hg") == 0.006
  {
    StandardListed("As", 0);
    StandardListed("Cd", 1);
    StandardListed("Cr", 2);
    StandardListed("Cu", 3);
    StandardListed("Fe", 4);
    StandardListed("Pb", 5);
    StandardListed("Mn", 6);
    StandardListed("Ni", 7);
    StandardListed("Zn", 8);
    StandardListed("Hg", 9);
  }

  /** Symbols are case-sensitive: one spelt in another case, like any
      symbol the table does not list, falls back to 1. */
  lemma StandardCaseSensitive()
    ensures Standard("as") == 1.0 && Standard("PB") == 1.0 && Standard("Unknown") == 1.0
  {
    forall i | 0 <= i < |WhoStandards|
      ensures WhoStandards[i].0 != "as" && WhoStandards[i].0 != "PB" && WhoStandards[i].0 != "Unknown"
    {
      assert |WhoStandards[i].0| == 2 && 'A' <= WhoStandards[i].0[0] <= 'Z' && 'a' <= WhoStandards[i].0[1] <= 'z';
    }
    StandardUnlisted("as");
    StandardUnlisted("PB");
    StandardUnlisted("Unknown");
  }
}
