/**
  Classification of a whole read: the verdicts of all the SNPs the read
  overlaps, in the order the variant source yields them, combined left to
  right from Ambg. The overlap query itself is abstracted: its result is the
  sequence `snps`.
 */
module ReadClassifier {
  import opened ClassificationAlgebra
  import opened SnpClassifier

  /** The per-SNP verdicts of the read, in query order. */
  function Verdicts<B(==)>(snps: seq<Variant>, baseOf: char -> B, readBaseAt: int -> B): seq<Classification>
  {
    seq(|snps|, i requires 0 <= i < |snps| => ClassifySnp(snps[i], baseOf, readBaseAt))
  }

  /** The read's verdict: the full left fold of its SNP verdicts. */
  function ClassifyRead<B(==)>(snps: seq<Variant>, baseOf: char -> B, readBaseAt: int -> B): (r: Classification)
    ensures |snps| == 0 ==> r == Ambg
    ensures r == Conf <==>
      || (exists i :: 0 <= i < |snps| && ClassifySnp(snps[i], baseOf, readBaseAt) == Conf)
      || ((exists i :: 0 <= i < |snps| && ClassifySnp(snps[i], baseOf, readBaseAt) == Var1)
          && (exists j :: 0 <= j < |snps| && ClassifySnp(snps[j], baseOf, readBaseAt) == Var2))
    ensures r == Var1 <==>
      && (exists i :: 0 <= i < |snps| && ClassifySnp(snps[i], baseOf, readBaseAt) == Var1)
      && (forall j :: 0 <= j < |snps| ==> ClassifySnp(snps[j], baseOf, readBaseAt) in {Var1, Ambg})
    ensures r == Var2 <==>
      && (exists i :: 0 <= i < |snps| && ClassifySnp(snps[i], baseOf, readBaseAt) == Var2)
      && (forall j :: 0 <= j < |snps| ==> ClassifySnp(snps[j], baseOf, readBaseAt) in {Var2, Ambg})
    ensures r == Ambg <==> forall j :: 0 <= j < |snps| ==> !Informative(snps[j])
  {
    var vs := Verdicts(snps, baseOf, readBaseAt);
    CombineCases(vs);
    InVerdicts(snps, baseOf, readBaseAt);
    Combine(vs)
  }

  /** Membership in the verdict sequence is membership of some SNP's verdict. */
  lemma InVerdicts<B>(snps: seq<Variant>, baseOf: char -> B, readBaseAt: int -> B)
    ensures forall c :: c in Verdicts(snps, baseOf, readBaseAt) <==>
      exists i :: 0 <= i < |snps| && ClassifySnp(snps[i], baseOf, readBaseAt) == c
  {
    var vs := Verdicts(snps, baseOf, readBaseAt);
    forall c | c in vs
      ensures exists i :: 0 <= i < |snps| && ClassifySnp(snps[i], baseOf, readBaseAt) == c
    {
      var i :| 0 <= i < |vs| && vs[i] == c;
      assert ClassifySnp(snps[i], baseOf, readBaseAt) == c;
    }
    forall i | 0 <= i < |snps|
      ensures ClassifySnp(snps[i], baseOf, readBaseAt) in vs
    {
      assert vs[i] == ClassifySnp(snps[i], baseOf, readBaseAt);
    }
  }

  /**
    The source's loop: start from Ambg, combine each SNP's verdict in turn, and
    return as soon as the running verdict is Conf. `consumed` is the number of
    SNP records read from the query before returning.
   */
  method ClassifyReadEarlyExit<B(==)>(snps: seq<Variant>, baseOf: char -> B, readBaseAt: int -> B)
    returns (r: Classification, consumed: nat)
    // the early exit never changes the verdict of the full fold
    ensures r == ClassifyRead(snps, baseOf, readBaseAt)
    ensures consumed <= |snps|
    ensures r == Combine(Verdicts(snps, baseOf, readBaseAt)[..consumed])
    // the loop stops only on Conf, and at the first record that produces it
    ensures consumed < |snps| ==> r == Conf
    ensures forall k :: 0 <= k < consumed ==> Combine(Verdicts(snps, baseOf, readBaseAt)[..k]) != Conf
  {
    ghost var vs := Verdicts(snps, baseOf, readBaseAt);
    r := Ambg;
    var i := 0;
    while i < |snps|
      invariant 0 <= i <= |snps|
      invariant r == Combine(vs[..i])
      invariant forall k :: 0 <= k <= i ==> Combine(vs[..k]) != Conf
    {
      r := And(r, ClassifySnp(snps[i], baseOf, readBaseAt));
      assert vs[..i + 1][..i] == vs[..i];
      i := i + 1;
      if r == Conf {
        ConfPrefixAbsorbs(vs, i);
        consumed := i;
        return;
      }
    }
    assert vs[..i] == vs;
    consumed := i;
  }

  /** Every record of the query result with its two samples exchanged; a
      helper for stating `SwapSamplesRead`. */
  function SwapAll(snps: seq<Variant>): (ws: seq<Variant>)
    ensures |ws| == |snps|
    ensures forall j :: 0 <= j < |snps| ==> ws[j] == Swap(snps[j])
  {
    seq(|snps|, j requires 0 <= j < |snps| => Swap(snps[j]))
  }

  /** Exchanging the two samples in every record exchanges Var1 and Var2 in
      the read's verdict, provided every informative record has distinct
      parental bases. */
  lemma SwapSamplesRead<B>(snps: seq<Variant>, baseOf: char -> B, readBaseAt: int -> B)
    requires forall j :: 0 <= j < |snps| ==> DistinctAlleles(snps[j], baseOf)
    ensures ClassifyRead(SwapAll(snps), baseOf, readBaseAt) == Flip(ClassifyRead(snps, baseOf, readBaseAt))
  {
  }

  /** A read whose first two records give Var1 and then Var2 is Conf, and the
      early-exit loop stops after those two records. */
  lemma ConflictAfterTwoRecords(vs: seq<Classification>)
    requires |vs| >= 2 && vs[0] == Var1 && vs[1] == Var2
    ensures Combine(vs) == Conf
    ensures Combine(vs[..1]) == Var1 && Combine(vs[..2]) == Conf
  {
  }

  /** A read over three records whose first two give Var1 and then Var2 (the
      read shows gt1's base at 100 and gt2's base at 200): the early-exit loop
      returns Conf after reading two records and never reads the third. */
  method ConflictStopsAfterTwoRecords() returns (r: Classification, consumed: nat)
    ensures r == Conf && consumed == 2
  {
    var snps := [Variant(100, false, "A/A", "G/G"),
                 Variant(200, false, "A/A", "G/G"),
                 Variant(300, false, "C/C", "T/T")];
    var readBaseAt := (p: int) => if p == 100 then 'A' else 'G';
    var baseOf := (c: char) => c;
    r, consumed := ClassifyReadEarlyExit(snps, baseOf, readBaseAt);
    var vs := Verdicts(snps, baseOf, readBaseAt);
    assert vs[0] == Var1 && vs[1] == Var2;
    ConflictAfterTwoRecords(vs);
  }
}
