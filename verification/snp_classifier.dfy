/**
  Classification of one read against one SNP record. The variant library's
  services are abstracted: whether the two samples carry the same genotype is
  a value of the record, genotype calls are their text ("A/A"), the mapping of
  an allele character to a base is a supplied function `baseOf`, and the
  read's base at a reference position is a supplied function `readBaseAt`.
 */
module SnpClassifier {
  import opened ClassificationAlgebra

  /** One variant record as the classifier sees it: its start position, the
      library's verdict on whether the two samples' genotypes are the same,
      and the two samples' genotype strings. */
  datatype Variant = Variant(start: int, sameGenotype: bool, gt1: string, gt2: string)

  /** A call the classifier can use: exactly three characters whose first and
      third (the two alleles) are equal. The middle character, meant to be the
      separator, is not checked, so "AAA" qualifies as well as "A/A". */
  predicate IsHomozygousCall(gt: string) {
    |gt| == 3 && gt[0] == gt[2]
  }

  /** The record can tell the two genotypes apart. */
  predicate Informative(v: Variant) {
    !v.sameGenotype && IsHomozygousCall(v.gt1) && IsHomozygousCall(v.gt2)
  }

  /** The single allele of a homozygous call. */
  function Allele(gt: string): char
    requires IsHomozygousCall(gt)
  {
    gt[0]
  }

  /** The verdict for the read at SNP `v`. */
  function ClassifySnp<B(==)>(v: Variant, baseOf: char -> B, readBaseAt: int -> B): (r: Classification)
    // identical genotypes carry no information, whatever the read says
    ensures v.sameGenotype ==> r == Ambg
    // malformed, multi-character or heterozygous calls are not interpreted
    ensures !IsHomozygousCall(v.gt1) || !IsHomozygousCall(v.gt2) ==> r == Ambg
    ensures r == Ambg <==> !Informative(v)
    // an informative record: match the read's base, genotype 1 first
    ensures Informative(v) ==>
      var b := readBaseAt(v.start);
      && (r == Var1 <==> b == baseOf(Allele(v.gt1)))
      && (r == Var2 <==> b != baseOf(Allele(v.gt1)) && b == baseOf(Allele(v.gt2)))
      && (r == Conf <==> b != baseOf(Allele(v.gt1)) && b != baseOf(Allele(v.gt2)))
  {
    if v.sameGenotype then Ambg
    else if |v.gt1| != 3 || |v.gt2| != 3 then Ambg
    else if v.gt1[0] != v.gt1[2] then Ambg
    else if v.gt2[0] != v.gt2[2] then Ambg
    else
      var base1 := baseOf(v.gt1[0]);
      var base2 := baseOf(v.gt2[0]);
      var b := readBaseAt(v.start);
      if b == base1 then Var1
      else if b == base2 then Var2
      else Conf
  }

  /** The two parental bases of an informative record differ. The source
      asserts this with a Java `assert`, which the JVM skips unless enabled,
      so it is an assumption about the variant library, not a checked fact. */
  ghost predicate DistinctAlleles<B>(v: Variant, baseOf: char -> B) {
    Informative(v) ==> baseOf(Allele(v.gt1)) != baseOf(Allele(v.gt2))
  }

  /** The record with the two samples exchanged. Sameness of genotypes is
      symmetric, so the flag is kept. */
  function Swap(v: Variant): (w: Variant)
    // exchanging the samples neither creates nor removes information
    ensures Informative(w) == Informative(v)
  {
    Variant(v.start, v.sameGenotype, v.gt2, v.gt1)
  }

  /** Exchanging the samples twice gives back the record. */
  lemma SwapTwice(v: Variant)
    ensures Swap(Swap(v)) == v
  {
  }

  /** With distinct parental bases the classifier treats the two samples
      symmetrically: exchanging them exchanges Var1 and Var2. */
  lemma SwapSamples<B>(v: Variant, baseOf: char -> B, readBaseAt: int -> B)
    requires DistinctAlleles(v, baseOf)
    ensures ClassifySnp(Swap(v), baseOf, readBaseAt) == Flip(ClassifySnp(v, baseOf, readBaseAt))
  {
  }

  /** If the two homozygous alleles map to the same base (the case the source's
      disabled assertion would reject), the genotype-1 test wins and the
      verdict is never Var2. */
  lemma SameBaseFavoursGenotype1<B>(v: Variant, baseOf: char -> B, readBaseAt: int -> B)
    requires Informative(v)
    requires baseOf(Allele(v.gt1)) == baseOf(Allele(v.gt2))
    ensures ClassifySnp(v, baseOf, readBaseAt) != Var2
    ensures ClassifySnp(v, baseOf, readBaseAt) == Var1 <==> readBaseAt(v.start) == baseOf(Allele(v.gt1))
  {
  }

  /** Scenarios on the record gt1 = "A/A", gt2 = "G/G" at position 100. */
  lemma HomozygousScenarios()
    ensures ClassifySnp(Variant(100, false, "A/A", "G/G"), c => c, p => 'A') == Var1
    ensures ClassifySnp(Variant(100, false, "A/A", "G/G"), c => c, p => 'G') == Var2
    ensures ClassifySnp(Variant(100, false, "A/A", "G/G"), c => c, p => 'C') == Conf
    ensures ClassifySnp(Variant(100, false, "A/G", "G/G"), c => c, p => 'A') == Ambg
    ensures ClassifySnp(Variant(100, false, "A/A", "GT/GT"), c => c, p => 'A') == Ambg
  {
  }
}
