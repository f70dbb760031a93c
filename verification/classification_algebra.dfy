/**
  The verdict algebra of the allele caller: the four ways a read (or one SNP
  of a read) can be classified against two genotypes, the binary combination
  `And`, and the left fold `Combine` that reduces the verdicts of all the SNPs
  a read overlaps to one verdict for the read.
 */
module ClassificationAlgebra {

  /** Var1: belongs to genotype 1; Var2: belongs to genotype 2;
      Ambg: no difference between the genotypes; Conf: conflicting, either
      SNPs that point to both genotypes or a read base matching neither. */
  datatype Classification = Var1 | Var2 | Ambg | Conf

  /** Combines the verdict `a` with a further verdict `b`, case by case as the
      enum constants of the source define it. */
  function And(a: Classification, b: Classification): (r: Classification)
    ensures a == Ambg ==> r == b
    ensures b == Ambg ==> r == a
    ensures a == Conf || b == Conf ==> r == Conf
  {
    match a
    case Var1 =>
      (match b
       case Var1 => a
       case Ambg => a
       case Var2 => Conf
       case Conf => Conf)
    case Var2 =>
      (match b
       case Var2 => a
       case Ambg => a
       case Var1 => Conf
       case Conf => Conf)
    case Ambg => b
    case Conf => a
  }

  // ---------------------------------------------------------------------------
  // Reference definition: each verdict encoded as a set of genotypes, Ambg as
  // the empty set and Conf as the top {1, 2}. This is an algebraic encoding,
  // not evidence in the biological sense: a Conf from a base that matches
  // neither allele points to neither genotype, yet is encoded as the top.
  // ---------------------------------------------------------------------------

  /** Genotype 1 is in the verdict's encoding (Var1 or Conf). */
  predicate ForGenotype1(c: Classification) {
    c == Var1 || c == Conf
  }

  /** Genotype 2 is in the verdict's encoding (Var2 or Conf). */
  predicate ForGenotype2(c: Classification) {
    c == Var2 || c == Conf
  }

  /** The verdict whose encoding is exactly the given set. */
  function FromEvidence(one: bool, two: bool): (c: Classification)
    ensures ForGenotype1(c) == one && ForGenotype2(c) == two
  {
    if one && two then Conf
    else if one then Var1
    else if two then Var2
    else Ambg
  }

  /** A verdict is determined by its encoding. */
  lemma EvidenceDetermines(a: Classification)
    ensures a == FromEvidence(ForGenotype1(a), ForGenotype2(a))
  {
  }

  /** `And` is the union of the encodings of its operands. */
  lemma AndIsEvidenceUnion(a: Classification, b: Classification)
    ensures And(a, b) == FromEvidence(ForGenotype1(a) || ForGenotype1(b),
                                      ForGenotype2(a) || ForGenotype2(b))
  {
  }

  // ---------------------------------------------------------------------------
  // The laws of the algebra.
  // ---------------------------------------------------------------------------

  /** Ambg is a two-sided identity. */
  lemma AmbgIsIdentity(x: Classification)
    ensures And(Ambg, x) == x && And(x, Ambg) == x
  {
  }

  /** Conf is absorbing on both sides. */
  lemma ConfIsAbsorbing(x: Classification)
    ensures And(Conf, x) == Conf && And(x, Conf) == Conf
  {
  }

  /** Evidence for genotype 1 combined with evidence for genotype 2 conflicts. */
  lemma Var1AndVar2Conflict()
    ensures And(Var1, Var2) == Conf && And(Var2, Var1) == Conf
  {
  }

  lemma AndCommutative(a: Classification, b: Classification)
    ensures And(a, b) == And(b, a)
  {
  }

  lemma AndAssociative(a: Classification, b: Classification, c: Classification)
    ensures And(And(a, b), c) == And(a, And(b, c))
  {
  }

  lemma AndIdempotent(a: Classification)
    ensures And(a, a) == a
  {
  }

  // ---------------------------------------------------------------------------
  // The fold over a read's SNP verdicts.
  // ---------------------------------------------------------------------------

  /** The left fold of `And` over `cs`, starting from Ambg. A genotype is in
      the result's encoding exactly when it is in some verdict's of `cs`. */
  function Combine(cs: seq<Classification>): (r: Classification)
    ensures ForGenotype1(r) <==> exists i :: 0 <= i < |cs| && ForGenotype1(cs[i])
    ensures ForGenotype2(r) <==> exists i :: 0 <= i < |cs| && ForGenotype2(cs[i])
  {
    if |cs| == 0 then Ambg
    else
      var init := cs[..|cs| - 1];
      assert forall i :: 0 <= i < |init| ==> init[i] == cs[i];
      AndIsEvidenceUnion(Combine(init), cs[|cs| - 1]);
      And(Combine(init), cs[|cs| - 1])
  }

  /** The fold of no verdicts is Ambg. */
  lemma CombineEmpty()
    ensures Combine([]) == Ambg
  {
  }

  /** The read conflicts exactly when some verdict conflicts or both genotypes
      are supported; it is Var1 (Var2) exactly when Var1 (Var2) occurs and
      nothing for the other genotype does; otherwise it is Ambg. These follow
      from the encoding contract of `Combine`. */
  lemma CombineCases(cs: seq<Classification>)
    ensures Combine(cs) == Conf <==> Conf in cs || (Var1 in cs && Var2 in cs)
    ensures Combine(cs) == Var1 <==> Var1 in cs && Var2 !in cs && Conf !in cs
    ensures Combine(cs) == Var2 <==> Var2 in cs && Var1 !in cs && Conf !in cs
    ensures Combine(cs) == Ambg <==> forall i :: 0 <= i < |cs| ==> cs[i] == Ambg
  {
  }

  /** Folding a concatenation combines the folds of the parts. */
  lemma {:induction false} CombineAppend(xs: seq<Classification>, ys: seq<Classification>)
    ensures Combine(xs + ys) == And(Combine(xs), Combine(ys))
  {
    if |ys| == 0 {
      assert xs + ys == xs;
    } else {
      var init := ys[..|ys| - 1];
      var last := ys[|ys| - 1];
      assert (xs + ys)[..|xs + ys| - 1] == xs + init;
      CombineAppend(xs, init);
      AndAssociative(Combine(xs), Combine(init), last);
    }
  }

  /** Once a prefix has folded to Conf, the whole sequence folds to Conf: this
      is what licenses stopping the fold early. It follows from the contract
      of `Combine`: a Conf prefix already holds both genotypes. */
  lemma ConfPrefixAbsorbs(cs: seq<Classification>, k: nat)
    requires k <= |cs|
    requires Combine(cs[..k]) == Conf
    ensures Combine(cs) == Conf
  {
  }

  /** The fold does not depend on the order of the verdicts. */
  lemma CombineOrderInsensitive(xs: seq<Classification>, ys: seq<Classification>)
    requires multiset(xs) == multiset(ys)
    ensures Combine(xs) == Combine(ys)
  {
    CombineCases(xs);
    CombineCases(ys);
    forall c | true
      ensures c in xs <==> c in ys
    {
      assert c in xs <==> c in multiset(xs);
      assert c in ys <==> c in multiset(ys);
    }
    EvidenceDetermines(Combine(xs));
    EvidenceDetermines(Combine(ys));
  }

  // ---------------------------------------------------------------------------
  // Exchanging the roles of the two genotypes.
  // ---------------------------------------------------------------------------

  /** Exchanges the roles of the two genotypes in a verdict. */
  function Flip(c: Classification): (r: Classification)
    ensures ForGenotype1(r) == ForGenotype2(c) && ForGenotype2(r) == ForGenotype1(c)
  {
    match c
    case Var1 => Var2
    case Var2 => Var1
    case Ambg => Ambg
    case Conf => Conf
  }

  /** Folding the flipped verdicts gives the flipped fold. */
  lemma CombineFlip(vs: seq<Classification>, ws: seq<Classification>)
    requires |vs| == |ws|
    requires forall j :: 0 <= j < |vs| ==> ws[j] == Flip(vs[j])
    ensures Combine(ws) == Flip(Combine(vs))
  {
  }
}
