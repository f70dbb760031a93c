# Allele caller: read-to-genotype classification

A Dafny model of the classification engine of `AlleleCaller`. The program
splits the reads of a pooled sequencing experiment by parent. For each read it
looks at every SNP the read overlaps and checks the read's base there against
the two samples' genotype calls. Each SNP gives a verdict, and the verdicts
are combined into one verdict for the read:

- `Var1`: the read belongs to genotype 1;
- `Var2`: it belongs to genotype 2;
- `Ambg`: ambiguous, no SNP tells the genotypes apart;
- `Conf`: conflicting, the read has evidence for both genotypes or a base that
  matches neither.

Files and modules:

- `classification_algebra.dfy`, module `ClassificationAlgebra`: the
  `Classification` enum and its `and` (here `And`). `Combine` is the left fold
  of `And` from `Ambg`. A reference definition encodes each verdict as a set of
  genotypes (`ForGenotype1`, `ForGenotype2`), with Ambg as the empty set and
  Conf as the top, and `And` is the union of those sets. The encoding is
  algebraic: a Conf from a base that matches neither allele points to neither
  genotype biologically, yet it is the top. The identity, absorption, commutativity,
  associativity and idempotence laws are proved here. So are the facts about
  the fold: its value by cases, concatenation, Conf-absorption on a prefix,
  and order insensitivity.
- `snp_classifier.dfy`, module `SnpClassifier`: `classify(Alignment, VariantContext)`
  as `ClassifySnp`. It returns Ambg for identical genotypes and for calls that
  are not homozygous length-3 strings. Otherwise it compares the read's base
  with the genotype-1 allele first, then with the genotype-2 allele.
- `read_classifier.dfy`, module `ReadClassifier`: `classify(Alignment, VCFFileReader)`.
  `ClassifyRead` is the pure full fold. `ClassifyReadEarlyExit` is the source's
  loop that returns on the first `Conf`. It is proved equal to the full fold,
  and it reports how many SNP records it read before stopping.

Library services are abstracted as follows:

- htsjdk's `Genotype.sameGenotype` is the `sameGenotype` field of a
  `Variant`.
- `getGenotypeString` gives the `gt1` and `gt2` strings.
- `Base.of` is a supplied total function `baseOf: char -> B`. The base type
  `B` is generic and only needs equality.
- `Alignment.getReadBaseFromReferencePosition` is a supplied function
  `readBaseAt: int -> B`. It is applied to the variant's start.
- The overlap query `VCFFileReader.query(chr, start, end)` is represented by
  its result: the sequence of `Variant`s in the order the reader yields them.

The source checks that the two parental bases differ with a Java `assert`
(AlleleCaller.java line 301). The JVM skips that check unless assertions are
enabled, so the model follows the code past it. When both alleles map to the
same base, the genotype-1 test is made first and wins
(`SameBaseFavoursGenotype1`). The sample-swap symmetry `SwapSamples` takes
distinct bases as an explicit assumption (`DistinctAlleles`). It is not
derived from the other checks.

## Model

| member | source | states |
|---|---|---|
| ClassificationAlgebra.And | src/edu/caltech/lncrna/variant/programs/AlleleCaller.java:344-383 | Ambg on either side returns the other operand; Conf on either side gives Conf |
| ClassificationAlgebra.AndIsEvidenceUnion | src/edu/caltech/lncrna/variant/programs/AlleleCaller.java:344-396 | combining two verdicts is the union of their genotype-set encodings (Ambg empty, Conf the top), so Var1 with Var2 is Conf |
| ClassificationAlgebra.AmbgIsIdentity | src/edu/caltech/lncrna/variant/programs/AlleleCaller.java:345-377 | AMBG.and(x) == x, and x.and(AMBG) == x for every x |
| ClassificationAlgebra.ConfIsAbsorbing | src/edu/caltech/lncrna/variant/programs/AlleleCaller.java:345-382 | CONF.and(x) == CONF, and x.and(CONF) == CONF for every x |
| ClassificationAlgebra.Var1AndVar2Conflict | src/edu/caltech/lncrna/variant/programs/AlleleCaller.java:345-370 | VAR1.and(VAR2) == VAR2.and(VAR1) == CONF |
| ClassificationAlgebra.AndCommutative | src/edu/caltech/lncrna/variant/programs/AlleleCaller.java:344-383 | a.and(b) == b.and(a) for all four values |
| ClassificationAlgebra.AndAssociative | src/edu/caltech/lncrna/variant/programs/AlleleCaller.java:344-383 | chaining `and` does not depend on grouping, as the enum's documentation relies on |
| ClassificationAlgebra.AndIdempotent | src/edu/caltech/lncrna/variant/programs/AlleleCaller.java:344-383 | a.and(a) == a |
| ClassificationAlgebra.Combine | src/edu/caltech/lncrna/variant/programs/AlleleCaller.java:250-267 | a genotype is in the encoding of the chained `and` from AMBG exactly when it is in some SNP verdict's encoding |
| ClassificationAlgebra.CombineEmpty | src/edu/caltech/lncrna/variant/programs/AlleleCaller.java:250-250 | with no SNP verdicts the fold stays AMBG |
| ClassificationAlgebra.CombineCases | src/edu/caltech/lncrna/variant/programs/AlleleCaller.java:258-267 | the fold is CONF iff some verdict is CONF or both VAR1 and VAR2 occur; VAR1 (VAR2) iff it occurs and no other-genotype or CONF verdict does; AMBG iff all are AMBG |
| ClassificationAlgebra.CombineAppend | src/edu/caltech/lncrna/variant/programs/AlleleCaller.java:258-267 | folding a concatenation is the `and` of the folds of the parts |
| ClassificationAlgebra.ConfPrefixAbsorbs | src/edu/caltech/lncrna/variant/programs/AlleleCaller.java:262-264 | once a prefix folds to CONF the whole sequence folds to CONF, which justifies the early return |
| ClassificationAlgebra.CombineOrderInsensitive | src/edu/caltech/lncrna/variant/programs/AlleleCaller.java:256-267 | the read's verdict does not depend on the order in which the query yields the SNPs |
| ClassificationAlgebra.CombineFlip | src/edu/caltech/lncrna/variant/programs/AlleleCaller.java:344-383 | exchanging VAR1 and VAR2 in every verdict exchanges them in the fold |
| SnpClassifier.ClassifySnp | src/edu/caltech/lncrna/variant/programs/AlleleCaller.java:273-312 | same genotypes give AMBG whatever the base; a call not of length 3 or heterozygous gives AMBG; AMBG only then; otherwise VAR1 iff the read base is gt1's allele, VAR2 iff it is not but is gt2's, CONF iff it is neither |
| SnpClassifier.SwapSamples | src/edu/caltech/lncrna/variant/programs/AlleleCaller.java:297-311 | with distinct parental bases, exchanging the two samples exchanges VAR1 and VAR2 in the SNP verdict |
| SnpClassifier.SameBaseFavoursGenotype1 | src/edu/caltech/lncrna/variant/programs/AlleleCaller.java:300-311 | if the assertion base1 != base2 would fail, the VAR1 test comes first: the verdict is never VAR2 and is VAR1 iff the read base is that base |
| SnpClassifier.HomozygousScenarios | src/edu/caltech/lncrna/variant/programs/AlleleCaller.java:284-311 | gt1 "A/A", gt2 "G/G": base A gives VAR1, G gives VAR2, C gives CONF; a heterozygous or longer call gives AMBG |
| ReadClassifier.ClassifyRead | src/edu/caltech/lncrna/variant/programs/AlleleCaller.java:249-267 | no overlapping SNPs give AMBG; CONF iff some SNP gives CONF or both VAR1 and VAR2 occur; VAR1/VAR2 iff that verdict occurs and all others are it or AMBG; AMBG iff no SNP is informative |
| ReadClassifier.ClassifyReadEarlyExit | src/edu/caltech/lncrna/variant/programs/AlleleCaller.java:249-267 | the loop with early return gives the full fold's verdict; it stops before the end only on CONF, exactly at the first SNP that makes the running verdict CONF |
| ReadClassifier.SwapSamplesRead | src/edu/caltech/lncrna/variant/programs/AlleleCaller.java:258-312 | with distinct parental bases at every SNP, exchanging the two samples exchanges VAR1 and VAR2 in the read's verdict |
| ReadClassifier.ConflictAfterTwoRecords | src/edu/caltech/lncrna/variant/programs/AlleleCaller.java:258-264 | for any verdict sequence starting VAR1, VAR2: the whole fold is CONF, the one-record prefix folds to VAR1 and the two-record prefix to CONF |
| ReadClassifier.ConflictStopsAfterTwoRecords | src/edu/caltech/lncrna/variant/programs/AlleleCaller.java:256-264 | the early-exit loop, run on a three-record read whose first two SNPs give VAR1 then VAR2, returns CONF having read exactly two records |

## Left out

- `parseArgs` and `printHelp` (AlleleCaller.java:75-191) are left out. They are command-line parsing and output path construction.
- `checkVcfFile` (lines 161-178) is left out. It checks that both sample names appear in the VCF header, through file I/O, and exits the process if not.
- `run` and `logOutput` (lines 193-244) are left out. They hold the BAM read loop, the routing of each verdict to one of four writers, the counters and the logging. They are I/O over BamWriter and SingleReadBamParser.
- `translate` (lines 320-333) is left out. `ChromosomeName.MAPPING` is not part of this model, so the chromosome name passed to the query is opaque. Its failure test checks `chr == null` rather than `rtrn == null` (line 324). So if the mapping returns null for an unknown name, the run does not stop. The model therefore claims no abort-on-unmapped rule.
- The query iterator `snps` (line 256) is never closed by the source, on either return path (lines 263 and 267). This resource effect is not modelled.
- The overlap query's interval convention and record order are left out. The model takes the query result as given. `CombineOrderInsensitive` shows that the order does not change the verdict.
- Library semantics are left out. `Genotype.sameGenotype`, `getGenotypeString`, `Base.of` and `getReadBaseFromReferencePosition` are supplied inputs. The model does not relate `sameGenotype` to the strings.
- A sample missing from a record (`getGenotype` returning null, then a NullPointerException) is left out. The header check is meant to rule it out before any read is classified.
- SnpClassifier.ClassifySnp: the Java `assert` at line 301 is taken as disabled, the JVM default, so it is not modelled as an abort. With assertions enabled, an informative record whose two alleles give the same base would throw instead of returning.
- SnpClassifier.ClassifySnp: a no-call string such as "./." has length 3 and equal first and third characters, so it passes the homozygous test. Its verdict then depends on what `Base.of('.')` returns, which is supplied here.
