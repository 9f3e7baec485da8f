# Fractal analogy agent for Raven's Progressive Matrices, in Dafny

This project models the core of a Java agent that solves 2x2 and 3x3 Raven's
Progressive Matrices by *fractal analogy*, and proves properties of that model.

- **Fractal encoder** (`FractalsCommand.execute`, module `Fractals`). Two
  grayscale images are cut into a k x k grid of fragments. Each
  destination fragment is matched against every source fragment under eight
  orthonormal transformations. The cost of a candidate is the sum of squared
  sample differences plus a tenth of the grid distance of the two fragments.
  The cheapest candidate is kept; the first one wins a tie. It becomes the
  fragment's *fractal code*: source origin, destination origin, transformation,
  region size and colour contraction.
- **Fractal codes** (`FractalRepresentation`, module `Representation`). A
  mutable object with five nullable fields, setters, and a field-by-field
  `equals`/`hashCode`. Set de-duplication rests on these.
- **Mutual representations** (`MutualFractalsCommand`, module
  `MutualFractals`; `getMutualFractals` and `getMutualFractalsThreeByThree`,
  module `Agent`). The union of the encodings of a pair of images in both
  directions, and for three images the union over the three pairs.
- **Similarity and scoring** (modules `FeatureSimilarity`, `Statistics` and
  `Agent`):
  - every code yields five feature tokens;
  - two sets of codes are compared by the Tversky ratio
    `common / (common + 2 * onlyFirst + 1 * onlySecond)` of their features;
  - a candidate answer is scored by the Euclidean length of the vector of
    similarities between the rows and columns of the matrix and those the
    candidate completes;
  - the best-scoring candidate is the answer;
  - the scores are then normalised by the best one, reduced to z-scores, and
    filtered by a confidence threshold.

The code that changes state is modelled as methods with loops and invariants:
- the encoder loops;
- the partition into a 2-D array;
- the sum loops;
- the feature collection;
- the in-place normalisation of the score array;
- the `run` method of the mutual command object;
- the setters of the code object.

Each method is proved against a specification function. The promises of the
source are proved about those functions: minimality and tie-breaking of the
chosen match, exactly k² codes, order-independence of mutual representations,
Tversky bounds, a positive score for every candidate, and the first maximum as
the answer.

The Java platform enters as a `Platform` value. It supplies the AWT
transformations, `Math.sqrt`, `Math.pow(x, 2)` and the packing of a colour into
an `int`. The model assumes only that:
- transformations keep an n x n fragment n x n;
- the square root is 0 at 0 and positive on positive numbers;
- a square is non-negative and zero only at zero.

Two facts of the code are easy to miss:
- `calculateSimilarity` has no guard for two empty feature sets; it would
  divide 0 by 0. `FeatureSimilarity.Similarity` requires that one set is
  non-empty. `Agent.TwoByTwoScorePositive` shows that the agent never compares
  two empty sets.
- Every code of an encoding carries its own destination origin. The encoding
  set therefore never loses a code to de-duplication and holds exactly k²
  codes (`Fractals.FractalsCommand.EncodeCardinality`).

## Model

| member | source | states |
|---|---|---|
| Representation.Wrap32 | ravensproject/FractalRepresentation.java:56-67 | the result is a Java `int` and differs from the exact value by a multiple of 2^32, as the overflowing hash arithmetic does |
| Representation.FractalRepresentation.constructor | ravensproject/FractalRepresentation.java:3-13 | a new code has all five fields null |
| Representation.FractalRepresentation.SetSourceFragmentOrigin | ravensproject/FractalRepresentation.java:19-21 | the source origin becomes the argument and the other four fields are unchanged |
| Representation.FractalRepresentation.SetDestinationFragmentOrigin | ravensproject/FractalRepresentation.java:27-29 | the destination origin becomes the argument and the other four fields are unchanged |
| Representation.FractalRepresentation.SetOrthonormalTransformation | ravensproject/FractalRepresentation.java:35-37 | the transformation becomes the argument and the other four fields are unchanged |
| Representation.FractalRepresentation.SetRegionSize | ravensproject/FractalRepresentation.java:43-45 | the region size becomes the argument and the other four fields are unchanged |
| Representation.FractalRepresentation.SetColorimetricContraction | ravensproject/FractalRepresentation.java:51-53 | the contraction becomes the argument and the other four fields are unchanged |
| Representation.FractalRepresentation.Equals | ravensproject/FractalRepresentation.java:69-116 | `equals` holds exactly when the argument is a code whose five fields equal this code's, null matching only null |
| Representation.FractalRepresentation.HashCode | ravensproject/FractalRepresentation.java:55-67 | the hash is a Java `int` |
| Representation.EqualsReflexive | ravensproject/FractalRepresentation.java:71-72 | every code equals itself |
| Representation.EqualsRejectsNullAndForeign | ravensproject/FractalRepresentation.java:74-78 | no code equals null or an object of another class |
| Representation.EqualsSymmetric | ravensproject/FractalRepresentation.java:80-115 | `a.equals(b)` exactly when `b.equals(a)` |
| Representation.EqualsAgreesWithHashCode | ravensproject/FractalRepresentation.java:56-116 | equal codes have equal hashes, whatever the hashes of the field classes are |
| Fractals.BlockWithin | ravensproject/FractalsCommand.java:149-161 | fragment q of width floor(n/k) starts at a non-negative offset and ends inside the first k fragment widths, which lie inside the image |
| Fractals.Fragment | ravensproject/FractalsCommand.java:149-156 | a fragment is floor(W/k) columns of floor(H/k) samples |
| Fractals.FragmentDropsRemainder | ravensproject/FractalsCommand.java:160-161 | sample (c, r) of fragment [x][y] is image sample (fw*y + c, fh*x + r), which lies inside the first k*fw columns and k*fh rows |
| Fractals.FragmentCoversBlock | ravensproject/FractalsCommand.java:153-162 | every sample of the image's first k*fw columns and k*fh rows is copied into the fragment of its block |
| Fractals.PartitionImage | ravensproject/FractalsCommand.java:144-168 | a fresh k x k array whose entry [x][y] is the fragment of grid row x and grid column y |
| Fractals.ColumnDifference | ravensproject/FractalsCommand.java:267-271 | a sum of squared sample differences is never negative |
| Fractals.BlockDifference | ravensproject/FractalsCommand.java:266-272 | the photometric sum over any number of columns is never negative |
| Fractals.ColumnDifferenceSelf | ravensproject/FractalsCommand.java:267-271 | a column compared with itself contributes 0 |
| Fractals.BlockDifferenceSelf | ravensproject/FractalsCommand.java:266-272 | a block compared with itself sums to 0 |
| Fractals.PhotometricSelf | ravensproject/FractalsCommand.java:263-275 | the photometric correspondence of a fragment with itself is 0 |
| Fractals.PhotometricCorrespondence | ravensproject/FractalsCommand.java:263-275 | the double loop over `[0,len) x [0,len)`, with `len` the first fragment's size, computes the sum of squared differences |
| Fractals.DistanceProperties | ravensproject/FractalsCommand.java:298-303 | the distance of two origins is symmetric, non-negative, and 0 exactly when they coincide |
| Fractals.GreySampleChannels | ravensproject/FractalsCommand.java:220-223 | a grayscale sample 0..255 decodes to red 0, green 0 and blue equal to the sample |
| Fractals.GreyColumnTotal | ravensproject/FractalsCommand.java:217-228 | over a column of grayscale samples the red and green totals are 0 and the blue total is at most 255 per sample |
| Fractals.GreyBlockTotal | ravensproject/FractalsCommand.java:217-229 | over a block of grayscale samples the red and green totals are 0 and the blue total is at most 255 per sample |
| Fractals.GreyChannelMeans | ravensproject/FractalsCommand.java:211-233 | for a grayscale fragment the red and green means are 0 and the blue mean is in 0..255 |
| Fractals.GetColorMean | ravensproject/FractalsCommand.java:211-237 | the loops total each channel over the `len x len` block; each total is divided by `len²` in integer arithmetic and the three means are packed |
| Fractals.ColorContractionProperties | ravensproject/FractalsCommand.java:198-200 | the contraction of a fragment onto itself is 0, and swapping the fragments negates it |
| Fractals.GetColorContraction | ravensproject/FractalsCommand.java:198-200 | three quarters of the difference of the two colour means, destination minus source |
| Fractals.TransformIndex | ravensproject/FractalsCommand.java:59-74 | each tag has its position in the order identity, hFlip, vFlip, r90, r180, r270, reflYNX, reflYX |
| Fractals.Transformed | ravensproject/FractalsCommand.java:59-74 | a transformed n x n fragment is n x n; identity is the fragment itself |
| Fractals.ArgMin | ravensproject/FractalsCommand.java:89-95 | the index of the first minimum: no later value is smaller and every earlier value is larger |
| Fractals.FirstMinimum | ravensproject/FractalsCommand.java:104-109 | the scan that replaces only on a strictly smaller value returns the first minimum |
| Fractals.ScanOriginsShape | ravensproject/FractalsCommand.java:56-57 | the grid is visited in row-major order: the n-th origin visited has rank n |
| Fractals.RankOrder | ravensproject/FractalsCommand.java:56-57 | rank order is row-major order, and equal ranks mean equal origins |
| Fractals.RankBounds | ravensproject/FractalsCommand.java:53-57 | a grid origin has rank below k², and it comes before the scan position exactly when its rank is below that position's |
| Fractals.ScanSetMembers | ravensproject/FractalsCommand.java:53-54 | the set gathered up to a scan position holds exactly the codes of the origins scanned before it |
| Fractals.ScanSetSize | ravensproject/FractalsCommand.java:53-54 | when distinct origins give distinct codes, the gathered set has one element per origin scanned |
| Fractals.NotYetScanned | ravensproject/FractalsCommand.java:53-54 | the code of the origin being scanned is not yet in the set |
| Fractals.FractalsCommand.TransformCosts | ravensproject/FractalsCommand.java:77-87 | one correspondence per transformation tag |
| Fractals.FractalsCommand.FragmentMatchIsFirstMinimum | ravensproject/FractalsCommand.java:89-95 | for one source fragment, the kept transformation costs no more than any other and strictly less than every earlier one |
| Fractals.FractalsCommand.MatchesBeforeShape | ravensproject/FractalsCommand.java:56-99 | the per-fragment matches are stored in row-major order of source fragments, each the best match of its fragment |
| Fractals.FractalsCommand.MatchesBeforeNext | ravensproject/FractalsCommand.java:97-99 | scanning one more source fragment appends its best match |
| Fractals.FractalsCommand.MatchesBeforeRow | ravensproject/FractalsCommand.java:56-57 | the end of one grid row is the start of the next |
| Fractals.FractalsCommand.BestMatch | ravensproject/FractalsCommand.java:103-109 | the chosen source fragment is on the grid |
| Fractals.FractalsCommand.BestMatchIsMinimal | ravensproject/FractalsCommand.java:77-109 | the chosen (source fragment, transformation) costs no more than any of the 8k² candidates |
| Fractals.FractalsCommand.BestMatchIsFirst | ravensproject/FractalsCommand.java:91-108 | ties go to the earliest candidate: every earlier source fragment, and every earlier transformation of the chosen one, costs strictly more |
| Fractals.FractalsCommand.CodesInjective | ravensproject/FractalsCommand.java:112-114 | codes of distinct destination fragments are distinct |
| Fractals.FractalsCommand.EncodeCardinality | ravensproject/FractalsCommand.java:53-54 | an encoding holds exactly k² codes |
| Fractals.FractalsCommand.EncodeMembers | ravensproject/FractalsCommand.java:112-127 | every code of the encoding is the code of its own destination fragment (i, j) with 0 <= i, j < k, and every such fragment's code is in it |
| Fractals.FractalsCommand.EncodeOrigins | ravensproject/FractalsCommand.java:112-114 | every code names both origins, and one code has destination (0, 0) |
| Fractals.FractalsCommand.CodeFields | ravensproject/FractalsCommand.java:112-124 | the fields of the code of (i, j): grid source origin, destination (i, j), a minimal transformation, destination fragment height, and the contraction of the two fragments |
| Fractals.FractalsCommand.CandidateCostNonNegative | ravensproject/FractalsCommand.java:248-254 | a correspondence is never negative, and it is 0 only for the fragment at the same grid position |
| Fractals.FractalsCommand.SelfEncodingIsIdentity | ravensproject/FractalsCommand.java:59-60 | a destination fragment equal sample for sample to the source fragment at its own grid position (in particular, an image encoded from itself) is mapped onto that fragment by identity with contraction 0 |
| Fractals.FractalsCommand.Execute | ravensproject/FractalsCommand.java:27-132 | `execute` returns the set of the k² codes of the specification, on every input where no exception is raised: square source fragments no larger than the destination fragments' width, which is at most their height |
| Fractals.FractalsCommand.TallDestinationAccepted | ravensproject/FractalsCommand.java:217-220 | a destination fragment taller than it is wide (k = 1, a 2 x 2 source, a destination 2 wide and 3 tall) is within the inputs `execute` encodes |
| Fractals.FractalsCommand.EncodeRow | ravensproject/FractalsCommand.java:54-128 | one pass over a grid row of destination fragments adds the codes of that row |
| Fractals.FractalsCommand.MatchDestination | ravensproject/FractalsCommand.java:56-124 | the work for one destination fragment builds its code |
| Fractals.FractalsCommand.ScanMatches | ravensproject/FractalsCommand.java:56-101 | the source-fragment loops record the best match of every source fragment, in row-major order |
| Fractals.FractalsCommand.MatchTransforms | ravensproject/FractalsCommand.java:59-95 | the eight transformations of one source fragment and the first cheapest among them |
| MutualFractals.MutualGeometryIsBothDirections | ravensproject/MutualFractalsCommand.java:29-32 | both encodings of `run` return normally exactly when the two images cut into square fragments of one size |
| MutualFractals.MutualSymmetric | ravensproject/MutualFractalsCommand.java:29-32 | the mutual representation does not depend on which image is the source |
| MutualFractals.MutualBounds | ravensproject/MutualFractalsCommand.java:30-31 | a mutual representation holds between k² and 2k² codes |
| MutualFractals.UnionBounds | ravensproject/MutualFractalsCommand.java:30-31 | a union holds at least as many elements as either part and at most their sum |
| MutualFractals.MutualOrigins | ravensproject/MutualFractalsCommand.java:30-31 | every code of a mutual representation names both origins, and one has destination (0, 0) |
| MutualFractals.MutualFractalsCommand.constructor | ravensproject/MutualFractalsCommand.java:14-22 | a new command keeps its images and level and holds no codes |
| MutualFractals.MutualFractalsCommand.GetFractals | ravensproject/MutualFractalsCommand.java:24-26 | `getFractals` returns the gathered set unchanged |
| MutualFractals.MutualFractalsCommand.Run | ravensproject/MutualFractalsCommand.java:29-32 | `run` adds both encodings to the gathered set; it only adds, and leaves the images and level alone |
| MutualFractals.RunFresh | ravensproject/MutualFractalsCommand.java:14-32 | a fresh command that has run once holds exactly the union of the encodings in both directions |
| FeatureSimilarity.Features | ravensproject/Agent.java:480-490 | a code has exactly five features, one per field |
| FeatureSimilarity.FeaturesDetermineCode | ravensproject/Agent.java:480-490 | two codes have the same features exactly when they are the same code |
| FeatureSimilarity.FeatureSetUnion | ravensproject/Agent.java:508-516 | the features of a union of code sets are the union of their features |
| FeatureSimilarity.FeatureSetNonEmpty | ravensproject/Agent.java:508-516 | a non-empty set of codes has at least five features |
| FeatureSimilarity.SubsetSize | ravensproject/Agent.java:518-519 | a subset is no larger than its superset |
| FeatureSimilarity.CollectFeatures | ravensproject/Agent.java:508-516 | the `addAll` loop yields the union of the features of the codes, in whatever order they are visited |
| FeatureSimilarity.SplitCounts | ravensproject/Agent.java:518-525 | the first set's features are the common ones plus those only it has, and likewise for the second |
| FeatureSimilarity.Tversky | ravensproject/Agent.java:527 | the Tversky ratio lies in [0, 1] |
| FeatureSimilarity.TverskyOne | ravensproject/Agent.java:527 | the ratio is 1 exactly when the two feature sets are equal |
| FeatureSimilarity.TverskyZero | ravensproject/Agent.java:527 | the ratio is 0 exactly when the feature sets share nothing |
| FeatureSimilarity.TverskyWeights | ravensproject/Agent.java:505-506 | a feature only the first set has weighs 2 and one only the second set has weighs 1 |
| FeatureSimilarity.FeatureSetsNotBothEmpty | ravensproject/Agent.java:527 | if one code set is non-empty, one feature set is non-empty, so the ratio is defined |
| FeatureSimilarity.Similarity | ravensproject/Agent.java:499-528 | the similarity of two code sets lies in [0, 1] |
| FeatureSimilarity.TverskyRatio | ravensproject/Agent.java:518-527 | `retainAll`/`removeAll` and the weighted quotient compute the Tversky ratio |
| FeatureSimilarity.CalculateSimilarity | ravensproject/Agent.java:499-528 | `calculateSimilarity` is the Tversky ratio of the two feature sets |
| FeatureSimilarity.SharedDestinationSimilar | ravensproject/Agent.java:484 | two code sets that both hold a code for the same destination fragment have positive similarity |
| Statistics.DivideSelf | ravensproject/Agent.java:162 | a non-zero value divided by itself is 1 |
| Statistics.SumOfSquaresZero | ravensproject/Agent.java:859-867 | a sum of squares is non-negative, 0 for the zero vector and positive otherwise |
| Statistics.NormProperties | ravensproject/Agent.java:859-867 | the Euclidean norm is non-negative and 0 exactly for the zero vector |
| Statistics.CalculateEuclideanDistance | ravensproject/Agent.java:859-867 | the loop computes the square root of the sum of squares of the array |
| Statistics.SumWithin | ravensproject/Agent.java:875-882 | a sum of values in [lo, hi] lies between n*lo and n*hi |
| Statistics.MeanWithin | ravensproject/Agent.java:875-882 | the mean of values in [lo, hi] lies in [lo, hi] |
| Statistics.Mean | ravensproject/Agent.java:875-882 | the loop computes the sum divided by the size |
| Statistics.SquaredDeviationsZero | ravensproject/Agent.java:890-897 | the squared deviations sum to 0 exactly when every value is the mean |
| Statistics.StandardDeviationZero | ravensproject/Agent.java:890-897 | the standard deviation is non-negative and 0 exactly when every value is the mean |
| Statistics.StandardDeviation | ravensproject/Agent.java:890-897 | the loop computes the square root of the mean squared deviation |
| Statistics.StandardError | ravensproject/Agent.java:905-907 | the standard error is 0 exactly when the deviation is 0, and non-negative for a non-negative deviation |
| Statistics.Divide | ravensproject/Agent.java:921 | IEEE division: finite exactly for a non-zero divisor, NaN exactly for 0/0, infinite otherwise |
| Statistics.ArgMax | ravensproject/Agent.java:150-155 | the index of the first maximum: every value is at most it and every earlier value is smaller |
| Statistics.SelectBest | ravensproject/Agent.java:150-155 | the scan that replaces only on a strictly greater score selects the first maximum |
| Statistics.NormalizedBounds | ravensproject/Agent.java:160-163 | dividing by the best score keeps the keys, makes the best 1, keeps every score in [0, 1] and keeps the order of scores |
| Statistics.Normalize | ravensproject/Agent.java:160-163 | the in-place loop divides every entry by the best score as it was before the loop |
| Statistics.NormalizeAsWritten | ravensproject/Agent.java:160-163 | the loop as written divides by the current value of the best entry, which becomes 1 once that entry is visited |
| Statistics.NormalizeAsWrittenMissesLaterEntries | ravensproject/Agent.java:161-163 | for the scores [4, 2] the loop as written leaves the second score 2, where normalisation gives 0.5 |
| Statistics.Deviations | ravensproject/Agent.java:917-925 | one deviation per score, with the same key |
| Statistics.GetDeviations | ravensproject/Agent.java:917-925 | each key maps to (score - mean) / standard error |
| Statistics.Above | ravensproject/Agent.java:176-180 | the collected keys are no more than the deviations |
| Statistics.AboveMembers | ravensproject/Agent.java:176-180 | a key is collected exactly when its deviation is strictly above the threshold |
| Statistics.CollectAnswers | ravensproject/Agent.java:176-180 | the loop collects the keys whose deviation is above the threshold, in order |
| Statistics.ConfidentAboveMean | ravensproject/Agent.java:165-180 | with a non-negative threshold, every collected key has a score above the mean |
| Statistics.ZScoreAboveMean | ravensproject/Agent.java:921 | a z-score above a non-negative threshold comes from a value above the mean |
| Statistics.EqualScoresGiveNoAnswers | ravensproject/Agent.java:165-180 | when all scores are equal, no key is collected |
| Statistics.AboveNone | ravensproject/Agent.java:176-180 | when no deviation passes the threshold, nothing is collected |
| Statistics.Gate | ravensproject/Agent.java:160-180 | normalises the scores in place, then collects the keys whose z-score passes the threshold |
| Agent.GetMutualFractals | ravensproject/Agent.java:348-355 | the union of the encodings of the two images in both directions |
| Agent.AgentTransformTableThrows | ravensproject/Agent.java:408-422 | the Agent's own encoder fills the first six transformations of every source fragment and then raises an exception at `reflYNX`, whose rotation is applied to a null image |
| Agent.MutualThreeSymmetric | ravensproject/Agent.java:366-375 | the three-image representation does not depend on the order of the images |
| Agent.MutualThreeContainsPairs | ravensproject/Agent.java:370-372 | the three-image representation contains each pairwise one |
| Agent.MutualThreeBounds | ravensproject/Agent.java:366-375 | the three-image representation holds between k² and 6k² codes |
| Agent.UnionOfThreeBounds | ravensproject/Agent.java:370-372 | a union of three sets is at least as large as the first set and at most three times the largest bound |
| Agent.MutualThreeOrigins | ravensproject/Agent.java:366-375 | every code names both origins, and one code has destination (0, 0) |
| Agent.GetMutualFractalsThreeByThree | ravensproject/Agent.java:366-375 | the three pairwise representations added one after the other |
| Agent.SimilarityVector | ravensproject/Agent.java:142-143 | the vector has one entry per comparison |
| Agent.SimilarityVectorEntries | ravensproject/Agent.java:142-143 | entry n of the vector is the similarity of comparison n |
| Agent.SimilarityVectorPositive | ravensproject/Agent.java:145 | if the first comparison is positive, the vector's length is positive |
| Agent.TwoByTwoComparisons | ravensproject/Agent.java:100-143 | a 2x2 candidate is compared on two relationship pairs, both comparable |
| Agent.TwoByTwoScorePositive | ravensproject/Agent.java:142-145 | every 2x2 candidate scores above 0, so dividing by the best score is defined |
| Agent.TwoByTwoSimilarities | ravensproject/Agent.java:117-147 | one scored entry per candidate |
| Agent.TwoByTwoScores | ravensproject/Agent.java:117-147 | the first n candidates give n scored entries |
| Agent.TwoByTwoScoresNumbered | ravensproject/Agent.java:145 | each scored entry carries its candidate's number and a positive score |
| Agent.ThreeByThreeComparisons | ravensproject/Agent.java:221-286 | a 3x3 candidate is compared on four relationship pairs, all comparable |
| Agent.ThreeByThreeScorePositive | ravensproject/Agent.java:283-288 | every 3x3 candidate scores above 0 |
| Agent.ThreeByThreeSimilarities | ravensproject/Agent.java:256-290 | one scored entry per candidate |
| Agent.ThreeByThreeScores | ravensproject/Agent.java:256-290 | the first n candidates give n scored entries |
| Agent.ThreeByThreeScoresNumbered | ravensproject/Agent.java:288 | each scored entry carries its candidate's number and a positive score |
| Agent.Choice | ravensproject/Agent.java:150-158 | the answer is the number of a candidate whose score is the greatest, with every earlier candidate scoring strictly less |
| Agent.Distance | ravensproject/Agent.java:145 | the similarities placed in a fresh array and measured give the Euclidean norm |
| Agent.DistanceOfTwo | ravensproject/Agent.java:123-145 | two similarities in a two-entry vector give the norm of the similarity vector |
| Agent.DistanceOfFour | ravensproject/Agent.java:262-288 | four similarities in a four-entry vector give the norm of the similarity vector |
| Agent.TwoByTwoComparable | ravensproject/Agent.java:126-143 | C and B cut like the candidate, and both relationship pairs of a 2x2 candidate can be compared |
| Agent.ThreeByThreeComparable | ravensproject/Agent.java:265-286 | G, H, C and F cut like the candidate, and all four relationship pairs of a 3x3 candidate can be compared |
| Agent.ScoreTwoByTwo | ravensproject/Agent.java:120-145 | the loop body for one 2x2 candidate computes its score |
| Agent.ScoreThreeByThree | ravensproject/Agent.java:259-288 | the loop body for one 3x3 candidate computes its score |
| Agent.ScoreCandidatesTwoByTwo | ravensproject/Agent.java:95-147 | the candidate loop fills a fresh array with every candidate's number and score, in order |
| Agent.ScoreCandidatesThreeByThree | ravensproject/Agent.java:214-290 | the candidate loop fills a fresh array with every candidate's number and score, in order |
| Agent.ExecuteTwoByTwo | ravensproject/Agent.java:85-194 | the answer is -1 without abstraction levels; otherwise it is the first best-scoring candidate at the first level, and the loop stops after one pass |
| Agent.ExecuteThreeByThree | ravensproject/Agent.java:204-338 | as for 2x2, with the four-entry 3x3 similarity vector |

## Left out

- AWT and Java2D: `drawImage` in `partitionImage`, `Raster.getSample`, and the flip and rotation operations. Partitioning is index arithmetic. The seven non-identity transformations are `Platform.transform`; only the fact that they keep an n x n fragment n x n is assumed. The image type and the bilinear sampling of the rotations are not modelled.
- Fractals.GetColorMean: the packing `new Color(r / 255f, g / 255f, b / 255f).getRGB()` is `Platform.packColor`, because it is a float-to-packed-int library conversion. The integer channel totals and means are modelled exactly; the packed value is not.
- `Math.sqrt` and `Math.pow(x, 2)` are `Platform.sqrt` and `Platform.square`, because they are floating-point library calls. Doubles are modelled as exact reals, so rounding is not modelled.
- `getPhotometric` is unused by the encoder (its call is commented out) and is not modelled.
- `erf`, `inverseErf`, `getA` and `getConfidenceThreshold` approximate the Gaussian with exp, log and pi in floating point. The threshold is a parameter of `Agent.ExecuteTwoByTwo` and `Agent.ExecuteThreeByThree` instead.
- Agent.GetMutualFractals: the source calls `Agent.getFractals`, a second copy of the encoder; the model uses `FractalsCommand.execute` instead. That copy's `reflectYNX` and `reflectYX` rotate their local `result` while it is still `null` (Agent.java:754-757, 772-775), and `rotateImage` reads `image.getHeight()` first (Agent.java:731), so the copy throws a NullPointerException at the first source fragment (`Agent.AgentTransformTableThrows`). `Solve` (Agent.java:68-75) catches nothing, so as written `getMutualFractals`, `getMutualFractalsThreeByThree` and both `executeFractalAlgorithm` methods throw before any candidate is scored, at every abstraction level. The model of these members, and of everything that calls them, describes the agent as evidently intended (see Findings), not the program as written. The copy also reads pixels through `DataBufferByte`. `Agent.getFractals` apart from its transformation table, `Agent.partitionImage`, `getPixelMatrix` and the Agent's own `getPhotometricCorrespondence` are not part of this model.
- Fractals.FractalsCommand.Execute: requires `Valid()`, which excludes exactly the source's exception paths; none of these exceptions is modelled. With k = 0, `image.getWidth() / columns` throws ArithmeticException (FractalsCommand.java:149). With k < 0, `new BufferedImage[rows][columns]` throws NegativeArraySizeException (FractalsCommand.java:152). An image narrower or lower than k pixels gives a fragment side of 0, and `new BufferedImage` throws IllegalArgumentException (FractalsCommand.java:156). A source fragment that is not square throws ArrayIndexOutOfBoundsException in the photometric loops (FractalsCommand.java:266-270): it is wider than it is tall either as it is or after the 90-degree rotation, which swaps its sides. For source fragments of side s, a destination fragment w wide and h tall is indexed past its end unless s <= w <= h: the photometric loops read its first s columns up to row s (FractalsCommand.java:266-270), and `getColorMean` reads its first w columns up to row w (FractalsCommand.java:217-220). Destination fragments with s <= w < h are accepted and encoded (`Fractals.FractalsCommand.TallDestinationAccepted`).
- Fractals.PartitionImage: requires `ValidLevel`, which excludes the same k = 0, k < 0 and empty-fragment exceptions (FractalsCommand.java:149-156).
- Fractals.GetColorMean: requires a non-empty matrix whose columns hold at least as many samples as there are columns. An empty matrix makes `totalRed / pixels` divide by zero and throw ArithmeticException (FractalsCommand.java:215, 232). Shorter columns throw ArrayIndexOutOfBoundsException (FractalsCommand.java:220). Neither exception is modelled.
- I/O: `openImage`, `System.out.println`, access to `RavensProblem`/`RavensFigure`, and the `Solve` dispatch on the problem type. A problem is given as a `TwoByTwo` or `ThreeByThree` value of images and numbered candidates.
- The filter `Character.isDigit(name.charAt(0))` that picks candidate figures and `Integer.valueOf(name)`. The model starts from the already numbered candidates, which are distinct and not negative (`WellNumbered`).
- HashMap iteration order is unspecified. The model takes candidates in the order of the `candidates` sequence, which stands for the iteration order of the `similarities` map. Which of two tied candidates wins is only as determined as that order.
- Threading: the `Runnable` nature of `MutualFractalsCommand`, and `TransformCommand`, which is abstract and holds no logic. Only the sequential body of `run` is modelled.
- `Pair` is not part of this model. Origins are the `Origin` datatype of two integers, and transformations are a datatype of eight tags rather than strings. Two facts about `Pair` are assumed. First, its `equals`/`hashCode` compare by value: `execute` looks fragments up with `get(new Pair<>(x, y))` (FractalsCommand.java:60), and `FractalRepresentation.equals` compares origins with `equals`. Second, its `toString` tells distinct pairs apart: the feature tokens are built by string concatenation (Agent.java:484-488), so `FeatureSimilarity.Features`, `FeatureSimilarity.FeaturesDetermineCode` and `FeatureSimilarity.SharedDestinationSimilar` rely on it. The constructor call `new FractalRepresentation(...)` (FractalsCommand.java:112) has no matching constructor in the class; it is modelled as building the five-field value.
- Agent.ExecuteTwoByTwo: describes the agent as intended; as written it throws in `getMutualFractals` (see Agent.GetMutualFractals above). It also requires, when there are levels, at least one candidate and figures that all cut into square fragments of one size at the first level. With no candidates the source throws at `bestAnswer.getKey()`. Unequal fragment sizes make it index outside a fragment.
- Agent.ExecuteThreeByThree: the same as Agent.ExecuteTwoByTwo: intended behaviour, with the same preconditions.
- Agent.ExecuteTwoByTwo: only the first abstraction level is ever scored, because the loop sets `answer` on its first pass. `AbstractionLevels` holds the single level 2, as in the source. The `answers` list computed by the gate is never used (its use is commented out), so the contract says nothing about it beyond `Statistics.Gate`.
- Statistics.Mean: requires a non-empty collection. The source would return NaN (0/0), but the agent always has at least one candidate.
- Statistics.StandardDeviation: requires a non-empty collection, for the same reason as Statistics.Mean.
- Statistics.StandardError: requires a positive size, for the same reason as Statistics.Mean.
- FeatureSimilarity.Similarity: requires that one of the two code sets is non-empty. The source would return NaN for two empty sets; the agent never compares them.
- Statistics.Gate: normalises with the best score taken before the loop (the corrected loop of the finding below), not with the source's aliased divisor.

## Findings

| source | as written | input that shows it | evidently intended | confidence | as-written member | corrected member |
|---|---|---|---|---|---|---|
| ravensproject/Agent.java:161-163 | `entry.setValue(entry.getValue() / bestAnswer.getValue())`, where `bestAnswer` is an entry of the same map. Once the loop has visited the best entry, that entry holds 1.0, and every later entry is divided by 1.0. The same loop is at Agent.java:304-306. | scores {1: 4.0, 2: 2.0} visited in that order: the second score stays 2.0 | every score divided by the best score as it was before the loop (here 0.5), so all lie in [0, 1] | not executed | Statistics.NormalizeAsWrittenMissesLaterEntries | Statistics.NormalizedBounds |
| ravensproject/Agent.java:753-758 | `reflectYNX` (and `reflectYX`, Agent.java:771-776) calls `rotateImage(result, …)` while `result` is still `null`, and `rotateImage` dereferences it at once (Agent.java:731); `getFractals` fills these entries for every source fragment (Agent.java:420-422) | any problem: the first source fragment of the first `getMutualFractals` call throws a NullPointerException, so `Solve` never returns an answer | rotate the image itself, as `FractalsCommand.rotate90Flip` does (FractalsCommand.java:383), so that the encoder yields k² codes per direction | not executed | Agent.AgentTransformTableThrows | Agent.GetMutualFractals |
