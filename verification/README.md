# Sampled-trace compiler: a verified model

The repository's sampled-trace tool captures the memory instructions of selected thread blocks (CTAs) of a
GPU kernel, fits rules to their addresses, stores a compact profile, generates a full trace from it, and
audits the generated trace against the capture. It claims to be exact although it stores far less than it
reads. This project models revision r10 of the tool, with r9 and r2 where they differ, and proves that claim
and where it ends.

The modules follow the stages of the tool:

| stage | modules |
|---|---|
| decoder | `Varint`, `Bits`, `Memc` (the format and a specification encoder), `MemcReader` (the loops), `LiteralCapture`, `Capture` (lowering, scan) |
| structural index | `Lanes`, `SlotIndex` |
| address rules | `CoordinateRules`, `TableRules`, `FloorQuotient`, `Cascade`, `Coverage`, `TrainingChecks` |
| templates and classes | `Template`, `Meaning`, `Holdout`, `Classes`, `Profile`, `ProfileRun` |
| sampled profiles | `Extrapolation`, `StepExample` |
| generation | `Lines`, `TraceFile`, `Merge`, `Generate`, `Schedule`, `Timing`, `Clocks`, `IssueMap`, `AppConfig`, `LiteralFiles` |
| audit | `Audit`, `EventCode`, `Certificate` |
| all together | `Pipeline`, `Replay`, `SampledReplay`, `SampledExample` |
| shared | `Common`, `Sequences`, `Order`, `Numerals`, `Arithmetic`, `OneLane` (the access the examples are made of) |

Where the source computes a value by expressions, the model is a function and the results are lemmas about it.
Where it updates state step by step, the model is a method, with the source's loop, proved equal to such a
function (or to its defining property); `Varint.ByteStream`, `Merge.MinHeap`, `Audit.SemanticState` and
`AppConfig.ConfigCache` are the objects it mutates. Exceptions are `Result` values; `Common.Error` names
them. Integers are unbounded, as in Python, and every masking of the source (`& MASK64`, modulo 2^128, the
eight-byte fields of the certificate) is written out.

The main results:

- `Replay.CompleteGridPassesAudit`: under r10 every complete, gap-free, nonempty grid goes through profile,
  generate and audit without failure, to one text; `Replay.OneLoadPassesAudit` is an instance.
- `Replay.AuditPassesExactlyWhen`: capture, profile, generate and audit compose; the audit passes exactly when
  the capture is contiguous, stays on the grid and its counts can be written down.
- `SampledReplay.SampledGridPassesAudit` and `SampledReplay.SampledAuditPassesExactlyWhen`: the same for the
  normal mode, disjoint training and held-out CTAs. A kernel's address law gives the true base of every slot
  and group at every CTA; if the training CTAs single it out, the text generated for all CTAs passes the audit
  against a capture of all of them, most of which were never profiled. `SampledExample.RampSamplePassesAudit`
  is an instance.
- `Coverage.IdentifiedExactlyWhenCovered`: the training CTAs single out a truth exactly when they meet the
  coverage of the narrowest family that holds it. `StepExample.UncoveredStepIsAdmitted` shows a profile that
  passes the base gate without it and is wrong at a CTA that was not held out.
- `Profile.ProfilePreservesMeaning` and `Replay.SelectedCtasSurvive`: with no assumption on addresses, a profile
  and its generated text mean the capture, in both modes, at every selected CTA.
- `Cascade.CascadeIdentifiesHalf` with its siblings, and `FloorQuotient.FloorIdentification`: what the fitters
  identify, over all rules of a family and all divisors.
- `Merge.MergeOrderedExactlyWhenMonotone`, `Timing.UniformTablesOrderedExactlyWhen`,
  `Timing.ReversedPairOutOfOrder`: when the generated trace is in order of time. The generation manifest
  describes the output as a global merge by CTA start plus delta (r10, line 1571); for uniform complete grids
  under r10 that holds exactly when every CTA keeps the instruction order of CTA 0, because the shared
  template is sorted by CTA 0's deltas while the heap is keyed by each CTA's own. The model follows the code.
- `Clocks.LinesCarryTimes` and `Clocks.CapturedTimesSurvive`: what time each line of the text carries.
- `Certificate.AuditPassesForAllDigestsExactlyWhen`: an audit that passes whatever the digest functions means
  that text and capture hold the same events, and conversely.
- `Memc.FileRoundTrip`, `Lines.LineRoundTrip`, `IssueMap.IssueRoundTrip`: the three formats read back.

## Model

| member | source | states |
|---|---|---|
| Varint.UvarRoundTrip | release/workflow/hyfiss_sampled_sass_trace_global_lower_packed_sequence_floor_exact_r10.py:220-233 | `read_uvar` gives back every value below 2^64 from its shortest code, whatever follows, and leaves exactly the following bytes |
| Varint.Uvar | release/workflow/hyfiss_sampled_sass_trace_global_lower_packed_sequence_floor_exact_r10.py:220-233 | the value read is below 2^64, at least one byte is consumed, and the final "too long" error can never be raised |
| Varint.ByteStream.ReadUvar | release/workflow/hyfiss_sampled_sass_trace_global_lower_packed_sequence_floor_exact_r10.py:220-233 | the loop over shifted seven-bit payloads reads what the digit-by-digit definition says, error for error, and leaves the stream where it says |
| Varint.SvarRoundTrip | release/workflow/hyfiss_sampled_sass_trace_global_lower_packed_sequence_floor_exact_r10.py:236-239 | `read_svar` gives back every value of [-2^63, 2^63) from its zigzag code |
| Varint.ZigzagBijection | release/workflow/hyfiss_sampled_sass_trace_global_lower_packed_sequence_floor_exact_r10.py:236-239 | zigzag maps the signed 64-bit values one to one onto the unsigned ones |
| Varint.CanonicalCodesDiffer | release/workflow/hyfiss_sampled_sass_trace_global_lower_packed_sequence_floor_exact_r10.py:236-239 | different signed values have different shortest codes |
| Memc.FileRoundTrip | release/workflow/hyfiss_sampled_sass_trace_global_lower_packed_sequence_floor_exact_r10.py:256-346 | decoding the specification encoding of any well-formed records over any well-formed opcode table returns those records: header, opcode table, and cta, pc, clock and base carried as zigzag deltas modulo 2^64 across records and groups |
| Memc.DecodedWellFormed | release/workflow/hyfiss_sampled_sass_trace_global_lower_packed_sequence_floor_exact_r10.py:274-328 | every decoded record is in range, has one or two groups, disjoint in-mask spaces, and 1 to 31 runs that sum to 31 per group |
| Memc.WellFormedIs | release/workflow/hyfiss_sampled_sass_trace_global_lower_packed_sequence_floor_exact_r10.py:274-328 | what is accepted, written out: 32-bit identity fields, 64-bit sequence, clock, base and masks, a nonzero mask and function, one or two groups, 1 to 31 runs of 1 to 31 lanes that make up 31 |
| Memc.SpacesOkIs | release/workflow/hyfiss_sampled_sass_trace_global_lower_packed_sequence_floor_exact_r10.py:300-312 | the test on the masks as the source makes it means, lane by lane, that no two spaces share a lane and none leaves the active mask |
| Memc.SpacesPartitionMask | release/workflow/hyfiss_sampled_sass_trace_global_lower_packed_sequence_floor_exact_r10.py:300-312 | each active lane lies in exactly one of the global, local, shared and unknown masks of a group, an inactive lane in none |
| Memc.RenderedCarries | release/workflow/hyfiss_sampled_sass_trace_global_lower_packed_sequence_floor_exact_r10.py:330-346 | every decoded record is yielded with all its fields: block and sequence, the full clock as timestamp, opcode, pc and mask as hexadecimal tokens that read back, each group's base and masks, the unknown mask as the rest of the active one, and each stride token reading back as its run |
| Memc.EncodedFileCarries | release/workflow/hyfiss_sampled_sass_trace_global_lower_packed_sequence_floor_exact_r10.py:256-346 | the records yielded for an encoded file carry the fields they were encoded from, one by one |
| LiteralCapture.LiteralFile | release/workflow/hyfiss_sampled_sass_trace_global_lower_packed_sequence_floor_exact_r10.py:256-346 | a literal file of two records, an async copy and a load, byte for byte: magic line, version, opcode table, order and coding of every field |
| LiteralCapture.LiteralVarint | release/workflow/hyfiss_sampled_sass_trace_global_lower_packed_sequence_floor_exact_r10.py:220-233 | 300 is written and read as the bytes 172 and 2 |
| MemcReader.MemcRecords | release/workflow/hyfiss_sampled_sass_trace_global_lower_packed_sequence_floor_exact_r10.py:256-346 | the decoding loops return what the recursive definition of the format says for any bytes at all, failure for failure, and every yielded record carries its wire record field by field |
| Capture.LowerKeepsGlobalGroups | release/workflow/hyfiss_sampled_sass_trace_global_lower_packed_sequence_floor_exact_r10.py:349-402 | an accepted record keeps exactly its full-mask global groups in order; it loses a group only if it is an async copy, and that group is full-mask shared |
| Capture.LowersExactlyWhen | release/workflow/hyfiss_sampled_sass_trace_global_lower_packed_sequence_floor_exact_r10.py:349-402 | a record is accepted exactly when its mask is readable and either every group is wholly global, or the opcode begins with LDGSTS and of its two groups exactly one is wholly global and exactly one wholly shared |
| Capture.CopyPairIs | release/workflow/hyfiss_sampled_sass_trace_global_lower_packed_sequence_floor_exact_r10.py:376-402 | with an active lane, these are two different groups, one global and one shared |
| Capture.LoweredFields | release/workflow/hyfiss_sampled_sass_trace_global_lower_packed_sequence_floor_exact_r10.py:357-402 | field by field, an accepted record keeps block, pc, opcode, mask, timestamp and sequence, and all its groups, or of a copy only the global one |
| Capture.SequenceConservation | release/workflow/hyfiss_sampled_sass_trace_global_lower_packed_sequence_floor_exact_r10.py:424-445 | last - first + 1 is the number of records plus the absent numbers; zero gap events exactly when the numbers are contiguous |
| Capture.CollectCtas | release/workflow/hyfiss_sampled_sass_trace_global_lower_packed_sequence_floor_exact_r10.py:405-481 | the scan with its running counters accepts the files exactly when their concatenation is increasing, free of unvalidated gaps, lowerable at the selected CTAs and nonempty at each of them unless empty CTAs are allowed, and then reports the totals of the whole stream |
| Capture.CollectsExactlyWhen | release/workflow/hyfiss_sampled_sass_trace_global_lower_packed_sequence_floor_exact_r10.py:405-481 | the files are accepted exactly when they decode, sequence numbers rise, by one each unless gaps are validated, every record of a selected CTA can be lowered, and every selected CTA occurs unless empty ones are allowed |
| Capture.CollectionAccounting | release/workflow/hyfiss_sampled_sass_trace_global_lower_packed_sequence_floor_exact_r10.py:405-481 | over any nonempty accepted run: last - first + 1 = records + absent, the gap count is the number of places where a number is not its predecessor's successor, discarded shared groups = lowered async copies = selected records that are not wholly global, and each CTA's list is the lowered filter of the whole stream |
| Lanes.OffsetsAre | release/workflow/hyfiss_sampled_sass_trace_global_lower_packed_sequence_floor_exact_r10.py:156-170 | exactly the active lanes are listed, each at the sum of the strides before it, a plain sum over a prefix of the strides |
| Lanes.LaneOffsetsAre | release/workflow/hyfiss_sampled_sass_trace_global_lower_packed_sequence_floor_exact_r10.py:115-170 | from the tokens: offsets exist exactly when mask and stride tokens are readable and stand for at most 31 strides, and hold exactly the lanes whose mask digit is one, each at the sum of the strides before it |
| Lanes.StridesAre | release/workflow/hyfiss_sampled_sass_trace_global_lower_packed_sequence_floor_exact_r10.py:156-166 | stride tokens are readable exactly when each is, and each stands for its stride repeated as often as it says, in their order |
| Lanes.AddressesClosed | release/workflow/hyfiss_sampled_sass_trace_global_lower_packed_sequence_floor_exact_r10.py:484-501 | the expanded addresses of a group are, for the set bits of the mask in order, the base plus the sum of the strides before the lane |
| Bits.BitIs | release/workflow/hyfiss_sampled_sass_trace_global_lower_packed_sequence_floor_exact_r10.py:168 | bit i of a mask is its digit of weight 2^i |
| Bits.XorBit | release/workflow/hyfiss_sampled_sass_trace_global_lower_packed_sequence_floor_exact_r10.py:1723 | a bit of an exclusive or is set exactly when it is set in one of the two |
| Lanes.OffsetsAscend | release/workflow/hyfiss_sampled_sass_trace_global_lower_packed_sequence_floor_exact_r10.py:156-170 | the lanes are listed in ascending order |
| Lanes.AddressesAreBasePlusOffset | release/workflow/hyfiss_sampled_sass_trace_global_lower_packed_sequence_floor_exact_r10.py:484-501 | expanded lane addresses are the base plus the active-lane offsets |
| Lanes.ActiveLaneOffsets | release/workflow/hyfiss_sampled_sass_trace_global_lower_packed_sequence_floor_exact_r10.py:156-170 | the loop over 32 lanes with its running address returns those offsets, or the failure of the mask, the strides or too many strides |
| Lanes.ExpandLaneAddresses | release/workflow/hyfiss_sampled_sass_trace_global_lower_packed_sequence_floor_exact_r10.py:484-501 | the loop over the groups returns the addresses of all groups' active lanes |
| Lanes.SameEventSameAddresses | release/workflow/hyfiss_sampled_sass_trace_global_lower_packed_sequence_floor_exact_r10.py:156-177 | equal signature and equal bases force equal lane addresses, however the stride tokens spell the structure |
| SlotIndex.IndexBijection | release/workflow/hyfiss_sampled_sass_trace_global_lower_packed_sequence_floor_exact_r10.py:184-196 | records and slots determine each other through the two dictionaries |
| SlotIndex.RanksAreInitialSegment | release/workflow/hyfiss_sampled_sass_trace_global_lower_packed_sequence_floor_exact_r10.py:184-196 | the ranks used under a signature are exactly 0..n-1 for its n records |
| SlotIndex.RanksFollowBases | release/workflow/hyfiss_sampled_sass_trace_global_lower_packed_sequence_floor_exact_r10.py:184-196 | under one signature, ranks follow the bases, then the timestamp, then the source sequence |
| SlotIndex.IndexIgnoresOrder | release/workflow/hyfiss_sampled_sass_trace_global_lower_packed_sequence_floor_exact_r10.py:184-196 | the index does not depend on the order of the records |
| SlotIndex.SameSlotsSameSignatures | release/workflow/hyfiss_sampled_sass_trace_global_lower_packed_sequence_floor_exact_r10.py:1086-1089 | two CTAs have equal slot sets exactly when their multisets of signatures are equal |
| SlotIndex.IndexedRecords | release/workflow/hyfiss_sampled_sass_trace_global_lower_packed_sequence_floor_exact_r10.py:184-196 | the dictionaries filled bucket by bucket and rank by rank are the index so defined; it fails exactly when some record has no readable structure |
| CoordinateRules.CoordinatesBijection | release/workflow/hyfiss_sampled_sass_trace_global_lower_packed_sequence_floor_exact_r10.py:573-581 | blocks of the grid and coordinates in range correspond one to one |
| CoordinateRules.FitAffineSound | release/workflow/hyfiss_sampled_sass_trace_global_lower_packed_sequence_floor_exact_r10.py:584-623 | an affine rule that is returned predicts every training CTA |
| CoordinateRules.FitAffineFinds | release/workflow/hyfiss_sampled_sass_trace_global_lower_packed_sequence_floor_exact_r10.py:584-623 | if some affine rule fits training that covers each axis, the fitter succeeds |
| CoordinateRules.AffineUnique | release/workflow/hyfiss_sampled_sass_trace_global_lower_packed_sequence_floor_exact_r10.py:584-623 | two affine rules that fit covering training agree at every coordinate of the grid |
| TableRules.FitTableSound | release/workflow/hyfiss_sampled_sass_trace_global_lower_packed_sequence_floor_exact_r10.py:626-687 | a y-table rule that is returned predicts every training CTA |
| TableRules.FitTableFinds | release/workflow/hyfiss_sampled_sass_trace_global_lower_packed_sequence_floor_exact_r10.py:626-687 | if some y-table rule fits training that covers the family, the fitter succeeds |
| TableRules.TableUnique | release/workflow/hyfiss_sampled_sass_trace_global_lower_packed_sequence_floor_exact_r10.py:626-687 | two y-table rules that fit covering training agree at every coordinate of the grid |
| TableRules.FitHalfSound | release/workflow/hyfiss_sampled_sass_trace_global_lower_packed_sequence_floor_exact_r10.py:690-780 | a half-partition rule that is returned predicts every training CTA |
| TableRules.FitHalfFinds | release/workflow/hyfiss_sampled_sass_trace_global_lower_packed_sequence_floor_exact_r10.py:690-780 | if some half-partition rule fits training that covers the family, the fitter succeeds |
| TableRules.HalfUnique | release/workflow/hyfiss_sampled_sass_trace_global_lower_packed_sequence_floor_exact_r10.py:690-780 | two half-partition rules that fit covering training agree at every coordinate of the grid |
| TableRules.AffineInTable | release/workflow/hyfiss_sampled_sass_trace_global_lower_packed_sequence_floor_exact_r10.py:584-687 | every affine rule is a y-table rule with the same values |
| TableRules.TableInHalf | release/workflow/hyfiss_sampled_sass_trace_global_lower_packed_sequence_floor_exact_r10.py:626-780 | every y-table rule is a half-partition rule with the same values |
| TableRules.CoverageIsNested | release/workflow/hyfiss_sampled_sass_trace_global_lower_packed_sequence_floor_exact_r10.py:626-780 | the coverage a wider family demands implies the coverage of the narrower ones |
| Cascade.FitAffineExactly | release/workflow/hyfiss_sampled_sass_trace_global_lower_packed_sequence_floor_exact_r10.py:584-623 | the affine fitter succeeds exactly when the training covers each axis it needs and some affine rule fits |
| Cascade.FitTableExactly | release/workflow/hyfiss_sampled_sass_trace_global_lower_packed_sequence_floor_exact_r10.py:626-687 | the y-table fitter succeeds exactly when its coverage checks hold and some y-table rule fits |
| Cascade.FitHalfExactly | release/workflow/hyfiss_sampled_sass_trace_global_lower_packed_sequence_floor_exact_r10.py:690-780 | the half-partition fitter succeeds exactly when its coverage checks hold and some half-partition rule fits |
| FloorQuotient.FloorIdentification | release/workflow/hyfiss_sampled_sass_trace_global_lower_packed_sequence_floor_exact_r10.py:783-848 | given the size, anchor, level and plateau checks, the search over divisors 2..first change succeeds exactly when one divisor d >= 2 over all integers admits a fit, and returns it with the only intercept and stride; divisor 1 admits none |
| FloorQuotient.LargeDivisorsFail | release/workflow/hyfiss_sampled_sass_trace_global_lower_packed_sequence_floor_exact_r10.py:814-819 | no divisor beyond the first change admits a fit |
| FloorQuotient.UnitDivisorFails | release/workflow/hyfiss_sampled_sass_trace_global_lower_packed_sequence_floor_exact_r10.py:783-812 | a plateau and three levels rule out divisor 1 |
| FloorQuotient.FitFloorSound | release/workflow/hyfiss_sampled_sass_trace_global_lower_packed_sequence_floor_exact_r10.py:783-848 | a floor-quotient rule that is returned predicts every training CTA |
| FloorQuotient.FitXFloorQuotient | release/workflow/hyfiss_sampled_sass_trace_global_lower_packed_sequence_floor_exact_r10.py:783-848 | the candidate loop returns what the bounded search is defined to return |
| Cascade.FitProfileRuleSound | release/workflow/hyfiss_sampled_sass_trace_global_lower_packed_sequence_floor_exact_r10.py:949-965 | whatever rule the cascade or the exact table gives, it predicts every CTA it was fitted to |
| Cascade.CascadeIdentifiesAffine | release/workflow/hyfiss_sampled_sass_trace_global_lower_packed_sequence_floor_exact_r10.py:851-883 | addresses that follow an affine rule with covering training are predicted on the whole grid |
| Cascade.CascadeIdentifiesTable | release/workflow/hyfiss_sampled_sass_trace_global_lower_packed_sequence_floor_exact_r10.py:851-883 | addresses that follow a y-table rule with training that covers that family are predicted on the whole grid, even when the cascade stops at an affine rule |
| Cascade.CascadeIdentifiesHalf | release/workflow/hyfiss_sampled_sass_trace_global_lower_packed_sequence_floor_exact_r10.py:851-883 | the same for the half-partition family, whichever family the cascade stops at |
| Cascade.CascadeIdentifiesFloor | release/workflow/hyfiss_sampled_sass_trace_global_lower_packed_sequence_floor_exact_r10.py:851-883 | addresses that follow an identified floor-quotient rule make the cascade pass over the other families and return exactly that rule |
| TrainingChecks.StopsAtNarrowest | release/workflow/hyfiss_sampled_sass_trace_global_lower_packed_sequence_floor_exact_r10.py:851-883 | the cascade returns an affine rule exactly when training covers that family and one fits, a y-table rule exactly when not that but its own family does, then half-partition; only otherwise floor quotient |
| TrainingChecks.AffineCoverIs | release/workflow/hyfiss_sampled_sass_trace_global_lower_packed_sequence_floor_exact_r10.py:584-623 | affine coverage spelled out: for each axis longer than one, a training CTA that differs from the first in that coordinate alone |
| TrainingChecks.TableCoverIs | release/workflow/hyfiss_sampled_sass_trace_global_lower_packed_sequence_floor_exact_r10.py:626-687 | y-table coverage spelled out: the same along x and z, and every y at the first CTA's x and z |
| TrainingChecks.HalfCoverIs | release/workflow/hyfiss_sampled_sass_trace_global_lower_packed_sequence_floor_exact_r10.py:690-780 | half-partition coverage spelled out: four planes or more, the first CTA in plane 0, x and y as before, and a CTA over the first in the lower planes, half rounded up, and one in the rest |
| TrainingChecks.FloorChecksAre | release/workflow/hyfiss_sampled_sass_trace_global_lower_packed_sequence_floor_exact_r10.py:783-812 | the floor-quotient checks spelled out for addresses of that form: a grid along x, five CTAs with CTA 0, three addresses, two CTAs with one address, no change before CTA 2 |
| Coverage.IdentifiedExactlyWhenCovered | release/workflow/hyfiss_sampled_sass_trace_global_lower_packed_sequence_floor_exact_r10.py:851-883 | for any addresses that follow some rule: the cascade's result is right on the whole grid exactly when training meets the coverage of the narrowest family that holds the addresses; for floor-quotient rules, when the training CTAs single out the divisor |
| Coverage.AffineIdentifiedExactlyWhen | release/workflow/hyfiss_sampled_sass_trace_global_lower_packed_sequence_floor_exact_r10.py:584-623 | affine addresses are predicted right on the whole grid exactly when training varies each axis it needs |
| Coverage.TableIdentifiedExactlyWhen | release/workflow/hyfiss_sampled_sass_trace_global_lower_packed_sequence_floor_exact_r10.py:626-687 | addresses with y offsets that are not linear in y are predicted right on the whole grid exactly when training meets the y-table coverage |
| Coverage.HalfIdentifiedExactlyWhen | release/workflow/hyfiss_sampled_sass_trace_global_lower_packed_sequence_floor_exact_r10.py:690-780 | addresses with a nonzero step at half the z extent, three planes or more, are predicted right on the whole grid exactly when training meets the half-partition coverage |
| Coverage.FloorIdentifiedExactlyWhen | release/workflow/hyfiss_sampled_sass_trace_global_lower_packed_sequence_floor_exact_r10.py:783-848 | floor-quotient addresses that are not affine are predicted right on the whole grid exactly when the training CTAs pass the family's checks and admit its divisor alone |
| Coverage.TableIsAffineExactlyWhen | release/workflow/hyfiss_sampled_sass_trace_global_lower_packed_sequence_floor_exact_r10.py:584-687 | a y-table rule gives affine addresses exactly when its offsets are linear in y |
| Coverage.HalfIsTableExactlyWhen | release/workflow/hyfiss_sampled_sass_trace_global_lower_packed_sequence_floor_exact_r10.py:626-780 | a half-partition rule gives y-table addresses exactly when its step is zero or there are at most two planes |
| StepExample.StepNotIdentified | release/workflow/hyfiss_sampled_sass_trace_global_lower_packed_sequence_floor_exact_r10.py:851-883 | two planes on one side of a step fit both the stepped and the plain affine truth; the cascade finds the plain one |
| StepExample.UncoveredStepIsAdmitted | release/workflow/hyfiss_sampled_sass_trace_global_lower_packed_sequence_floor_exact_r10.py:1155-1180 | the base gate does not make up for missing coverage: a stepped kernel trained on planes 0 and 1 of six and held out at plane 2 is profiled, is right at plane 2 and predicts 12 at plane 3 where the base is 112 |
| Template.PredictEntryBases | release/workflow/hyfiss_sampled_sass_trace_global_lower_packed_sequence_floor_exact_r10.py:886-931 | the loop over an entry's rules predicts rule by rule and fails with the first rule that fails |
| Template.BuildClassTemplate | release/workflow/hyfiss_sampled_sass_trace_global_lower_packed_sequence_floor_exact_r10.py:968-1023 | the loops over records and groups build one entry per anchor record in sequence order, with its rules, rank, delta and tables |
| Template.MinTimeIsFirst | release/workflow/hyfiss_sampled_sass_trace_global_lower_packed_sequence_floor_exact_r10.py:986-989 | the time deltas are counted from is that of some record, and none is earlier |
| Clocks.TemplateClock | release/workflow/hyfiss_sampled_sass_trace_global_lower_packed_sequence_floor_exact_r10.py:986-1023 | at a CTA whose own times a template has, its entries are the CTA's events with their times counted from its first instruction, each as often |
| Clocks.DeltasCountFromFirst | release/workflow/hyfiss_sampled_sass_trace_global_lower_packed_sequence_floor_exact_r10.py:986-1019 | no delta is negative, some entry's is zero, and two deltas are as far apart as the times of the records with these events |
| Meaning.TemplateMeaning | release/workflow/hyfiss_sampled_sass_trace_global_lower_packed_sequence_floor_exact_r10.py:968-1023 | at every CTA a template was built from, its events are exactly that CTA's events, each as often, although the stride tokens are the anchor's |
| Meaning.HoldoutMeaning | release/workflow/hyfiss_sampled_sass_trace_global_lower_packed_sequence_floor_exact_r10.py:1155-1180 | at a CTA of the same structure whose bases are predicted exactly, the template's events are exactly that CTA's events |
| Holdout.CheckHoldout | release/workflow/hyfiss_sampled_sass_trace_global_lower_packed_sequence_floor_exact_r10.py:1155-1206 | the base, lane and sector gates together pass exactly when every base is predicted at every holdout CTA and there is an address to predict: the base gate implies the other two |
| Holdout.SectorsAre | release/workflow/hyfiss_sampled_sass_trace_global_lower_packed_sequence_floor_exact_r10.py:1177-1180 | a sector is 32 bytes |
| Holdout.LanesOf | release/workflow/hyfiss_sampled_sass_trace_global_lower_packed_sequence_floor_exact_r10.py:1165-1176 | lane expansion never fails in the gate, both sides are equally long, and equal bases give equal lane addresses |
| Extrapolation.TemplateExtrapolates | release/workflow/hyfiss_sampled_sass_trace_global_lower_packed_sequence_floor_exact_r10.py:968-1023 | a template trained on CTAs that single out the kernel's address law stands, at every CTA of the grid with the anchor's structure and the law's bases, for exactly that CTA's events, captured or not |
| Classes.GroupsPartition | release/workflow/hyfiss_sampled_sass_trace_global_lower_packed_sequence_floor_exact_r10.py:1086-1112 | grouping CTAs by structure gives classes that are uniform, told apart by structure, and hold every CTA |
| Classes.GroupByStructure | release/workflow/hyfiss_sampled_sass_trace_global_lower_packed_sequence_floor_exact_r10.py:1086-1112 | the dictionary filled CTA by CTA, sorted by smallest member, is that grouping |
| Classes.OneClassIffUniform | release/workflow/hyfiss_sampled_sass_trace_global_lower_packed_sequence_floor_exact_r10.py:1090-1106 | there is more than one class exactly when two CTAs differ in structure |
| Classes.ClassIdInjective | release/workflow/hyfiss_sampled_sass_trace_global_lower_packed_sequence_floor_exact_r10.py:1114 | different class indexes have different names |
| LiteralFiles.LiteralClassIds | release/workflow/hyfiss_sampled_sass_trace_global_lower_packed_sequence_floor_exact_r10.py:1117 | class indexes are padded to two digits |
| Classes.GatePartitions | release/workflow/hyfiss_sampled_sass_trace_global_lower_packed_sequence_floor_exact_r10.py:1470-1502 | a class table that passes the gate puts every CTA of the grid in exactly one class, and its map is membership |
| Classes.GateAcceptsExactlyWhen | release/workflow/hyfiss_sampled_sass_trace_global_lower_packed_sequence_floor_exact_r10.py:1470-1502 | the gate accepts exactly the tables of classes with different nonempty names, none empty and none with a CTA twice, that cover the grid, with a map that names each CTA's class |
| Classes.MapNamesAreClassNames | release/workflow/hyfiss_sampled_sass_trace_global_lower_packed_sequence_floor_exact_r10.py:1502 | the gate's last test follows from its others |
| Classes.ClassGate | release/workflow/hyfiss_sampled_sass_trace_global_lower_packed_sequence_floor_exact_r10.py:1470-1502 | the gate's loops accept exactly the tables that satisfy its conditions, and sort each CTA's template by that CTA's own deltas |
| Profile.ProfilePassesGate | release/workflow/hyfiss_sampled_sass_trace_global_lower_packed_sequence_floor_exact_r10.py:1108-1136 | every structural profile passes `generate`'s class gate |
| Profile.ProfilePreservesMeaning | release/workflow/hyfiss_sampled_sass_trace_global_lower_packed_sequence_floor_exact_r10.py:1026-1206 | after a successful profile, in either mode, for every selected CTA, trained on or held out, the template's events at the CTA are exactly the CTA's captured events |
| Extrapolation.SampledProfileExtrapolates | release/workflow/hyfiss_sampled_sass_trace_global_lower_packed_sequence_floor_exact_r10.py:1026-1206 | a sampled profile whose training CTAs single out the kernel's law means, at every CTA of the grid that follows it, exactly that CTA's events, although the CTA was never selected |
| Extrapolation.LawSampleIsProfiled | release/workflow/hyfiss_sampled_sass_trace_global_lower_packed_sequence_floor_exact_r10.py:1026-1206 | a sample whose CTAs follow a law that its training CTAs single out is always profiled: the base, lane and sector gates pass at the held-out CTAs |
| ProfileRun.FillClassMap | release/workflow/hyfiss_sampled_sass_trace_global_lower_packed_sequence_floor_exact_r10.py:1112-1136 | the map written in place names each CTA's class, and no CTA is ever found in two |
| ProfileRun.RunProfile | release/workflow/hyfiss_sampled_sass_trace_global_lower_packed_sequence_floor_exact_r10.py:1084-1206 | the body of `profile` succeeds exactly when the profile so defined exists, and returns it |
| ProfileRun.CompleteProfileSucceeds | release/workflow/hyfiss_sampled_sass_trace_global_lower_packed_sequence_floor_exact_r10.py:1076-1153 | under revision r10 a complete grid is always profiled once its records can be read: exact tables catch what no rule fits |
| ProfileRun.CompleteProfileExactlyWhen | release/workflow/hyfiss_sampled_sass_trace_global_lower_packed_sequence_floor_exact_r10.py:1043-1153 | r10 profiles a complete grid exactly when the CTAs trained on are 0..n-1, none is held out, the capture is MEMCv3, the dimensions multiply to n and all records can be read |
| ProfileRun.SampledSelectionIs | release/workflow/hyfiss_sampled_sass_trace_global_lower_packed_sequence_floor_exact_r10.py:1026-1057 | a sampled profile's CTA lists are nonempty, ascending and disjoint, of CTAs of a grid whose dimensions multiply to n |
| Lines.LineRoundTrip | release/workflow/hyfiss_sampled_sass_trace_global_lower_packed_sequence_floor_exact_r10.py:1352-1364 | a generated line reads back as the block, the fields, the time, the predicted bases and the stride tokens exactly when pc, opcode and mask are nonempty and free of white space |
| LiteralFiles.LiteralEntry | release/workflow/hyfiss_sampled_sass_trace_global_lower_packed_sequence_floor_exact_r10.py:1352-1364 | the literal fields of a line: block, pc, opcode, mask, the time since the first instruction, group count, base with prefix, run count, runs |
| LiteralFiles.LiteralSpaces | release/workflow/hyfiss_sampled_sass_trace_global_lower_packed_sequence_floor_exact_r10.py:124 | fields are separated by the ten white space characters of ASCII text |
| LiteralFiles.LiteralLine | release/workflow/hyfiss_sampled_sass_trace_global_lower_packed_sequence_floor_exact_r10.py:1364 | each field is followed by a space, and the line by a newline |
| LiteralFiles.LiteralHex | release/workflow/hyfiss_sampled_sass_trace_global_lower_packed_sequence_floor_exact_r10.py:111-112 | hexadecimal is read in either case, with or without prefix |
| LiteralFiles.LiteralDec | release/workflow/hyfiss_sampled_sass_trace_global_lower_packed_sequence_floor_exact_r10.py:115-120 | decimal is read with or without a sign |
| Lines.LineReadsExactlyWhen | release/workflow/hyfiss_sampled_sass_trace_global_lower_packed_sequence_floor_exact_r10.py:123-153 | a line is read as a record exactly when it has eight fields or more, block, time and group count are its first, fifth and sixth field in hexadecimal, pc, opcode and mask stand in between, and the rest spells exactly that many groups of base, count and readable stride tokens |
| Lines.ParseMemoryLine | release/workflow/hyfiss_sampled_sass_trace_global_lower_packed_sequence_floor_exact_r10.py:123-153 | the cursor loop returns what the field-by-field definition says, error for error |
| TraceFile.SplitJoinedLines | release/workflow/hyfiss_sampled_sass_trace_global_lower_packed_sequence_floor_exact_r10.py:1521-1540 | lines written one after the other are the lines that reading the file yields exactly when none of them has a newline inside |
| TraceFile.GeneratedLineIsOneLine | release/workflow/hyfiss_sampled_sass_trace_global_lower_packed_sequence_floor_exact_r10.py:1352-1364 | a generated line is one line of the file exactly when its pc, opcode and mask have no newline in them |
| TraceFile.JoinSplitLines | release/workflow/hyfiss_sampled_sass_trace_global_lower_packed_sequence_floor_exact_r10.py:1742-1745 | taking a file apart at its newlines neither loses nor invents a character |
| Numerals.ParseFormatHex | release/workflow/hyfiss_sampled_sass_trace_global_lower_packed_sequence_floor_exact_r10.py:111-112 | a number printed in hexadecimal, with or without prefix, reads back |
| Numerals.ParseFormatStride | release/workflow/hyfiss_sampled_sass_trace_global_lower_packed_sequence_floor_exact_r10.py:115-120 | a stride token reads back as its stride and run |
| Merge.MinHeap.Pop | release/workflow/hyfiss_sampled_sass_trace_global_lower_packed_sequence_floor_exact_r10.py:1524-1525 | takes a least entry, comparing as Python tuples, and nothing else |
| Merge.MergeConserves | release/workflow/hyfiss_sampled_sass_trace_global_lower_packed_sequence_floor_exact_r10.py:1516-1552 | with no assumption about order: each CTA's instructions are emitted exactly once, in template order, nothing else is, and the line count is the sum of the template lengths |
| Merge.MergeOrderedExactlyWhenMonotone | release/workflow/hyfiss_sampled_sass_trace_global_lower_packed_sequence_floor_exact_r10.py:1504-1547 | the popped keys (start + delta, sm, block, ordinal) ascend strictly over the whole run exactly when no CTA's deltas go back along its own template |
| Merge.MergeUnique | release/workflow/hyfiss_sampled_sass_trace_global_lower_packed_sequence_floor_exact_r10.py:1516-1547 | the heap's choices leave no freedom: there is one run |
| Generate.RunGenerate | release/workflow/hyfiss_sampled_sass_trace_global_lower_packed_sequence_floor_exact_r10.py:1440-1552 | the heap loop succeeds exactly when the issue map covers the grid in range, the templates pass, and every instruction has its delta and nonnegative predicted bases; its lines are then those of the complete merge, and the final count check never fails |
| Generate.GeneratesExactlyWhen | release/workflow/hyfiss_sampled_sass_trace_global_lower_packed_sequence_floor_exact_r10.py:1440-1540 | these checks spelled out: the dimensions multiply to n, every CTA and no other has a place on one of the SMs, the template is not empty or the class table partitions the grid, and every entry has a time and nonnegative predicted bases at its CTA |
| Clocks.LinesCarryTimes | release/workflow/hyfiss_sampled_sass_trace_global_lower_packed_sequence_floor_exact_r10.py:1524-1540 | every generated line, parsed back, carries its CTA and event, and a time that added to the CTA's start in the issue map is the time of the heap entry it was popped for |
| Clocks.TimesSurvive | release/workflow/hyfiss_sampled_sass_trace_global_lower_packed_sequence_floor_exact_r10.py:1504-1540 | for a complete grid profiled with tables, the parsed lines of a CTA are its events with their times counted from its first instruction, each as often |
| Clocks.CapturedTimesSurvive | release/workflow/hyfiss_sampled_sass_trace_global_lower_packed_sequence_floor_exact_r10.py:1026-1552 | the same from the capture's bytes to the text |
| Clocks.SharedTimes | release/workflow/hyfiss_sampled_sass_trace_global_lower_packed_sequence_floor_exact_r10.py:1008-1023 | without tables every CTA gets the times of the first CTA trained on |
| Clocks.FileInTimeOrder | release/workflow/hyfiss_sampled_sass_trace_global_lower_packed_sequence_floor_exact_r10.py:1504-1547 | with structural classes, with held-out CTAs and without tables the lines of the file ascend in absolute time |
| Generate.Turn | release/workflow/hyfiss_sampled_sass_trace_global_lower_packed_sequence_floor_exact_r10.py:1524-1547 | one turn keeps the heap at one entry per unfinished CTA and comes closer to the end |
| Generate.OrderTemplates | release/workflow/hyfiss_sampled_sass_trace_global_lower_packed_sequence_floor_exact_r10.py:1470-1506 | `template_by_block` holds each CTA's template in the order it is merged in |
| Generate.GenerationExists | release/workflow/hyfiss_sampled_sass_trace_global_lower_packed_sequence_floor_exact_r10.py:1508-1552 | whatever passes the checks of `generate` has a generated text |
| Generate.GenerationUnique | release/workflow/hyfiss_sampled_sass_trace_global_lower_packed_sequence_floor_exact_r10.py:1508-1552 | there is only one generated text for a profile and an issue map |
| Schedule.CompleteProfileGenerates | release/workflow/hyfiss_sampled_sass_trace_global_lower_packed_sequence_floor_exact_r10.py:1367-1552 | the profile of a complete grid can be generated from exactly when the issue map covers the grid and some CTA has a record |
| Schedule.EntryTimes | release/workflow/hyfiss_sampled_sass_trace_global_lower_packed_sequence_floor_exact_r10.py:1008-1023 | deltas are counted from the CTA's first instruction, so none is negative, and none is missing for a CTA of the class |
| Timing.AlwaysOrdered | release/workflow/hyfiss_sampled_sass_trace_global_lower_packed_sequence_floor_r9.py:1136-1151 | with structural classes, with held-out CTAs, and on a uniform grid without tables (revision r9), the merged output is always in strict order |
| Timing.UniformTablesOrderedExactlyWhen | release/workflow/hyfiss_sampled_sass_trace_global_lower_packed_sequence_floor_exact_r10.py:1504-1514 | revision r10 on a uniform complete grid: the output is in strict order exactly when no CTA executes two instructions in the opposite order of CTA 0 |
| Timing.ReversedPairOutOfOrder | release/workflow/hyfiss_sampled_sass_trace_global_lower_packed_sequence_floor_exact_r10.py:1146-1153 | two CTAs with opposite orders are profiled as uniform by r10, and their output is out of order for every issue map |
| IssueMap.IssueRoundTrip | release/workflow/hyfiss_sampled_sass_trace_global_lower_packed_sequence_floor_exact_r10.py:1329-1349 | the issue.config that `generate` writes reads back as the same SM count and the same map, and as an empty map for any other kernel |
| IssueMap.RowsByStart | release/workflow/hyfiss_sampled_sass_trace_global_lower_packed_sequence_floor_exact_r10.py:1463 | within an SM's row start times ascend, and equal ones go by CTA number |
| IssueMap.EnterExactlyWhen | release/workflow/hyfiss_sampled_sass_trace_global_lower_packed_sequence_floor_exact_r10.py:1342-1347 | a tuple is entered exactly when its numbers are readable and its CTA has no place yet; one of another kernel changes nothing |
| LiteralFiles.LiteralFieldChars | release/workflow/hyfiss_sampled_sass_trace_global_lower_packed_sequence_floor_exact_r10.py:50 | the characters of a tuple's fields, one by one |
| LiteralFiles.LiteralIssueConfig | release/workflow/hyfiss_sampled_sass_trace_global_lower_packed_sequence_floor_exact_r10.py:1329-1349 | a literal issue.config of three CTAs on two SMs, as it is written and read |
| IssueMap.ParseIssueConfig | release/workflow/hyfiss_sampled_sass_trace_global_lower_packed_sequence_floor_exact_r10.py:1329-1349 | the line and match loops return what the recursive definition says, error for error |
| IssueMap.WriteIssueConfig | release/workflow/hyfiss_sampled_sass_trace_global_lower_packed_sequence_floor_exact_r10.py:1455-1468 | regrouping by SM and sorting each row by (start, block) gives the file so defined |
| AppConfig.LineAgreesExactlyWhen | release/workflow/hyfiss_sampled_sass_trace_global_lower_packed_sequence_floor_exact_r10.py:511-519 | a line of app.config is read alike by r10's pattern and r2's prefix scan for every kernel exactly when its number has no leading zero and its key is closed by a space or the end (or it has no key) |
| AppConfig.IndexRefinesScan | release/workflow/hyfiss_sampled_sass_trace_global_lower_r2.py:436-451 | r10's one-pass index of a file holds under every kernel what r2's scan for that kernel finds exactly when every line of the file is regular |
| AppConfig.ScanKernel | release/workflow/hyfiss_sampled_sass_trace_global_lower_r2.py:436-451 | the per-kernel scan of r2 returns the lines and last values the definition says, or fails its field checks |
| AppConfig.CheckedExactlyWhen | release/workflow/hyfiss_sampled_sass_trace_global_lower_r2.py:445-451 | a kernel is accepted exactly when it has lines and nonempty kernel_name, grid_size, block_size and llama_phase |
| AppConfig.DirectLines | release/workflow/hyfiss_sampled_sass_trace_global_lower_r2.py:436-444 | a kernel's section holds its lines in file order |
| AppConfig.LastValue | release/workflow/hyfiss_sampled_sass_trace_global_lower_r2.py:436-444 | each key has the value of the last line that gives it one |
| AppConfig.StripIs | release/workflow/hyfiss_sampled_sass_trace_global_lower_packed_sequence_floor_exact_r10.py:519 | values lose the white space at both ends, all of it, and nothing else |
| AppConfig.ConfigCache.KernelLines | release/workflow/hyfiss_sampled_sass_trace_global_lower_packed_sequence_floor_exact_r10.py:504-534 | over any series of queries, if a file's identity determines its content, the cache stays right, and it answers as r2's scan would for all kernels exactly when the file's lines are regular |
| AppConfig.LeadingZeroIsMissed | release/workflow/hyfiss_sampled_sass_trace_global_lower_r2.py:436-444 | a number with a leading zero is found by the index and missed by the scan |
| Audit.FoldIgnoresOrder | release/workflow/hyfiss_sampled_sass_trace_global_lower_packed_sequence_floor_exact_r10.py:1715-1724 | accumulating any permutation of the same events gives the same per-CTA state, for any digest functions |
| Audit.FoldIs | release/workflow/hyfiss_sampled_sass_trace_global_lower_packed_sequence_floor_exact_r10.py:1715-1724 | each CTA's state is its event count, the digest sum modulo 2^128, written out, and the xor of the second digests; CTAs without events have none |
| Audit.LaneCountIs | release/workflow/hyfiss_sampled_sass_trace_global_lower_packed_sequence_floor_exact_r10.py:1724 | as many lanes are counted for a record as it has active-lane addresses |
| Audit.SortedItemsAre | release/workflow/hyfiss_sampled_sass_trace_global_lower_packed_sequence_floor_exact_r10.py:1727-1734 | the final digest is taken over every CTA with its state, in strictly ascending order |
| Audit.CensusIs | release/workflow/hyfiss_sampled_sass_trace_global_lower_packed_sequence_floor_exact_r10.py:1727-1754 | a census holds the numbers of events, of their lanes and of their CTAs, and exists exactly when CTA numbers and counts fit in eight bytes |
| LiteralFiles.LiteralEvent | release/workflow/hyfiss_sampled_sass_trace_global_lower_packed_sequence_floor_exact_r10.py:1706-1712 | the literal parts of the text that an event of two lanes is digested as |
| EventCode.EventTextIdentifies | release/workflow/hyfiss_sampled_sass_trace_global_lower_packed_sequence_floor_exact_r10.py:1706-1712 | different events are digested as different texts, whatever characters their opcodes have: pc, opcode, mask, bases and active-lane offsets all enter the certificate |
| Audit.CensusIgnoresOrder | release/workflow/hyfiss_sampled_sass_trace_global_lower_packed_sequence_floor_exact_r10.py:1727-1754 | equal multisets of events have equal line, lane and CTA counts and equal certificates |
| Audit.SemanticState.Accumulate | release/workflow/hyfiss_sampled_sass_trace_global_lower_packed_sequence_floor_exact_r10.py:1715-1724 | updates the CTA's state in place by one event and returns its active lanes; an unreadable record changes nothing |
| Audit.CensusLoop | release/workflow/hyfiss_sampled_sass_trace_global_lower_packed_sequence_floor_exact_r10.py:1737-1754 | the loop over lines accumulates exactly the events of the parsed lines, and fails exactly when a line or a record cannot be read |
| Audit.CaptureLoop | release/workflow/hyfiss_sampled_sass_trace_global_lower_packed_sequence_floor_exact_r10.py:1757-1785 | the loop over the capture's files and records accumulates exactly the events of the lowered records, and fails exactly when a file cannot be decoded, a sequence number is not its predecessor's successor, or a record cannot be lowered and read |
| Certificate.CensusDeterminesEvents | release/workflow/hyfiss_sampled_sass_trace_global_lower_packed_sequence_floor_exact_r10.py:1727-1754 | the certificate determines the events: two runs have the same census for all digest functions exactly when they hold the same events of the same CTAs, each as often |
| Certificate.AuditPassesForAllDigestsExactlyWhen | release/workflow/hyfiss_sampled_sass_trace_global_lower_packed_sequence_floor_exact_r10.py:1757-1794 | what a passed audit means: it passes for all digest functions exactly when the capture is contiguous, text and capture hold the same events, and CTA numbers and counts fit in eight bytes |
| Certificate.BarredPcCollides | release/workflow/hyfiss_sampled_sass_trace_global_lower_packed_sequence_floor_exact_r10.py:1706-1712 | a bar in a pc would let two different events be digested as the same text |
| Pipeline.LoweredFromWire | release/workflow/hyfiss_sampled_sass_trace_global_lower_packed_sequence_floor_exact_r10.py:256-402 | whatever the decoder yields and lowering accepts has a readable structure, at least one group, nonnegative bases and tokens without white space |
| Pipeline.CollectedGood | release/workflow/hyfiss_sampled_sass_trace_global_lower_packed_sequence_floor_exact_r10.py:405-481 | every collected CTA has distinct sequence numbers and readable, nonempty records |
| Replay.SelectedCtasSurvive | release/workflow/hyfiss_sampled_sass_trace_global_lower_packed_sequence_floor_exact_r10.py:1026-1552 | after any successful profile, sampled or complete, whatever text is generated from it, parsed back, holds at every selected CTA exactly the events captured there |
| Replay.GeneratedFileReadsBack | release/workflow/hyfiss_sampled_sass_trace_global_lower_packed_sequence_floor_exact_r10.py:1521-1545 | the file that `generate` writes after any successful profile, taken apart at its newlines, is the generated lines again |
| Replay.MirrorHoldsEvents | release/workflow/hyfiss_sampled_sass_trace_global_lower_packed_sequence_floor_exact_r10.py:1504-1552 | the text of any profile whose templates stand for a capture's events on the grid, parsed back, holds exactly those events |
| Replay.AuditExactlyWhen | release/workflow/hyfiss_sampled_sass_trace_global_lower_packed_sequence_floor_exact_r10.py:1757-1794 | a text that holds a capture's events on the grid passes the audit against it exactly when the capture is contiguous, stays on the grid and no CTA's event count needs more than eight bytes |
| Replay.GeneratedHoldsCapturedEvents | release/workflow/hyfiss_sampled_sass_trace_global_lower_packed_sequence_floor_exact_r10.py:1026-1552 | the text generated from a complete grid, parsed back, holds the captured events of the grid's CTAs: same block, pc, opcode, mask, bases and active-lane offsets, each as often |
| Replay.AuditPassesExactlyWhen | release/workflow/hyfiss_sampled_sass_trace_global_lower_packed_sequence_floor_exact_r10.py:1706-1794 | after profile and generate on a complete grid with opcodes free of white space, the audit of the generated text against the capture passes exactly when the sequence numbers are contiguous, all CTAs are on the grid and no CTA's event count needs more than eight bytes, for any digest functions |
| Replay.CompleteGridPassesAudit | release/workflow/hyfiss_sampled_sass_trace_global_lower_packed_sequence_floor_exact_r10.py:1026-1794 | the whole pipeline under r10: a complete grid that is collected without gaps, stays on the grid, is not empty and has opcodes free of white space is profiled and generated without failure, to one text only, and the audit of that text passes, for any issue map that covers the grid and any digest functions |
| Replay.OneLoadPassesAudit | release/workflow/hyfiss_sampled_sass_trace_global_lower_packed_sequence_floor_exact_r10.py:1026-1794 | the premises of that theorem can be met: a concrete one-record capture goes through |
| Replay.CompleteGridAlwaysReplays | release/workflow/hyfiss_sampled_sass_trace_global_lower_packed_sequence_floor_exact_r10.py:1026-1552 | under r10 a complete grid that can be collected can always be profiled, and generated from exactly when the issue map covers it and the grid has a record |
| SampledReplay.SampledAuditPassesExactlyWhen | release/workflow/hyfiss_sampled_sass_trace_global_lower_packed_sequence_floor_exact_r10.py:1026-1794 | the sampled mode: if the selected CTAs follow a law that the training CTAs single out, the text generated for the whole grid passes the audit against a capture of a whole grid that follows the law exactly when that capture is contiguous, stays on the grid and has no count that overflows |
| SampledReplay.SampledGridPassesAudit | release/workflow/hyfiss_sampled_sass_trace_global_lower_packed_sequence_floor_exact_r10.py:1026-1794 | the sampled pipeline as a whole: such a sample is profiled with its held-out CTAs and generated for the whole grid without failure, to one text, and that text passes the audit against the capture of all CTAs |
| SampledExample.RampSamplePassesAudit | release/workflow/hyfiss_sampled_sass_trace_global_lower_packed_sequence_floor_exact_r10.py:1026-1794 | the premises of that theorem can be met: from encoded captures of three of a kernel's CTAs and of all six, the sample is profiled and generated, and the text passes the audit |
| SampledReplay.LoweredHasLane | release/workflow/hyfiss_sampled_sass_trace_global_lower_packed_sequence_floor_exact_r10.py:286-402 | whatever the decoder yields and lowering accepts has an active lane in its first group |

## Left out

- Files, JSON, command-line arguments, hashes of inputs, wall-clock times: a capture is a sequence of bytes, a trace the sequence of its lines with their newlines (`TraceFile` joins them to a file and takes it apart), a configuration file its lines without them, and a profile a value, and the two revisions' caches are modelled only for app.config.
- BLAKE2b and SHA-256 are arbitrary functions: a certificate that agrees for all of them determines the events, but that these particular functions do not collide is not claimed.
- `collect_ctas`, the raw-text capture path, and its flat rule set beyond `fit_affine`: the MEMCv3 path contains the harder version of each step.
- `discover_memc_files`, `sample_plan_ctas`, `parse_ids` and `structure_sha256`: file discovery, CSV reading and a fingerprint; CTA lists arrive parsed, sorted and checked by `SelectionOk`.
- Retargeting a profile to another kernel, which compares metadata and then runs the same generation.
- `compare`, `csv_row`, `memgen_metrics`, `relative`, `metric_errors`: floating-point reports about an external cache model.
- Lines.ParseMemoryLine: number tokens are digits, with one sign in decimal and one `0x` prefix in hexadecimal; the further spellings that Python's int() accepts (underscores, signs in hexadecimal, a second `0x`, non-ASCII digits) are errors in the model. No writer of the tool produces them.
- IssueMap.ParseIssueConfig: the SM count and the SM numbers are digits with one optional sign; the underscores and non-ASCII digits that Python's int() accepts there, and a second `0x` in a start time, are errors in the model.
- Text is ASCII: `str.split`, `str.strip` and `\s` know the ASCII white space only, `\d` the digits 0 to 9.
- Which error is raised when several apply is modelled for the decoder, the parsers, the fitters and template building; `CollectCtas` and the profile and generation methods state only whether they succeed.
- Fields of a record that no later stage reads (`sm`, `cta_warp`, `function`, `relative_clock`) are decoded and then dropped by lowering.
- Iteration order of dictionaries: CTAs are visited in ascending order when they are grouped by structure or by SM; the source sorts the results by keys that are distinct, so the order does not show.
- Classes.GroupByStructure: groups come in the order of their smallest members, which is how the source sorts them; the dictionary's own order is not modelled.
- Merge.MinHeap.Pop: heapq by its contract, a least entry of a multiset, not its array layout.
- Varint.ByteStream.ReadUvar: the bitwise `|` of disjoint seven-bit payloads is written as addition.
- Holdout.CheckHoldout: when there is nothing to predict the source divides by zero; the model fails with an ordinary error.
- Pipeline.CollectedGood: assumes nothing about the files beyond their being accepted; a file that changes while it is read is not modelled.
- AppConfig.ConfigCache.KernelLines: the check that a file did not change while it was indexed, and the locks around the cache.
