# Verification model of the experimental modeling kernel

This project models, in Dafny 4.11, the parts of the repository on which other parts rely for safety or
agreement, and proves what they promise for all inputs, all runs and all reachable states. `dafny verify
dfyconfig.toml` checks everything.

## What is modelled

**Distances, rays and paths** (`Vectors`, `Norms`, `TriangleDistance`, `TriangleFallback`, `Ray`, `Clearance`,
`ConnectedPath`, `Reachability`). The closest-point regions of a triangle, with every branch and both
thresholds; the three-segment fallback; the two-sided ray test; the sampled clearance loop with its work limit;
the breadth-first search over the mesh edges inside a region. Arithmetic is over exact reals, and a distance is
represented by its square, so `norm` never appears as a root; the norm of a path segment, by which the program
divides, is an input with its defining property. IEEE rounding is outside the model.

**Comparing surfaces** (`Rotations`, `Translation`, `Presentation`, `TranslationLaws`, `TranslationMeaning`,
`PreservedRegion`, `RegionLaws`, `RegionMeaning`). The version-2 translation check (canonical oriented polygons, edge
multiset, exact distance test) and the preserved-region check (sorted selections, ranks, a counter of oriented
triangles). The scaling of a corner normal to unit length and the angle between two normals are arbitrary functions;
the corner normals of the preserved-region check are given already rounded to six places.

**Canonical JSON** (`Bytes`, `Unicode`, `CanonicalNumbers`, `Json`, `JsonPrinter`, `JsonParser`, `JsonRoundTrip`,
`CanonicalJson`, `NumeralGrammar`, `StringGrammar`, `JsonGrammar`). Strict UTF-8, numbers (Python `int` and finite
`Decimal`; a float enters as the `Decimal` of its `str`), the canonical printer, and the strict parser for the grammar
of RFC 8259, sections 2 to 7, including surrogate escapes as Python reads them and every limit of the repository.
Python's `bit_length` pre-check never decides alone (a longer integer also has more than 256 digits), so only the
digit check is modelled. What the decoder accepts, and as which value, is characterised over the concrete syntax of a
document: white space, and every spelling of a number or a string.

**Requests** (`Slug`, `CharacterSpec`, `RequestNumbers`, `RequestForm`, `RequestFingerprint`, `RequestMeaning`). From
JSON to a validated request, to its dictionary, to canonical bytes and back, and the fingerprint's own re-validation.
All refusals of a request are one outcome, `None`; what is accepted is characterised by the published format, field by
field. SHA-256 is an arbitrary function of bytes.

**The project store** (`StoreHistory`, `EvidenceStore`). A build as a sequence of filesystem actions on one disk
state: creating, filling and syncing a file, syncing a whole revision in place, renaming, replacing, syncing a
directory. A process may stop after any action, and the power may be lost between any two operations. The power-loss
model: what was synced is kept, an unsynced directory entry is there or not, a file of a revision that was not synced
in place keeps its contents, is torn or is gone, and `last_good.json` is its value at the last sync of the store or
any value that replaced it since. Result and rule hashes are arbitrary functions, and no injectivity is assumed. One
build runs at a time, as the store lock ensures. One part of the state is history and not on disk: which revisions
were built when the rules were locked.

**Two-path verdicts** (`Verdicts`, `VerdictReports`). The checks behind the controller's decision and the report
that is rebuilt row by row, for both policy versions. The individual measurements are arbitrary functions that
may raise, and both paths use the same ones. The guarded part of a build is a sequence of nine stages, each of which
adds to the result or raises; the report reads the observation again, and that reading may differ from the inspected
one in any way.

**Journals** (`ModelCalls`, `Workbench`). Every section under a lock is one step, as are the effects outside it
(provider call, spawn, exit of a child); threads, failed writes, writes that raise after taking effect, crashes and
restarts interleave freely. Money is a whole number of millionths of a dollar.

**Process trees** (`ProcessTree`, `TailBuffer`). The descendant search on any snapshot, cyclic ones included, and the
freeze protocol while other processes run between any two signals. Assumptions of the protocol: a snapshot of the
process table is atomic; a stopped process cannot fork; process IDs are not reused while the tree is being frozen;
an orphan goes to process 1 or below or to a process above it; the supervisor is outside the tree.

**Smaller cores** (`Shells`, `Png`, `Layout`, `LayoutExtent`, `LayoutAttachment`). Counting shells of a face graph,
removing metadata chunks from a PNG (chunk layout of ISO/IEC 15948, section 5.3), and the layout arithmetic of the
character generator over exact reals, up to what each primitive checks, how the parts hang together and how high they
are.

## What turned out not to hold

Each of these is stated with a failing input or run, next to the exact condition under which the property holds.

- `point_triangle_distance` is not the distance to every triangle. At or below the area floor it measures the boundary
  only, which is too far when the foot of the perpendicular is strictly inside (`TriangleFallback.FallbackTooLarge`);
  and it takes an edge of at most 1e-15 for its first end, which is too far for points past that end
  (`TriangleFallback.ShortEdgeTooLarge`, `TriangleFallback.SegmentExactIff`). On all inputs the exact condition is
  `TriangleFallback.AnswerExactIff`, and the second kind of error is at most 1e-15 (`TriangleFallback.AnswerNear`).
- Canonical output is not always decodable: 1e288 prints as 289 characters and the decoder refuses the token
  (`CanonicalJson.LargeExponentIsNotReadBack`, `CanonicalJson.RoundTripExactly`).
- The version-1 rows can all pass while the whole check raises: hashes missing on both sides, or unusable vertices
  when there is no constraint (`VerdictReports.MissingHashIsNotInRows`, `VerdictReports.BadVerticesAreNotInRows`,
  `VerdictReports.RowsDecideV1`).
- An accepted build is not always machine-verified by its own report: the observation file may be gone, or hold
  another observation, when the report reads it again (`VerdictReports.AcceptedAndNotVerified`). It is verified if and
  only if it was accepted and the observation read again passes (`VerdictReports.VerifiedIff`).
- A recorded rule hash can lose its lock. A build stopped between writing the lock and syncing the store leaves a lock
  that later builds find, never sync, and record; a power loss then takes the lock, and every later build is refused
  (`EvidenceStore.LockIsLost`). A power loss keeps the lock of recorded hashes in every case if and only if the lock
  was durable or nothing was recorded (`EvidenceStore.LossKeepsLockIff`); builds alone always keep it
  (`EvidenceStore.Store.Build`, `EvidenceStore.Replay`).
- Not every result written after the rules were locked records the lock: an attempt that failed before it wrote its
  own copy of the rules does not (`EvidenceStore.EarlyFailure`, `EvidenceStore.RecordsTheLock`).
- The freeze loop may end after eight passes without two stable ones, and then promises nothing; `ProcessTree.Freeze`
  returns whether it was stable.

## Model

| member | source | states |
|---|---|---|
| TriangleDistance.TriangleExact | experimental_modeling/requirements.py:163-183 | above the area floor the answer is attained by a point of the triangle and no point of the triangle is closer, in all seven regions |
| TriangleDistance.AreasPositive | experimental_modeling/requirements.py:173-181 | when every region test has failed, va, vb and vc are positive, so the guard on the denominator is never taken |
| TriangleDistance.AreaSum | experimental_modeling/requirements.py:173-181 | va + vb + vc is the squared doubled area, the divisor of the face branch |
| TriangleFallback.AnswerAttained | experimental_modeling/requirements.py:156-183 | on every input, degenerate ones included, some point of the triangle is at the answered distance |
| TriangleFallback.BoundaryClosest | experimental_modeling/requirements.py:169-180 | when the foot is not strictly inside, a point of the boundary is closest |
| TriangleFallback.SegmentExactIff | experimental_modeling/requirements.py:156-160 | the segment distance is exact if and only if the edge has no length, is longer than 1e-15, or the point is not past its first end |
| TriangleFallback.MeasuredIff | experimental_modeling/requirements.py:156-168 | the least of the three answers is at most each exact edge distance if and only if some nearest edge is measured |
| TriangleFallback.FallbackExactIff | experimental_modeling/requirements.py:156-168 | for any triangle with area, the least of the three segment distances is the distance to it if and only if the foot of the perpendicular is not strictly inside and some nearest edge is measured: it has no length, is longer than 1e-15, or the point is not past its first end |
| TriangleFallback.FallbackFlat | experimental_modeling/requirements.py:156-168 | for a triangle without area the fallback is the distance to it if and only if some nearest edge is measured |
| TriangleFallback.AnswerExactIff | experimental_modeling/requirements.py:163-183 | on every input, the answer is the distance if and only if the triangle is above the floor, or the foot is not strictly inside and some nearest edge is measured |
| TriangleFallback.ResolvedIsMeasured | experimental_modeling/requirements.py:156-160 | with edges of no length or of more than 1e-15 the condition on edges always holds |
| TriangleFallback.AnswerNear | experimental_modeling/requirements.py:156-183 | short edges or not, the answer exceeds the distance by at most 1e-15 unless the foot is strictly inside a triangle below the floor |
| TriangleFallback.ShortEdgeTooLarge | experimental_modeling/requirements.py:156-160 | a point on a short edge, where no nearest edge is measured, whose answer is not zero |
| TriangleFallback.FallbackTooLarge | experimental_modeling/requirements.py:167-168 | an input with a measured nearest edge on which the answer is not the distance |
| Ray.SolutionMeets | experimental_modeling/requirements.py:143-153 | with a nonzero determinant the computed (t, u, v) is a crossing of the line and the plane |
| Ray.SolutionUnique | experimental_modeling/requirements.py:143-153 | and it is the only one |
| Ray.RayExact | experimental_modeling/requirements.py:143-153 | outside the determinant cut-off the answer is t when the crossing is inside the tolerances, and None otherwise |
| Ray.RaySoundAndComplete | experimental_modeling/requirements.py:143-153 | t is answered if and only if there are u, v with o + t d = a + u ab + v ac inside the bounds and t not below -epsilon |
| Clearance.NearestTriangle | experimental_modeling/requirements.py:236 | the minimum over the triangles, attained and a lower bound |
| Clearance.CrossingExists | experimental_modeling/requirements.py:230-233 | the loop finds a crossing strictly inside the segment exactly when some triangle has one |
| Clearance.SampleSegment | experimental_modeling/requirements.py:234-237 | the running minimum after a segment bounds all its samples, which divide it evenly, and is one of them or the value before |
| Clearance.NextMinimum | experimental_modeling/requirements.py:234-237 | the minimum over the first i segments becomes the minimum over i + 1 |
| Clearance.SamplesDivide | experimental_modeling/requirements.py:234-235 | sample 0 and the last sample are the end points of a segment, and the samples between divide it evenly |
| Clearance.ClearanceLoop | experimental_modeling/requirements.py:225-237 | raises exactly on a segment of at most twice epsilon; else lists exactly the blocked segments, counts the samples and has their least distance |
| Clearance.ClearancePath | experimental_modeling/requirements.py:220-238 | raises exactly beyond the work limit or on a short segment; passes exactly when nothing is blocked and the least sampled distance reaches the clearance (what that means for the whole line: CentreLineKeepsClearance) |
| Clearance.SampleCountIsProduct | experimental_modeling/requirements.py:234-238 | the sample count is segments times samples per segment plus one |
| Clearance.BlockedIff | experimental_modeling/requirements.py:226-233 | a segment is listed as blocked if and only if some triangle outside the determinant cut-off meets its line within the tolerances, further than epsilon from both ends |
| Clearance.UnblockedIsClear | experimental_modeling/requirements.py:226-238 | a path with no blocked segment is pierced by no triangle that is not nearly parallel to the segment (outside the determinant cut-off), strictly between epsilon and length - epsilon |
| Clearance.SamplesKeepClearance | experimental_modeling/requirements.py:234-238 | on a passing path every point of every triangle above the area floor keeps the clearance from every sample |
| Clearance.SamplesNearlyKeepClearance | experimental_modeling/requirements.py:234-238 | and with an error of at most 1e-15 every point of any triangle, unless it is below the floor and the foot of the sample is strictly inside it |
| Clearance.CentreLineKeepsClearance | experimental_modeling/requirements.py:220-238 | on a passing path every point of the centre line, sampled or not, keeps the clearance less half a step from every point of every triangle above the area floor |
| ConnectedPath.Adjacency | experimental_modeling/requirements.py:208-210 | the lists join exactly the selected vertices that share an edge, in both directions |
| ConnectedPath.Visit | experimental_modeling/requirements.py:213-215 | one vertex's neighbours become seen, and exactly the new ones are queued |
| ConnectedPath.Search | experimental_modeling/requirements.py:211-215 | the search sees exactly the vertices reachable from the starts |
| ConnectedPath.Connected | experimental_modeling/requirements.py:202-217 | connected if and only if an edge path inside the region leads from a start to a goal; the counts are the sizes of the selected, start, goal and reachable sets |
| Rotations.SameKeyIffRotation | experimental_modeling/translation_v2.py:82-87 | two faces have one key if and only if one is a cyclic rotation of the other |
| Rotations.ReversalIsNoRotation | experimental_modeling/translation_v2.py:82-87 | a face read backwards has another key |
| Rotations.CanonicalOfRotation | experimental_modeling/translation_v2.py:83-87 | corner normals follow their corners into the canonical order, whatever the start |
| Translation.EdgeCounts | experimental_modeling/translation_v2.py:55-59 | raises exactly on an invalid edge; else counts undirected edges with multiplicity |
| Translation.AddFace | experimental_modeling/translation_v2.py:62-87 | one face is accepted exactly when it is valid, its key is new and the corner limit holds |
| Translation.MakeSurface | experimental_modeling/translation_v2.py:33-88 | raises exactly on parts that are not acceptable; else returns the part's surface |
| Translation.LargestError | experimental_modeling/translation_v2.py:107-112 | the largest squared deviation from the requested shift, attained and an upper bound |
| Translation.NormalsWithin | experimental_modeling/translation_v2.py:115-120 | the largest angle is within the tolerance exactly when every pair of normals is |
| Translation.PolygonsWithin | experimental_modeling/translation_v2.py:113-120 | the key, material and normal tests hold exactly when the polygons match one by one |
| Translation.Measure | experimental_modeling/translation_v2.py:96-131 | passes if and only if every vertex moved by delta within tolerance and polygons, materials, normals, palette and edges agree |
| TranslationMeaning.AcceptedIff | experimental_modeling/translation_v2.py:33-102 | a part is accepted if and only if it is within the limits, every edge joins two vertices, every face is well formed with an edge along each side and a unit normal at each corner, and no face is a rotation of another |
| TranslationMeaning.PassesIff | experimental_modeling/translation_v2.py:33-131 | the check passes if and only if every vertex is within tolerance of the old one moved by delta, every face is a face of the other part from some corner on with the same material and normals within the angle, and palette and edges are the same |
| Presentation.CountsIgnoreDirection | experimental_modeling/translation_v2.py:55-59 | the edge multiset does not depend on the direction of an edge |
| Presentation.CountsIgnoreOrder | experimental_modeling/translation_v2.py:55-59 | nor on the order of the edges |
| Presentation.EdgesIgnoreWriting | experimental_modeling/translation_v2.py:55-59 | edges in another order and direction are valid together and count the same |
| Presentation.SidesTurned | experimental_modeling/translation_v2.py:65-67 | a face has edge evidence from every start or from none |
| Presentation.TallyIgnoresStarts | experimental_modeling/translation_v2.py:60-87 | cyclic starts change neither the number of corners nor the multiset of keys |
| Presentation.TallyIgnoresOrder | experimental_modeling/translation_v2.py:60-87 | nor does the order of the faces |
| Presentation.KeysOnceIff | experimental_modeling/translation_v2.py:85-86 | no face is a duplicate exactly when every key is counted once |
| Presentation.WritingsAreAcceptedTogether | experimental_modeling/translation_v2.py:33-88 | `surface` raises on both writings of a part or on neither: faces permuted and started anywhere, edges permuted and turned |
| Presentation.WritingsGiveOneSurface | experimental_modeling/translation_v2.py:33-88 | and when it does not, both have one surface |
| Presentation.PresentationIsIrrelevant | experimental_modeling/translation_v2.py:33-131 | so both writings have one outcome, and every check gives them one verdict on either side |
| Norms.SumWithin | experimental_modeling/translation_v2.py:104-112 | deviations within two tolerances add up to one within their sum |
| TranslationLaws.ChainMoves | experimental_modeling/translation_v2.py:96-131 | along passing revisions every vertex is within the summed tolerances of its start moved by the summed shifts, and oriented polygons, materials, edges and palette are those of the start |
| PreservedRegion.OrientedDecides | experimental_modeling/requirements.py:259-261 | two triangles have one key if and only if one is the other from another corner, normals included |
| PreservedRegion.ReversalIsNotTurned | experimental_modeling/requirements.py:259-260 | reversed winding gives another key |
| PreservedRegion.PointsList | experimental_modeling/requirements.py:244-245 | the selection lists every vertex inside the region once and nothing else, in the order of coordinates and index |
| PreservedRegion.Topology | experimental_modeling/requirements.py:249-262 | raises exactly on incomplete surface evidence; else counts the wholly contained oriented triangles with their materials |
| PreservedRegion.LargestDisplacement | experimental_modeling/requirements.py:248 | the largest displacement rank by rank, attained and an upper bound |
| PreservedRegion.Compare | experimental_modeling/requirements.py:247-265 | selections of one size are compared as the verdict says |
| PreservedRegion.Preserved | experimental_modeling/requirements.py:241-265 | the loops compute the verdict; it raises exactly on an empty selection or incomplete evidence |
| RegionMeaning.CountersIff | experimental_modeling/requirements.py:249-263 | two counters are equal if and only if every oriented triangle, from whichever corner, occurs equally often |
| RegionMeaning.VerdictIff | experimental_modeling/requirements.py:241-265 | raises exactly on an empty selection or, with equally many vertices, on incomplete evidence; passes exactly when equally many vertices are selected, those of one number are within tolerance, every oriented triangle occurs equally often and the materials are the same |
| RegionLaws.TrianglesCarried | experimental_modeling/requirements.py:249-265 | replacing every corner by its partner turns the old triangle counter into the new one |
| RegionLaws.PassingIsBijection | experimental_modeling/requirements.py:241-265 | a pass gives a bijection of the selected vertices, pairs within tolerance, that carries the oriented triangles with materials and normals onto the new ones |
| RegionLaws.StartsIgnored | experimental_modeling/requirements.py:259-262 | the counter, and whether it raises, ignore cyclic starts |
| RegionLaws.OrderIgnored | experimental_modeling/requirements.py:253-262 | the counter ignores face order |
| RegionLaws.SameSurface | experimental_modeling/requirements.py:249-262 | so meshes with the same faces raise together and have one counter |
| RegionLaws.VerdictIgnoresPresentation | experimental_modeling/requirements.py:241-265 | the verdict is the same for meshes written with other face order and starts at once, on either side |
| Unicode.OneIsShortest | shared/json_contract.py:187-192 | a strictly decoded sequence is the one encoding of its scalar value: no overlong forms, no surrogates |
| Unicode.EncodedDecodes | shared/json_contract.py:167-192 | encoding then decoding gives the text |
| Unicode.DecodedEncodes | shared/json_contract.py:167-192 | decoding then encoding gives the bytes |
| Unicode.EncodingIsExact | shared/json_contract.py:287-292 | bytes encode a text if and only if they decode to it |
| CanonicalNumbers.CanonicalIsRendered | shared/json_contract.py:211-238 | fixed notation with trailing zeros stripped is the rendering of a number's normal form, for every accepted number |
| CanonicalNumbers.NormalKeepsValue | shared/json_contract.py:211-238 | the normal form has the number's value |
| CanonicalNumbers.ValueIsNormal | shared/json_contract.py:211-238 | a value has one normal form |
| CanonicalNumbers.NormalFormDecides | shared/json_contract.py:280-285 | two numbers have one normal form if and only if they are equal, whatever the spelling |
| Json.SortKeeps | shared/json_contract.py:264-268 | sorting the keys keeps every lookup |
| Json.SortedIsUnique | shared/json_contract.py:264-268 | objects with the same lookups have one sorted form |
| Json.NormDecides | shared/json_contract.py:241-277 | two values have one normal form if and only if they are equal as JSON values, objects unordered and numbers compared by value |
| JsonPrinter.CanonicalNumberFragment | shared/json_contract.py:73-98 | a number is refused exactly outside the digit and exponent limits |
| JsonPrinter.ObjectFragment | shared/json_contract.py:257-269 | the fragments of the sorted keys join to the text of the sorted object, or a nested number is refused |
| JsonPrinter.ListFragment | shared/json_contract.py:270-274 | the same for lists |
| JsonPrinter.CanonicalFragment | shared/json_contract.py:241-277 | the recursive printer writes the text of the normal form, or fails exactly when some number is out of bounds |
| JsonPrinter.CanonicalBytes | shared/json_contract.py:280-292 | its bytes, or the error that comes first |
| JsonPrinter.NestingIsHeight | shared/json_contract.py:141-152 | the recursive check accepts exactly the values of height at most 32 |
| JsonParser.ObjectWithoutDuplicates | shared/json_contract.py:127-138 | the pairs in their order exactly when no key repeats, else the duplicate-key error |
| NumeralGrammar.SaysValue | shared/json_contract.py:58-74 | the value of a number spelled w.f e k is (w times 10 to the length of f, plus f) times 10 to the k less that length, digit by digit |
| NumeralGrammar.NumeralReads | shared/json_contract.py:58-98 | every spelling of a number, with fraction and exponent of either sign, is read as what it says, or refused exactly beyond 288 characters, 256 significant digits or the exponent limits |
| NumeralGrammar.WrittenNumber | shared/json_contract.py:58-98 | and nothing but such a spelling is read as a number |
| StringGrammar.GlyphsRead | shared/json_contract.py:155-208 | every spelling of a string, with short escapes, hexadecimal escapes in either case and surrogate pairs, is read as the text it means |
| StringGrammar.GlyphsWritten | shared/json_contract.py:155-208 | and nothing else is read as a string |
| StringGrammar.PairIsRead | shared/json_contract.py:155-208 | a character outside the basic plane is read from the two code units of its UTF-16 encoding |
| JsonGrammar.DocReads | shared/json_contract.py:155-208 | every document in concrete syntax, with white space anywhere it may stand, is read as what it means, whatever follows |
| JsonGrammar.DocWritten | shared/json_contract.py:155-208 | whatever is read was written as such a document |
| JsonGrammar.TextIff | shared/json_contract.py:155-208 | a text is read as a value if and only if it spells a document that means it, has no key twice in an object, and keeps every number within the limits |
| JsonGrammar.DecodesIff | shared/json_contract.py:155-208 | bytes are decoded as a value if and only if they are few enough, are the UTF-8 encoding of such a text, and the value is at most 32 levels deep |
| JsonRoundTrip.NumberRoundTrip | shared/json_contract.py:58-98 | a rendered number is read back, or refused exactly when it has more than 288 characters or 256 digits |
| JsonRoundTrip.StringRoundTrip | shared/json_contract.py:248-250 | an escaped string is read back, whatever follows |
| JsonRoundTrip.ValueRoundTrip | shared/json_contract.py:194-205 | the text of any normalised value is read back as that value, or refused exactly when some number does not fit |
| JsonRoundTrip.FitsIsInBounds | shared/json_contract.py:58-98 | within the token limit, the decoder's bounds are the digit limit |
| CanonicalJson.NormIsIdempotent | shared/json_contract.py:241-292 | normalising twice is normalising once |
| CanonicalJson.NormIsSame | shared/json_contract.py:241-292 | the normal form equals the value it came from |
| CanonicalJson.PrintIsInjective | shared/json_contract.py:241-277 | different normal forms have different texts |
| CanonicalJson.CanonicalDecides | shared/json_contract.py:241-277 | two values have one canonical text if and only if they are equal |
| CanonicalJson.BytesDecide | shared/json_contract.py:280-292 | accepted values have equal bytes if and only if they are equal as JSON values |
| CanonicalJson.DecodeOfCanonical | shared/json_contract.py:155-208 | what strict decoding makes of canonical bytes, for every accepted value: the size, number or nesting error in that order, or the normal form |
| CanonicalJson.RoundTripExactly | shared/json_contract.py:155-208 | decoding succeeds if and only if nesting is within 32 and every rendered number fits, and then gives an equal value with the same bytes |
| CanonicalJson.LargeExponentIsNotReadBack | shared/json_contract.py:58-64 | 1e288 to 1e1024 are printed but not read back |
| CanonicalJson.DecodedIsCanonicalisable | shared/json_contract.py:155-208 | every decoded document has distinct keys, bounded numbers and at most 32 levels, so printing it meets no numeric limit |
| Slug.DerivedSlugIsValid | shared/character_spec.py:75-80 | every slug derived from a valid name matches the slug pattern and length, so it is never empty |
| Slug.SlugIsDashed | shared/character_spec.py:75-80 | the slug of a valid name is its letters and digits in lower case and in order, one dash wherever anything else stands between two of them, cut after 48 characters, less a dash at the cut |
| CharacterSpec.ReadPalette | shared/character_spec.py:211-228 | the loop accepts exactly 1 to 8 distinct well-formed colors, in order |
| CharacterSpec.ReadComponents | shared/character_spec.py:230-262 | the loop accepts exactly distinct known components, at most 16 and not both tails, and sorts them |
| RequestMeaning.SpecIff | shared/character_spec.py:165-264 | a value is read as a specification if and only if it is one in the published format: keys, patterns, presets, ranges and defaults, field by field |
| RequestMeaning.RequestIff | shared/character_spec.py:296-331 | the same for a request, with its five constants |
| RequestMeaning.PayloadIff | shared/character_spec.py:333-338 | bytes are accepted as a request if and only if they are at most 64 KiB and spell it |
| RequestNumbers.DigitsBelowPower | shared/json_contract.py:78-84 | at most k digits is the same as below the k-th power of ten |
| RequestNumbers.IntegerInBoundsIff | shared/json_contract.py:214-228 | an integer may be printed if and only if its magnitude is below the 256th power of ten |
| RequestNumbers.RangeFits | shared/character_spec.py:52-64 | a number in a request's range renders within five characters of its digits, however it was spelled |
| RequestNumbers.AcceptedNumber | shared/character_spec.py:52-64 | an accepted number can be printed and read back |
| RequestNumbers.AcceptedAgain | shared/character_spec.py:52-64 | and is accepted again as its normal form |
| RequestForm.SpecOfNorm | shared/character_spec.py:166-264 | reading a specification commutes with normalising the JSON value |
| RequestForm.RequestOfNorm | shared/character_spec.py:297-331 | so does reading a request |
| RequestForm.SpecIsValid | shared/character_spec.py:166-264 | whatever `from_mapping` returns is in its ranges and presets |
| RequestForm.RequestIsValid | shared/character_spec.py:297-331 | the same for requests |
| RequestForm.SpecOfDict | shared/character_spec.py:266-280 | `from_mapping` inverts `to_dict` on every valid specification |
| RequestForm.RequestOfDict | shared/character_spec.py:340-348 | the same for requests |
| RequestForm.RequestNormalForm | shared/character_spec.py:297-348 | reading the normal form of a request's dictionary gives the request with its numbers normalised |
| RequestFingerprint.RequestPrintable | shared/character_spec.py:340-352 | the dictionary of every valid request fits all limits of the printer and the parser, and weighs at most 13700 characters |
| RequestFingerprint.CanonicalRequestExists | shared/character_spec.py:333-352 | canonical bytes exist for every valid request, are within 64 KiB and decode to the normal form |
| RequestFingerprint.NormSpecIsEqual | shared/character_spec.py:150-163 | normalising the numbers of a request gives an equal request |
| RequestFingerprint.RequestRoundTrip | shared/character_spec.py:333-352 | reading a request's canonical bytes gives an equal valid request with the same bytes |
| RequestFingerprint.FingerprintOfValid | service/src/hbcb_service/idempotency.py:31-56 | the fingerprint of a valid request passes its own re-validation, bound and both hashes included |
| RequestFingerprint.FingerprintNeverFails | service/src/hbcb_service/idempotency.py:31-56 | for every payload that `from_json` accepts |
| StoreHistory.AcceptedBindings | experimental_modeling/review_server.py:53-68 | on any store, succeeds if and only if `last_good.json` has an unrepeated hash-linked chain of at most 256 revisions, and then binds each to its recorded hash |
| StoreHistory.StuckHasNoChain | experimental_modeling/review_server.py:59-68 | each of the loop's errors means that there is no such chain |
| StoreHistory.ChainIsUnique | experimental_modeling/review_server.py:57-67 | a revision and hash have at most one chain |
| StoreHistory.ChainContinues | experimental_modeling/review_server.py:57-67 | every chain goes through the revisions already walked |
| StoreHistory.ChainStays | experimental_modeling/controller.py:304-306 | new revisions leave existing chains as they are |
| StoreHistory.ChainExtends | experimental_modeling/controller.py:94-103 | a promotion makes the chain exactly one revision longer |
| EvidenceStore.PointerIsSafe | experimental_modeling/controller.py:94-117 | on a sound store `last_good.json` names an accepted revision with the recorded hash, and its chain is acyclic and ends at a root |
| EvidenceStore.RecordsAgree | experimental_modeling/controller.py:232-300 | any two recorded rule hashes are the same, and where recorded hashes are covered the lock is there with exactly that hash; any two recorded policies have one version |
| EvidenceStore.LockKeeps | experimental_modeling/controller.py:295-297 | writing the lock keeps the store sound, torn or whole |
| EvidenceStore.AttemptKeeps | experimental_modeling/controller.py:319-345 | so does every write inside an attempt |
| EvidenceStore.EnterKeeps | experimental_modeling/controller.py:319-331 | so does starting a build, under the lock or not |
| EvidenceStore.SyncTreeKeeps | experimental_modeling/controller.py:84-91 | so does the sync of a whole revision in place, after which a power loss takes none of its files |
| EvidenceStore.RenameKeeps | experimental_modeling/controller.py:95-97 | so does the rename of a revision that was synced in place |
| EvidenceStore.SyncAcceptedKeeps | experimental_modeling/controller.py:98-99 | so does the sync of the two directories, after which the revision survives a power loss |
| EvidenceStore.TempKeeps | experimental_modeling/controller.py:100-101 | so does the temporary file for it |
| EvidenceStore.ReplaceKeeps | experimental_modeling/controller.py:102 | so does the replacement of `last_good.json` by one whose chain survives a power loss |
| EvidenceStore.SyncStoreKeeps | experimental_modeling/controller.py:103 | so does the last sync |
| EvidenceStore.PowerLossKeeps | experimental_modeling/controller.py:78-103 | so does a power loss at any moment |
| EvidenceStore.LossKeepsLockIff | experimental_modeling/controller.py:295-300 | recorded hashes keep their lock in every state a power loss can leave if and only if the lock is durable or nothing is recorded |
| EvidenceStore.LossKeepsRulesIff | experimental_modeling/controller.py:84-103 | results that record the lock keep their rules in every state a power loss can leave if and only if every attempt that records it was synced in place with them; a renamed revision always was |
| EvidenceStore.NewPointerIsAnchored | experimental_modeling/controller.py:97-102 | the renamed revision has a durable chain before `last_good.json` refers to it |
| EvidenceStore.NewChain | experimental_modeling/controller.py:97-103 | the chain from the new `last_good.json` is the old one and one revision |
| EvidenceStore.Store.constructor | experimental_modeling/controller.py:231 | an empty store is sound |
| EvidenceStore.Store.PowerLoss | experimental_modeling/controller.py:78-91 | the store is sound after any power loss |
| EvidenceStore.Store.LockRules | experimental_modeling/controller.py:291-297 | the lock is torn after one action, whole after two and durable after three; nothing else changes |
| EvidenceStore.Store.PutAttempt | experimental_modeling/controller.py:319-345 | one action inside an attempt changes that attempt only |
| EvidenceStore.Store.WriteFile | experimental_modeling/controller.py:30-35 | a file is absent, torn or whole, according to how far the write got |
| EvidenceStore.Store.WritePolicy | experimental_modeling/controller.py:319-327 | stopped anywhere, the new directory holds nothing beyond a torn or whole policy, and records no hash |
| EvidenceStore.Store.WriteInputs | experimental_modeling/controller.py:319-329 | only this attempt changes, and it holds the frozen inputs written so far |
| EvidenceStore.Store.WriteResult | experimental_modeling/controller.py:406-421 | only this attempt changes, and it holds the result |
| EvidenceStore.Store.RunAttempt | experimental_modeling/controller.py:319-421 | a finished attempt holds exactly the record of its run |
| EvidenceStore.Store.Enter | experimental_modeling/controller.py:319-331 | whether the build found the rules locked is all that is noted |
| EvidenceStore.Store.RunEntered | experimental_modeling/controller.py:319-421 | stopped anywhere, only this attempt differs, it records a hash only with the lock and the rules in place, and whether it found the rules locked is noted |
| EvidenceStore.Store.Install | experimental_modeling/controller.py:96-103 | of a revision synced in place: stopped anywhere, only its promotion has happened, and `last_good.json` is the old one or one link longer |
| EvidenceStore.Store.Promote | experimental_modeling/controller.py:94-103 | stopped anywhere, the revision is synced in place, and `last_good.json` is the old one or one link longer; when done it names the revision with the hash of its result |
| EvidenceStore.Store.Conclude | experimental_modeling/controller.py:422-424 | a run that was not accepted changes nothing more; one that was is promoted, stopped anywhere |
| EvidenceStore.Store.RunAndPromote | experimental_modeling/controller.py:319-424 | a finished run leaves its whole directory in the attempts, or in the accepted revisions when it was accepted; nothing is accepted unless the run ended without an exception and its verdict was to accept |
| EvidenceStore.Store.SettleRules | experimental_modeling/controller.py:285-300 | the rules are the lock's, or the provided ones which then are the lock |
| EvidenceStore.Store.Check | experimental_modeling/controller.py:232-318 | unless the process stopped, refuses exactly the builds that the store does not admit; changes no attempt, accepted revision or `last_good.json` |
| EvidenceStore.Store.Proceed | experimental_modeling/controller.py:319-424 | once the checks have passed nothing is refused, and what the build adds is what it adds to the store it found |
| EvidenceStore.Store.Build | experimental_modeling/controller.py:188-424 | stopped after any number of actions the store is sound, an existing lock, other attempts and accepted revisions are unchanged, recorded hashes stay covered by the lock, and `last_good.json` advances by at most one link, and only to a run that ended without an exception with the verdict to accept; the record has the verdict of such a run and needs_review otherwise, with parent, hash and evidence; the directory holds the files that the run got as far as writing; a refusal means the build was not admissible, a finished build that it was; with enough actions it finishes |
| EvidenceStore.RecordsTheLock | experimental_modeling/controller.py:326-331 | on any sound store, a result on disk whose build found the rules locked records them when its copy of the rules is there, and only then unless a power loss took the copy; an accepted one always does |
| EvidenceStore.EarlyFailure | experimental_modeling/controller.py:326-331 | a run that ends with a result under the lock that does not record it |
| EvidenceStore.LostRulesRefuse | experimental_modeling/controller.py:277-290 | once a recorded hash has lost its lock every build is refused |
| EvidenceStore.LockNotSynced | experimental_modeling/controller.py:283-297 | a run of two builds, the first stopped, that ends with a recorded hash whose lock is not synced |
| EvidenceStore.LockIsLost | experimental_modeling/controller.py:283-297 | the same run and a power loss: the recorded hash has no lock, and every later build is refused |
| EvidenceStore.Happen | experimental_modeling/controller.py:188-424 | one build or power loss keeps what was durable; a build keeps everything; only a passed run adds an accepted revision |
| EvidenceStore.ParentAlwaysAgrees | experimental_modeling/controller.py:309-318 | on a sound store neither the parent's integrity check nor its rule check can refuse a build that the earlier checks allow |
| EvidenceStore.AdmittedIff | experimental_modeling/controller.py:232-318 | on a sound store a build is admitted if and only if no file is torn, the history has at most 512 entries of this policy version, recorded rules have their lock, the request brings no other rules, names a new revision and the last good one as its parent |
| EvidenceStore.Replay | experimental_modeling/controller.py:188-424 | over any sequence of builds stopped anywhere and power losses the chain stays acyclic and rooted, and a durable lock and the durable accepted revisions are never lost or replaced; without power loss this holds of every lock and accepted revision, and every recorded hash keeps its lock; every new accepted revision is that of a run that passed |
| EvidenceStore.ChainDecides | experimental_modeling/review_server.py:53-68 | on a sound store the history is readable if and only if its one chain has at most 256 revisions |
| EvidenceStore.BindingsOfStore | experimental_modeling/review_server.py:53-68 | so `accepted_bindings` succeeds exactly on those |
| Verdicts.CheckParts | experimental_modeling/acceptance_v1.py:20-30 | raises exactly when some part cannot be checked; else lists exactly the changed hash components of protected parts |
| Verdicts.CheckConstraints | experimental_modeling/acceptance_v1.py:31-66 | raises exactly when some measurement does; else lists exactly the constraints that do not hold |
| Verdicts.ChangedHashes | experimental_modeling/acceptance_v1.py:27-30 | exactly the components that differ |
| Verdicts.CheckV1 | experimental_modeling/acceptance_v1.py:8-67 | the three early returns, then both loops: which inputs raise and which failures are listed |
| Verdicts.LegacyMembers | experimental_modeling/acceptance.py:92 | the constraints handed to version 1 are exactly those that are not translations |
| Verdicts.CheckTranslated | experimental_modeling/acceptance.py:94-102 | raises exactly when a translation lacks its baseline; else lists exactly the broken translations |
| Verdicts.CheckV2 | experimental_modeling/acceptance.py:20-103 | which inputs the version-2 check raises on and which failures it lists |
| VerdictReports.CheckV1Verdict | experimental_modeling/acceptance_v1.py:8-67 | empty, non-empty or raised as a condition on the evidence, whatever list the check returned |
| VerdictReports.CheckV2Verdict | experimental_modeling/acceptance.py:9-103 | the same for version 2 |
| VerdictReports.CleanIffV1 | experimental_modeling/acceptance_v1.py:8-67 | the version-1 check is clean if and only if the inventory is as announced, every part is well formed, protected hashes are there and equal, and every constraint was measured to hold |
| VerdictReports.CleanIffV2 | experimental_modeling/acceptance.py:9-103 | the same for version 2, with its versions, hash format, evidence and translations |
| VerdictReports.RowsDecideV1 | experimental_modeling/verification_v1.py:37-71 | with a matching inventory the whole check is empty if and only if every isolated row and every preserved row passes and the rows cover what the check reads |
| VerdictReports.MissingHashIsNotInRows | experimental_modeling/verification_v1.py:37-71 | rows that pass while the whole check raises: a hash that neither side has |
| VerdictReports.BadVerticesAreNotInRows | experimental_modeling/verification_v1.py:37-71 | the same with no constraint and unusable vertices |
| VerdictReports.RowsDecideV2 | experimental_modeling/verification.py:43-85 | past the inventory, a row passes exactly when its constraint was measured to hold and fails exactly when it was measured not to, and the check is empty exactly when all rows pass |
| VerdictReports.StatusFromCheckV2 | experimental_modeling/verification.py:56-69 | the status looked up in the list of failures is the status of the constraint itself |
| VerdictReports.Inspect | experimental_modeling/acceptance.py:9-17 | the check of either version has the verdict of the evidence |
| VerdictReports.ConstraintReport | experimental_modeling/verification.py:42-70 | the overall row and one row per constraint, for both versions |
| VerdictReports.PreservedReport | experimental_modeling/verification.py:71-85 | one row for every part that must not change, in policy order |
| VerdictReports.RequirementReport | experimental_modeling/requirements.py:292-313 | one row for every requirement: it passes or fails exactly when the requirement applies, is for a machine, and was measured to hold or not |
| VerdictReports.Report | experimental_modeling/verification.py:23-94 | all rows in order, and machine_verified as accepted with every hard applicable row passing |
| VerdictReports.CollectFailures | experimental_modeling/controller.py:374-377 | a failure with status fail is collected exactly when the check found one or a hard applicable requirement failed; none exactly when all pass |
| VerdictReports.GuardedRun | experimental_modeling/controller.py:326-402 | the stages record exactly the jobs that ended before the first one that raised, and provenance and status only after the last |
| VerdictReports.MakeResult | experimental_modeling/controller.py:321-415 | the result of a build, with discarded files and an unreadable observation taken into account |
| VerdictReports.StatusIff | experimental_modeling/controller.py:366-416 | accepted if and only if every job ended with 0, nothing was raised or discarded, the evidence is clean and every hard requirement that applies was measured to hold; rejected if and only if all ran and the check failed or such a requirement was measured not to hold; all else needs review |
| VerdictReports.RunRows | experimental_modeling/verification_v1.py:22-71 | each job's row passes exactly when the run got past that job, inspection only with an observation; provenance and parent rows likewise |
| VerdictReports.AcceptedIsComplete | experimental_modeling/controller.py:321-415 | accepted only after every job ended with 0, with provenance checked and a parent bound by a 64-character hash |
| VerdictReports.VerifiedIff | experimental_modeling/controller.py:374-424 | for both versions, every policy, run, observation and baseline: the report verifies the build if and only if the controller accepted it and the observation read again passes the check and the requirements |
| VerdictReports.AcceptedIsVerified | experimental_modeling/controller.py:374-424 | when the observation read again is the inspected one, accepted and verified are the same |
| VerdictReports.AcceptedAndNotVerified | experimental_modeling/controller.py:411-416 | two runs that are accepted and not verified: the file is gone, or holds another observation |
| VerdictReports.VanishedObservationIsNotVerified | experimental_modeling/controller.py:411-416 | when the file is gone no build is verified |
| ModelCalls.StepKeepsGood | experimental_modeling/authoring.py:125-229 | every step, crash and restart keeps: one worker at most, which owns the one open record of the session, and no request for a preview whose worker has not sent it |
| ModelCalls.AtMostOnce | experimental_modeling/authoring.py:125-210 | from any journal, over all interleavings: the provider is asked at most once per preview and one call is in flight |
| ModelCalls.FinalIsFinal | experimental_modeling/authoring.py:205-221 | a record that is not the active call's never changes again |
| ModelCalls.OpenRecordEndsCalls | experimental_modeling/authoring.py:69-75 | after a record was left open or uncertain nothing is admitted, sent or rewritten any more |
| ModelCalls.LostContactEndsCalls | experimental_modeling/authoring.py:191-229 | after contact is lost during a call nothing is ever admitted or sent again, whatever is saved, lost or restarted: its record stays open |
| ModelCalls.RefusalFrees | experimental_modeling/authoring.py:200-209 | a refusal ends as failed and leaves budget and limit alone to decide about the next call |
| ModelCalls.AnswerFrees | experimental_modeling/authoring.py:173-209 | so does an answer, recorded as completed exactly when it is valid and nothing was cancelled |
| ModelCalls.CancelledNeverCompletes | experimental_modeling/authoring.py:173-221 | a call cancelled before it was finished is never recorded as completed |
| ModelCalls.WithheldIsNeverSent | experimental_modeling/authoring.py:163-172 | a call cancelled before its worker started, or past its first section unsent, is never sent |
| ModelCalls.SentIsAnnounced | experimental_modeling/authoring.py:163-172 | what was sent is recorded as more than claimed, over every run |
| ModelCalls.CompletedWasAnswered | experimental_modeling/authoring.py:173-209 | over every run, a completed record had a valid answer finished with nothing cancelled |
| ModelCalls.UncertainBlocks | experimental_modeling/authoring.py:69-75 | what is shown as open or uncertain blocks a new call |
| ModelCalls.ShownIsFinal | experimental_modeling/authoring.py:74-80 | what is shown as ended is recorded so for good; a record is shown as it is while its worker lives, and an open one without a worker as uncertain |
| ModelCalls.RunKeepsBudget | experimental_modeling/authoring.py:148-156 | the summed reservations never exceed the budget, nor the records the call limit |
| ModelCalls.AdmittedIsWithin | experimental_modeling/authoring.py:148-156 | an admitted call leaves the summed reservations, its own included, within the current budget and the count within the current limit, whatever was configured before |
| ModelCalls.AdmittedStaysWithin | experimental_modeling/authoring.py:148-156 | and that lasts as long as the configuration does |
| ModelCalls.EstimateIsLeastCover | experimental_modeling/authoring.py:112-115 | an amount covers the cost if and only if it is at least the estimate |
| ModelCalls.Reserved | experimental_modeling/authoring.py:150 | the loop sums each reservation once |
| ModelCalls.Authoring.constructor | experimental_modeling/authoring.py:56-64 | a restart keeps the journal and forgets the call in flight |
| ModelCalls.Authoring.Admitted | experimental_modeling/authoring.py:137-152 | the refusals in their order admit exactly the allowed calls |
| ModelCalls.Authoring.Submit | experimental_modeling/authoring.py:125-165 | one step of the protocol, with a failed write or a thread that does not start |
| ModelCalls.Authoring.Begin | experimental_modeling/authoring.py:170-176 | the worker's first section is one step |
| ModelCalls.Authoring.Invoke | experimental_modeling/authoring.py:177 | when the provider is asked, it had not been asked for this preview |
| ModelCalls.Authoring.Return | experimental_modeling/authoring.py:177-178 | the answer, a lost contact or a refusal decides what will be recorded |
| ModelCalls.Authoring.Finish | experimental_modeling/authoring.py:179-199 | nothing is completed once cancelled |
| ModelCalls.Authoring.Final | experimental_modeling/authoring.py:205-210 | the last write ends the call whether or not it succeeds |
| ModelCalls.Authoring.Interrupt | experimental_modeling/authoring.py:212-221 | only the active call's record is touched |
| ModelCalls.Authoring.Close | experimental_modeling/authoring.py:223-229 | closing admits nothing more and cancels |
| Workbench.StepKeepsGood | experimental_modeling/workbench.py:271-376 | every step, crash and restart keeps: one open record at most, which every live child and waiting supervisor belongs to, and one spawn at most per inspection, after its record |
| Workbench.PermissionIsConsumedOnce | experimental_modeling/workbench.py:271-320 | across threads and restarts each inspection spawns at most one child, never before its durable claim, and two children are never alive together |
| Workbench.TerminalIsFinal | experimental_modeling/workbench.py:322-359 | a terminal record is never overwritten |
| Workbench.AbandonedEndsBuilds | experimental_modeling/workbench.py:168-192 | after a crash or a lost write no build starts any more |
| Workbench.LostIffAbandoned | experimental_modeling/workbench.py:168-192 | between two locked sections exactly an abandoned operation is shown as lost |
| Workbench.ClaimIff | experimental_modeling/workbench.py:271-300 | a build may be claimed exactly when it is approved and new, nothing closes or runs, and every recorded operation has ended |
| Workbench.EndIsRecorded | experimental_modeling/workbench.py:322-348 | once written, the end of a child is recorded for good: finished with exit code 0 or 1, interrupted with 130 or a signal, failed otherwise or when its output could not be read |
| Workbench.FailedBeforeNeverRuns | experimental_modeling/workbench.py:292-319 | a child that could not be spawned is recorded as failed before execution and never runs |
| Workbench.Server.constructor | experimental_modeling/workbench.py:51-88 | a restart keeps records and orphans and forgets the child |
| Workbench.Server.Claim | experimental_modeling/workbench.py:271-291 | the refusals and the durable claim are one step |
| Workbench.Server.Spawn | experimental_modeling/workbench.py:292-318 | a child, or the claim recorded as failed before execution |
| Workbench.Server.Monitor | experimental_modeling/workbench.py:307-308 | a supervisor thread, or the child is waited for |
| Workbench.Server.RecordRunning | experimental_modeling/workbench.py:309-310 | the running state is recorded before the lock is released |
| Workbench.Server.Reap | experimental_modeling/workbench.py:335-339 | the wait for the child is one step, after which it no longer lives |
| Workbench.Server.WaitHere | experimental_modeling/workbench.py:311-315 | the child is reaped before its end is recorded |
| Workbench.Server.Supervise | experimental_modeling/workbench.py:307-320 | after a spawn no further child is spawned and no other record changes |
| Workbench.Server.Execute | experimental_modeling/workbench.py:292-320 | after a claim exactly one child is spawned, or none when the spawn fails |
| Workbench.Server.RunOperation | experimental_modeling/workbench.py:271-320 | a recorded inspection runs nothing; a new one spawns one child exactly when it may be claimed, the claim was written and the spawn works; no other record changes |
| Workbench.Server.Watch | experimental_modeling/workbench.py:322-348 | the supervisor's last section is one step |
| Workbench.Server.Interrupt | experimental_modeling/workbench.py:350-359 | only the live child's record is touched |
| Workbench.Server.Close | experimental_modeling/workbench.py:361-376 | no build starts after it |
| ProcessTree.ChildMap | service/src/hbcb_service/launcher.py:138-141 | the map inverts the snapshot's parent relation exactly |
| ProcessTree.Descendants | service/src/hbcb_service/launcher.py:137-150 | terminates on every snapshot, reports only descendants, and below the cap exactly those reached without passing process 1 or below or the supervisor |
| ProcessTree.EventKeepsSane | service/src/hbcb_service/launcher.py:186-206 | forks and exits keep the assumptions of the protocol |
| ProcessTree.EventKeepsFrozen | service/src/hbcb_service/launcher.py:186-206 | a frozen tree stays frozen whatever the others do |
| ProcessTree.RunKeeps | service/src/hbcb_service/launcher.py:186-206 | over any run of events |
| ProcessTree.TreeIsVisible | service/src/hbcb_service/launcher.py:144-149 | under those assumptions the search drops nothing of the tree |
| ProcessTree.StopAll | service/src/hbcb_service/launcher.py:153-160 | every signalled process is stopped or gone, with others running in between |
| ProcessTree.Freeze | service/src/hbcb_service/launcher.py:186-206 | when two passes in a row find nothing new on complete snapshots, every live descendant is in the set and stopped, whatever ran meanwhile |
| TailBuffer.LastOfLast | service/src/hbcb_service/launcher.py:54-58 | cutting early loses nothing that is kept in the end |
| TailBuffer.Buffer.constructor | service/src/hbcb_service/launcher.py:49-52 | nothing written, nothing kept |
| TailBuffer.Buffer.Append | service/src/hbcb_service/launcher.py:54-58 | the buffer stays the tail of everything written |
| TailBuffer.Buffer.Bytes | service/src/hbcb_service/launcher.py:60-62 | the last bytes of everything written, up to the maximum |
| Shells.SameShell | blender/qa/geometry.py:50-65 | shells are equivalence classes |
| Shells.Spread | blender/qa/geometry.py:57-63 | exactly the unseen faces that share an edge are removed and pushed |
| Shells.Flood | blender/qa/geometry.py:55-63 | one run of the inner loop removes exactly one shell |
| Shells.OneMoreShell | blender/qa/geometry.py:53-64 | and that shell was not counted before |
| Shells.CountShells | blender/core/fingerprint.py:110-123 | the count is the number of equivalence classes under shared edges, for every face graph; both counters are this loop |
| Png.SanitizePng | blender/render/diagnostics.py:22-54 | the loop over offsets writes what parsing, filtering and writing the chunks gives, and refuses exactly malformed framing or a missing IHDR, IDAT or IEND |
| Png.ChunksRoundTrip | blender/render/diagnostics.py:31-51 | written chunks that end at IEND are parsed back |
| Png.ParsedBytes | blender/render/diagnostics.py:31-51 | parsed chunks write the same bytes |
| Png.AcceptedIsChunks | blender/render/diagnostics.py:24-53 | an accepted file is its chunks, ending at IEND |
| Png.SanitizedKeepsTheRest | blender/render/diagnostics.py:39-54 | the result parses as the input's chunks without the five metadata kinds, in order and byte for byte |
| Png.SanitizedIsIdempotent | blender/render/diagnostics.py:22-54 | sanitizing again changes nothing |
| Layout.PlanIsSound | blender/generators/geometric_character_v1/builder.py:101-176 | for every accepted request all sizes and radii are bounded away from zero, head and body overlap by exactly the penetration and the body clears base and feet |
| Layout.FeetAndLegs | blender/generators/geometric_character_v1/builder.py:259-294 | both sides, in order |
| Layout.Arms | blender/generators/geometric_character_v1/builder.py:334-368 | both sides, in order, in every pose |
| Layout.Components | blender/generators/geometric_character_v1/builder.py:612-629 | the parts of every component, in order |
| Layout.NamesUniqueIff | blender/core/primitives.py:40-41 | no object name of a layout is refused as a duplicate if and only if no component is asked for twice and the two tails are not combined |
| Layout.NoPrimitiveRejects | blender/core/primitives.py:31-336 | after preflight no primitive refuses a part: positive sizes and radii, distinct ends, and an object name that is new when its turn comes, for every style, pose, base and component set |
| Layout.Generate | blender/generators/geometric_character_v1/builder.py:653-684 | parts are made exactly when the layout is accepted, and every one is accepted by its primitive |
| LayoutExtent.BaseAsRequested | blender/generators/geometric_character_v1/builder.py:179-205 | the base is on the ground with the requested width, depth and height, and there is none when none was asked for |
| LayoutExtent.HeightIsExact | blender/generators/geometric_character_v1/builder.py:101-629 | every part, rods by their axes, lies between the ground and the requested height, and both are reached, for every style, pose, base and component set |
| LayoutAttachment.LegsStand | blender/generators/geometric_character_v1/builder.py:259-294 | each leg runs from its foot into the body, the feet are sunk into the base by the penetration or stand on the ground, and the sides are mirror images |
| LayoutAttachment.ArmsHang | blender/generators/geometric_character_v1/builder.py:297-368 | each arm starts in the body, its rods share the elbow and the hand is where they end; outside the wave the sides are mirror images |
| LayoutAttachment.ComponentsHang | blender/generators/geometric_character_v1/builder.py:412-610 | each component starts in the head or the body, pairs are mirror images, and what stands on the head ends exactly at the target height |
| LayoutAttachment.CharacterHangsTogether | blender/generators/geometric_character_v1/builder.py:178-629 | after preflight every part of every character is so attached |

## Left out

- IEEE rounding, square roots and `atan2`: coordinates are exact reals and distances are compared by their squares.
- EstimateIsLeastCover: the cost is exact, so rounding of products beyond 28 significant digits by the default decimal
  context is not modelled.
- UnblockedIsClear: says nothing of triangles whose determinant is inside the cut-off, as the ray test ignores those.
- Freeze: requires no process ID to be reused and snapshots to be atomic; asynchronous delivery of SIGSTOP is not
  modelled, and neither are the signals, waits and kills after the freeze.
- Build: request bindings, their approvals and references are not modelled, nor are symbolic links, artifact sizes or
  the contents of source and observation files.
- RunKeepsBudget: holds under one configuration; after a restart with a smaller budget or call limit more may already
  be reserved, and no call is admitted until it fits again (AdmittedIsWithin).
- SanitizePng: chunk checksums are carried along and never checked, as in the program.
- CountShells: takes the face and edge links as given, consistent in both directions.
- ReadComponents: a refusal carries no error code or path; the same holds for every refusal of a request.
- DecodeDocument: takes bytes; a Python string is encoded first. Nesting deep enough to exhaust Python's stack is
  reported there as invalid JSON and here as excessive nesting.
- CheckV2: surface validation, work limits and finite-number checks are one condition on the evidence.
- NoPrimitiveRejects: takes the scene to be empty at first, as `factory_scene` leaves it; vertex counts, materials and
  mesh construction by Blender are not part of it.
- HeightIsExact: measures rods and frustums by their axes; the rim of a slanted one may reach past by its radius.
- `evaluate`: the parsing of requirement definitions and the text of reasons and coverage notes.
- `preserved_rays`: it only takes minima of the ray distances modelled here.
- Report previews, which shorten long arrays, and `validate_saved_report`, which compares two hashes.
- The display order and caches of `ReviewProject`, its acceptance records and its HTTP handlers.
- `preview` of a model call apart from its estimate, the provider transport and the files of a proposal.
- Preparation and inspection of proposals in the workbench, and the contents of its operation records beyond their
  state.
- File locks, path checks and `fcntl`: one build or one locked section at a time is taken as given.
- Blender calls, Docker, databases, the web service and the static user interface.
- Field-by-field validators of manifests, print contracts and configuration: single-branch facts.
