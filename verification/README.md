# A verified model of the C interface analyser

The analyser reads C headers and sources, lays the structs out for a 32-bit and a 64-bit target,
works out which structs travel as messages, and shows who sends what to whom. This project models
the algorithms behind that and proves what they promise. The prose below follows the modules.

* **Layout.** `TypeDictionary`, `Layout`, `Placement`, `CrossTarget`, `WellPackedLayouts` and `Containment` model
  the struct layout engine: alias chasing, alignment and pack arithmetic, the recursion over a possibly
  cyclic dictionary with its shared guard, located padding gaps and the estimate flag. `Layout.LayoutEngine`
  is the program, with its guard as a mutable field; it is proved equal to `Internal`, `Standalone` and
  `Catalog`, and the other modules prove theorems about those. `MemberRows` says what each member's row
  and each gap is, over the declaration alone, and `PrimitiveTables` has the two tables as numbers by name.
  The engine's parsed member (base type, pointer flag, extents, bit width) is an input.
* **Composition.** `Composition`, `CompositionTree`, `Warnings` and `MessageReport` model the expansion
  of a message into absolute byte ranges from the catalog, the hazard walk, and the row per message;
  `TreeShape` says how far the tree goes and what a block holds, and `TreeWarnings` relates the hazards
  to the tree. `EmptyArrayExample` is a struct that does not tile,
  `AliasExample` one that escapes the warnings, `PackedArrayExample` (for layout) an unaligned array.
* **Packing.** `PackDetection` replays the `#pragma pack` directives, and says without the replay which of
  them decides the value in effect at a line.
* **Graphs.** `Reachability` is the depth-first walk over a shared visited set; `HeaderBundle` and
  `Warnings` use it. `RoleGraph` and `RoleReport` (with `Sorting`) model containment, depth,
  classification and the final order, and `RoleMeaning` gives each role and the order their exact
  conditions over the dictionary. `EdgeCollapse`, `AppGraph` and `FileGraph` build the message
  edges and fold reciprocal pairs into one.
* **Machines.** `Digest` fills a token budget (`DigestContents` says what its text and its omissions are,
  `DigestExample` has its real labels and an input over budget), `Sse` reassembles event-stream lines
  (section 9.2.6 of the WHATWG HTML Living Standard, as far as the code follows it), `Preprocessor` scans
  conditional blocks (`DirectiveMatching` says where each ends, by balance and without the stack),
  `FileRegistry` keeps two zones of files (`RegistryOrder` has the order of its listing), and `AskLoop` is
  the question loop against an arbitrary model (`AskTranscript` says what the user and the model are told).

A method that loops or changes state is proved equal to a function of its inputs or of the old state,
and the lemmas are about that function. `Alignment` holds the shared arithmetic.

## Where the code does less than it seems to

Each of these is stated as a lemma; the code is modelled as it is.

* The primitive tables have a row `_Bool`, but every lookup key is lower-cased first, so no lookup ever
  reads it (`BoolRowNeverRead`); every other row is found under its own spelling (`RowsFoundExactly`). A
  `_Bool` member therefore gets a size only through an alias chain or a struct of that name
  (`BoolResolvesExactly`), and is laid out as an unknown type if neither exists (`PlainBoolUnknown`).
* The expanded parts of a struct tile it exactly if no zero-size member sits where a gap begins
  (`LevelTilesExactly`); `char a; char b[0]; int c;` is a struct where one does (`EmptyArrayBreaksTiling`).
* Inside a struct whose pack caps an embedded struct's alignment, the members of an embedded array are
  aligned only if the array happens to start at a multiple of it (`EmbeddedArrayAlignedExactly`);
  `PackedArrayMisaligned` is a dictionary where it does not.
* The warnings of a message cover every struct in its trees exactly if the role report reaches every
  struct embedded directly (`TreesCoveredExactly`), which it does if at most four aliases lead from each
  such member to its struct (`AgreementCovers`). A fifth alias lets a struct with a pointer into the tree
  and keeps its warning out (`AliasesEscape`).
* The digest can exceed its budget: the line feeds between its parts are not counted. Once the header
  fits what the notice reserve leaves, the excess is two tokens at most (`WithinTwoOfBudget`), and a
  digest of five applications for a budget of 800 has 801 (`BudgetCanBeExceeded`). When the reserve has
  room for the notice rows the input can produce, as it always has from a budget of 3280 on, the budget
  holds exactly if what is never dropped fits (`WithinBudgetExactly`, `LargeBudgetsExactly`).
  A header larger than that share is kept all the same, and then header and notice alone decide (`BareDigest`).
* A file edge keeps the confidence of the first message that connects the two files, so the order of the
  messages can decide how it is drawn (`FileGraph.OrderMatters`). It does not exactly if no message
  between them is sure, or all that go one way are and there are some (`PairOrderFreeExactly`).
* A file without a name that is accepted in both zones is listed twice (`UnnamedTwiceListed`); nothing
  else is (`OnePerNameExactly`). A rejected local file still hides its external namesake.
* A payload survives the event-stream frame exactly if it has no line feed and does not end in a
  carriage return (`RoundTripExactly`); the code emits every `data` line on its own and does not end a
  line at a lone carriage return, unlike section 9.2.6.
* Two brokers of one message are never joined to each other for that message (`RoutesAreRouted`).

## Model

| member | source | states |
|---|---|---|
| `Alignment.AlignUpLeast` | src/analyzer/structLayoutEngine.ts:115-117 | Aligning up gives the least multiple of the alignment at or above the offset: any other such multiple is no smaller. |
| `Alignment.AlignUpMonotone` | src/analyzer/structLayoutEngine.ts:115-117 | A later offset under a multiple of the alignment never aligns up to an earlier place. |
| `TypeDictionary.BuildTypedefMap` | src/analyzer/structLayoutEngine.ts:156-177 | The in-place loop with its four-hop chase fills exactly the map that `TypedefsAfter` describes entry by entry. |
| `TypeDictionary.TypedefMapSound` | src/analyzer/structLayoutEngine.ts:156-177 | Every entry leads from its alias to its target along real alias entries, and a struct name always maps to itself, whatever the alias table says. |
| `TypeDictionary.TypedefMapExactly` | src/analyzer/structLayoutEngine.ts:156-177 | The map takes a struct's name to itself, any other name to where the first alias entry of that name that leads anywhere leads, and nothing else: at most four linked names, up to one stored earlier or one without a further alias. |
| `TypeDictionary.ChaseTypedefExactly` | src/analyzer/structLayoutEngine.ts:165-173 | A value is stored for an alias exactly if at most that many linked names lead to a name already in the map or to one without a further alias. |
| `TypeDictionary.ResolveAlias` | src/analyzer/structLayoutEngine.ts:165-173 | The four-hop loop for one alias stops on a known name, a self-alias or a missing entry, and stores nothing after four hops, as specified hop by hop. |
| `TypeDictionary.ChasePrimitive` | src/analyzer/structLayoutEngine.ts:184-202 | The six-hop loop returns what the recursive chase specifies. |
| `TypeDictionary.ChaseExactly` | src/analyzer/structLayoutEngine.ts:184-202 | The chase yields a primitive if and only if a chain of at most that many alias entries, with no self-alias and no struct on it, meets that primitive as its first. |
| `TypeDictionary.ChaseSound` | src/analyzer/structLayoutEngine.ts:165-173 | Whatever the chase arrives at is reachable from where it started along alias entries. |
| `TypeDictionary.RowsFoundExactly` | src/analyzer/structLayoutEngine.ts:80-143 | A table row is found under its own spelling if and only if it is not the one spelled `_Bool`. |
| `TypeDictionary.BoolRowNeverRead` | src/analyzer/structLayoutEngine.ts:136-143 | Without the `_Bool` row every lookup of every name would give the same. |
| `TypeDictionary.BoolResolvesExactly` | src/analyzer/structLayoutEngine.ts:184-211 | A `_Bool` member resolves to a primitive exactly if an alias chain leads there, to a struct exactly if none does and the name maps to that struct, and to nothing otherwise. |
| `TypeDictionary.PlainBoolUnknown` | src/analyzer/structLayoutEngine.ts:330-357 | Without an alias or a struct of that name it is of unknown type. |
| `PrimitiveTables.ByteNumbers` | src/analyzer/structLayoutEngine.ts:80-111 | The one-byte names have size and alignment 1 on both targets; each is named. |
| `PrimitiveTables.HalfNumbers` | src/analyzer/structLayoutEngine.ts:80-111 | The two-byte names have 2 and 2 on both targets. |
| `PrimitiveTables.WordNumbers` | src/analyzer/structLayoutEngine.ts:80-111 | The four-byte names have 4 and 4 on both targets. |
| `PrimitiveTables.LongNumbers` | src/analyzer/structLayoutEngine.ts:80-111 | The `long` names have 4 and 4 on 32-bit, 8 and 8 on 64-bit. |
| `PrimitiveTables.LongLongNumbers` | src/analyzer/structLayoutEngine.ts:80-111 | The eight-byte names have size 8 on both targets and alignment 4 on 32-bit, 8 on 64-bit. |
| `PrimitiveTables.FloatNumbers` | src/analyzer/structLayoutEngine.ts:80-111 | `float` has 4 and 4 on both targets. |
| `PrimitiveTables.DoubleNumbers` | src/analyzer/structLayoutEngine.ts:80-111 | `double` has size 8 on both, alignment 4 on 32-bit and 8 on 64-bit. |
| `PrimitiveTables.LongDoubleNumbers` | src/analyzer/structLayoutEngine.ts:80-111 | `long double` has 12 and 4 on 32-bit, 16 and 16 on 64-bit. |
| `PrimitiveTables.WordSizedNumbers` | src/analyzer/structLayoutEngine.ts:80-111 | The pointer-sized names have 4 and 4 on 32-bit, 8 and 8 on 64-bit. |
| `Layout.LayoutEngine.ResolveElement` | src/analyzer/structLayoutEngine.ts:319-359 | Size and alignment of one member's element: pointer, primitive, nested struct under the guard, or an estimate; the guard is left as it was found. |
| `Layout.LayoutEngine.ComputeInternal` | src/analyzer/structLayoutEngine.ts:271-435 | The mutable recursion terminates on every dictionary, cyclic ones included, returns the specified layout and restores the guard. |
| `Layout.LayoutEngine.ComputeLayout` | src/analyzer/structLayoutEngine.ts:438-460 | The layout of one struct on its own, with the override, attribute and default pack in that order, whatever the guard held before. |
| `Layout.LayoutEngine.BuildStructCatalog` | src/analyzer/structLayoutEngine.ts:463-492 | One entry per struct with members, in dictionary order, each the struct's standalone layout. |
| `MemberRows.RowsNamed` | src/analyzer/structLayoutEngine.ts:311-408 | A layout has one row per declared member, in order, with its name, type text and bit width. |
| `MemberRows.CountedArray` | src/analyzer/structLayoutEngine.ts:390-408 | An array of `n` elements, of whatever kind, has `n` times the size of the same member declared without extents, at the same alignment. |
| `MemberRows.UncountedArray` | src/analyzer/structLayoutEngine.ts:390-408 | An array without a numeric extent has the size of one element and no length. |
| `MemberRows.BitField` | src/analyzer/structLayoutEngine.ts:360-379 | A bit-field has the size and alignment of its base type declared without a width, and is no array, pointer or struct. |
| `MemberRows.PointerRow` | src/analyzer/structLayoutEngine.ts:319-325 | A pointer has 4 bytes on 32-bit and 8 on 64-bit, and that alignment capped by the override, the attribute or the default pack. |
| `MemberRows.UnknownRow` | src/analyzer/structLayoutEngine.ts:352-358 | So has a member of unresolvable type. |
| `MemberRows.PrimitiveRow` | src/analyzer/structLayoutEngine.ts:327-335 | A primitive has the size, and capped the alignment, of its name in the two tables. |
| `MemberRows.AliasRow` | src/analyzer/structLayoutEngine.ts:327-335 | So has a type without a row of its own from which at most six aliases lead to that primitive. |
| `MemberRows.StructRow` | src/analyzer/structLayoutEngine.ts:336-351 | On an acyclic dictionary an embedded struct has the total, and capped the alignment, of its own standalone layout. |
| `MemberRows.GapsAttributed` | src/analyzer/structLayoutEngine.ts:288-434 | Every gap sits in front of one member, names both neighbours, the alignment and the type it is blamed on and whether two structs meet there; only the last can be the tail gap. |
| `Placement.PlacementAdmissible` | src/analyzer/structLayoutEngine.ts:311-408 | The offsets keep declaration order, do not overlap, and respect each member's effective alignment. |
| `Placement.GreedyOptimal` | src/analyzer/structLayoutEngine.ts:311-408 | No assignment that keeps order, does not overlap and respects the effective alignments puts any member earlier. |
| `Placement.GreedyTotalOptimal` | src/analyzer/structLayoutEngine.ts:410-411 | No such assignment closes at a smaller total that the struct alignment divides. |
| `Placement.TotalAttained` | src/analyzer/structLayoutEngine.ts:311-411 | The code's own offsets are such an assignment and its total closes it, so the optimum is attained. |
| `Placement.AlignIsMax` | src/analyzer/structLayoutEngine.ts:380-389 | The struct alignment is at least every effective member alignment and equals one of them, or is 1. |
| `WellPackedLayouts.ArraysStayAligned` | src/analyzer/structLayoutEngine.ts:271-434 | In every dictionary with power-of-two packs, for every struct under any power-of-two pack and any structs in progress, the alignment is a power of two dividing the total, and every member of every array element is aligned. |
| `WellPackedLayouts.CatalogArraysStayAligned` | src/analyzer/structLayoutEngine.ts:463-492 | The same for every catalog entry, with or without a power-of-two override. |
| `WellPackedLayouts.EmbeddedArrayAlignedExactly` | src/analyzer/structLayoutEngine.ts:337-389 | All members of all elements of an embedded array of structs are aligned exactly if it starts at a multiple of the inner alignment, which holds whenever the outer pack does not cap that alignment. |
| `PackedArrayExample.PackedArrayMisaligned` | src/analyzer/structLayoutEngine.ts:337-389 | A dictionary with power-of-two packs in whose catalog an embedded array of structs has unaligned members. |
| `WellPackedLayouts.TighterPackNeverLarger` | src/analyzer/structLayoutEngine.ts:271-435 | For every struct of such a dictionary and powers of two p ≤ q as its pack, every offset, the alignment, the padding and the total under p are at most those under q, with the same member sizes. |
| `WellPackedLayouts.TighterRootNeverLarger` | src/analyzer/structLayoutEngine.ts:438-460 | The same for standalone layouts, wherever the two packs come from. |
| `Placement.BytesPartitioned` | src/analyzer/structLayoutEngine.ts:281-434 | Each byte below the total lies in exactly one member or gap and none beyond it does; padding is the sum of the gaps and total minus member sizes; gaps are nonempty and shorter than the alignment that forced them. |
| `CrossTarget.InternalCross` | src/analyzer/structLayoutEngine.ts:271-435 | Under equal guards and powers of two p ≤ q the 32-bit and 64-bit runs take the same branches, with sizes, offsets and totals ordered and alignments dividing. |
| `CrossTarget.NarrowTargetNeverLarger` | src/analyzer/structLayoutEngine.ts:80-111 | For every dictionary with power-of-two packs, cyclic ones included, each 32-bit row is at most its 64-bit counterpart, each 32-bit alignment divides it, and both agree on the estimate flag. |
| `CrossTarget.CatalogsAligned` | src/analyzer/structLayoutEngine.ts:463-492 | The two catalogs list the same structs in the same order, pairwise related that way. |
| `Containment.EstimatedExactly` | src/analyzer/structLayoutEngine.ts:269-435 | A layout is an estimate if and only if some by-value chain reaches a struct with an unresolvable type or an array member without a numeric extent, or closes a containment cycle. |
| `Containment.GuardIrrelevant` | src/analyzer/structLayoutEngine.ts:337-351 | Two guards that no chain below the struct can run into give the same layout. |
| `Containment.ContextIndependent` | src/analyzer/structLayoutEngine.ts:337-351 | On an acyclic dictionary a struct met under any chain of structs in progress is laid out as if it stood alone. |
| `Containment.NestedAgreesWithCatalog` | src/analyzer/structLayoutEngine.ts:337-348 | The size, alignment and estimate flag a parent uses for an embedded struct are those of its own catalog entry, whatever pack the parent uses. |
| `Composition.ExpandStruct` | src/analyzer/messageComposition.ts:89-161 | The recursive expansion with its depth cap and seen set returns the specified tree of absolute ranges. |
| `Composition.SortSorts` | src/analyzer/messageComposition.ts:153-160 | The parts come out ordered by offset with padding first, and are the same parts. |
| `TreeShape.OccursExactly` | src/analyzer/messageComposition.ts:89-161 | With unique names a struct is in the tree if and only if a chain of embeddings of at most one step more than the depth cap leads to it from the root, with no name repeated before its last. |
| `TreeShape.LevelShows` | src/analyzer/messageComposition.ts:101-160 | The parts of a level are the struct's rows and gaps at their absolute places, one part each, in wire order. |
| `TreeShape.BlockHoldsStruct` | src/analyzer/messageComposition.ts:112-138 | A block below the cap, not inside itself, whose struct is listed holds exactly that struct's rows and gaps; any other block holds nothing. |
| `Composition.LevelTilesExactly` | src/analyzer/messageComposition.ts:101-160 | The sorted parts of a level tile [base, base + total) if and only if no zero-size member sits where a gap begins. |
| `EmptyArrayExample.EmptyArrayBreaksTiling` | src/analyzer/messageComposition.ts:89-161 | A dictionary whose one struct has an empty array in front of a gap: on either target the parts of its catalog entry do not tile it. |
| `Composition.TilesCoverOnce` | src/analyzer/messageComposition.ts:89-161 | A tiling covers each byte of its range with exactly one part's range and no byte outside it. |
| `CompositionTree.CatalogConsistent` | src/analyzer/messageComposition.ts:76-138 | On an acyclic dictionary with unique names whose members have bytes, every row that embeds a struct has the size that struct's own catalog entry gives it, times its count. Structs without members may be declared. |
| `CompositionTree.TreeTiles` | src/analyzer/messageComposition.ts:89-161 | Every level of the tree tiles its struct, and a block's children tile the block or the first element of an array block, at any depth cap and with any names seen. |
| `CompositionTree.EveryByteInOneLeaf` | src/analyzer/messageComposition.ts:89-161 | Each byte of any struct of such a dictionary, memberless ones included, lies in exactly one leaf of its tree, arrays of structs counting as one leaf, and no leaf reaches beyond it. |
| `Warnings.Collector.Collect` | src/analyzer/messageComposition.ts:164-184 | The walk over the shared seen set reports the hazards of the structs it visits in visiting order and records exactly those structs. |
| `Warnings.WarningsExactlyReachable` | src/analyzer/messageComposition.ts:164-184 | A hazard is reported as often as its struct lists it if that struct is reachable from the root, and never otherwise, on cyclic graphs too. |
| `TreeWarnings.TreesCoveredExactly` | src/analyzer/messageComposition.ts:89-184 | A graph reaches every struct shown in every tree, at any depth cap and with cycles, if and only if it reaches every struct from each struct that embeds it directly. |
| `TreeWarnings.MentionedExactly` | src/analyzer/structRoleAnalyzer.ts:101-151 | The role report records a member shown as a block if and only if at most four aliases lead from its type to that struct. |
| `TreeWarnings.AgreementCovers` | src/analyzer/structRoleAnalyzer.ts:101-167 | If they do for every such member, the warnings' graph covers all trees. |
| `TreeWarnings.TreeHazardsReported` | src/analyzer/messageComposition.ts:59-184 | Where it does, each hazard of each struct in a message's tree is among the message's warnings as often as that struct declares it. |
| `AliasExample.AliasesEscape` | src/analyzer/messageComposition.ts:59-184 | A dictionary with a chain of five aliases: the struct is in the tree, declares a pointer, and the message has no warning for it. |
| `MessageReport.BuildMessageCompositions` | src/analyzer/messageComposition.ts:186-241 | One row per message with a laid-out root, from the given catalog and a freshly built one for the other target, sorted by constant. |
| `MessageReport.RowExactly` | src/analyzer/messageComposition.ts:204-231 | A message has a row exactly if its struct is known and some struct of that name has members; the row has the sizes and paddings of the first such struct's standalone layout for either target, is flagged as differing exactly if the two sizes do, and as an estimate exactly if the rendered layout is. |
| `MessageReport.RowsHold` | src/analyzer/messageComposition.ts:204-236 | A row is in the list exactly if some message has it. |
| `MessageReport.ReportSorted` | src/analyzer/messageComposition.ts:239-240 | The report has the same rows, no row before one whose constant sorts earlier. |
| `MessageReport.SizesIndependentOfRendering` | src/analyzer/messageComposition.ts:198-236 | Rendering for the other target keeps the same messages and reports the same sizes, padding, portability flag and hazards. |
| `MessageReport.ReportedSizesOrdered` | src/analyzer/messageComposition.ts:214-231 | A reported 32-bit size never exceeds the 64-bit one and both renderings agree on the estimate flag. |
| `MessageReport.ReportedSizeIsCovered` | src/analyzer/messageComposition.ts:205-236 | A message has a row exactly if its struct has members, and then the size reported for the rendered target is exactly the set of bytes its tree covers, each once. |
| `PackDetection.PackValuesArePowers` | src/analyzer/packDetection.ts:65-67 | The bit test accepts exactly the powers of two up to 16. |
| `PackDetection.BuildPackMap` | src/analyzer/packDetection.ts:74-97 | One checkpoint per directive, with the value in effect after it. |
| `PackDetection.PackAt` | src/analyzer/packDetection.ts:98-105 | The lookup at a line gives the value in effect after the directives at or before that line. |
| `PackDetection.InEffectExactly` | src/analyzer/packDetection.ts:83-105 | The replayed value is exactly the one that the last directive not hidden in a closed group decides: a set's or push's argument, none after a reset or a pop with nothing open, what was in effect before a bare push, and none without any. |
| `PackDetection.ValuesStaySane` | src/analyzer/packDetection.ts:65-106 | The value in effect and everything stacked is absent or a power of two up to 16, after any directives. |
| `PackDetection.PushPopRestores` | src/analyzer/packDetection.ts:83-96 | A push, any balanced run of directives and a pop restore the previous value and stack. |
| `PackDetection.BalancedGroup` | src/analyzer/packDetection.ts:119-129 | The group ends at the first place where nesting returns to zero, and there is no result exactly if it never does. |
| `Reachability.VisitsExactlyReachable` | src/analyzer/headerGenBundle.ts:256-282 | A depth-first walk from several roots over one visited set meets exactly the nodes some root reaches, each once. |
| `HeaderBundle.TypeWalker.WalkType` | src/analyzer/headerGenBundle.ts:224-241 | The walk adds exactly what a depth-first visit from the canonical name adds for this root, and touches no other root. |
| `HeaderBundle.TypeWalker.WalkAll` | src/analyzer/headerGenBundle.ts:211-246 | A root is recorded for a type if and only if the dictionary defines the type and some top-level type of that header reaches it. |
| `HeaderBundle.TypeStepExactly` | src/analyzer/headerGenBundle.ts:93-245 | A type leads to another exactly if it is defined and at most four aliases lead from one of its members' types there, and that is no primitive. |
| `HeaderBundle.HeaderExactly` | src/analyzer/headerGenBundle.ts:76-78 | A file counts as a header exactly if its path ends in `.h` or `.H`. |
| `HeaderBundle.IncludeStepExactly` | src/analyzer/headerGenBundle.ts:256-279 | A file leads to another exactly if it is loaded and one of its local includes resolved to it. |
| `HeaderBundle.VisitKeepsReach` | src/analyzer/headerGenBundle.ts:224-246 | Walking from one more type on top of a closed set adds exactly what that type reaches. |
| `HeaderBundle.IncludeWalker.WalkIncludes` | src/analyzer/headerGenBundle.ts:256-279 | The include walk adds exactly a depth-first visit over resolved local includes. |
| `HeaderBundle.IncludeSet` | src/analyzer/headerGenBundle.ts:253-284 | The include set holds exactly the headers some root or input reaches, minus the inputs. |
| `HeaderBundle.BuildBundle` | src/analyzer/headerGenBundle.ts:199-286 | From the top-level types: roots are the headers that define one, inputs the headers that define anything such a type reaches, and the include set what those two lead to. |
| `RoleGraph.BuildContainment` | src/analyzer/structRoleAnalyzer.ts:129-167 | The two maps filled in one pass hold, key by key, the children in order of first mention and one edge per parent. |
| `RoleGraph.ContainmentConverse` | src/analyzer/structRoleAnalyzer.ts:141-167 | `contains` and `containedBy` are converse, without repeated children and with one edge per parent. |
| `RoleGraph.DegreesBalance` | src/analyzer/structRoleAnalyzer.ts:141-213 | With unique names the in-degrees of all structs add up to their out-degrees. |
| `RoleGraph.DepthTable.Depth` | src/analyzer/structRoleAnalyzer.ts:192-206 | The memoised recursion terminates, returns the unmemoised depth and keeps the memo truthful. |
| `RoleGraph.DepthBounded` | src/analyzer/structRoleAnalyzer.ts:193-206 | Depth never exceeds the number of structs not yet on the path. |
| `RoleGraph.DepthIsLongest` | src/analyzer/structRoleAnalyzer.ts:193-206 | On an acyclic graph depth is the length of the longest containment path below the struct. |
| `RoleGraph.DepthDecreases` | src/analyzer/structRoleAnalyzer.ts:193-206 | And it strictly decreases along every containment edge. |
| `Sorting.SortForgetsOrder` | src/analyzer/structRoleAnalyzer.ts:254-261 | Sorting duplicate-free, pairwise comparable elements depends on the elements only, not on their order. |
| `RoleReport.BoundConstants` | src/analyzer/structRoleAnalyzer.ts:172-189 | The constants of one struct, from resolved messages and confident payloads, in insertion order. |
| `RoleReport.FlaggedMap` | src/analyzer/structRoleAnalyzer.ts:132-149 | The per-name lists of pointer members and of variable arrays hold those of every struct of that name, repeated names included. |
| `RoleReport.AnalyzeStructRoles` | src/analyzer/structRoleAnalyzer.ts:126-271 | The imperative analysis yields the specified report: roles, edges, depths, bindings, flagged members, final order, wire roots and envelopes. |
| `RoleReport.ReportForgetsInputOrder` | src/analyzer/structRoleAnalyzer.ts:126-271 | With unique names, reordering structs, messages or payloads, or repeating a message or payload, leaves the whole report unchanged. |
| `RoleReport.UnboundRootsExactly` | src/analyzer/structRoleAnalyzer.ts:217-237 | A struct is an orphan or a root candidate exactly if nothing embeds it and nothing binds it. |
| `RoleMeaning.ChildExactly` | src/analyzer/structRoleAnalyzer.ts:85-104 | A member embeds a struct exactly if it is no pointer, at most four aliases lead from its type to that struct, and it is not its owner. |
| `RoleMeaning.EdgesExactly` | src/analyzer/structRoleAnalyzer.ts:141-167 | The edges into a struct are exactly the records of the first mention under each embedding name: parent, whether the member is first, its name and its numeric extent. |
| `RoleMeaning.EdgesCount` | src/analyzer/structRoleAnalyzer.ts:211-216 | There are as many edges as names of embedding structs, and as many leading edges as names whose first mention is a first member. |
| `RoleMeaning.BindsExactly` | src/analyzer/structRoleAnalyzer.ts:172-189 | A constant is listed exactly if a resolved message or a payload of sufficient confidence ties the struct to it; a payload without one counts as `(payload)`. |
| `RoleMeaning.RolesExactly` | src/analyzer/structRoleAnalyzer.ts:211-237 | Each of the seven roles has its exact condition: an envelope is embedded by three structs or more, four in five of which start with it; the others follow from whether anything binds the struct, how many embed it and whether it is referenced. |
| `RoleMeaning.FlaggedExactly` | src/analyzer/structRoleAnalyzer.ts:141-149 | The flagged members are exactly the pointers and the arrays without a numeric extent. |
| `RoleMeaning.RowCounts` | src/analyzer/structRoleAnalyzer.ts:238-252 | A row counts its members and edges, and lists children, constants and edges in increasing order. |
| `RoleMeaning.RowNames` | src/analyzer/structRoleAnalyzer.ts:141-167 | It names exactly the embedded structs and has exactly the edges into its struct. |
| `RoleMeaning.ReportOrdered` | src/analyzer/structRoleAnalyzer.ts:254-261 | Of any two rows the earlier has the earlier role, nested wire roots first and orphans last, or the same role and more depth, or both the same and the earlier name. |
| `RoleMeaning.ReportLists` | src/analyzer/structRoleAnalyzer.ts:208-252 | The report has the row of every struct, and no other. |
| `RoleMeaning.NamesExactly` | src/analyzer/structRoleAnalyzer.ts:263-270 | The two name lists hold exactly the wire roots, nested or not, and exactly the envelopes. |
| `Digest.KeepLines` | src/llm/digest.ts:365-372 | The loop keeps exactly the longest run of leading entries that fits and tracks its cost. |
| `DigestContents.FitIsLongest` | src/llm/digest.ts:365-372 | The entries kept cost at most what is left of the fill budget, and any longer start would cost more. |
| `DigestContents.ShownExactlyWhatFits` | src/llm/digest.ts:338-390 | From the header's tokens on, each section is shown whole if it fits behind those before it, else its longest fitting start is; only what is shown uses tokens. |
| `DigestContents.DigestText` | src/llm/digest.ts:345-422 | The text is the header, one body for each section of which anything is shown, and, exactly if something was left out, a notice with as many of its rows as fit the reserve. |
| `DigestContents.RecordedExactly` | src/llm/digest.ts:321-390 | The omissions on record are exactly those of the dropped lists, of sections not shown in full, and of irrelevant entries, with their counts. |
| `Digest.FillSections` | src/llm/digest.ts:345-390 | The fill loop emits whole or partial sections and the matching omissions, in order. |
| `Digest.BuildDigest` | src/llm/digest.ts:283-423 | The early return without applications, header, sections, trimmed notice and estimate together, as one function of the input. |
| `Digest.ShownPlusWithheldIsAll` | src/llm/digest.ts:345-390 | In each section the entries shown are a prefix, and shown plus withheld for the budget are all of them. |
| `Digest.BudgetOmissionsWithhold` | src/llm/digest.ts:363-390 | Every budget omission withholds at least one entry. |
| `Digest.WholeIfAllFit` | src/llm/digest.ts:350-372 | If every entry fits one by one then the whole section fits, so a partial section is never complete. |
| `Digest.EstimateBounded` | src/llm/digest.ts:71-422 | The estimate is at most the larger of header tokens and fill budget, plus the notice reserve, plus 2, for everything the section builder can emit (lines 131-279: six sections at most, none empty). |
| `Digest.WithinTwoOfBudget` | src/llm/digest.ts:338-422 | If the header fits what the reserve leaves, the estimate exceeds the budget by two at most. |
| `Digest.NothingOmittedExactly` | src/llm/digest.ts:321-390 | Nothing is left out if and only if the lists fit, nothing was irrelevant, and header and sections together fit the fill budget. |
| `Digest.WholeDigestWithinBudget` | src/llm/digest.ts:334-419 | A digest that leaves nothing out is within the budget if and only if its header is. |
| `Digest.SpareReserveSuffices` | src/llm/digest.ts:394-419 | With the header inside the fill budget and two tokens of the reserve left over by all notice rows, the budget holds. |
| `Digest.BareDigest` | src/llm/digest.ts:345-419 | With a header beyond the fill budget no section is shown, and the estimate is that of header and notice alone. |
| `Digest.WithinBudgetExactly` | src/llm/digest.ts:283-422 | When the reserve has room for the rows the input can produce, one per section and two more at most, the digest is within the budget if and only if the header fits the fill budget, or header and notice alone fit the budget. |
| `DigestExample.RealRowsExactly` | src/llm/digest.ts:392-422 | The same with the lengths of the real notice rows, for lists shorter than a billion. |
| `DigestExample.LargeBudgetsExactly` | src/llm/digest.ts:283-422 | From a budget of 3280 on there is room for every row there can be, so the equivalence holds for every such input. |
| `DigestExample.BudgetCanBeExceeded` | src/llm/digest.ts:283-422 | Five applications with one message each, with sizes, compositions and queues as the analyser reports them, whose header, two sections and trimmed notice fill a budget of 800 exactly and come out at 801. |
| `EdgeCollapse.MergeIsUnion` | src/utils/buildAppGraph.ts:199-207 | Merging gives the union of both message lists without repeats, with interfaces still matching if both matched. |
| `EdgeCollapse.CollapseProgress` | src/utils/buildAppGraph.ts:193-210 | After any number of keys: of each pair met the key entered first is dropped and nothing else is, and each edge holds its own and its dropped reverse's messages. |
| `EdgeCollapse.CollapseKeepsUnion` | src/utils/buildAppGraph.ts:193-211 | After the collapse each unordered pair that had an edge has exactly one, under the key entered later, with the union of both directions, matching interfaces, its own transport and either side's confidence. |
| `EdgeCollapse.InterfacesKept` | src/utils/buildAppGraph.ts:199-206 | Its interfaces are its own and those of the reverse whose message it does not hold itself. |
| `EdgeCollapse.CollapseReciprocal` | src/utils/buildAppGraph.ts:193-211 | The in-place loop with its dropped set yields exactly that collapse. |
| `AppGraph.MessageMapOk` | src/utils/buildAppGraph.ts:65-98 | An application is a producer of a message exactly if an interface of it has a file in role producer or both, a consumer exactly if one has a file in role consumer or both; confidence is as stated; and for each producer its first producing interface is on record. |
| `AppGraph.BuildMessageMap` | src/utils/buildAppGraph.ts:74-98 | The nested loops fill the map over all interfaces of all analysed applications in loading order. |
| `AppGraph.RoutesAreRouted` | src/utils/buildAppGraph.ts:149-179 | A message contributes a connection if and only if its sender makes it, its receiver takes it, and one of them is a broker with the other a pure endpoint, or there is no broker. |
| `AppGraph.EdgesShaped` | src/utils/buildAppGraph.ts:112-191 | After any number of messages: no self-loops, no empty edge, each message once per edge with its own interface. |
| `AppGraph.EdgesHold` | src/utils/buildAppGraph.ts:112-191 | An edge holds a message exactly if that message has been processed and is routed there. |
| `AppGraph.BuildEdges` | src/utils/buildAppGraph.ts:110-191 | The routing loops build exactly those edges. |
| `AppGraph.EdgesSourced` | src/utils/buildAppGraph.ts:112-134 | Every interface on an edge is the first its source makes of that message, and the edge has the transport of its first. |
| `AppGraph.BuildAppGraph` | src/utils/buildAppGraph.ts:65-211 | Two applications are joined exactly if a message is routed between them by the roles of their files, by one edge, never to themselves, from an application that sends one, carrying exactly the messages routed either way, each with its sender's first interface, and confident exactly if one of those is vouched for. |
| `AppGraph.BrokerExactly` | src/utils/buildAppGraph.ts:85-95 | An application is a broker exactly if a file of it both produces and consumes the message, or one produces and one consumes it. |
| `AppGraph.BrokerStandsBetween` | src/utils/buildAppGraph.ts:149-211 | A message with a broker is on no edge between a pure producer and a pure consumer of it, whichever of the two the surviving edge leaves from. |
| `AppGraph.DrawnBothWays` | src/utils/buildAppGraph.ts:239-245 | An edge is drawn bidirectional exactly if a message is routed against it and one routed either way is vouched for, and as uncertain exactly if none is. |
| `FileGraph.AddMessage` | src/utils/buildGraph.ts:66-97 | One message adds an edge or a message for each producer and consumer in different files. |
| `FileGraph.FromMessagesHold` | src/utils/buildGraph.ts:66-108 | An edge between two files holds a message exactly if one interface of it has the one as producer and the other as consumer. |
| `FileGraph.ConfidenceIsFirst` | src/utils/buildGraph.ts:79-95 | Before the collapse an edge exists exactly if some message connects the files that way, and is confident exactly if the first such message is. |
| `FileGraph.TransportIsFirst` | src/utils/buildGraph.ts:79-95 | And it has the transport of that first message. |
| `FileGraph.BuildGraph` | src/utils/buildGraph.ts:57-175 | After the collapse two files are joined by one edge exactly if some message connects them, carrying exactly the messages that do, either way, with the transport of the first that does its way, and confident exactly if the first of one of the two ways is. |
| `FileGraph.DrawnBothWays` | src/utils/buildGraph.ts:180-188 | It is drawn bidirectional exactly if messages go both ways and the first of one of the ways is confident. |
| `FileGraph.OrderFreeExactly` | src/utils/buildGraph.ts:79-95 | For any messages, the confidence of the edge one way is the same in every order if and only if all messages that connect the files that way agree on theirs. |
| `FileGraph.PairOrderFreeExactly` | src/utils/buildGraph.ts:66-175 | The confidence of the finished edge is the same in every order if and only if no message between the files is sure, or all that go one way are and there are some. |
| `FileGraph.DrawnAlike` | src/utils/buildGraph.ts:66-188 | Under that condition two runs over the same messages in any two orders draw the edge alike, whichever key it survives under. |
| `FileGraph.OrderMatters` | src/utils/buildGraph.ts:79-95 | Two messages whose order changes the confidence of the finished edge. |
| `Sse.SseParser.HandleLine` | src/llm/sse.ts:26-39 | One line yields its payload exactly if its field is `data`, with CR and one leading space removed. |
| `Sse.PayloadExactly` | src/llm/sse.ts:26-39 | A line yields a payload exactly if, without one closing carriage return, it is `data` alone, or `data:` and the payload with one space between or none. |
| `Sse.LinesExactly` | src/llm/sse.ts:22-30 | The lines taken and the rest kept are the text cut at every line feed. |
| `Sse.SseParser.Push` | src/llm/sse.ts:18-42 | A push returns the payloads of the complete lines of buffer plus chunk and keeps the rest. |
| `Sse.SseParser.Flush` | src/llm/sse.ts:45-53 | A flush returns the payload of a leftover line, if it is not blank, and empties the buffer. |
| `Sse.ReadAll` | src/llm/client.ts:287-302 | Pushing chunk after chunk and flushing gives the payloads of the whole text. |
| `Sse.SplitAnywhere` | src/llm/sse.ts:18-42 | Cutting a text in two anywhere changes neither the payloads nor the leftover. |
| `Sse.ChunkingInvisible` | src/llm/sse.ts:18-53 | Any two ways of cutting the same text into chunks deliver the same payloads. |
| `Sse.RoundTripExactly` | src/llm/sse.ts:18-53 | Framed payloads come back, under any chunking, if and only if none holds a line feed or ends in a carriage return. |
| `Preprocessor.ExtractConditionalBlocks` | src/analyzer/preprocessor.ts:23-103 | The stack scan and the drain of unclosed blocks return the specified blocks and text. |
| `Preprocessor.StrippedLineForLine` | src/analyzer/preprocessor.ts:35-84 | One output line per input line: blank for a directive that applies, unchanged otherwise. |
| `Preprocessor.OneBlockPerOpener` | src/analyzer/preprocessor.ts:40-96 | As many blocks come out as there are opening directives, closed or not. |
| `Preprocessor.BlocksNestOrDisjoint` | src/analyzer/preprocessor.ts:63-96 | Each block starts at its opener and ends inside the file; any two are disjoint or nested. |
| `DirectiveMatching.StackExactly` | src/analyzer/preprocessor.ts:35-84 | The blocks open at a line are exactly those whose opener no later directive before the line has balanced. |
| `DirectiveMatching.InnermostExactly` | src/analyzer/preprocessor.ts:35-84 | The innermost block is the last opened of them, and there is none exactly if none is open. |
| `DirectiveMatching.BlocksEndExactly` | src/analyzer/preprocessor.ts:63-96 | Each block ends at the first line at which openers and closers from its own on balance, or at the last line if they never do. |
| `Preprocessor.CoveredIffInside` | src/analyzer/preprocessor.ts:54-96 | A line that is no directive is covered by a block if and only if it was read inside one. |
| `Preprocessor.BlocksHoldWhatTheyOwn` | src/analyzer/preprocessor.ts:57-96 | A block's branches are the lines that it is the innermost block of, cut at its own middle directives. |
| `Preprocessor.LandsInInnermostOnly` | src/analyzer/preprocessor.ts:77-96 | Each emitted block holds a line once if it is plain and the block is its innermost one, and otherwise not at all. |
| `Preprocessor.LandsExactlyOnce` | src/analyzer/preprocessor.ts:54-96 | The block that is innermost when a plain line is read is emitted, holds the line exactly once, and no other emitted block holds it. |
| `FileRegistry.FileRegistry.AddFiles` | src/analyzer/fileRegistry.ts:21-59 | Each file in turn replaces its namesake, shadows or is shadowed across zones, and raises one warning. |
| `FileRegistry.FileRegistry.RemoveFile` | src/analyzer/fileRegistry.ts:62-78 | Removes the entry, unshadows what it shadowed and drops the name's warning; nothing else changes. |
| `FileRegistry.FileRegistry.GetAll` | src/analyzer/fileRegistry.ts:81-85 | The accepted, unshadowed files in insertion order. |
| `FileRegistry.RunKeeps` | src/analyzer/fileRegistry.ts:21-120 | After any operations: an external entry is shadowed exactly while its local namesake is present, a local one never, and there is one warning per colliding name and none otherwise. |
| `FileRegistry.RunHoldsLastWriters` | src/analyzer/fileRegistry.ts:21-120 | The entries are those of two last-writer-wins maps, whatever the operations. |
| `FileRegistry.ListingIsLastWriters` | src/analyzer/fileRegistry.ts:81-85 | A file is listed if and only if it is the last writer of its zone, accepted, and not hidden by a local namesake. |
| `RegistryOrder.OrderExactly` | src/analyzer/fileRegistry.ts:21-85 | Of two present files, the one listed first has been present without a break since before the other last came in, whatever the operations. |
| `RegistryOrder.ListedInOrder` | src/analyzer/fileRegistry.ts:81-85 | The listing keeps that order. |
| `FileRegistry.OnePerNameExactly` | src/analyzer/fileRegistry.ts:81-85 | No file is listed twice, and no two positions of the list bear one name, except exactly if an empty name is accepted in both zones. |
| `FileRegistry.UnnamedTwiceListed` | src/analyzer/fileRegistry.ts:81-85 | A run in which two files of one (empty) name are listed. |
| `AskLoop.RunCalls` | src/llm/conversation.ts:136-157 | The calls of a round run in order, each followed by its reply and event, until one throws. |
| `AskLoop.RunRound` | src/llm/conversation.ts:108-157 | One round: answer, empty answer, failure, or at most ten calls. |
| `AskLoop.StreamAnswer` | src/llm/conversation.ts:168-200 | The streamed turn relays content and reasoning and ends in done, an empty-answer error, or the caught failure. |
| `AskLoop.Ask` | src/llm/conversation.ts:84-202 | The whole loop, for any replies, failures and aborts, as one function of them. |
| `AskLoop.EndsExactlyOnce` | src/llm/conversation.ts:105-201 | Exactly one terminal event is emitted, and it is the last. |
| `AskLoop.WorkIsBounded` | src/llm/conversation.ts:25-158 | At most 6 tool rounds, 60 tool executions and 7 requests to the model. |
| `AskLoop.RequestsAreWellFormed` | src/llm/conversation.ts:99-174 | Every conversation sent is the system prompt, the history and the question, then exchanges: each assistant message with calls is followed by exactly one reply per call, in order, with matching ids. |
| `AskTranscript.RoundTells` | src/llm/conversation.ts:107-157 | A round goes on exactly if the reply asks for tools and none of the first ten calls throws; it then adds the assistant's message with those calls, one result per call, and two events per call, in order. |
| `AskTranscript.DirectShows` | src/llm/conversation.ts:117-127 | If some round is reached and answers directly, the text shown is its reasoning, if any, and its answer, and the run is done. |
| `AskTranscript.SilentShows` | src/llm/conversation.ts:117-190 | If one replies with neither text nor calls, the text shown is the stream's, in order, and the same conversation is sent once more. |
| `AskTranscript.BrokenShows` | src/llm/conversation.ts:107-201 | If one fails, no text is shown and the run ends by that failure: quietly if aborted, else as its error. |
| `AskTranscript.ExhaustedShows` | src/llm/conversation.ts:160-190 | If six rounds run, there are seven requests, the last ends with the nudge, and the text shown is the stream's. |
| `AskTranscript.OneOutcome` | src/llm/conversation.ts:105-201 | One of these four always happens. |

## Left out

- Parsing: tree-sitter extraction, the regular expressions of `parseFieldType`, `normalizeType`, `scanPackPragmas` and the conditional directives, and the token stripping in `canonicalName`. Members arrive parsed, directives scanned, lines classified.
- Include paths: `joinPath` and `resolveInclude` decide which loaded file an include names; the result is an input of the include walk.
- Containment.NestedAgreesWithCatalog: stated without a pack override, since a catalog built with one gives nested structs a pack the recursion does not; no caller in the repository sets it. The tiling theorems inherit this.
- CompositionTree.TreeTiles: assumes a consistent catalog; `CatalogConsistent` provides it for acyclic dictionaries with unique names in which no member is an empty array or embeds a struct without members, and an array of structs is one leaf because its children describe its first element only.
- RoleReport.ReportForgetsInputOrder: assumes unique struct names; `sort()` and `localeCompare` are two abstract total orders on names; the envelope ratio 0.8 is compared in integers.
- AppGraph.BuildAppGraph: an edge is keyed by the pair of applications; that two pairs could share one key string if a name contained the arrow is not modelled. Node lists, the incomplete flags and the drawing layout are left out.
- FileGraph.BuildGraph: node lists and the incomplete flags are not part of the statement.
- Digest.BuildDigest: rows, headings and the notice are lengths; which rows the section builder renders, and their wording, is not modelled beyond what it can hand over (`Buildable`). Tokens are the integer ceiling of 2n/7.
- MessageReport.BuildMessageCompositions: role names on parts, source files, constant values and pack attributes are passed through by the code and left out of the row.
- HeaderBundle.BuildBundle: the choice of top-level types, the sorting of the three lists and the review messages are not modelled, except that an undefined type is reported.
- AskLoop.Ask: the replies, tool results, stream and aborts are an arbitrary oracle; prompt text, network and token limits are not modelled, and an exception from an event's consumer is not.
- JavaScript's built-in sort is modelled as a stable insertion sort, object lookups as total maps without inherited keys, and numbers as unbounded integers.
- React components, worker, storage, HTTP client, diagnostics, drawing and export.
- `getSources`, `getStringHeaders` and the other filtered views of the registry: filters over `GetAll`.
