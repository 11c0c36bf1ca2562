# IVD runtime core in Dafny

IVD is a declarative UI runtime. A small language compiles into a tree of
element templates (`Element`). The runtime instantiates them as live
`DisplayItem`s. The visual attributes of a display item come from layered
reference attributes: a default layer plus one layer per active state. They
are merged into animatable runtime attributes, and the result is laid out by
a hierarchy of materials that propose, shape and position boxes.

This project models that core as Dafny modules, one per source component:

- the compiler front end: `Tokenizer` and `Parsing`, the latter covering expressions, graphs, times and virtual state keys;
- expression trees, with forward solving and weak-term back-solving (`Expression`), and the expression printer (`ExpressionPrinter`);
- scoped value keys (`ValueKey`) and the keyword, property and attribute-key tables (`Keyword`, `Keywords`, `Property`, `AttributeKey`);
- reference attributes and their inheritance merge (`ReferenceAttributes`), runtime and animatable attributes (`RuntimeAttributes`), and the per-item attribute array (`RuntimeAttributeSets`);
- the state manager (`StateManagement`) and virtual state keys (`VirtualStateKey`);
- the event queue (`Events`) and the model container's linked list (`ModelContainers`);
- elements (`Elements`), display items and their tree (`DisplayItems`), and the environment's bookkeeping (`Environments`);
- geometry and proposals (`Geometry`, `Proposal`);
- the layout engine: line shaping (`LineShaping`), per-item geometry (`ItemGeometry`), materials (`Materials`, `MaterialTree`), row, stack and inline layouts (`Layouts`, `InlineLayout`), the fallback paragraph (`FallbackParagraph`) and text runs (`TextFitting`, `TextRuns`);
- animation graphs (`AnimationGraph`) and C integer helpers (`CInt`).

The source's mutable objects become classes where it updates them in place:
the state manager (`StateManager`), the environment (`Environment`), the event
queue (`EventQueue`), the model container (`ModelContainer`), elements
(`Element`), display items and their tree (`DisplayItem`, `ItemTree`), runtime
attribute sets (`RuntimeAttributeSet`), the materials (`Material`,
`TextRunMaterial`, `InlineLayoutMaterial`, `FallbackParagraphMaterial`), the
drawing canvas (`Canvas`), the tokenizer (`Tokenizer`) and the parser
(`Parser`). Everything else becomes values and functions.

Raw pointers become identities:

- display items and model items are integer handles;
- a non-owning pointer into a reference attribute is a `(layer, value)` pin;
- `std::map` becomes `map`, and `std::set` becomes `set` or a duplicate-free `seq` where order matters. The one set whose order cannot be reproduced, the affected virtual keys of a state, is kept in insertion order (see `RegisterAffected` under "## Left out").

Doubles are `real`. Text measurement and the shaping of children are
parameters of the operations that use them.

## Model

| member | source | states |
|---|---|---|
| CInt.Div | src/shaping/line.h:163 | C++ `int` division agrees with mathematical division on non-negative operands |
| CInt.DivOdd | src/shaping/line.h:181 | the C++ quotient changes sign with either operand, its size unchanged |
| CInt.DivNonNegative | src/shaping/line.h:163 | a non-negative `int` divided by a positive one lies between 0 and the dividend |
| CInt.DivTruncatesTowardZero | src/shaping/line.h:181 | C++ rounds -7/2 to -3 where Euclidean division gives -4 |
| CInt.TruncateToInt | src/graph.cpp:109 | converting a `double` to `int` drops the fraction toward zero: the result is within 1 of the value and never farther from zero |
| DisplayItems.MinOf | src/displayitem.cpp:70-71 | the least position of a non-empty set, which `std::map` visits first |
| DisplayItems.DisplayItem.constructor | src/displayitem.h:71-84 | a new item holds its element stamp, no variables and no contributing sets |
| DisplayItems.DisplayItem.SetVariable | src/displayitem.h:90-91 | stores the variable; nothing else changes |
| DisplayItems.DisplayItem.GetVariable | src/displayitem.h:93-94 | returns the stored value, or 0 for a variable never set, which `operator[]` then stores |
| DisplayItems.DisplayItem.AddAttributeSet | src/displayitem.cpp:52-56 | the set contributes at its position, replacing any there, and the item is marked changed |
| DisplayItems.DisplayItem.RemoveAttributeSet | src/displayitem.cpp:58-62 | nothing contributes at the position any more, and the item is marked changed |
| DisplayItems.DisplayItem.RecomputeLayers | src/displayitem.cpp:65-74 | after the defaults, every contributing set is merged exactly once, by ascending position |
| DisplayItems.LayerStep | src/displayitem.cpp:70-71 | merging the least remaining position extends the merged layers in order |
| DisplayItems.ItemTree.constructor | src/displayitem.h:71-84 | a new tree holds no parent links and no children |
| DisplayItems.ItemTree.Deparent | src/displayitem.cpp:85-92 | the item leaves its parent's children and has no parent; nothing else changes |
| DisplayItems.ItemTree.SetParent | src/displayitem.cpp:76-83 | nothing happens when `p` already is the parent; otherwise the item leaves its old parent and joins `p`'s children |
| DisplayItems.ItemTree.PrepareToDie | src/displayitem.cpp:94-98 | (intended) the item leaves its parent and every child loses it as parent; no other link changes |
| DisplayItems.ItemTree.ReleaseChildren | src/displayitem.cpp:97 | (intended) every child of the item is deparented, the others keep their parents |
| DisplayItems.ItemTree.Depth | src/displayitem.cpp:115-119 | the number of parent steps to the first item without a parent |
| DisplayItems.ItemTree.GetRoot | src/displayitem.cpp:101-113 | the loop ends at the ancestor that has no parent, `Depth` steps up |
| DisplayItems.ItemTree.AncestorStep | src/displayitem.cpp:106-110 | one more turn of the loop moves to the parent |
| DisplayItems.DetachLinked | src/displayitem.cpp:85-92 | detaching keeps parent and children links consistent |
| DisplayItems.AttachLinked | src/displayitem.cpp:80-82 | attaching an orphan keeps parent and children links consistent |
| DisplayItems.ReleaseStep | src/displayitem.cpp:97 | deparenting one child of the snapshot advances the release loop |
| DisplayItems.KidsDisjoint | src/displayitem.cpp:76-92 | distinct items have no child in common |
| DisplayItems.InsertStable | src/displayitem.cpp:347 | inserting keeps the same elements plus one |
| DisplayItems.StableSort | src/displayitem.cpp:347 | `std::stable_sort` returns a permutation of its input |
| DisplayItems.FilterAppend | src/displayitem.cpp:347 | the elements with one key, taken from an extended sequence |
| DisplayItems.InsertBounded | src/displayitem.cpp:347 | insertion keeps a key bound |
| DisplayItems.InsertSorted | src/displayitem.cpp:347 | insertion into a sorted sequence keeps it sorted |
| DisplayItems.InsertKeepsClasses | src/displayitem.cpp:347 | insertion keeps the relative order within each key |
| DisplayItems.StableSortMeaning | src/displayitem.cpp:347 | the sort orders by key and keeps the elements of each key in their original order |
| DisplayItems.CellRank | src/displayitem.cpp:352-378 | the first index of the cell in front, the names, back; one past the end plus one for an unknown name |
| DisplayItems.IndexOf | src/displayitem.cpp:368-369 | the first index holding the cell, or one past the end plus one when none does |
| DisplayItems.ModelOrderFails | src/displayitem.cpp:350-381 | the ordering (`ModelOrder`) fails exactly when cell names are set, there are two or more children (so the asserting comparator is called on each) and some child has no `PositionWithin` cell; a single child comes back unchanged |
| DisplayItems.ModelOrderByStamp | src/displayitem.cpp:343-347 | without cell names `ModelOrder` stably sorts the children by element stamp |
| DisplayItems.ModelOrderByCell | src/displayitem.cpp:350-381 | with cell names `ModelOrder` sorts the children by cell rank, those of one rank in stamp order |
| DisplayItems.FilterSorted | src/displayitem.cpp:381 | a subsequence of a sorted sequence is sorted |
| DisplayItems.FilterBounded | src/displayitem.cpp:381 | a subsequence keeps a bound |
| DisplayItems.CellRanks | src/displayitem.cpp:354-378 | "front" ranks first, an undeclared name after every declared one, "back" included |
| Elements.SlotsOf | src/element.h:43-48 | the attribute set of each state key, read through the key map, for exactly the keys with a valid position |
| Elements.SlotsUpdate | src/element.h:124 | writing one position changes only the slot of the key stored there |
| Elements.SlotsAppend | src/element.h:58-63 | a new key reads a blank set at the next position |
| Elements.DerivedSlots | src/element.h:118-125 | after derivation the element has a slot for each of its own keys and each parent key |
| Elements.DerivedSlotsNone | src/element.h:118-125 | a parent without state keys changes nothing |
| Elements.DerivedSlotsStep | src/element.h:118-125 | one more parent key derives that slot and keeps the rest |
| Elements.DerivedSlotsNewState | src/element.h:121-124 | a parent state the child had no attributes for arrives as the parent's set derived into a blank one |
| Elements.ObtainPos | src/element.h:54-68 | a known key returns its position unchanged; a new key gets the next position with a blank set; no existing slot changes |
| Elements.DeriveKeyInto | src/element.h:120-124 | one turn of `deriveFrom`'s loop: the key's slot, made blank if new, derives from the parent's set; nothing else changes |
| Elements.Visited | src/element.h:118 | the parent's slots the loop has already visited |
| Elements.VisitedStep | src/element.h:118-125 | visiting one more key adds its slot |
| Elements.VisitedEnds | src/element.h:118-125 | before the loop nothing is visited; after it, everything |
| Elements.DeriveKeys | src/element.h:118-125 | the whole loop makes the slots the derivation of the element's slots from the parent's |
| Elements.Element.constructor | src/element.h:71 | a new element has its stamp, a blank default set and no keyed sets, virtual keys or initial expressions |
| Elements.Element.ObtainPosForKey | src/element.h:54-68 | a known key keeps its position; a new one gets the next with a blank set; no slot's content changes |
| Elements.Element.GetAttributeSetForStateKey | src/element.h:103-109 | without a key the default set is meant; with one, the key's slot, created blank if new; no slot's content changes |
| Elements.Element.At | src/element.h:111-112 | the position with its set, and none out of range where `at` throws |
| Elements.Element.SetInitialExpression | src/element.h:92-93 | a later initial expression for a variable replaces the earlier one; nothing else changes |
| Elements.Element.AddVirtualStateKey | src/element.h:90 | the precursor is appended; nothing else changes |
| Elements.Element.DeriveFrom | src/element.h:114-144 | the default set and every slot derive from the parent's; virtual keys and initial expressions are not inherited |
| Environments.ItemAddress | src/environment.cpp:64-65 | display items used as scopes and observers get addresses a model item never has |
| Environments.ModelAddress | src/environment.cpp:66-71 | model items used as scopes get addresses a display item never has |
| Environments.Chain | src/environment.cpp:298-315 | the model item, then each ancestor reached through `parentItem`, ending with the static level |
| Environments.FindUpIsNearest | src/environment.cpp:282-320 | the walk up (`FindUp`) finds the item of the nearest level that has one, and nothing exactly when no level has one |
| Environments.Toggled | src/environment.cpp:787-797 | toggling keeps the set of existing states |
| Environments.ToggledParity | src/environment.cpp:787-797 | a state ends up flipped exactly when listed an odd number of times |
| Environments.OccurrencesOfDistinct | src/environment.cpp:787-797 | a state is listed at most once in a list without repeats |
| Environments.ToggledDistinct | src/environment.cpp:787-797 | toggling distinct states flips exactly the listed ones |
| Environments.ToggleTwice | src/environment.cpp:787-797 | toggling the same list twice restores every state |
| Environments.RadioPickMeaning | src/environment.cpp:823-836 | the first pass counts the active listed states and picks one whose stamp no other active listed state exceeds |
| Environments.RadioLeavesOne | src/environment.cpp:820-848 | when more than one listed state is active, afterwards exactly the newest stays active |
| Environments.ActiveListedPositive | src/environment.cpp:828-836 | a positive count means some listed state is active |
| Environments.ModelReactions | src/environment.cpp:549-550 | the `reactToTrigger` calls, at most one per trigger |
| Environments.Precursor | src/environment.cpp:119-125 | a keyed attribute map's key rebuilt as a precursor names the same state |
| Environments.ObservingKeeps | src/environment.cpp:125 | registering an observer keeps every other observation |
| Environments.ObservingAdds | src/environment.cpp:125 | registering an observer makes it watch the state |
| Environments.AnyQuitsSnoc | src/environment.cpp:551-558 | one more trigger quits exactly when it or an earlier one does |
| Environments.Deferring | src/environment.cpp:128-138 | each virtual key is deferred with the new item as its context |
| Environments.Existing | src/statemanager.h:146-150 | the listed states that exist, in order |
| Environments.AssignedStep | src/environment.cpp:770-778 | assigning one more listed state |
| Environments.ClearedStep | src/environment.cpp:839-846 | clearing one more listed state other than the top one |
| Environments.MutatedAlone | src/statemanager.cpp:155-164 | without a cascade, `mutateIfObserved` sets only that state, if it exists |
| Environments.DispatchItem | src/environment.cpp:547-559 | a trigger reacts on the model when model-scoped and the item has a model; any other trigger quits when it is the quit trigger |
| Environments.DispatchAll | src/environment.cpp:543-563 | every trigger is dispatched, and the loop quits iff some item held the quit trigger |
| Environments.EnrollKeeps | src/environment.cpp:109-113 | registering an item under a key keeps both key maps in agreement, even when the key had an item before |
| Environments.DestroyKeeps | src/environment.cpp:161-165 | removing an item and its key keeps the maps in agreement, and no key leads to the item |
| Environments.Environment.constructor | src/environment.cpp:42-48 | a new environment has no instances, keys, deferred keys, dirty items or triggers |
| Environments.Environment.Deduced | src/environment.cpp:282-320 | no target for a path no element has; a found target is a live item of that element |
| Environments.Environment.FindUpLive | src/environment.cpp:298-319 | the walk finds a live item of the element on the context's chain |
| Environments.Environment.DeduceTarget | src/environment.cpp:282-320 | the method computes `Deduced` |
| Environments.Environment.KeyFor | src/environment.cpp:57-82 | the state key's identity is the precursor's key; the scope follows the precursor's scope, and a path overrides it with the deduced target; each failed assertion is an error |
| Environments.Environment.GenerateStateKey | src/environment.cpp:57-82 | the method computes `KeyFor` |
| Environments.Environment.GenerateStateKeys | src/environment.cpp:665-675 | every precursor's key in order, or an error iff some key cannot be generated |
| Environments.Environment.RegisterObservers | src/environment.cpp:119-126 | the item observes every listed state afterwards |
| Environments.Environment.Enroll | src/environment.cpp:95-146 | the new item is added to the instances, both key maps, its model's item list, the dirty set and, with its virtual keys, the deferred list |
| Environments.Environment.SetupNewDisplayItem | src/environment.cpp:95-146 | the bookkeeping of `Enroll`, and the new item observes the state of each keyed attribute set; an error iff such a key cannot be generated |
| Environments.Environment.DestroyDisplayItem | src/environment.cpp:149-177 | the item leaves both key maps, the dirty set, every state's observers and the instances; nothing else changes |
| Environments.Environment.TakeDirty | src/environment.cpp:415-416 | the batch is the dirty set, which is then empty |
| Environments.Environment.MarkDirty | src/displayitem.cpp:52-62 | the item is added to the dirty set; nothing else changes |
| Environments.Environment.RecomputePhase | src/environment.cpp:414-424 | the batch is the old dirty set; afterwards exactly the items the batch marked are dirty |
| Environments.Environment.MutateAlone | src/statemanager.cpp:155-164 | only state values change; when the state has no virtual state depending on it, it reads `v` if it exists and no other state changes value |
| Environments.Environment.SetEach | src/environment.cpp:770-778 | the induce and unset acceptors: only values change; when no listed state has a virtual state depending on it (`Calm`), every listed existing state reads `v` and no other state changes value |
| Environments.Environment.ToggleEach | src/environment.cpp:787-797 | the toggle acceptor: only values change; when no listed state has a virtual state depending on it, the states end up `Toggled` |
| Environments.Environment.PickTop | src/environment.cpp:823-836 | the first pass reads the states into `RadioPick` |
| Environments.Environment.Radio | src/environment.cpp:820-848 | the pick is `RadioPick` of the states before; with at most one active listed state nothing changes; otherwise, when no listed state has a virtual state depending on it, every listed state but the top one is cleared, and exactly the top one stays active, as `RadioLeavesOne` states |
| Environments.Environment.ClearAllBut | src/environment.cpp:839-846 | the second pass: when no listed state has a virtual state depending on it, every listed state but the top one is cleared |
| Environments.Environment.TriggerEach | src/environment.cpp:810-818 | every listed state that exists is queued for reset, in order |
| Environments.Environment.AcceptTriggers | src/environment.cpp:854-859 | an item with triggers records them; an item without leaves the map alone |
| Environments.Environment.DispatchTriggers | src/environment.cpp:543-563 | every trigger is dispatched, the map is cleared, and the loop dies iff some item held the quit trigger |
| Events.ContainerEvent | src/modelcontainer.h:49-84 | a container event carries exactly its type, container and items, with an empty model key and an empty state key |
| Events.EventQueue.constructor | src/event.h:53-55 | a new queue holds no events |
| Events.EventQueue.PushEvent | src/event.h:58-59 | the event is appended at the back; earlier events are untouched |
| Events.EventQueue.HasEvent | src/event.h:61-62 | true exactly when the queue is non-empty |
| Events.EventQueue.PopEvent | src/event.h:64-69 | requires a non-empty queue; returns the oldest event and removes exactly that one |
| Events.EventQueue.Drain | src/environment.cpp:439-441 | the frame loop hands out every queued event, oldest first, and leaves the queue empty |
| Events.PushPushDrain | src/event.h:58-69 | FIFO: after pushing a then b, draining yields the earlier events, then a, then b |
| Expression.Combine | src/expression.cpp:82-89 | `left op right`; an error exactly for division by zero |
| Expression.SolveChild | src/expression.cpp:69-72 | a missing child evaluates to 0 |
| Expression.Solve | src/expression.cpp:67-91 | constants give their value (the unit ignored), a key leaf reads the store through `getInteger`, any other non-arithmetic operator is the `logic_error` |
| Expression.SolveArithmetic | src/expression.cpp:71-89 | an operator node combines its children's values |
| Expression.Inverse | src/expression.cpp:134-150 | the value the weak side needs: req-known for `+`, req/known for `*`, known+req or known-req for `-`, known*req or known/req for `/`, left or right weak; it solves back to req unless that would divide by zero |
| Expression.TimesInverse | src/expression.cpp:139 | req/known times known is req when known is nonzero |
| Expression.DivideLeftInverse | src/expression.cpp:146 | (known*req)/known is req when known is nonzero |
| Expression.DivideRightInverse | src/expression.cpp:147 | known/(known/req) is req for nonzero known and req |
| Expression.BackSolve | src/expression.cpp:94-151 | a weak term writes the required result through `setInteger` and returns it; a node that is neither weak term nor weak branch writes nothing and returns 0; a returned write is the returned value |
| Expression.SolveIgnoresUnread | src/expression.cpp:67-91 | writing a key that the tree does not read leaves its value unchanged |
| Expression.BackSolveRoundTrip | src/expression.cpp:67-151 | along a marked weak path with nonzero divisors, back-solving to t writes the weak key and solving afterwards gives t |
| Expression.ParsedBackSolveWritesNothing | src/expression.cpp:105-109 | with no weak-branch marks, as the compiler leaves them, back-solving anything but the weak term itself writes nothing and returns 0 |
| Expression.WeakPlusOneNeverBackSolves | src/expression.cpp:105-109 | back-solving `[this.x] + 1` to 5 writes nothing, so the expression still solves to 1 |
| Expression.MarkWeak | src/expression.h:43 | sets `weakBranch` exactly on the nodes whose subtree holds the weak term; nothing else changes |
| Expression.MarkWeakKeepsMeaning | src/expression.cpp:67-91 | marking changes neither the value nor the keys read |
| Expression.MarkWeakGivesWeakPath | src/expression.cpp:113-115 | marking a tree with one weak term gives a weak path to it |
| Expression.MarkedBackSolveRoundTrip | src/expression.cpp:67-151 | after marking, back-solving to t and solving again gives t |
| Expression.WeakPlusOneMarked | src/expression.cpp:94-151 | marked, `[this.x] + 1` back-solves to 5 by writing 4 to `this.x` |
| Geometry.CoordsSet | src/geometry.h:83-87 | writing through `get(angle)` changes that component only |
| Geometry.DimensSet | src/geometry.h:161-166 | writing through `get(angle)` changes that component only |
| Geometry.DimensExtensional | src/geometry.h:110-114 | two extents that agree on both angles are equal |
| Geometry.DimensSetBoth | src/geometry.h:161-166 | writes to the two angles commute |
| Geometry.ArithmeticIsComponentwise | src/geometry.h:68-73 | `+`, `-` and Coords + Dimens act component by component on every angle |
| Geometry.ArithmeticInverses | src/geometry.h:95-96 | subtraction undoes addition, and the Coords/Dimens conversions (x to w, y to h) are mutually inverse |
| Geometry.PointCollidesIffInBothSpans | src/geometry.h:196-205 | a point collides iff it lies in the half-open span of the rectangle on both angles |
| Geometry.RectCollisionCounterexample | src/geometry.h:207-213 | the written rectangle test reports a collision for two rectangles that do not overlap |
| Geometry.RectCollisionAgreesOnSquareBoxes | src/geometry.h:207-213 | on square boxes the written test and the strict-overlap test agree |
| Geometry.RectCollidesProperties | src/geometry.h:196-213 | strict overlap is symmetric, and a 1x1 box collides exactly when its corner is inside |
| Geometry.ZeroGuard | src/geometry.h:355-356 | never negative, and the identity on non-negative values |
| Proposal.SetExpand | src/geometryproposal.h:47-51 | writing an expand flag changes only that angle's expand flag |
| Proposal.SetShrink | src/geometryproposal.h:59-63 | writing a shrink flag changes only that angle's shrink flag |
| Proposal.DefaultProposalFlags | src/geometryproposal.h:36-43 | a default proposal has every expand and shrink flag and `allowPartial` off and `freshPass` on |
| Proposal.VerifyCompliance | src/geometryproposal.h:77-90 | fails iff some axis exceeds the proposal without expand or falls short of it without shrink |
| Proposal.RoundConflicts | src/geometryproposal.h:94-112 | each violating axis takes the proposed size; a compliant axis keeps its size |
| Proposal.RoundConflictsComplies | src/geometryproposal.h:77-112 | the rounded region always complies |
| Proposal.RoundConflictsKeepsCompliant | src/geometryproposal.h:94-112 | a compliant region is left alone, so rounding is idempotent |
| Proposal.RigidProposalAdmitsOnlyItself | src/geometryproposal.h:77-112 | a proposal that forbids growing and shrinking admits exactly its own dimensions, and rounding yields them |
| AnimationGraph.FirstNotBelow | src/graph.cpp:31-47 | the index of the first sample whose x is not below the percentage, every earlier one lying below it |
| AnimationGraph.GetSamplePoints | src/graph.cpp:26-66 | the loop computes the as-written bracket (`BracketAsWritten`), self-assignment included |
| AnimationGraph.FirstNotBelowAt | src/graph.cpp:31-47 | that index is pinned down by its two defining properties |
| AnimationGraph.BracketEnclosesTightly | src/graph.cpp:26-66 | the corrected bracket (`Bracket`) encloses the percentage, with no sample strictly between its ends |
| AnimationGraph.AsWrittenIgnoresLastSample | src/graph.cpp:37-46 | as written, with one sample at 0.5 the bracket of 0.75 starts at 0 @ 0, not at the sample |
| AnimationGraph.BracketsAgreeWithinSamples | src/graph.cpp:26-66 | both brackets agree unless every sample lies below the percentage |
| AnimationGraph.LinearWeightThroughEnds | src/graph.cpp:68-77 | the corrected weight (`LinearWeight`, the line through the bracket's ends) passes through both bracket ends |
| AnimationGraph.LinearWeightBetweenEnds | src/graph.cpp:68-77 | between the ends' x values the corrected weight lies between their y values |
| AnimationGraph.WeightsAgreeOnDefaults | src/graph.cpp:68-77 | on the default bracket 0 @ 0 to 1 @ 1 both weights are the percentage itself |
| AnimationGraph.AsWrittenWeightLeavesTheLine | src/graph.cpp:72-76 | as written, with one sample at 0.5 @ 0.5 the bracket of 0.25 runs from 0 @ 0 to the sample and the weight there is 0.125, where the line through both ends gives 0.25 |
| AnimationGraph.SmoothWeightAsWrittenBetweenEnds | src/graph.cpp:79-90 | `getSmoothWeightForPercentage` as written (`SmoothWeightAsWritten`: equal ends give their y, otherwise the ends blended by `(1 - cos(xpos·π))/2`): when the cosine lies in [-1, 1] the weight lies between the ends' y values |
| AnimationGraph.SmoothWeightThroughEnds | src/graph.cpp:79-90 | (corrected) `SmoothWeight`, which eases the fraction within the bracket: given cos 0 = 1 and cos π = -1 it passes through both bracket ends |
| AnimationGraph.SmoothWeightBetweenEnds | src/graph.cpp:79-90 | (corrected) between the ends' x values, with the cosine in [-1, 1], the smooth weight lies between the ends' y values |
| AnimationGraph.AsWrittenSmoothWeightLeavesTheCurve | src/graph.cpp:88-89 | as written, with one sample at 0.5 @ 0.5 read at 0.25 the source eases cos(0.25·π) where the fraction within the bracket 0 @ 0 to 0.5 @ 0.5 is 0.5, so the two weights differ wherever those cosines do |
| AnimationGraph.InterpolationEnds | src/graph.cpp:94-110 | (corrected) `InterpolatedScalar`, `getInterpolatedScalarForPercentage` over the corrected bracket and weight, truncated to an integer: with no samples a linear graph gives the origin at 0 and the destination at 1 |
| AnimationGraph.InterpolationsAgreeWithoutSamples | src/graph.cpp:94-110 | without samples `InterpolatedScalarAsWritten`, the source's composition of the as-written bracket (graph.cpp:37-46) and weights (graph.cpp:68-90), equals the corrected `InterpolatedScalar` at every percentage and in both modes |
| AnimationGraph.AsWrittenInterpolationLeavesTheLine | src/graph.cpp:68-110 | as written, the graph 0.5 @ 0.5 read at 0.25 between 0 and 8 gives 1, where the corrected interpolation gives 2 |
| AnimationGraph.ExactSampleWeight | src/graph.cpp:35 | at a sample's own x both corrected weights, linear and smooth, are that sample's y |
| InlineLayout.Height | src/material/inlinelayoutmaterial.cpp:49-51 | a row's height is never negative |
| InlineLayout.RowsWidth | src/material/inlinelayoutmaterial.cpp:65-66 | the result's width is never negative |
| InlineLayout.WidthAppend | src/material/inlinelayoutmaterial.cpp:45-54 | one more item widens the row by its width and raises the height to at least its height |
| InlineLayout.RowsAppend | src/material/inlinelayoutmaterial.cpp:56-68 | one more row adds its height to the result's height and widens the result to at least its width |
| InlineLayout.TextOfAppend | src/material/inlinelayoutmaterial.cpp:124-126 | one more run adds its text to its own child's text only |
| InlineLayout.TextOfAbsent | src/material/inlinelayoutmaterial.cpp:73-127 | a child none of whose runs is placed shows nothing |
| InlineLayout.RunPlaced | src/material/inlinelayoutmaterial.cpp:81-126 | placing a run of the remaining text keeps the runs in child order and accounts for every character of the text |
| InlineLayout.RunFitsSpace | src/material/inlinelayoutmaterial.cpp:85-86 | a run cut to the space left on the row gets a viewport (`RunViewport`: the measured text plus the reserve) no wider than that space |
| InlineLayout.Releveled | src/material/inlinelayoutmaterial.cpp:157-166 | one viewport per item of the row |
| InlineLayout.LevelingEvensRow | src/material/inlinelayoutmaterial.cpp:157-166 | after leveling, each compliant item keeps its width and is exactly as tall as its row, so the row keeps its width |
| InlineLayout.SameWidths | src/material/inlinelayoutmaterial.cpp:157-166 | viewports of the same widths add up to the same row width |
| InlineLayout.RowWidths | src/material/inlinelayoutmaterial.cpp:204-205 | the rows' widths, in order |
| InlineLayout.RowsWidthBound | src/material/inlinelayoutmaterial.cpp:65-66 | rows no wider than the space give a result no wider than the space (or 0) |
| InlineLayout.RowsStack | src/material/inlinelayoutmaterial.cpp:213-214 | each row starts below the previous one by that row's height, at the drawing area's left edge plus its justification |
| InlineLayout.RowEnds | src/material/inlinelayoutmaterial.cpp:202-215 | items follow each other along the row, and with Outer justification every row ends flush with the drawing area |
| InlineLayout.InlineLayoutMaterial.constructor | src/material/inlinelayoutmaterial.h:41-44 | a new material holds no rows |
| InlineLayout.InlineLayoutMaterial.Clear | src/material/inlinelayoutmaterial.cpp:26-28 | rows and runs are cleared, the accumulators at zero |
| InlineLayout.InlineLayoutMaterial.IncrementRow | src/material/inlinelayoutmaterial.cpp:45-54 | the item joins the current row, which grows by its width and is at least its height |
| InlineLayout.InlineLayoutMaterial.NextRow | src/material/inlinelayoutmaterial.cpp:56-68 | an empty row is skipped; otherwise the row is kept with its width and height and the accumulators restart |
| InlineLayout.InlineLayoutMaterial.FlowText | src/material/inlinelayoutmaterial.cpp:73-127 | (corrected) every child's placed runs, in order, are a prefix of its text; when every single character fits an empty row (`CharsFit`) each child's whole text is placed; when measuring is consistent no row exceeds the space |
| InlineLayout.InlineLayoutMaterial.FlowOneText | src/material/inlinelayoutmaterial.cpp:78-127 | (corrected) one child's runs: a prefix of its text, after the earlier children's, which it leaves alone; the whole text when every single character fits an empty row |
| InlineLayout.InlineLayoutMaterial.FlowRun | src/material/inlinelayoutmaterial.cpp:83-123 | (corrected) one pass over a child's remaining text: what it places joins the child's text, the earlier children's are kept, no row exceeds the space under consistent measuring, and the text left over is shorter, or unchanged only when some single character is wider than an empty row |
| InlineLayout.InlineLayoutMaterial.CutRun | src/material/inlinelayoutmaterial.cpp:83-110 | (corrected) `setTextForSpace` on the current row and, when nothing fits there and the row holds something, on a fresh row: the run is the longest prefix that fits, and nothing fits only when some single character is wider than an empty row |
| InlineLayout.InlineLayoutMaterial.StartFreshRow | src/material/inlinelayoutmaterial.cpp:56-68 | `nextRow`: the current row is closed and empty afterwards, no run is lost and no row grows wider |
| InlineLayout.InlineLayoutMaterial.JoinRun | src/material/inlinelayoutmaterial.cpp:112-123 | the cut run joins the current row and the child's placed text, keeping the rows within the space under consistent measuring |
| InlineLayout.FreshRowTakesOne | src/material/inlinelayoutmaterial.cpp:96-109 | on an empty row, a text whose single characters each fit gives up at least one character |
| InlineLayout.InlineLayoutMaterial.Level | src/material/inlinelayoutmaterial.cpp:157-166 | every row's items are reshaped to the row's height; the rows themselves are kept |
| InlineLayout.InlineLayoutMaterial.ShapeDrawingArea | src/material/inlinelayoutmaterial.cpp:24-189 | (corrected) a fixed-width proposal flows the text into rows no wider than it, the whole of every child's text when every single character fits an empty row, and the drawing area is the widest row by the rows' total height; an expanding one shapes a single row by `line` |
| InlineLayout.InlineLayoutMaterial.FlowRows | src/material/inlinelayoutmaterial.cpp:73-167 | (corrected) the text path: the drawing area is the rows' width by their height, every child's runs are a prefix of its text, the whole text when every single character fits an empty row, and the rows are leveled |
| InlineLayout.LineItems | src/material/inlinelayoutmaterial.cpp:183-185 | an expanding layout's single row holds one item per child, each at the viewport `line` gives it |
| InlineLayout.InlineLayoutMaterial.PlaceRows | src/material/inlinelayoutmaterial.cpp:191-216 | each item of each row is placed at the row's justified start plus the widths before it, rows stacking by height; placement fails iff a justification or cell alignment is refused |
| InlineLayout.StackRows | src/material/inlinelayoutmaterial.cpp:202-215 | the loops of `setAbsoluteOffset` hand each item of each row the offset `InlineOffset` gives: the row's justified start, below the rows above, plus the widths before it |
| InlineLayout.StackRow | src/material/inlinelayoutmaterial.cpp:207-211 | the inner loop hands each item of one row its offset along the row |
| ItemGeometry.RelativeAdjacent | src/displayitem.cpp:29-35 | the adjacent axis is vertical exactly when an Orientation property other than AdjacentIsHorizontal is set; otherwise the default, horizontal |
| ItemGeometry.RelativeOpposite | src/displayitem.h:59-61 | always the other axis |
| ItemGeometry.CorrectAngle | src/displayitem.cpp:37-42 | the semantic Adjacent maps to the relative adjacent axis and nothing else does |
| ItemGeometry.CorrectAngleIsBijective | src/displayitem.cpp:37-42 | `correctAngle` maps the two axes to different axes |
| ItemGeometry.ReservedIsFourParts | src/displayitem.h:124-149 | the reserved space of an axis is its inner and outer margins and paddings, read from the adjacent or opposite keys by the axis's role |
| ItemGeometry.AbsoluteDimens | src/displayitem.h:151-176 | (corrected) each axis of the dimensions holds that axis's own value |
| ItemGeometry.ReservedDimens | src/displayitem.h:178-179 | (corrected) along every axis, that axis's reserved space, the sum of the inner and outer dimensions |
| ItemGeometry.ReservedDimensAsWrittenWhenHorizontal | src/displayitem.h:151-179 | for a horizontally oriented item the as-written dimensions equal the corrected ones |
| ItemGeometry.ReservedDimensAsWrittenSwapsAxes | src/displayitem.h:170-179 | as written, a vertical item with a 5-unit inner adjacent margin reserves width 5 and height 0, not width 0 and height 5 |
| ItemGeometry.Half | src/displayitem.cpp:170 | `(size ? size / 2 : 0)` is C++ halving, toward zero |
| ItemGeometry.HalfCentres | src/displayitem.cpp:170 | the Center offset leaves space before and after the item that differ by at most one unit |
| ItemGeometry.Justifications | src/displayitem.cpp:161-175 | every row's justification, or none iff some row's is refused |
| ItemGeometry.JustificationMeaning | src/displayitem.cpp:161-175 | no property or Inner gives 0, Outer ends the row at the cell's end, Center centres it, and any other property fails the assertion |
| ItemGeometry.CellAlignmentMeaning | src/displayitem.cpp:178-195 | an item that fills its cell or has no alignment property starts after the inner reserve; Inner likewise; Outer ends before the outer reserve; Center centres it in the whole cell; any other property fails |
| ItemGeometry.CellAlignmentCoords | src/displayitem.cpp:178-195 | one cell alignment offset per axis, defined iff both are |
| ItemGeometry.TranslationOffset | src/displayitem.cpp:197-208 | TranslationA along the relative adjacent axis and TranslationO along the opposite, each 0 when absent |
| ItemGeometry.SizeForAngle | src/displayitem.cpp:210-222 | SizeA along the relative adjacent axis and SizeO along the other; absent gives 0 |
| ItemGeometry.FillOverride | src/displayitem.cpp:224-241 | no override without the property; Greedy and Shrinky map to themselves; any other value terminates, an error here |
| ItemGeometry.RoundAgainstItself | src/displayitem.cpp:141-145 | rounding a proposal against its own dimensions changes nothing |
| ItemGeometry.ReviseAxisMeaning | src/displayitem.cpp:123-146 | an active size sets that axis's proposed size; a constant one also forbids growing and shrinking; the other axis and the remaining fields are kept |
| ItemGeometry.ReviseProposalMeaning | src/displayitem.cpp:121-152 | each axis of the revised proposal is revised by its own size attribute alone; the remaining fields are kept |
| Keywords.ClassifierRanges | src/keywords.h:278-372 | each classifier holds on exactly its key range: expression bodies FontSize..SizeA plus Margins and Padding, property bodies Orientation..ModelOrder plus Font and Layout, state lists Triggers..RadioState, colours the three colour keys, compound keys Margins and Padding |
| Keywords.ClassifiersDisjoint | src/keywords.h:278-372 | expression, property, colour and state-list keys are disjoint kinds; only Font is both a property and a string-literal key; compound keys are not natural |
| Keywords.NaturalKeysForUnnaturalKey | src/keywords.h:374-387 | defined exactly for the compound keys, giving four natural expression-body keys; any other key is the failed assertion |
| Keywords.NaturalKeysLayout | src/keywords.h:374-387 | Margins and Padding expand to their four keys in OppOut, OppIn, AdjIn, AdjOut order |
| Keywords.FindSymbol | src/keywords.h:705-712 | the symbol of the first table entry with that spelling, or none iff no entry has it |
| Keywords.FindLiteral | src/keywords.h:725-732 | the spelling of the first table entry for that symbol, or none iff no entry has it |
| Keywords.LiteralRoundTrip | src/keywords.h:452-732 | in a table with distinct spellings, reading back the printed spelling of a symbol gives the symbol |
| Keywords.FindSymbolAt | src/keywords.h:705-712 | with distinct spellings, the entry holding a spelling is the one found for it |
| Keywords.AliasesPrintCanonically | src/keywords.h:725-732 | every alias of a symbol prints as the symbol's first spelling in the table |
| Keywords.PaddingIsSchoolOperator | src/keywords.h:126-136 | `Keyword::SchoolOperator` equals `AttributeKey::Padding`, so Padding prints as "@" and "@" reads as Padding |
| Keywords.DelimitingSymbolsExactly | src/keywords.h:678-703 | the delimiting test holds exactly for the 14 listed symbols, Padding's value among them |
| Keywords.DelimitingCharHasEntry | src/keywords.h:716-723 | a character is delimiting iff its one-character spelling is in the table and maps to a delimiting symbol |
| Layouts.RigidRowFillsItsSpace | src/material/rowlayoutmaterial.cpp:23-31 | (corrected) a row (`RowDrawing`, a `line` along its adjacent axis) that may neither grow nor shrink, with the cut rounded up, fills its space to within one unit per child |
| Layouts.RowChildOffsets | src/material/rowlayoutmaterial.cpp:41-53 | each child in model order starts where the previous one ends along the row, all at the drawing area's position across it |
| Layouts.RowChildrenAbut | src/material/rowlayoutmaterial.cpp:44-53 | consecutive children abut along the row, and the last ends at the start plus the children's total size |
| Layouts.PlaceRow | src/material/rowlayoutmaterial.cpp:33-54 | the row places itself, then its children from its drawing-area offset; nothing is placed when the alignment property is refused |
| Layouts.MaxOr | src/material/stacklayoutmaterial.cpp:43-48 | the largest size along the axis among the sizes, or the fallback when there is none |
| Layouts.StackFirstPass | src/material/stacklayoutmaterial.cpp:25-29 | every child is first shaped with the stack's own proposal |
| Layouts.StackDrawing | src/material/stacklayoutmaterial.cpp:21-61 | per axis, the largest first-pass child, or the proposal's size when there are no children |
| Layouts.MaximizeForAngle | src/material/stacklayoutmaterial.cpp:33-49 | the scan computes `MaxOr` |
| Layouts.StackShapeDrawingArea | src/material/stacklayoutmaterial.cpp:21-61 | the first pass shapes at the proposal, the drawing area is the per-axis maximum, and the second pass reshapes every child at exactly that size |
| Layouts.StackChildrenMatchStack | src/material/stacklayoutmaterial.cpp:55-58 | compliant children come out of the second pass exactly the stack's size on both axes |
| Layouts.PlaceStack | src/material/stacklayoutmaterial.cpp:63-70 | the stack places itself and every child gets the very offset the stack was given |
| LineShaping.AllIndices | src/shaping/line.h:115 | every child, in order |
| LineShaping.Indices | src/shaping/line.h:38-45 | the children holding one fill precedence, as positions among the children |
| LineShaping.IndicesMeaning | src/shaping/line.h:38-45 | a child is listed exactly when it holds that precedence, and the list keeps the children's order |
| LineShaping.IndicesPartition | src/shaping/line.h:38-45 | every child lands in exactly one of the greedy and shrinky lists |
| LineShaping.SplitByFill | src/shaping/line.h:38-45 | the first loop builds exactly the greedy and shrinky lists |
| LineShaping.MaxAlong | src/shaping/line.h:84-85 | the largest of the start value and the listed children's sizes |
| LineShaping.SumAlongAgree | src/shaping/line.h:79 | sums agree when the sizes agree on every listed child |
| LineShaping.SumAlongShift | src/shaping/line.h:183-184 | shifting every listed child by `d` shifts the sum by `d` per child |
| LineShaping.SumAlongSplit | src/shaping/line.h:165-166 | the greedy and shrinky sums together are the sum over all children |
| LineShaping.Reshaped | src/shaping/line.h:94-100 | one viewport per child after a set is shaped |
| LineShaping.Applied | src/shaping/line.h:66-100 | `applyToSet` leaves one viewport per child |
| LineShaping.ReshapedStep | src/shaping/line.h:98-99 | one more child of the set is shaped with its proposal |
| LineShaping.ApplyToSet | src/shaping/line.h:94-100 | the loop computes `Applied`: each listed child shaped with its formula's size, the totals updated, the opposite flagged when it differs from the available one |
| LineShaping.Adjusted | src/shaping/line.h:102-149 | `adjustOpposite` leaves one viewport per child |
| LineShaping.AdjustOpposite | src/shaping/line.h:102-149 | the loop computes `Adjusted` |
| LineShaping.AdjustedLocksOpposite | src/shaping/line.h:110-146 | under compliant children every child is reshaped to the common opposite, keeping its adjacent size, which the new total sums |
| LineShaping.TwoPassViews | src/shaping/line.h:165-166 | the shrinky pass and then the greedy pass shape every child exactly once with its set's proposal |
| LineShaping.TwoPassTotal | src/shaping/line.h:165-166 | after both passes the adjacent total has grown by every child's new adjacent size |
| LineShaping.TwoPassOpposite | src/shaping/line.h:165-166 | after both passes the opposite is at least its old value and every child's new opposite size |
| LineShaping.TwoPassOppositeChild | src/shaping/line.h:165-166 | after both passes the opposite is at least that child's new opposite size |
| LineShaping.InitialPassShapesEveryChild | src/shaping/line.h:152-168 | the initial pass shapes every child with the initial proposal, totals their adjacent sizes, and takes the largest opposite |
| LineShaping.InitialProposalShare | src/shaping/line.h:158-163 | the initial proposal may grow and shrink along the line and offers each child the guarded equal share; the rest is as proposed |
| LineShaping.AdjustedKeepsSum | src/shaping/line.h:102-149 | under compliant children the correction keeps the adjacent total the sum of the children's sizes |
| LineShaping.CutPassShrinksEveryChild | src/shaping/line.h:181-193 | the cut passes make every child exactly the cut smaller, and the total is the sum of the new sizes |
| LineShaping.CutPassShrinksChild | src/shaping/line.h:187-193 | a child at least the cut in size is made exactly the cut smaller |
| LineShaping.OverflowedTotal | src/shaping/line.h:172-196 | after the overflow phase the total is the old one less `N * cut` |
| LineShaping.NegatedShift | src/shaping/line.h:183-184 | the arithmetic of the cut: each of `n` children less `cut` |
| LineShaping.CutChildExact | src/shaping/line.h:183-193 | a child re-proposed its size less the cut settles exactly there |
| LineShaping.AsWrittenCutOvershoots | src/shaping/line.h:181 | as written, the cut line stays above the space by the remainder of the excess over `N`, so whenever it does not divide evenly |
| LineShaping.AsWrittenCutExample | src/shaping/line.h:181 | two children of sizes 3 and 4 in a space of 6: the as-written cut is 0 and the line stays 7 wide; the corrected cut is 1 |
| LineShaping.CutSizeFits | src/shaping/line.h:181 | (corrected) with the cut rounded up (`CutSize`, `(used - available + N - 1) / N`), the cut children never exceed the space and fall short of it by less than `N` |
| LineShaping.CountOpposet | src/shaping/line.h:223-233 | the loop over the other set computes `Counted`: the set's sizes are added to the total as they are, the opposite rises to the largest of them, and the flag is raised only when that exceeds the opposite so far |
| LineShaping.PaddedSet | src/shaping/line.h:204-205 | greedy children, or shrinky ones when there is no greedy child; never empty when there are children |
| LineShaping.OtherSet | src/shaping/line.h:207-208 | the set that is not padded |
| LineShaping.PaddedAndOtherSplit | src/shaping/line.h:204-233 | the padded set's and the other set's sums are together the sum over all children |
| LineShaping.PadApplied | src/shaping/line.h:210-219 | the padding pass leaves one viewport per child |
| LineShaping.PadChildExact | src/shaping/line.h:213-219 | a padded child settles at its size plus the pad |
| LineShaping.PadPassGrowsPaddedSet | src/shaping/line.h:210-233 | the padding grows each padded child by the pad, leaves the others alone, and totals the new sizes |
| LineShaping.PadPassTotal | src/shaping/line.h:210-233 | after padding, counting the other set totals every child's size |
| LineShaping.PadPassGrowth | src/shaping/line.h:210-219 | the sizes grow in total by the pad once per padded child |
| LineShaping.UnderflowedTotal | src/shaping/line.h:198-237 | after padding, the total is at most the space and less than one padded-set size below it |
| LineShaping.PadSizeFits | src/shaping/line.h:210 | the pad spreads the shortfall so the padded total fits, within one unit per padded child |
| LineShaping.PadFits | src/shaping/line.h:210 | the arithmetic of the pad |
| LineShaping.OverflowPhase | src/shaping/line.h:172-196 | (corrected) the overflow phase, with the cut rounded up, leaves one viewport per child |
| LineShaping.LineSpecKeepsCount | src/shaping/line.h:26-244 | `line` (`LineSpec`) leaves one viewport per child |
| LineShaping.InitialPassSums | src/shaping/line.h:152-168 | under compliant children the initial pass totals its children's adjacent sizes |
| LineShaping.OverflowPhaseFits | src/shaping/line.h:172-196 | (corrected) with the cut rounded up, a total above the space is brought to within `N` below it, a total within it is left alone, and the total stays the children's sum |
| LineShaping.UnderflowPhaseFits | src/shaping/line.h:198-237 | a line that may not shrink and has children ends within `N` below the space |
| LineShaping.UnderflowPhaseCases | src/shaping/line.h:198-237 | a total below the space is padded, and a total at or above it is left alone |
| LineShaping.UnderflowedFits | src/shaping/line.h:198-237 | padding a line below its space ends within one unit per child below the space, never above it |
| LineShaping.UnderflowPhaseAbove | src/shaping/line.h:198-237 | the lower bound of the padding carries over to the underflow phase |
| LineShaping.UnderflowPhaseWithin | src/shaping/line.h:198-237 | the upper bound of the padding carries over to the underflow phase |
| LineShaping.PaddedSetBound | src/shaping/line.h:204-205 | the padded set has at most as many children as the line |
| LineShaping.RigidLineFillsSpace | src/shaping/line.h:26-244 | (corrected) with the cut rounded up, a line that may neither grow nor shrink ends within one unit per child below its space, never above it |
| LineShaping.UsedSpace | src/shaping/line.h:239-243 | the returned size holds the adjacent total along the line and the opposite across it |
| LineShaping.InitialPassOfNothing | src/shaping/line.h:152-168 | with no children the initial pass uses no space |
| LineShaping.RunInitialPass | src/shaping/line.h:152-168 | the method computes the initial pass |
| LineShaping.RunCutPass | src/shaping/line.h:187-194 | the method computes the cut passes |
| LineShaping.RunPadPass | src/shaping/line.h:210-233 | the method computes the padding pass and the other set's count |
| LineShaping.RunOverflowPhase | src/shaping/line.h:172-196 | (corrected) the method computes the overflow phase with the rounded-up cut |
| LineShaping.RunUnderflowPhase | src/shaping/line.h:198-237 | the method computes the underflow phase |
| LineShaping.Line | src/shaping/line.h:26-244 | (corrected) the method computes `LineSpec`, the whole of `line`: the initial pass, then the overflow phase with the rounded-up cut or the padding of the underflow phase; it returns the used space and every child's viewport |
| Materials.ReducedProposal | src/material.cpp:90-98 | the proposal handed to the concrete material is the revised proposal less the reserved space on each axis, clamped at zero; every other field of the revised proposal is kept |
| Materials.Material.constructor | src/material.h:61 | a new material belongs to its item and starts with an empty viewport and drawing area |
| Materials.Material.Shape | src/material.cpp:86-105 | the drawing area is what the concrete rule makes of the reduced proposal; the viewport is the drawing area plus the reserve, rounded against the official proposal, so it always complies with the official proposal; the viewport's position is untouched |
| Materials.Material.SimpleShape | src/material.cpp:121-124 | the drawing area becomes the given proposal less the reserve, without clamping; the viewport is untouched |
| Materials.Material.SetViewportOffset | src/material.cpp:116-119 | the viewport moves to the given offset plus the item's translation, keeping its size; the drawing area is untouched |
| Materials.Material.SetRelativeDrawingAreaOffset | src/material.h:40-41 | only the drawing area's position changes, to the given coordinates |
| Materials.Material.UpdateDrawingAreaOffset | src/material.cpp:107-113 | the drawing area is moved to the item's cell alignment within the viewport; when the alignment attributes are malformed nothing moves and failure is reported |
| Materials.Material.PlaceSingle | src/material/simplematerial.h:34-38 | a simple material places its viewport at the offset plus the translation and then aligns its drawing area inside the viewport |
| Materials.SimpleDrawing | src/material.cpp:121-124 | the corrected rule of a simple material (`SimpleRule`): on each axis the drawing area is the proposal less that axis's reserve |
| Materials.NoSizeAttributesRevisesNothing | src/displayitem.cpp:121-152 | an item without explicit size attributes leaves the official proposal unrevised |
| Materials.SimpleShapeAsWrittenReservesTwice | src/material/simplematerial.h:31-32 | as written, a simple material subtracts the reserve from a proposal that already had it subtracted, so its drawing area plus the reserve falls short of the proposal by the reserve once more |
| Materials.SimpleShapeAsWrittenExample | src/material/simplematerial.h:31-32 | with a 10-unit inner horizontal margin and a 100 by 100 proposal the as-written rule gives an 80-wide drawing area, the corrected rule 90 |
| Materials.SimpleShapeFillsProposal | src/material/simplematerial.h:31-32 | with the corrected rule, a simple material without size attributes fills the proposal exactly: drawing area plus reserve equals the proposal, and rounding leaves it unchanged |
| Materials.FillPrecedenceForAngle | src/material.cpp:77-84 | an item's explicit fill override wins; without one the concrete material's precedence is used; a malformed override is an error |
| Materials.AnyGreedy | src/material.cpp:50-68 | a layout is Greedy exactly when at least one of its children is Greedy, and Shrinky otherwise |
| Materials.SimpleFillPrecedenceIsSumTest | src/material/simplematerial.cpp:9-15 | a simple material is Greedy exactly when the reserve plus the explicit size on that axis is zero |
| Materials.SimpleFillPrecedenceCases | src/material/simplematerial.cpp:9-15 | no reserve and no size gives Greedy; a size alone or a reserve alone gives Shrinky |
| Materials.CancellingValuesGiveGreedy | src/material/simplematerial.cpp:9-15 | a 5-unit inner margin together with a size of -5 cancels out and makes the item Greedy |
| MaterialTree.Single | src/material.cpp:23-39 | a material whose viewport misses the box visits nothing; otherwise it hands its item to the visitor exactly when the padded and bordered drawing area is hit, and reports the visitor's answer |
| MaterialTree.HitTest | src/material.cpp:41-48 | the short-circuiting hit test visits and accepts exactly what the recursive hit-test definition (`Hits`) says, for every kind of material |
| MaterialTree.SingleTest | src/material.cpp:23-39 | the single-material hit test agrees with its definition |
| MaterialTree.MultiFlatTest | src/material.cpp:41-48 | rows and inline layouts try their children first and their own area only when no child accepted |
| MaterialTree.TryForward | src/material/inlinelayoutmaterial.cpp:227-235 | the loop over the children in order stops at the first child that accepts and returns the visits so far |
| MaterialTree.TryBackward | src/material/stacklayoutmaterial.cpp:80-91 | a stack tries its children from the last to the first and stops at the first that accepts |
| MaterialTree.VisitedAreHit | src/material.cpp:23-48 | every item handed to the visitor belongs to a material in the tree whose viewport and collidable area are both hit by the box |
| MaterialTree.ForwardVisitedAreHit | src/material.cpp:41-48 | the same for a sequence of children tried in order |
| MaterialTree.BackwardVisitedAreHit | src/material/stacklayoutmaterial.cpp:80-91 | the same for a sequence of children tried from the last |
| MaterialTree.AcceptedByLastVisit | src/material.cpp:23-48 | a hit test reports acceptance only when something was visited and the last item visited was accepted by the visitor |
| MaterialTree.ForwardAcceptedByLastVisit | src/material.cpp:41-48 | the same for children tried in order |
| MaterialTree.BackwardAcceptedByLastVisit | src/material/stacklayoutmaterial.cpp:80-91 | the same for children tried from the last |
| MaterialTree.StackFreeStopsAtFirstAccept | src/material.cpp:41-48 | in a tree without stacks the walk stops at the first item the visitor accepts: every earlier visit was refused |
| MaterialTree.ForwardStops | src/material.cpp:41-48 | the same for a sequence of stack-free children |
| MaterialTree.HoverIsExclusive | src/material.cpp:41-48 | with a visitor that accepts everything, a tree without stacks hands at most one item to it |
| MaterialTree.StackPassesThrough | src/material/stacklayoutmaterial.cpp:89-90 | a stack hands its own item to the visitor but reports refusal, so a row holding it visits its own item as well |
| MaterialTree.TopmostChildWins | src/material/stacklayoutmaterial.cpp:82-87 | when the stack's last child accepts, the stack's result is exactly that child's |
| MaterialTree.ParagraphHitsOnlyRuns | src/material/fallbackparagraphmaterial.cpp:126-133 | a paragraph never tests its own area: when every run misses, nothing is visited |
| MaterialTree.RunsMiss | src/material/fallbackparagraphmaterial.cpp:128-132 | runs that all miss the box give no visit and no acceptance |
| MaterialTree.Canvas.constructor | src/canvas.h:44 | a new canvas has no clips and no recorded operations |
| MaterialTree.Canvas.PushClip | src/canvas.h:47-48 | pushing adds the clip at the top of the stack |
| MaterialTree.Canvas.PopClip | src/canvas.h:50-51 | popping removes the top clip, which needs the stack nonempty |
| MaterialTree.Canvas.Paint | src/material/rowlayoutmaterial.cpp:58 | painting uses the current top clip and leaves the stack alone |
| MaterialTree.Draw | src/material.cpp:70-75 | drawing leaves the clip stack as it found it and appends exactly the operations the drawing definition (`DrawOps`) gives |
| MaterialTree.DrawIsBalanced | src/material.cpp:70-75 | every draw pops as many clips as it pushes, and paints the tree in pre-order: the material, then its children in model order |
| MaterialTree.DrawAllIsBalanced | src/material/stacklayoutmaterial.cpp:72-78 | drawing a sequence of children is balanced and paints them one after another |
| ModelContainers.WalkSuffix | src/modelcontainer.h:165-169 | following `nextItem` from the k-th item visits exactly the rest of the list |
| ModelContainers.IterationVisitsList | src/modelcontainer.h:184-191 | iterating from `begin()` until `end()` visits every item exactly once, front to back |
| ModelContainers.AppendedThreads | src/modelcontainer.h:199-217 | linking a new item in at the back keeps a well-linked list with that item last |
| ModelContainers.RemovedAt | src/modelcontainer.h:118-142 | removing an item from a list without repeats drops exactly its position |
| ModelContainers.RemovedKeeps | src/modelcontainer.h:118-142 | removal introduces no item and drops the one removed |
| ModelContainers.RemovedAbsent | src/modelcontainer.h:118-142 | removing an item that is not there changes nothing |
| ModelContainers.RemovedIsDropped | src/modelcontainer.h:118-142 | removal by item agrees with removal by position |
| ModelContainers.DeletedThreads | src/modelcontainer.h:118-142 | `safeToDelete` on any item of a well-linked list leaves a well-linked list of the other items, one shorter |
| ModelContainers.DeletedForward | src/modelcontainer.h:127-138 | after unlinking, the forward pointers thread the remaining items in order |
| ModelContainers.DeletedBackward | src/modelcontainer.h:120-138 | after unlinking, `previousItem` and `lastItem` agree with the remaining order |
| ModelContainers.ExchangedKeeps | src/modelcontainer.h:219-251 | swapping introduces no item |
| ModelContainers.TradedList | src/modelcontainer.h:219-251 | trading two positions keeps the items distinct and the same set |
| ModelContainers.AdjacentSwapThreads | src/modelcontainer.h:229-248 | the (corrected) adjacent swap keeps a well-linked list with the two items exchanged |
| ModelContainers.AdjacentSwapForward | src/modelcontainer.h:229-237 | the adjacent swap's forward pointers thread the exchanged order |
| ModelContainers.AdjacentSwapBackward | src/modelcontainer.h:229-237 | the adjacent swap's backward pointers and last item agree with the exchanged order |
| ModelContainers.AdjacentSwapBefore | src/modelcontainer.h:229-237 | after the adjacent swap every item's predecessor is the one before it in the exchanged order |
| ModelContainers.FarSwapThreads | src/modelcontainer.h:249-265 | the (corrected) swap of non-neighbours keeps a well-linked list with the two items exchanged |
| ModelContainers.FarSwapForward | src/modelcontainer.h:256-260 | the far swap's forward pointers thread the exchanged order |
| ModelContainers.FarSwapBackward | src/modelcontainer.h:250-265 | the far swap's backward pointers and last item agree with the exchanged order |
| ModelContainers.FarSwapBefore | src/modelcontainer.h:250-254 | after the far swap every item's predecessor is the one before it in the exchanged order |
| ModelContainers.SwapLinksThreads | src/modelcontainer.h:219-268 | swapping any two items of a well-linked list keeps it well linked, the two trading places and every other item staying put |
| ModelContainers.HeldOwn | src/modelcontainer.h:222-226 | every item is the front or has a predecessor, and the owning pointer found for it holds it |
| ModelContainers.AfterOwns | src/modelcontainer.h:222-226 | when `q` follows `p`, `q`'s owning pointer is `p`'s `nextItem`, distinct from `p`'s own |
| ModelContainers.AsWrittenAdjacentForward | src/modelcontainer.h:229-248 | as written, an adjacent swap still threads the forward pointers in the exchanged order |
| ModelContainers.AdjacentAsWrittenLinks | src/modelcontainer.h:229-237 | the as-written lambda leaves `frontItem` and every `nextItem` as the corrected adjacent swap does |
| ModelContainers.ExchangedAdjacent | src/modelcontainer.h:229-248 | exchanging neighbours is trading their positions |
| ModelContainers.SameForward | src/modelcontainer.h:165-169 | only `frontItem` and the `nextItem` pointers decide the iteration order |
| ModelContainers.FiveItemsThreads | src/modelcontainer.h:199-217 | the five-item example list is well linked |
| ModelContainers.ThreeItemsThreads | src/modelcontainer.h:199-217 | the three-item example list is well linked |
| ModelContainers.AsWrittenFarSwapLosesItems | src/modelcontainer.h:249-265 | as written, swapping items 1 and 3 of 0..4 makes iteration visit only 0, 3, 4 instead of 0, 3, 2, 1, 4 |
| ModelContainers.AsWrittenAdjacentSwapKeepsStaleLast | src/modelcontainer.h:229-248 | as written, swapping the last two of 0, 1, 2 keeps `lastItem` at 2, so a later push loses item 1 |
| ModelContainers.AsWrittenAdjacentSwapKeepsStalePrevious | src/modelcontainer.h:229-237 | as written, swapping 1 and 2 of 0..4 leaves item 3's `previousItem` at 2 although 1 now precedes it |
| ModelContainers.ModelPath | src/modelcontainer.h:108-115 | the path ends with the container's own name and is a single name exactly for a root container |
| ModelContainers.PathExtendsAncestor | src/modelcontainer.h:108-115 | a container's path extends each ancestor's path by one name per level |
| ModelContainers.ModelContainer.constructor | src/modelcontainer.h:87-99 | a new container is empty with the given name, parent and queue |
| ModelContainers.ModelContainer.Size | src/modelcontainer.h:184-185 | `itemCount` is the number of items in the list |
| ModelContainers.ModelContainer.Elements | src/modelcontainer.h:187-191 | iteration yields exactly the list's items in order |
| ModelContainers.ModelContainer.PushBackNew | src/modelcontainer.h:199-217 | a fresh item is appended, the count grows by one, and one ModelItemAdded event is queued |
| ModelContainers.ModelContainer.LinkAtBack | src/modelcontainer.h:199-214 | the new handle is threaded in after the last item, keeping the list well linked |
| ModelContainers.ModelContainer.SafeToDelete | src/modelcontainer.h:118-142 | the item is unlinked, the others keep their order, and front, last and count are fixed up |
| ModelContainers.ModelContainer.Swap | src/modelcontainer.h:219-268 | (corrected) the two items trade places and one ModelItemsSwapped event naming both is queued |
| ModelContainers.ModelContainer.EraseLater | src/modelcontainer.h:193-194 | nothing is unlinked; only a ModelItemRemoved event is queued |
| FallbackParagraph.Widest | src/material/fallbackparagraphmaterial.cpp:75-76 | the corrected extent along the item-flow angle: no line is wider, and it is the width of some line (0 for no lines) |
| FallbackParagraph.WidestAsWrittenAddsWidths | src/material/fallbackparagraphmaterial.cpp:75-76 | as written, a wider line adds its width to the running extent: lines 10 and then 15 wide give 25 instead of 15 |
| FallbackParagraph.LinesStack | src/material/fallbackparagraphmaterial.cpp:110-123 | in the corrected placement each line starts right below the one before it |
| FallbackParagraph.LinesFillDrawing | src/material/fallbackparagraphmaterial.cpp:73 | (corrected) below the last line lies the drawing area's start plus the total of the lines' heights, which is the paragraph's height |
| FallbackParagraph.LineYAsWrittenSkipsDown | src/material/fallbackparagraphmaterial.cpp:119-120 | as written, the running offset adds the previous run's absolute position as well as its height: with the drawing area 10 down and lines 5 high the second line starts at 25, not 15 |
| FallbackParagraph.RunWidths | src/material/fallbackparagraphmaterial.cpp:112 | the lines' widths, one per line, in order |
| FallbackParagraph.LinePlaced | src/material/fallbackparagraphmaterial.cpp:56-76 | a run cut from the remaining text keeps the loop's facts: the lines so far and the rest make up the text, every line is measured, and none is wider than the proposal |
| FallbackParagraph.FallbackParagraphMaterial.constructor | src/material/fallbackparagraphmaterial.cpp:38 | a paragraph starts from its item with no runs, as shaping clears them |
| FallbackParagraph.FallbackParagraphMaterial.ShapeDrawingArea | src/material/fallbackparagraphmaterial.cpp:36-93 | (corrected) no text gives the simple shape and no runs; without expansion along the item-flow angle the text is cut into lines no wider than the proposal until it runs out or a line would take nothing, and the drawing area is the widest line by the lines' total height; with expansion one run holds the whole text and its viewport is the drawing area |
| FallbackParagraph.FallbackParagraphMaterial.FlowLines | src/material/fallbackparagraphmaterial.cpp:54-77 | (corrected) the lines' texts joined (`Concat`) are a prefix of the text; the loop stops only when the whole text is placed or nothing more fits; the result is the widest line by the total height |
| FallbackParagraph.FallbackParagraphMaterial.Shape | src/material/fallbackparagraphmaterial.cpp:26-34 | the drawing area is shaped from the revised proposal without subtracting the reserve, and the viewport is that drawing area rounded against the official proposal |
| FallbackParagraph.FallbackParagraphMaterial.PlaceRuns | src/material/fallbackparagraphmaterial.cpp:95-124 | (corrected) the viewport is placed at the offset plus the translation and the drawing area aligned in it; each line is handed the drawing area's position, moved by its justification across and by the height of the lines above it down; malformed alignment attributes are reported as failure |
| FallbackParagraph.StackRuns | src/material/fallbackparagraphmaterial.cpp:110-123 | (corrected) the loop hands each line its justification across and the heights of the lines above it down |
| FallbackParagraph.JustifiedAt | src/material/fallbackparagraphmaterial.cpp:112-114 | the justification of each line is the one computed for its width |
| Parsing.Hard | src/compiler.cpp:438-442 | stepping with `nextHard` succeeds exactly when a token follows the current one; otherwise it is an unexpected end of input |
| Parsing.Expect | src/compiler.cpp:426-429 | a hard match succeeds exactly when the current token carries the symbol, consuming nothing; past the end it is an unexpected end of input |
| Parsing.KeyForStateKey | src/compiler.cpp:593-610 | a state-key value key that parses has a key and a scope and consumes at least one token |
| Parsing.PlainKey | src/compiler.cpp:567-590 | a plain value key in an expression that parses has a key and a scope (element when none was written) and consumes its name |
| Parsing.CloseWeak | src/compiler.cpp:726-730 | a bracketed term is closed by `]`, which is consumed, and the term is marked weak |
| Parsing.MulPass | src/compiler.cpp:755-797 | the first collapse pass groups exactly the grammar's products, left to right |
| Parsing.AddPass | src/compiler.cpp:755-798 | the second collapse pass over the products builds the grammar's left-nested sum |
| Parsing.CollapseMatchesPrecedence | src/compiler.cpp:797-800 | for any alternating list of operands and operators the two passes leave exactly one node, the tree of the usual precedence with left association, so the size check never throws |
| Parsing.Collapse | src/compiler.cpp:755-795 | the in-place walk over the node list computes exactly one collapse pass |
| Parsing.WeakTerms | src/compiler.cpp:683-694 | a bracketed number is rejected; a bracketed value key closed by `]` becomes a weak term |
| Parsing.SumOfProduct | src/compiler.cpp:797-798 | `a + b * c` parses to `a + (b * c)` |
| Parsing.TimeUnitsRejected | src/compiler.cpp:707-711 | a number followed by a time unit is not a scalar expression |
| Parsing.TimeValues | src/compiler.cpp:1049-1063 | a scalar followed by `ms` is that many milliseconds, by `sec` a thousand times as many, by anything else an error |
| Parsing.NoTimeWithoutScalar | src/compiler.cpp:1051 | without a leading scalar there is no time and nothing is consumed |
| Parsing.TruncateTowardZero | src/compiler.cpp:1053 | converting the number to an integer truncates toward zero |
| Parsing.SampleValueMeaning | src/compiler.cpp:862-886 | a sample number followed by `%` is accepted exactly when it lies in 0..100 and is divided by 100; otherwise it is accepted exactly when it lies in 0..1; either way the value lies in 0..1 |
| Parsing.SamplesWithinUnit | src/compiler.cpp:858-897 | the sample loop only appends, in the order written, samples inside the unit square |
| Parsing.GraphLiteralSamples | src/compiler.cpp:841-905 | a graph literal that parses yields a graph with at least one sample, all in the unit square |
| Parsing.GraphNamesShadow | src/compiler.cpp:818-839 | a graph name is looked up in the scope first, then in the translation unit; an unknown name yields no graph and consumes nothing |
| Parsing.OneSampleGraph | src/compiler.cpp:889-895 | `graph(linear, a @ b)` yields the single sample whose x is b and whose y is a |
| Parsing.FoldIsLeft | src/compiler.cpp:1469-1484 | the operator loop folds each operator and operand onto the result so far, which becomes the left child |
| Parsing.StateKeyFoldsLeft | src/compiler.cpp:1467-1490 | a compound state key that parses is a left fold onto its first operand |
| Parsing.NotFlipsGroup | src/compiler.cpp:1443-1458 | `not (...)` flips the negation of the parenthesised group |
| Parsing.NotNegatesLeaf | src/compiler.cpp:1443-1465 | `not key` gives a negated leaf for that key |
| Parsing.NameIsElementKey | src/compiler.cpp:593-610 | a lone name in a state key is that key in element scope, with no path |
| Parsing.ThisNameIsElementKey | src/compiler.cpp:505-509 | `this . name` gives the same element-scope key |
| Parsing.LeftFoldExample | src/compiler.cpp:1467-1490 | `a & b`, then an or with `c`, then `:` parses with the and node as the left child of the or node |
| Parsing.Parser.constructor | src/compiler.cpp:407-412 | parsing starts at the first token |
| Parsing.Parser.Next | src/compiler.cpp:431-436 | `next` moves one token on unless at the end, and reports whether a token remains |
| Parsing.Parser.NextHard | src/compiler.cpp:438-442 | `nextHard` moves one token on and fails when no token follows |
| Parsing.Parser.ParseValueKeyScopeAndPath | src/compiler.cpp:480-540 | the scope and path reader agrees with its definition and leaves the cursor where it says |
| Parsing.Parser.ParseScopedValueKeyForStateKey | src/compiler.cpp:593-610 | the state-key value-key reader agrees with its definition |
| Parsing.Parser.ParseScopedValueKeyForExpression | src/compiler.cpp:542-590 | the expression value-key reader, including the material form with its parameter expression, agrees with its definition |
| Parsing.Parser.ParseValueNode | src/compiler.cpp:673-733 | the operand reader agrees with its definition |
| Parsing.Parser.ParseExpressionForNode | src/compiler.cpp:671-803 | the expression reader agrees with the recursive definition `ExprForNode`, whose trees the collapse lemmas characterise |
| Parsing.ExprForNode | src/compiler.cpp:671-803 | an expression that parses consumes at least one token and stays within the tokens |
| Parsing.Parser.ParseTimeInMilliseconds | src/compiler.cpp:1049-1063 | the time reader agrees with its definition |
| Parsing.Parser.ParseGraph | src/compiler.cpp:808-906 | the graph reader agrees with its definition |
| Parsing.Parser.ParseSamples | src/compiler.cpp:858-897 | the sample loop agrees with its definition |
| Parsing.Parser.ParseVirtualStateKey | src/compiler.cpp:1435-1491 | the compound state-key reader agrees with its definition |
| Parsing.ParseExpression | src/compiler.cpp:805-806 | parsing a whole token list as an expression gives the definition's result from the first token |
| ExpressionPrinter.Branch | src/binaryexpressionprinter.h:80-113 | a branch's shadow node carries the operator's literal over its two children |
| ExpressionPrinter.ShadowTreeSound | src/binaryexpressionprinter.h:59-117 | building the shadow tree succeeds exactly when every node has either both children or none, and every node it makes keeps the sizing invariants: at least the minimum width, wide enough for both children and the gap, the centre inside the node |
| ExpressionPrinter.BranchSound | src/binaryexpressionprinter.h:86-113 | a branch over two sound children is sound; its gap is the minimum padding, widened, together with the node, by as much as the bar falls short of the operator plus twice the bar padding |
| ExpressionPrinter.LeafSize | src/binaryexpressionprinter.h:70-77 | a leaf is as wide as its literal or the minimum width, whichever is larger, centred at half its width, with no gap |
| ExpressionPrinter.Replace | src/binaryexpressionprinter.h:154 | replacing inside the string keeps the characters before the position, writes the text there, and keeps those after the replaced ones |
| ExpressionPrinter.MatrixOf | src/binaryexpressionprinter.h:132-163 | a node's matrix sits at its place, has two lines, and its first line is the centre's indent followed by a bar |
| ExpressionPrinter.Layout | src/binaryexpressionprinter.h:167-176 | the subtree's placements begin with the node itself; a leaf places only itself |
| ExpressionPrinter.LayoutOfBranch | src/binaryexpressionprinter.h:167-173 | a branch places itself, then its left subtree two rows lower at its own column, then its right subtree past the left one and the gap |
| ExpressionPrinter.PlacedInside | src/binaryexpressionprinter.h:167-173 | every node of a subtree is placed within the subtree's columns, at or below its row |
| ExpressionPrinter.SubtreesApart | src/binaryexpressionprinter.h:169-172 | every node of the left subtree ends at least the minimum padding before any node of the right subtree begins |
| ExpressionPrinter.BarLine | src/binaryexpressionprinter.h:148-156 | a branch's second line reaches the end of its bar, both ends of the bar are dots, and the operator lies on the bar clear of both ends |
| ExpressionPrinter.BarClear | src/binaryexpressionprinter.h:103-113 | the operator starts and ends at least the bar padding inside the bar |
| ExpressionPrinter.TopInside | src/binaryexpressionprinter.h:132-163 | a node's own matrix fits within its columns |
| ExpressionPrinter.MatrixInside | src/binaryexpressionprinter.h:129-176 | every matrix of a subtree stays within the subtree's columns and at or below its row |
| ExpressionPrinter.BarJoinsChildren | src/binaryexpressionprinter.h:148-151 | a branch's bar runs from the left child's centre to the right child's centre, both children placed two rows lower |
| ExpressionPrinter.PaintLineMeaning | src/binaryexpressionprinter.h:193-196 | painting a section onto a line pads the line with spaces when needed, writes the section at its column and keeps every other character |
| ExpressionPrinter.PaintedRow | src/binaryexpressionprinter.h:186-197 | after the first rows of a matrix are painted, those rows hold the matrix's lines and every other row is unchanged |
| ExpressionPrinter.PaintShows | src/binaryexpressionprinter.h:181-198 | after compositing a matrix, each of its lines reads back at its place, whatever the buffer held |
| ExpressionPrinter.PaintedAt | src/binaryexpressionprinter.h:183-196 | the painted buffer's row is the old row, or an empty one past the old end, with the matrix's line painted over it |
| ExpressionPrinter.LaterOverwrites | src/binaryexpressionprinter.h:181-198 | a matrix composited later overwrites earlier ones: all its lines read back |
| ExpressionPrinter.JoinedLines | src/binaryexpressionprinter.h:201-204 | the printout has one newline per buffer line and ends in one |
| ExpressionPrinter.DevelopMatrices | src/binaryexpressionprinter.h:129-174 | the recursive collector appends the subtree's matrices, in pre-order, after the ones already collected |
| ExpressionPrinter.GrowTo | src/binaryexpressionprinter.h:183-184 | the buffer grows with empty lines until the matrix fits, and no further |
| ExpressionPrinter.PaintMatrix | src/binaryexpressionprinter.h:186-197 | the inner loop paints every line of one matrix |
| ExpressionPrinter.Composite | src/binaryexpressionprinter.h:178-198 | the compositing loop paints the matrices in order onto an initially empty buffer |
| ExpressionPrinter.JoinLines | src/binaryexpressionprinter.h:201-202 | each buffer line is written followed by a newline |
| ExpressionPrinter.GenerateExpressionPrintout | src/binaryexpressionprinter.h:27-205 | the printout is the definition's, and there is one exactly when every node of the tree has both children or none |
| ReferenceAttributes.Derive | src/referenceattribute.cpp:8-40 | a clear layer, or an inactive parent, leaves the layer as it is; otherwise the layer becomes active and the parent's key and literal lists are appended to its own |
| ReferenceAttributes.DeriveChildWins | src/referenceattribute.cpp:19-37 | when deriving, every optional field the layer already has is kept, and every field it lacks is taken from the parent |
| ReferenceAttributes.DeriveIntoUnset | src/referenceattribute.cpp:13-40 | a fresh layer derived from an active parent is the parent's layer with its clear flag dropped; from an inactive parent it stays unset |
| ReferenceAttributes.DeriveAssociative | src/referenceattribute.cpp:8-40 | deriving from a parent and then a grandparent equals deriving from the parent already derived from the grandparent, for layers that are not clear and active ancestors |
| ReferenceAttributes.DeriveTwiceRepeatsKeys | src/referenceattribute.cpp:39 | deriving twice from the same parent appends the parent's keys twice: derive is not idempotent |
| ReferenceAttributes.ApplyToOptionRewritesVisited | src/expression.cpp:153-165 | applying the visitor to an optional expression rewrites exactly the keys it visits, in the same order |
| ReferenceAttributes.ApplyToAttributeRewritesVisited | src/referenceattribute.cpp:42-56 | applying the visitor to a layer rewrites exactly the keys it visits, in order: the four expressions, then the key list, then the single key |
| ReferenceAttributes.ApplyToAttributeKeepsRest | src/referenceattribute.cpp:42-56 | the visitor leaves every field of the layer that holds no key as it was |
| ReferenceAttributes.DerivedSet | src/referenceattributeset.cpp:20-26 | deriving a whole attribute set derives every slot from the parent's slot of the same key |
| ReferenceAttributes.DerivedSetModifiers | src/referenceattributeset.cpp:6-18 | the parent's declare and set modifiers overwrite same-named ones and the others are kept: unlike the slots, the parent wins here |
| ReferenceAttributes.DeriveFromBlank | src/referenceattributeset.cpp:20-26 | deriving from an empty set changes nothing |
| ReferenceAttributes.DeriveBlankFrom | src/referenceattributeset.cpp:20-26 | an empty set derived from a parent takes the parent's modifiers and, for every active slot, the parent's layer without its clear flag |
| ReferenceAttributes.Overwrite | src/referenceattributeset.cpp:13-17 | the loop writes every entry of the other map over the own one |
| ReferenceAttributes.RewriteValues | src/referenceattributeset.cpp:30-33 | the loop over a modifier map rewrites the keys of every expression in it and keeps its keys |
| ReferenceAttributes.MergeModifiers | src/referenceattributeset.cpp:6-18 | the other set's modifiers overwrite same-named ones, the entries only the own set has are preserved, and the slots are untouched |
| ReferenceAttributes.DeriveFrom | src/referenceattributeset.cpp:20-26 | merging the modifiers and then deriving slot by slot gives the derived set |
| ReferenceAttributes.ApplyToEachScopedValueKey | src/referenceattributeset.cpp:28-37 | the visitor rewrites every declare expression, every set expression and every slot |
| RuntimeAttributes.Target | src/runtimeattribute.cpp:243-245 | reading through a pointer field gives the value it points at, and nothing for a null pointer |
| RuntimeAttributes.Over | src/runtimeattribute.cpp:68-78 | merging a pointer field repoints it at the layer's field when the layer has one and keeps it otherwise |
| RuntimeAttributes.MergeLayer | src/runtimeattribute.cpp:86-99 | merging a layer repoints every field the layer has, keeps the others and the clear flag, and appends the layer's key and literal lists |
| RuntimeAttributes.LastPin | src/runtimeattribute.cpp:86-99 | the pin a field ends on is that of the last layer that sets the field, and there is none when no layer sets it |
| RuntimeAttributes.OverAllIsLast | src/runtimeattribute.cpp:68-78 | merging a field through a sequence of layers leaves the last layer's pin, or the starting one when no layer has the field |
| RuntimeAttributes.MergeAllFields | src/runtimeattribute.cpp:86-99 | every pointer field of a merge of layers is the fold of the field-wise merge, and the clear flag is kept |
| RuntimeAttributes.MergeAllConcatenates | src/runtimeattribute.cpp:97-98 | merging concatenates the layers' key and literal lists in layer order |
| RuntimeAttributes.LastLayerWins | src/runtimeattribute.cpp:86-111 | after a reset and any merges, the expression and the property are those of the last layer that has one, and no clear flag is set |
| RuntimeAttributes.BoundedMeaning | src/runtimeattribute.cpp:46-56 | the value read never exceeds the maximum and is at least the minimum when the bounds are consistent; a value within bounds is unchanged; with crossed bounds the maximum wins |
| RuntimeAttributes.SolveBound | src/runtimeattribute.cpp:46-56 | a missing bound is no bound; solving a present one fails exactly when its expression fails |
| RuntimeAttributes.GetValue | src/runtimeattribute.cpp:26-59 | no expression gives no value; otherwise the solved expression, raised to the solved minimum and then lowered to the solved maximum |
| RuntimeAttributes.SetValue | src/runtimeattribute.cpp:61-66 | setting a value drops the starting expression and back-solves the proposed value into the store through the expression's weak term; without an expression only the starting expression is dropped |
| RuntimeAttributes.SetThenGet | src/runtimeattribute.cpp:26-66 | with one weak term in the expression and no bounds, the value read back after setting is the value proposed |
| RuntimeAttributes.Initial | src/runtimeattribute.h:95-128 | a new animatable attribute has its key, is inactive and settled, and every attribute copy is empty |
| RuntimeAttributes.Begin | src/runtimeattribute.cpp:175-186 | beginning a recompute checkpoints the current attribute, forgets the transition, the delay and the active flag, and resets the current attribute |
| RuntimeAttributes.Merge | src/runtimeattribute.cpp:188-198 | a cleared current attribute or an inactive layer changes nothing; otherwise the attribute becomes active, takes the layer's transition and delay when it has them, and merges the layer |
| RuntimeAttributes.MergeEachMergesActives | src/runtimeattribute.cpp:188-198 | merging a sequence of layers merges exactly the active ones, in order, becomes active exactly when one of them is, and leaves everything outside the current attribute alone |
| RuntimeAttributes.Commit | src/runtimeattribute.cpp:200-219 | no change since the checkpoint commits nothing and signals nothing; a change keeps the checkpoint as the previous attribute and either starts the animation ticker with ratio 0, when a transition or delay is set, or cancels it with ratio 1, and then signals the change |
| RuntimeAttributes.Correct | src/runtimeattribute.cpp:113-117 | the attribute shown is the current one once settled and the previous one while an animation is under way |
| RuntimeAttributes.CommitShows | src/runtimeattribute.cpp:200-246 | after a change, the attribute shown is the new one without a transition or delay, and the checkpointed one while a transition or delay is pending; the property read follows it |
| RuntimeAttributes.CommitSignalsOnce | src/runtimeattribute.cpp:203-218 | a commit signals the change exactly once when something changed, and signals nothing otherwise |
| RuntimeAttributes.RecomputeWithSameLayersIsQuiet | src/runtimeattribute.cpp:175-219 | a recompute that merges the same active layers as last time finds nothing changed: it signals nothing and keeps the attribute |
| RuntimeAttributes.SettledValue | src/runtimeattribute.cpp:222-238 | once settled the value is the current attribute's value; mid-animation the interpolated value is not modelled and is reported as an error |
| RuntimeAttributeSets.AttributeIndexAsWritten | src/runtimeattributeset.cpp:103-106 | as written, a name is read as the attribute numbered by whatever symbol its spelling maps to, attribute or not |
| RuntimeAttributeSets.AsWrittenIndexesPastTheEnd | src/runtimeattributeset.cpp:105-106 | the spelling `@` maps to symbol 44, past the last of the 43 attributes, so the as-written read indexes beyond the attribute array |
| RuntimeAttributeSets.AttributeIndex | src/runtimeattributeset.cpp:103-128 | corrected: a name reads an attribute exactly when its spelling is a natural attribute key, and the index is then within the array |
| RuntimeAttributeSets.AttributeIndexCorrects | src/runtimeattributeset.cpp:103-128 | the corrected and the as-written index differ exactly for the names whose symbol lies outside the attribute array |
| RuntimeAttributeSets.Dedup | src/runtimeattributeset.cpp:85-100 | the entries fired are the first occurrence of each entry, in order: the same entries, none twice |
| RuntimeAttributeSets.DedupOfDistinct | src/runtimeattributeset.cpp:85-100 | without repeated entries every entry is fired |
| RuntimeAttributeSets.FiringStep | src/runtimeattributeset.cpp:90-99 | one turn of the firing loop: an entry already fired is skipped, a new one is solved and written into the store, an error stopping the replay |
| RuntimeAttributeSets.CommitSignalsChanged | src/runtimeattributeset.cpp:63-67 | committing the set signals a change for an attribute exactly when its own recompute changed it |
| RuntimeAttributeSets.RuntimeAttributeSet.constructor | src/runtimeattributeset.cpp:25-34 | every attribute starts initialised with its own key, and there are no modifiers |
| RuntimeAttributeSets.RuntimeAttributeSet.BeginRecompute | src/runtimeattributeset.cpp:42-49 | beginning a recompute forgets the modifiers and begins every attribute |
| RuntimeAttributeSets.RuntimeAttributeSet.MergeIn | src/runtimeattributeset.cpp:51-61 | only the first merged set's declares are kept, every set's set modifiers are appended, and each attribute merges the set's slot for its key |
| RuntimeAttributeSets.RuntimeAttributeSet.CommitRecompute | src/runtimeattributeset.cpp:63-67 | every attribute is committed, in key order, and the signals are theirs in that order |
| RuntimeAttributeSets.RuntimeAttributeSet.ExecuteStateChangers | src/runtimeattributeset.cpp:69-81 | the change acceptors run for exactly the state-key attributes without a delay, in key order |
| RuntimeAttributeSets.RuntimeAttributeSet.FireSets | src/runtimeattributeset.cpp:83-101 | the set modifiers fire in merge order, each expression once, and the store is the result of writing each solved value in that order |
| RuntimeAttributeSets.RuntimeAttributeSet.GetInt | src/runtimeattributeset.cpp:103-110 | an attribute name reads the attribute's settled value; any other name reads the solved declare of that name, nothing when there is none, and an error when no declare map was merged |
| RuntimeAttributeSets.RuntimeAttributeSet.SetInteger | src/runtimeattributeset.cpp:112-128 | an attribute name sets that attribute and leaves every other alone; any other name back-solves into the store through its declare, an error when there is no declare or it has no weak term; with a single weak term the value reads back as the one proposed |
| StateManagement.Notify | src/statemanager.h:47-51 | an active state adds the observer's attribute set, an inactive one removes it |
| StateManagement.RegisterAffected | src/statemanager.h:73-74 | `std::set::insert` by proxy: afterwards the proxy is present, nothing else is added, an existing entry is kept, and proxies stay unique (the new entry goes last, not at its place in proxy-key order) |
| StateManagement.RemoveAffected | src/statemanager.h:76-77 | `std::set::erase` by proxy: exactly the entries with that proxy go |
| StateManagement.RemoveAffectedKeepsUnique | src/statemanager.h:76-77 | erasing keeps proxies unique |
| StateManagement.RegisterThenRemove | src/statemanager.h:73-77 | inserting a new virtual key and erasing it again restores the set |
| StateManagement.Ascending | src/statemanager.h:41 | the observer handles in ascending order, each once, as `std::map` iterates them |
| StateManagement.NoticesFor | src/statemanager.cpp:25 | one notice per listed observer, in order, each telling the new value |
| StateManagement.ObserverNotices | src/statemanager.cpp:25 | every observer of the state, and only those, is told the new value once |
| StateManagement.ActiveKeys | src/statemanager.h:123-128 | the states that read as active |
| StateManagement.ScopesOf | src/statemanager.cpp:168-175 | the scopes that hold a state of the identity, the global one excluded |
| StateManagement.EnsureMeaning | src/statemanager.cpp:42-48 | `initState` creates exactly the missing state, inactive with stamp 0 and nothing observing it, and changes no existing state |
| StateManagement.EnsureKeeps | src/statemanager.cpp:42-48 | `initState` leaves an existing state's virtual key alone |
| StateManagement.ObservingMeaning | src/statemanager.h:59-63 | registering an observer records that item's position on that state only, and makes the state observed |
| StateManagement.UnobservingMeaning | src/statemanager.h:66 | removing an observer removes exactly that item from that state |
| StateManagement.RegisteringMeaning | src/statemanager.cpp:142-152 | registering a virtual key on a (possibly new) state makes it observed with one entry for the proxy |
| StateManagement.UnregisteringShrinks | src/statemanager.cpp:87 | removing a virtual key's registration only shrinks the table |
| StateManagement.WithoutShrinks | src/statemanager.cpp:92-96 | erasing an unobserved state removes exactly it and only shrinks the table |
| StateManagement.UnobservedStaysUnobserved | src/statemanager.cpp:67-98 | a state nobody observes stays unobserved while the table shrinks |
| StateManagement.MutateStep | src/statemanager.cpp:168-177 | one turn of the `mutateAll` loop extends the set-so-far by one state |
| StateManagement.AscendingJoin | src/statemanager.h:41 | the least handle followed by the rest in ascending order lists the whole set, each once |
| StateManagement.StateManager.constructor | src/statemanager.h:107 | the stamp counter starts at 0 with no states, triggers, scopes or observer records |
| StateManagement.StateManager.CheckState | src/statemanager.h:123-128 | true iff the state exists and is active; false for a missing state, creating nothing |
| StateManagement.StateManager.GetStamp | src/statemanager.h:130-135 | (corrected) 0 for a missing state; with the stamp committed before a cascade, never above the last stamp issued |
| StateManagement.StateManager.GetLastStamp | src/statemanager.h:137-138 | (corrected) with the stamp committed before a cascade, no stored stamp exceeds it |
| StateManagement.StateManager.HasTriggerStates | src/statemanager.h:160-161 | true iff trigger states are queued |
| StateManagement.StateManager.SetValue | src/statemanager.cpp:23-25 | sets value and stamp of that state only and tells every observer, in order |
| StateManagement.StateManager.MutateState | src/statemanager.cpp:20-28 | to the current value: returns false and changes nothing; otherwise returns true, sets value and stamp, notifies every observer, then re-syncs dependent virtual keys; when those are `Untangled` and none is the state's own proxy, the state keeps the new value and every dependent proxy holds its expression's value over the new states |
| StateManagement.StateManager.SyncAll | src/statemanager.cpp:30-34 | syncing the dependent virtual keys changes only state values, stamps and notices; over `Untangled` keys (no virtual state depends on their proxies, no expression reads one) each stored proxy ends at its expression's value over the states before the pass, every other state is unchanged, and each proxy agrees with its expression afterwards too |
| StateManagement.UnreadProxies | src/virtualstatekey.cpp:62-78 | an expression that reads none of the synced proxies evaluates the same before and after they were synced |
| StateManagement.SyncStep | src/statemanager.cpp:30-34 | one turn of the sync loop over untangled keys: the next proxy takes its expression's value over the states before the pass, and nothing else changes |
| StateManagement.SyncStepKeeps | src/statemanager.cpp:30-34 | a sync turn keeps every state that is not one of the proxies synced so far |
| StateManagement.SyncStepValues | src/statemanager.cpp:30-34 | a sync turn keeps the values the earlier proxies were given, since proxies are distinct |
| StateManagement.SyncedFromIsSynced | src/statemanager.cpp:30-34 | after a pass over untangled keys every stored proxy agrees with its expression over the new states, so a second pass changes nothing |
| StateManagement.StateManager.SyncProxyState | src/virtualstatekey.cpp:126-129 | a missing proxy, or one that already agrees with the expression, changes nothing; otherwise the proxy is set to the expression's value through `mutateIfObserved`, stamped fresh and its observers told when it has no virtual state depending on it, and then no other state changes; only values change |
| StateManagement.ResyncIsStable | src/virtualstatekey.cpp:126-129 | a proxy that its expression does not read, once set to the expression's value, agrees with it, so syncing it again changes nothing |
| StateManagement.StateManager.MutateIfObservedWithin | src/statemanager.cpp:155-164 | the cascading body of `mutateIfObserved`, bounded by a depth |
| StateManagement.StateManager.AttemptMutateWithin | src/statemanager.cpp:108-116 | (corrected: `lastStamp` is committed before the mutation cascades) no change leaves everything alone; a change raises the stamp counter and notifies the observers; without a cascade the counter grows by exactly one and the state carries the new counter value |
| StateManagement.StateManager.MutateIfObserved | src/statemanager.cpp:155-164 | false and nothing created for a missing state; otherwise true, with the mutation committed as by `attemptMutate` |
| StateManagement.StateManager.SetTriggerIfObserved | src/statemanager.h:146-150 | queues the key iff its state exists, even if it already was true; sets it true; a missing key changes nothing |
| StateManagement.StateManager.ResetOne | src/statemanager.h:154-155 | one reset: only values change; when the state has no virtual state depending on it, it (if it still exists) reads inactive and no other state changes value |
| StateManagement.StateManager.ResetTriggerStates | src/statemanager.h:152-158 | the queue is empty afterwards and only values change; when no queued state has a virtual state depending on it, every queued trigger reads inactive |
| StateManagement.StateManager.MutateOne | src/statemanager.cpp:176 | one turn of `mutateAll`: when the state has no virtual state depending on it, it reads the value, with the next stamp if it changed, and nothing else changes |
| StateManagement.StateManager.MutateEach | src/statemanager.cpp:168-177 | only values change; when no listed state has a virtual state depending on it, every listed state reads the value and every other state keeps its value and stamp |
| StateManagement.StateManager.MutateAll | src/statemanager.cpp:166-178 | only values change; when no scoped state of the identity has a virtual state depending on it (`ScopesCalm`), every scoped state of the identity reads the value and the global one keeps its value and stamp |
| StateManagement.StateManager.InitState | src/statemanager.cpp:42-48 | creates the state if missing and records the identity under its scope, every time |
| StateManagement.StateManager.RegisterStateObserver | src/statemanager.h:113-119 | records the key against the observer, creates the state lazily, registers the observer and immediately tells it the current value |
| StateManagement.StateManager.RecordObserver | src/statemanager.h:117 | appends the key to the observer's record; nothing else changes |
| StateManagement.StateManager.AddObserver | src/statemanager.h:59-63 | `reigsterObserver`: the observer is stored and told the current value |
| StateManagement.StateManager.InsertVirtualState | src/statemanager.cpp:135-153 | the proxy holds the virtual key; every affected state exists afterwards, lists the proxy and is observed; when no virtual state depends on the proxy it reads the expression's value |
| StateManagement.StateManager.RegisterEach | src/statemanager.cpp:142-152 | the loop of `insertVirtualState`: every listed state exists afterwards and lists the proxy; no value or stamp changes |
| StateManagement.StateManager.Install | src/statemanager.cpp:36-40 | the proxy state stores the virtual key |
| StateManagement.StateManager.RegisterWith | src/statemanager.cpp:144-151 | creates the state if missing, then registers the virtual key with it |
| StateManagement.StateManager.EraseStateIfOrphaned | src/statemanager.cpp:67-98 | an unobserved state is erased and a missing or observed one left alone; only erasures happen |
| StateManagement.StateManager.Erase | src/statemanager.cpp:92-96 | the orphan is removed from the table |
| StateManagement.StateManager.Unregister | src/statemanager.cpp:87 | the virtual key is unregistered from that state |
| StateManagement.StateManager.UnregisterVirtualKey | src/statemanager.cpp:82-89 | the cascade over an orphan's virtual key only erases, and keeps the orphan unobserved |
| StateManagement.StateManager.EraseEach | src/statemanager.cpp:102-103 | every listed orphan is erased |
| StateManagement.StateManager.DeallocateScope | src/statemanager.cpp:100-106 | every orphaned state recorded under the scope is erased and the scope forgotten |
| StateManagement.StateManager.RemoveReferencesToModel | src/statemanager.h:110-111 | the model's scope is deallocated |
| StateManagement.StateManager.DropObserver | src/statemanager.cpp:126-127 | the item is removed from that state's observers; a missing state is skipped |
| StateManagement.StateManager.ReleaseOne | src/statemanager.cpp:124-130 | the state no longer lists the item and nothing else is observed differently |
| StateManagement.StateManager.RemoveReferencesToDisplayItem | src/statemanager.cpp:118-133 | afterwards no state lists the item, the item's scope and observer record are gone, and no state is created |
| StateManagement.NestedStamps | src/statemanager.cpp:108-116 | each cascaded change is given the next stamp in turn |
| StateManagement.AsWrittenCascade | src/statemanager.cpp:108-116 | as written, the outer commit sets `lastStamp` to last+1 after the nested commits |
| StateManagement.AsWrittenCascadeCounterexample | src/statemanager.cpp:108-116 | with two proxies changing, `lastStamp` ends at 1 while a proxy holds stamp 2 |
| StateManagement.CorrectedCascadeStamps | src/statemanager.cpp:108-116 | committing first, every change gets its own increasing stamp and `lastStamp` ends at the highest one |
| StateManagement.AsWrittenLosesStampOrder | src/statemanager.cpp:108-116 | as written, whenever two proxies change `lastStamp` trails a stamp it issued |
| TextFitting.MaxStringLengthForSpace | src/specific_driver_sdl/textdriver.cpp:249-261 | the loop as written measures the prefixes shorter than the text, returns one less than the first too wide, and returns the full length when none was too wide, without measuring the full text |
| TextFitting.FittingLength | src/specific_driver_sdl/textdriver.cpp:249-261 | the corrected loop also measures the full text, and returns the longest-fitting length |
| TextFitting.MeasuredLengthIsLongestMeasured | src/specific_driver_sdl/textdriver.cpp:253-260 | under a monotone measure, the as-written length fits when it is shorter than the text, and every longer proper prefix is too wide |
| TextFitting.LongestFittingMeaning | src/specific_driver_sdl/textdriver.cpp:249-261 | under a monotone measure whose empty run fits, the corrected length is the longest prefix that fits: it fits and every longer prefix, the full text included, is too wide |
| TextFitting.AsWrittenReportsOverwideText | src/specific_driver_sdl/textdriver.cpp:253-260 | at ten units per character in a space of 15, the as-written loop reports the 20-wide text "ab" as fitting, while the corrected length is 1 |
| TextFitting.ExtractExcess | src/text.cpp:22-32 | (corrected) the text splits, in order and without loss, into the longest fitting prefix (`FittingLength`) and the rest |
| TextFitting.ExtractNothing | src/text.cpp:22-32 | when not even the first character fits, nothing remains and the whole text overflows |
| TextFitting.GlyphPositions | src/specific_driver_sdl/textdriver.cpp:206-232 | every glyph is placed at the pen position before it, and there is one position per glyph |
| TextFitting.PenStep | src/specific_driver_sdl/textdriver.cpp:222-226 | the pen moves by each advance divided by 64, truncated toward zero |
| TextFitting.PenMonotone | src/specific_driver_sdl/textdriver.cpp:222-226 | with non-negative advances the pen never moves back |
| TextFitting.TruncationDropsFractions | src/specific_driver_sdl/textdriver.cpp:225-226 | truncating each advance separately loses the sub-pixel remainders: three half-pixel advances leave the pen at 0 |
| TextFitting.HalfPixelsTruncated | src/specific_driver_sdl/textdriver.cpp:222-226 | advances of less than a whole pixel, however many, leave the pen at the origin |
| TextRuns.TextRunMaterial.constructor | src/material/textrunmaterial.h:27-30 | a new text run has no text and an empty drawing area |
| TextRuns.TextRunMaterial.SetTextForSpace | src/material/textrunmaterial.cpp:36-45 | (corrected) the run keeps the longest prefix that fits in the space less the reserve, clamped at zero, and hands back the rest, nothing lost |
| TextRuns.TextRunMaterial.ShapeDrawingArea | src/material/textrunmaterial.cpp:24-28 | the proposal plays no part: the drawing area is the measured size of the run's text |
| Tokenizer.HexByte | src/compiler.cpp:243-251 | two hex digits read as a base-16 number give a channel value below 256 |
| Tokenizer.SkipNewlines | src/compiler.cpp:131-141 | a run of newlines is passed as a whole: the cursor stops on the first other character or at the end, one line further per newline, at column 0 |
| Tokenizer.NextMeaning | src/compiler.cpp:127-147 | `nextChar` moves one column along the line, or, on a newline, past the whole run of newlines to column 0 of the line after it |
| Tokenizer.DelimitingCharAgrees | src/compiler.cpp:261-283 | a character is delimiting for the scanner exactly when the keyword table lists it as a delimiting symbol |
| Tokenizer.While | src/compiler.cpp:238-239 | a scanning loop stops at the end of the code or on the first character its class does not admit, and collects only admitted characters |
| Tokenizer.WhileOnOneLine | src/compiler.cpp:293-301 | scanning digits, hex digits or word characters stays on one line: the text taken is exactly the code between the two cursors |
| Tokenizer.StringFrom | src/compiler.cpp:185-200 | corrected string loop: a backslash followed by a quote gives a quote, a lone quote ends the literal and is passed, and the end of the code ends it |
| Tokenizer.StringFromUnfold | src/compiler.cpp:185-200 | one turn of the corrected string loop, in each of its three cases |
| Tokenizer.StringFromAsWritten | src/compiler.cpp:185-200 | the string loop as written: the backslash is consumed and the next turn's step skips the quote without appending it, so a cursor past the literal is all it promises |
| Tokenizer.EscapeRoundTrip | src/compiler.cpp:185-200 | reading an escaped string back up to its closing quote gives the string itself, and leaves the cursor just past the quote |
| Tokenizer.EscapedQuoteLostAsWritten | src/compiler.cpp:185-200 | as written, the literal `"\""` reads back as the empty string, so no token is pushed; the corrected loop reads one quote |
| Tokenizer.LiteralScan | src/compiler.cpp:177-208 | (corrected) a literal scan that succeeds moves the cursor on |
| Tokenizer.WhitespaceScan | src/compiler.cpp:210-215 | a whitespace scan that succeeds moves the cursor on and emits nothing |
| Tokenizer.CommentScan | src/compiler.cpp:217-227 | a comment scan that succeeds moves the cursor on and emits nothing |
| Tokenizer.FirstMatch | src/compiler.cpp:376-402 | the first matcher that succeeds, in the loop's order, moves the cursor on |
| Tokenizer.RunStep | src/compiler.cpp:376-402 | one turn of the loop: the tokens the first matcher emits, followed by the rest of the run, are the run from here |
| Tokenizer.EveryPositionMatches | src/compiler.cpp:376-403 | some matcher applies wherever the code has not ended, so the loop consumes the whole code and its final check holds |
| Tokenizer.ColorMeaning | src/compiler.cpp:229-259 | `#` followed by exactly six hex digits, not at the end of the code, gives a colour whose channels are the three hex pairs; every other `#` gives none |
| Tokenizer.ScalarMeaning | src/compiler.cpp:304-328 | digits not followed by `.` are a scalar of their decimal value |
| Tokenizer.FloatMeaning | src/compiler.cpp:304-322 | digits, `.` and digits are a float of that decimal value; a `.` without a digit after it makes no number at all |
| Tokenizer.EmptyLiteralIsDropped | src/compiler.cpp:202-205 | the literal `""` is passed and pushes no token |
| Tokenizer.LiteralRoundTrip | src/compiler.cpp:177-208 | (corrected) a quoted, escaped string is scanned as one string token carrying the string, or as nothing when it is empty, and the cursor ends past the closing quote |
| Tokenizer.Tokenizer.constructor | src/compiler.cpp:110-116 | tokenizing starts at line 0, column 0 of the code with no tokens |
| Tokenizer.Tokenizer.NextChar | src/compiler.cpp:127-147 | `nextChar` moves the cursor as its definition says, and reports whether the code has not ended |
| Tokenizer.Tokenizer.TakeWhile | src/compiler.cpp:238-239 | a scanning loop collects what its definition collects and stops where it stops |
| Tokenizer.Tokenizer.TakeString | src/compiler.cpp:185-200 | the string loop collects what the corrected definition collects |
| Tokenizer.Tokenizer.MatchLiteral | src/compiler.cpp:177-208 | (corrected) the literal matcher succeeds exactly when the scan does, moves the cursor where it says and pushes what it emits |
| Tokenizer.Tokenizer.MatchWhitespace | src/compiler.cpp:210-215 | the whitespace matcher agrees with its scan and pushes nothing |
| Tokenizer.Tokenizer.MatchComment | src/compiler.cpp:217-227 | the comment matcher agrees with its scan and pushes nothing |
| Tokenizer.Tokenizer.MatchColor | src/compiler.cpp:229-259 | the colour matcher agrees with its scan |
| Tokenizer.Tokenizer.MatchDelimitingSymbol | src/compiler.cpp:261-283 | the delimiter matcher agrees with its scan |
| Tokenizer.Tokenizer.MatchNumber | src/compiler.cpp:285-331 | the number matcher agrees with its scan |
| Tokenizer.Tokenizer.MatchToken | src/compiler.cpp:333-373 | the word matcher agrees with its scan |
| Tokenizer.Tokenizer.MatchAny | src/compiler.cpp:378-399 | one turn tries the matchers in order, each failure putting the cursor back where the turn started, and agrees with the first match |
| Tokenizer.Tokenizer.RunAll | src/compiler.cpp:376-402 | (corrected) the loop reaches the end of the code and appends exactly the tokens of the run |
| Tokenizer.TokenizeInput | src/compiler.cpp:110-405 | (corrected) tokenizing the code gives the run from its start |
| ValueKey.Identity | src/valuekey.h:83 | ordering and equality see only scope, path and key |
| ValueKey.IdentityIgnoresParameter | src/valuekey.h:83 | two keys that differ only in their parameter compare equal |
| ValueKey.SetScopeIfUnset | src/valuekey.h:66-67 | an existing scope is never overridden; a missing one is set |
| ValueKey.SetScopeIfUnsetSettles | src/valuekey.h:66-67 | afterwards the key has a scope, and a second call changes nothing |
| ValueKey.EmptyExactlyNoKey | src/valuekey.h:69-70 | `empty` holds iff scope, path, key and parameter are all absent |
| ValueKey.AddToPath | src/valuekey.h:72-76 | the path becomes the old path (or none) plus the new piece; nothing else changes |
| ValueKey.Merge | src/valuekey.cpp:61-67 | scope, key and parameter are untouched |
| ValueKey.MergeConcatenatesPaths | src/valuekey.cpp:61-67 | the path becomes own path followed by the right path; it exists iff either side has one; a pathless right key changes nothing |
| ValueKey.Assign | src/valuekey.cpp:42-53 | scope, path and key are copied; the parameter is copied only when the source has one, else the old one stays |
| ValueKey.AssignKeepsStaleParameter | src/valuekey.cpp:42-53 | assigning a parameterless key over one with a parameter does not yield a copy of the source |
| ValueKey.Rewrite | src/valuekey.cpp:55-57 | the visitor rewrites the identity part and leaves the parameter alone |
| ValueKey.MapIds | src/valuekey.cpp:55-59 | the rewritten identities, one per visited key, in order |
| ValueKey.MapIdsAppend | src/valuekey.cpp:55-59 | rewriting distributes over concatenation of visit orders |
| ValueKey.ApplyRewritesVisited | src/valuekey.cpp:55-59 | `apply` rewrites exactly the keys it visits (this key, then those inside its parameter), in visiting order |
| ValueKey.ApplyToNodeRewritesVisited | src/expression.cpp:153-165 | visiting an expression rewrites every key leaf in pre-order and keeps every node's operation |
| ValueKey.ScopeWordsDistinct | src/valuekey.cpp:71-77 | the printed scope words are distinct, so the word names its scope |
| ValueKey.PrintPath | src/valuekey.h:91-100 | the path's elements joined with "::" between neighbours |
| ValueKey.NextSeparator | src/valuekey.h:91-100 | the first "::" at or after a position, or the end |
| ValueKey.SplitJoinRoundTrip | src/valuekey.h:91-100 | splitting a printed non-empty path of colon-free elements at "::" recovers the path |
| ValueKey.JoinSnoc | src/valuekey.h:91-100 | appending an element to a non-empty path adds "::" and the element to its printout |
| ValueKey.KeyPrintoutHead | src/valuekey.cpp:69-80 | the printout starts with the scope word |
| VirtualStateKey.Evaluate | src/virtualstatekey.cpp:62-79 | a leaf is its state's value, inverted when negated |
| VirtualStateKey.EvaluateConnectives | src/virtualstatekey.cpp:72-77 | Or, And and Xor nodes give `\|\|`, `&&` and `!=` of their children |
| VirtualStateKey.InternalNegationIgnored | src/virtualstatekey.cpp:62-78 | a negation flag on an internal node has no effect on the value |
| VirtualStateKey.NegatedGroupEvaluatesUnnegated | src/virtualstatekey.cpp:62-78 | with both states active, `not (a and b)` evaluates to true |
| VirtualStateKey.EvaluateNegating | src/virtualstatekey.cpp:62-78 | the corrected evaluation agrees with the written one on leaves |
| VirtualStateKey.NegationFlips | src/virtualstatekey.cpp:62-78 | under the corrected evaluation flipping any node's negation flips its value |
| VirtualStateKey.EvaluationsAgree | src/virtualstatekey.cpp:62-78 | the two evaluations agree on trees that negate only leaves |
| VirtualStateKey.NegatedGroupCorrected | src/virtualstatekey.cpp:62-78 | corrected, `not (a and b)` with both states active is false |
| VirtualStateKey.AffectedKeys | src/virtualstatekey.cpp:55-60 | one key per node, this node's first, in pre-order |
| VirtualStateKey.LeafKeysAffected | src/virtualstatekey.cpp:119-124 | every state the key reads is among its affected keys |
| VirtualStateKey.EvaluateReadsLeafKeys | src/virtualstatekey.cpp:62-79 | the value depends only on the states of the leaf keys |
| VirtualStateKey.AssignAsWritten | src/virtualstatekey.cpp:34-44 | operation, negation and key are copied; a child the source lacks stays as it was |
| VirtualStateKey.AssignAsWrittenKeepsStaleChildren | src/virtualstatekey.cpp:34-44 | assigning a leaf over an internal node leaves an internal node |
| VirtualStateKey.Assign | src/virtualstatekey.cpp:25-32 | a full copy: same affected keys and the same value under every set of active states |
| VirtualStateKey.Populate | src/virtualstatekey.cpp:144-166 | copies operation and negation, fills the state key only where the precursor has one, and builds children exactly where the precursor has them |
| VirtualStateKey.PopulateMirrors | src/virtualstatekey.cpp:144-166 | populating a fresh node mirrors the precursor tree; keyless nodes keep the default key |
| VirtualStateKey.GenerateVirtualStateKey | src/virtualstatekey.cpp:131-137 | the proxy key comes from the precursor's proxy key and the tree mirrors the precursor's |

## Left out

- Animation ticking and interpolation are left out because they run on the clock and on floating-point easing. This covers the animator tick and the interpolating branch of `getValue`. `RuntimeAttributes.SettledValue` therefore reports a mid-animation read as an error instead of an interpolated value.
- AnimationGraph: the smooth weight is modelled (`SmoothWeightAsWritten`, `SmoothWeight`), but the cosine is not, because it is transcendental floating point. It is the parameter `cosPi`, standing for `t ↦ cos(t·π)`. The lemmas about the smooth weight assume only the cosine's values they name (in [-1, 1], 1 at 0, -1 at 1), and nothing else about the cosine is stated.
- SDL windowing, Cairo drawing, HarfBuzz/FreeType shaping and the C ABI are left out because they are foreign code. The drawing bodies (`drawBasic`, `drawText`) are left out for the same reason. Text width is a measure function given as a parameter.
- The event loop's handling of platform events is left out because it is I/O. The queue is modelled, but the handlers of `ModelItemsSwapped` and `ModelItemSet` are not, since they call into the externally owned model.
- Tokenizer: `std::stoi` throwing `out_of_range` on huge literals is not modelled because integers are unbounded.
- Parsing: turning times into milliseconds (`× 1000`) can overflow a 32-bit `int`; this is not modelled.
- Parsing: `matchSymbolHard` at the end of the tokens reads past the end, which is undefined behaviour. The model reports it as an end-of-input error.
- Parsing: syntax errors carry no positions, and their printout is not modelled (output only).
- Parsing: a symbol that `getLiteralForSymbol` has no case for is modelled as the explicit value `MissingLiteral`. `ExpressionNode`'s uninitialised `val` is modelled as 0.
- Parsing: the position-within and model-path key parsers (`src/compiler.cpp:612-669`) are not modelled.
- Parsing: `printoutThySelf` is taken to be the node's literal.
- Parsing: the fold of virtual state keys is a left fold, as the code does it, although the comment beside it describes otherwise. The model follows the code (`Parsing.LeftFoldExample`).
- Parsing: an unreachable `logic_error` is left out.
- ExpressionPrinter: the printer's `assert` on an unexpected node is modelled as `None`. The `std::string::replace` `out_of_range` path is never reached in the model, so it has no branch.
- LineShaping: the `naturalWidth < minWidth` branch cannot be reached from the callers modelled, so it is not given a separate case.
- InlineLayout: the path for non-text children in `src/material/inlinelayoutmaterial.cpp:137-138` is undefined behaviour in the source and is not modelled.
- StateManagement: the cascades of proxy updates and orphan erasure are bounded by a fuel constant (`cascadeDepth`). Cascades deeper than that are cut off.
- MutateIfObserved: the `assert(state->checkObserved())` of src/statemanager.cpp:160 is not modelled. An existing state that nobody observes is mutated like any other, where a debug build of the source aborts.
- AttemptMutateWithin: commits `lastStamp` before the mutation cascades. src/statemanager.cpp:108-116 commits after it, so as written a cascade of two proxies leaves a stamp above `lastStamp` (`AsWrittenCascadeCounterexample`). The class uses the corrected order throughout.
- GetStamp: "never above the last stamp issued" holds for the corrected commit order only. As written it fails after a two-proxy cascade (`AsWrittenLosesStampOrder`).
- GetLastStamp: "no stored stamp exceeds it" holds for the corrected commit order only, for the same reason as `GetStamp`.
- RegisterAffected: the source's `affectedVirtualKeys` is a `std::set<VirtualStateKey>` ordered by proxy key (src/virtualstatekey.h:58-59), where a `StateKey` compares its `ValueKey` identity through `lexcompare.h`, which is not part of this model, and then its `void*` scope by address (src/statekey.h:43). Neither order is available, so the model keeps the keys in insertion order. The proxies synced by one mutation are therefore stamped, and their observers told, in an order that can differ from the source's. `PickTop` and `Radio` read those stamps.
- SyncAll: syncs in the insertion order of `RegisterAffected`, not the source's proxy-key order. Its values are promised only over `Untangled` keys, since a proxy with dependents starts a cascade of its own.
- MutateState: the re-sync values are promised only when the dependent keys are `Untangled`, do not include the state's own proxy, and fuel remains (see the StateManagement line on fuel).
- SyncProxyState: the proxy's new value is promised only when no virtual state depends on the proxy itself. Otherwise the cascade it starts may change other states and, through them, the proxy again, and the model states only that values alone change.
- InsertVirtualState: the proxy's value is promised only when no virtual state depends on the proxy, as for `SyncProxyState`.
- ResetOne: the state's value, and that no other state changes, are promised only when no virtual state depends on it. With a dependent, the cascade may change other states and come back to this one.
- ResetTriggerStates: "every queued trigger reads inactive" is promised only when no queued state has a virtual state depending on it, for the reason given for `ResetOne`.
- MutateOne: the state's value is promised only when no virtual state depends on it, for the reason given for `ResetOne`.
- MutateEach: the values of the listed and the other states are promised only when no listed state has a virtual state depending on it.
- MutateAll: the values are promised only when no scoped state of the identity has a virtual state depending on it (`ScopesCalm`).
- SetEach: "every listed existing state reads `v`" is promised only when no listed state has a virtual state depending on it (`Calm`). A cascade from one listed state through a virtual state's proxy can set another listed state again, and the model does not say what it then ends as.
- ToggleEach: the `Toggled` result is promised only when no listed state has a virtual state depending on it, for the reason given for `SetEach`.
- Radio: clearing all but the top state, and `RadioLeavesOne`'s conclusion, are promised only when no listed state has a virtual state depending on it, for the reason given for `SetEach`.
- ClearAllBut: the `Cleared` result is promised only when no listed state has a virtual state depending on it, for the reason given for `SetEach`.
- Environments: `Borderless` and `Resizable` end in `assert(false)` in the source and are not modelled.
- PlaceRuns: does not model the effect of `setAbsoluteOffset` on each run. It states only the offsets handed out and that the runs are aligned. The offsets are those of the corrected stacking (`StackRuns`, `LinesStack`). src/material/fallbackparagraphmaterial.cpp:119-120 also adds the previous run's absolute position (`LineYAsWrittenSkipsDown`).
- StackRuns: hands out the offsets of the corrected stacking (`LinesStack`), without the previous run's absolute y that src/material/fallbackparagraphmaterial.cpp:119-120 adds.
- Elements: `deriveFrom` is modelled without inheriting the parent's virtual state keys, which the code shown does not copy either.
- RuntimeAttributeSets.FireSets: set-modifier expressions are deduplicated by entry, not by the identity of the expression object, because pointer identity is not modelled. The comparison order (`lexcompare.h`) is not part of this model and is a parameter.
- AnimationGraph: `Graph::addSample` stores its first argument as the sample's x and its second as its y (src/graph.h:62-63), although it names them `weight` and `percent`. For `a @ b` the compiler passes b first and a second (src/compiler.cpp:895). So the sample's x is b and its y is a, as `Parsing.OneSampleGraph` states.
- InterpolatedScalar: composes the corrected `Bracket` with the corrected `LinearWeight` or `SmoothWeight`, both of which measure the fraction within the bracket, where src/graph.cpp:94-110 calls the as-written `getSamplePoints` and weights; the source's composition is `InterpolatedScalarAsWritten`, and the two differ as `AsWrittenInterpolationLeavesTheLine` shows. Doubles are modelled as exact reals. The rounding of each double operation before the truncation at src/graph.cpp:109, and the rounding of `std::stod` when numbers are read, are not modelled.

- OverflowPhase: uses the cut rounded up (`CutSize`), the corrected form of src/shaping/line.h:181. That line truncates (`CutSizeAsWritten`), which leaves the line wider than its space (`AsWrittenCutOvershoots`).
- OverflowPhaseFits: "within `N` below the space" holds for the rounded-up cut only. As written the line can stay above the space (`AsWrittenCutExample`).
- RunOverflowPhase: computes the overflow phase with the rounded-up cut, as `OverflowPhase` does.
- RigidLineFillsSpace: "never above the space" holds for the rounded-up cut only, as for `OverflowPhaseFits`.
- RigidRowFillsItsSpace: the row's `line` uses the rounded-up cut, so the fit is that of the corrected cut, as for `OverflowPhaseFits`.
- Line: `LineSpec` and the method use the rounded-up cut. A line with no children, a negative proposal and no expansion divides by `CellCount` = 0 at src/shaping/line.h:181, which is undefined behaviour. `Line` and `LineSpec` require children, a non-negative proposal or expansion, and leave that call out.
- ExtractExcess: splits at the corrected `FittingLength`. src/text.cpp:22-32 calls the as-written `maxStringLengthForSpace`, which can report an over-wide text as fitting (`AsWrittenReportsOverwideText`).
- SetTextForSpace: keeps the corrected longest fitting prefix, as for `ExtractExcess`.
- FlowText: the inline layout cuts its runs with the corrected fitting, as for `ExtractExcess`.
- FlowOneText: cuts one child's runs with the corrected fitting, as for `FlowText`.
- FlowRun: cuts each run of the remaining text with the corrected fitting, as for `FlowText`.
- CutRun: cuts its run with the corrected `SetTextForSpace`, as for `FlowText`.
- FlowRows: the rows it builds hold runs cut with the corrected fitting, as for `FlowText`.
- InlineLayout.InlineLayoutMaterial.ShapeDrawingArea: flows its text through `FlowText`, so its runs are cut with the corrected fitting.
- JoinRun: the rows hold the runs by value. The source keeps a pointer to the back of `myCustomTextRuns`, and a later `push_back` can invalidate it (src/material/inlinelayoutmaterial.cpp:121-123). The model does not capture that aliasing.
- FlowLines: the result is the corrected widest line (`Widest`). src/material/fallbackparagraphmaterial.cpp:75-76 adds widths (`WidestAsWrittenAddsWidths`).
- FallbackParagraph.FallbackParagraphMaterial.ShapeDrawingArea: uses the corrected widest line of `FlowLines` and cuts its lines with the corrected fitting of `SetTextForSpace`.
- LinesFillDrawing: states the corrected stacking (`LinesStack`). As written the lines skip down (`LineYAsWrittenSkipsDown`).
- LiteralScan: reads string literals with the corrected loop (`StringFrom`). As written an escaped quote is dropped (`EscapedQuoteLostAsWritten`).
- LiteralRoundTrip: holds for the corrected string loop only, as for `LiteralScan`.
- MatchLiteral: pushes what the corrected scan emits, as for `LiteralScan`.
- TokenizeInput: the run it equals reads string literals with the corrected loop, so on escaped quotes its tokens differ from the source's.
- RunAll: its tokens come from the corrected string loop, as for `TokenizeInput`.
- MatchAny: its literal matcher is the corrected one, as for `MatchLiteral`.
- RunStep: one turn of the run with the corrected literal loop, as for `TokenizeInput`.
- FirstMatch: its first matcher reads literals with the corrected loop, as for `LiteralScan`.
- ExpressionPrinter and TextFitting: `std::string::size()` counts bytes, while the model counts the characters of a `seq<char>`. The two agree on single-byte text only.
- ParseExpression: drops the code position that `parseExpression` reads from the current token (src/compiler.cpp:805-806). C++ leaves the order of the two constructor arguments unspecified. So whether an expression that consumes the last token throws `UnexpectedEOF` (src/compiler.cpp:414-418) depends on the compiler. The model returns the parse.
- ReleaseChildren: `prepareToDie` loops over `children` with a range-for, and each `child->deparent()` erases that child from the same `std::set` (src/displayitem.cpp:86-98). That invalidates the loop's iterator, which is undefined behaviour. The model iterates over a snapshot of the children and gives the evidently intended result, every child released. It does not model what the undefined loop may do instead.
- PrepareToDie: releases the children through `ReleaseChildren`, so it promises the intended release-all and not the undefined behaviour of src/displayitem.cpp:97.
- ModelOrder: the `checkModelOrder` pre-pass (src/displayitem.cpp:258-341) is not modelled. That pass groups the children by their model's parent container, compared as pointers, and rewrites each group in the container's iteration order before the stable sort by stamp. The model sorts the children in the order given, so `ModelOrderByStamp`'s ties keep that order and not the model order. The pass needs pointer order and the externally owned model.
- DispatchAll: visits the items in the order given. `triggerMap` is a `std::map` keyed by item pointer, so the source visits items by address (src/environment.h:85). The quit result does not depend on the order, but the order of the `reactToTrigger` calls does.
- DeriveKeys: visits the parent's keys in the order of their positions. `deriveFrom` walks `keyedAttributeMap` in key order (src/element.h:118), so a key new to the child may get a different position, though every key reads the same derived set.
- Commit: a delay without a transition starts the ticker while `ease` stays null, so a mid-animation read dereferences a null pointer (src/runtimeattribute.cpp:226-235). The model reports every mid-animation read as an error (`SettledValue`) and does not single this case out.

## Findings

| source | as written | input that shows it | evidently intended | confidence | as-written member | corrected member |
|---|---|---|---|---|---|---|
| src/geometry.h:207-213 | rectangle collision compares the y extent using the box's width | a 10 by 10 box at (0, 5) and a 10 by 2 box at (0, 0) | use the box's height | not executed | Geometry.RectCollisionCounterexample | Geometry.RectCollidesProperties |
| src/expression.cpp:105-109 | nothing sets `weakBranch`, so back-solving never writes | `[this.x] + 1` solved for 5 | mark the path to the weak term, so it is written | not executed | Expression.WeakPlusOneNeverBackSolves | Expression.MarkedBackSolveRoundTrip |
| src/virtualstatekey.cpp:62-78 | the negation of an internal node is ignored | `not (a and b)` with a and b active | the negation applies to groups too | not executed | VirtualStateKey.NegatedGroupEvaluatesUnnegated | VirtualStateKey.NegationFlips |
| src/virtualstatekey.cpp:34-44 | assignment keeps the target's children when the source has none | assign a leaf over an internal node | a full copy | not executed | VirtualStateKey.AssignAsWrittenKeepsStaleChildren | VirtualStateKey.Assign |
| src/statemanager.cpp:108-116 | `lastStamp` is committed after the nested cascade | two proxies change in one mutation | commit first, so stamps only grow | not executed | StateManagement.AsWrittenCascadeCounterexample | StateManagement.CorrectedCascadeStamps |
| src/modelcontainer.h:249-265 | swapping two items that are not adjacent loses items | swap 1 and 3 in 0..4 | the same items in exchanged order | not executed | ModelContainers.AsWrittenFarSwapLosesItems | ModelContainers.SwapLinksThreads |
| src/modelcontainer.h:229-248 | an adjacent swap of the last two items keeps `lastItem` stale | swap 1 and 2 in 0, 1, 2 | `lastItem` is the new last item | not executed | ModelContainers.AsWrittenAdjacentSwapKeepsStaleLast | ModelContainers.SwapLinksThreads |
| src/modelcontainer.h:229-237 | an adjacent swap leaves the next item's `previousItem` stale | swap 1 and 2 in 0..4 | item 3's previous item is 1 | not executed | ModelContainers.AsWrittenAdjacentSwapKeepsStalePrevious | ModelContainers.SwapLinksThreads |
| src/graph.cpp:37-46 | a self-assignment ignores the last sample when bracketing | one sample at 0.5, percentage 0.75 | the bracket starts at the sample | not executed | AnimationGraph.AsWrittenIgnoresLastSample | AnimationGraph.BracketEnclosesTightly |
| src/graph.cpp:72-76 | the linear weight uses the global position, not the position within the bracket | 0.5 @ 0.5, read at 0.25 (as-written bracket 0 @ 0 to 0.5 @ 0.5, weight 0.125 instead of 0.25) | interpolate within the bracket | not executed | AnimationGraph.AsWrittenWeightLeavesTheLine, AnimationGraph.AsWrittenInterpolationLeavesTheLine | AnimationGraph.LinearWeightBetweenEnds |
| src/graph.cpp:88-89 | the smooth weight eases the global position, not the position within the bracket | 0.5 @ 0.5, read at 0.25 (as-written bracket 0 @ 0 to 0.5 @ 0.5: the source eases 0.25, the bracket's fraction is 0.5) | ease the fraction within the bracket | not executed | AnimationGraph.AsWrittenSmoothWeightLeavesTheCurve | AnimationGraph.SmoothWeightThroughEnds |
| src/shaping/line.h:181 | the overflow cut is truncated, so the line stays wider than the space | two children totalling 7 in a space of 6: cut 0, not 1 | round the cut up, so the line fits | not executed | LineShaping.AsWrittenCutExample | LineShaping.CutSizeFits |
| src/displayitem.h:170-179 | reserved dimensions of a vertical item swap the axes | vertical item with a 5-unit inner adjacent margin | reserve each axis's margins on that axis | not executed | ItemGeometry.ReservedDimensAsWrittenSwapsAxes | ItemGeometry.ReservedDimens |
| src/material/simplematerial.h:31-32 | the reserve is subtracted from a proposal that already excludes it | 10-unit inner adjacent margin, 100 by 100 proposal: width 80, not 90 | subtract the reserve once | not executed | Materials.SimpleShapeAsWrittenExample | Materials.SimpleShapeFillsProposal |
| src/material/fallbackparagraphmaterial.cpp:75-76 | a wider line adds its width to the extent | two lines of widths 10 and 15 give 25, not 15 | the extent is the widest line | not executed | FallbackParagraph.WidestAsWrittenAddsWidths | FallbackParagraph.Widest |
| src/material/fallbackparagraphmaterial.cpp:119-120 | the running offset adds the previous run's absolute y | two 5-high lines at y = 10: the second lands at 25, not 15 | each line starts right below the previous one | not executed | FallbackParagraph.LineYAsWrittenSkipsDown | FallbackParagraph.LinesStack |
| src/runtimeattributeset.cpp:103-106 | any keyword name is used as an attribute index | the name `@`, symbol 44 out of 43 | accept only attribute names | not executed | RuntimeAttributeSets.AsWrittenIndexesPastTheEnd | RuntimeAttributeSets.AttributeIndexCorrects |
| src/specific_driver_sdl/textdriver.cpp:249-261 | the loop never measures the full text | `ab` at ten units per character in a space of 15 gives 2, not 1 | the longest prefix that fits, possibly all of it | not executed | TextFitting.AsWrittenReportsOverwideText | TextFitting.LongestFittingMeaning |
| src/compiler.cpp:185-200 | an escaped quote is dropped from a string literal | `"\""` | the literal holds one quote | not executed | Tokenizer.EscapedQuoteLostAsWritten | Tokenizer.EscapeRoundTrip |
