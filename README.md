# Aether-Life-AI core, modelled in Dafny

This project models the sequential logic of four React components of the
Aether-Life-AI dashboard and proves properties of it:

- **The knowledge graph** (`components/NeuralGraph.tsx`). The builder turns
  notes, tasks and transactions into graph nodes. A node that was already
  on screen keeps its position and velocity. The builder infers edges
  between related nodes and keeps the edges the user drew. The component
  also has a camera (pan and wheel zoom about the pointer), a pointer state
  machine (idle, panning, dragging, linking) and the centring and
  integration step of the physics loop. Pure geometry and the edge
  inference live in module `GraphModel`. The node objects and the
  component's refs are the classes `NeuralGraph.GraphNode` and
  `NeuralGraph.Graph`. Graph methods update node fields in place, as the
  handlers and the animation loop do.
- **The task list** (`components/TasksView.tsx`): the create/edit modal,
  save validation, toggle, delete and the tab filter (module `TasksView`).
- **The ledger** (`components/FinanceView.tsx`): the running balance, the
  transaction form and the quick-expense buttons (module `FinanceView`).
- **Note capture** (`components/BrainView.tsx`): capture with the AI
  classification's fallbacks, and the case-insensitive search (module
  `BrainView`).

The three list views only ever hand new arrays to React. They are
modelled as pure functions over an immutable state record. Shared pieces:

- `Records` mirrors the record shapes of `types.ts`.
- `Text` models `trim`, `toLowerCase`, `includes` and `split(' ')[0]`.
- `Seqs` models an order-preserving `filter`.

Coordinates, amounts and scales are exact `real`s. Several inputs are
method or function parameters:

- `Math.random()` offsets (`Jitter`, one per new node);
- the container and canvas size;
- `Date.now()` ids;
- the formatted creation date;
- the number `parseFloat` reads;
- the AI result;
- whether an `onNodeClick` callback was supplied.

Field renames, forced by Dafny keywords: a node's `label` is `caption`. A
transaction's `type` is `kind`.

## Model

| member | source | states |
|---|---|---|
| Text.ContainsIffOccurs | components/BrainView.tsx:48 | `includes` holds exactly when the needle occurs at some position of the haystack |
| Text.ContainsTrivial | components/NeuralGraph.tsx:94 | every string includes the empty string and itself |
| Text.Lower | components/NeuralGraph.tsx:80 | lower-casing keeps the length, leaves no upper-case ASCII letter and folds each character on its own |
| Text.LowerIdempotent | components/BrainView.tsx:48 | lower-casing twice is lower-casing once |
| Text.FirstWord | components/NeuralGraph.tsx:97 | `split(' ')[0]` is the prefix before the first space: a prefix without spaces that ends at the end or at a space |
| Text.TrimEmptyIffWhitespace | components/TasksView.tsx:65 | `trim()` yields the empty string exactly when every character is ECMAScript white space |
| Seqs.FilterMembership | components/TasksView.tsx:91 | an element survives `filter` iff it was in the list and passes the test |
| Seqs.FilterCount | components/TasksView.tsx:91 | `filter` keeps every copy of a passing element and no copy of a failing one |
| Seqs.FilterIsSubsequence | components/TasksView.tsx:91 | `filter` keeps the surviving elements in their original order |
| Seqs.FilterConcat | components/TasksView.tsx:94-97 | filtering a concatenation is concatenating the filtered parts |
| TasksView.DefaultCategory | components/TasksView.tsx:44 | a new task's category is `'personal'` on the `'all'` tab and the tab's own category otherwise, so it is always shown on that tab |
| TasksView.OpenCreate | components/TasksView.tsx:38-48 | opening create clears the edited task, blanks the form with medium priority and the default category, and opens the modal; the list is untouched |
| TasksView.OpenEdit | components/TasksView.tsx:51-61 | opening edit loads the task's fields into the form, missing description or due date as `''` |
| TasksView.Merge | components/TasksView.tsx:69 | the merged task keeps its id and completion flag and takes the five form fields |
| TasksView.EditTasks | components/TasksView.tsx:67-69 | editing keeps length and order; tasks with the edited id are merged with the form, all others are unchanged |
| TasksView.NewTask | components/TasksView.tsx:72-80 | a created task is incomplete and carries the form's title, description, priority, category and due date |
| TasksView.CreateTask | components/TasksView.tsx:81 | create prepends exactly one task and keeps the rest of the list |
| TasksView.Save | components/TasksView.tsx:63-84 | a title that is blank after trimming changes nothing; otherwise the list is edited or extended, the modal closes, and the tab and form stay as they were |
| TasksView.ToggleTasks | components/TasksView.tsx:86-88 | toggle flips `completed` only on the tasks with the id and keeps everything else |
| TasksView.ToggleTwice | components/TasksView.tsx:86-88 | toggling the same id twice restores the list |
| TasksView.DeleteSpec | components/TasksView.tsx:90-92 | delete removes every task with the id and keeps every copy of all others, in their order |
| TasksView.DeleteAfterToggle | components/TasksView.tsx:86-92 | deleting a toggled task gives the same list as deleting it directly |
| TasksView.FilteredSpec | components/TasksView.tsx:94-97 | the shown list is the order-preserving subsequence of incomplete tasks, restricted to the tab's category unless the tab is `'all'`, with every copy of a shown task kept |
| TasksView.CreatedTaskShownFirst | components/TasksView.tsx:38-97 | a task created from the modal opened on a tab, with a non-blank title and the tab's default category left unchanged, is listed first on that tab, above the tab's previous list |
| TasksView.EditUnchangedIsIdentity | components/TasksView.tsx:51-69 | opening a fully filled task and saving without changes leaves the list as it was |
| FinanceView.FoldIsNet | components/FinanceView.tsx:42-44 | the `reduce` from any start adds all income and subtracts all expenses |
| FinanceView.BalanceIsBasePlusNet | components/FinanceView.tsx:42-44 | balance is 5024 plus total income minus total expenses |
| FinanceView.BalanceOfPrepend | components/FinanceView.tsx:42-44 | prepending a transaction moves the balance by +amount for income and -amount for an expense |
| FinanceView.Save | components/FinanceView.tsx:49-64 | an empty title or amount text changes nothing; otherwise one transaction with the form's fields, the parsed amount and date `'Just now'` is prepended, the modal closes and the form resets |
| FinanceView.SaveMovesBalance | components/FinanceView.tsx:49-64 | a saved transaction moves the balance by its signed amount |
| FinanceView.AddQuick | components/FinanceView.tsx:70-80 | a quick transaction is an expense dated `'Just now'` with the given amount, title and category, prepended to the unchanged list |
| FinanceView.QuickLowersBalance | components/FinanceView.tsx:70-80 | a quick expense lowers the balance by exactly its amount |
| BrainView.OrElse | components/BrainView.tsx:38-39 | a missing or empty AI field falls back to the default, a present non-empty one is kept |
| BrainView.Capture | components/BrainView.tsx:26-46 | a blank input changes nothing; otherwise a note with the untrimmed input and the AI labels (or `'General'`/`'Review'`) is prepended and the input is cleared |
| BrainView.FilteredSpec | components/BrainView.tsx:48 | the search result is the order-preserving subsequence of notes whose lower-cased content includes the lower-cased query, with every copy of a matching note kept |
| BrainView.EmptyFilterKeepsAll | components/BrainView.tsx:48 | an empty query shows every note |
| BrainView.FilterIgnoresQueryCase | components/BrainView.tsx:48 | lower-casing the query does not change the result |
| GraphModel.Sources | components/NeuralGraph.tsx:85-87 | one source per note, then per task, then per transaction, with ids `n-`/`t-`/`f-` plus the record id and labels from content or title |
| GraphModel.SourceIdsDistinct | components/NeuralGraph.tsx:85-87 | if record ids are unique within each collection, all node ids are distinct |
| GraphModel.SourceIdsDiffer | components/NeuralGraph.tsx:85-87 | any two different sources have different ids, given unique record ids per collection |
| GraphModel.FindById | components/NeuralGraph.tsx:69 | `find` by id returns the first node with that id, and nothing iff no node has it |
| GraphModel.MakeNode | components/NeuralGraph.tsx:67-83 | a built node has the source's id, label and type, the lower-cased group and radius 8/6/5; an existing node's position and velocity are copied, a new one lies within 25 of the centre with velocity in [-1, 1) |
| GraphModel.RebuildKeepsMotion | components/NeuralGraph.tsx:69-81 | a node matching an old node (first match) keeps its x, y, vx, vy and takes label, type and group fresh |
| GraphModel.GroupsRelatedIsContainment | components/NeuralGraph.tsx:94 | the group test is mutual containment, and an empty group relates to every group |
| GraphModel.EmptyFirstWordLinks | components/NeuralGraph.tsx:97 | a task label that is empty or starts with a space word-links to every note |
| GraphModel.PairLinksMembership | components/NeuralGraph.tsx:92-99 | a pair emits a 0.05 edge iff its groups relate and a 0.1 edge iff a note's label includes a task's first word |
| GraphModel.RowLinksMembership | components/NeuralGraph.tsx:91-100 | the inner loop emits an edge iff some pair (i, j) of its row emits it |
| GraphModel.RowsLinksMembership | components/NeuralGraph.tsx:90-101 | the outer loop up to row i emits an edge iff some pair whose first index is below i emits it |
| GraphModel.InferredMembership | components/NeuralGraph.tsx:90-101 | an inferred edge is exactly a 0.05 group edge or a 0.1 word edge of some pair i < j, directed from the earlier node |
| GraphModel.InferredPairIff | components/NeuralGraph.tsx:90-101 | with distinct ids, pair (i, j) has a 0.05 edge iff its groups relate and a 0.1 edge iff it is a note–task word match |
| GraphModel.InferredEndpointsExist | components/NeuralGraph.tsx:90-101 | both ends of every inferred edge are ids of built nodes |
| GraphModel.WorldScreenRoundTrip | components/NeuralGraph.tsx:111-117 | for k ≠ 0, `toWorldPos` inverts the tooltip's `world·k + pan` map, both ways round |
| GraphModel.Zoom | components/NeuralGraph.tsx:427-445 | wheel zoom multiplies k by 0.9 or 1.1 by the sign of deltaY, clamps it to [0.1, 5], and keeps the world point under the pointer fixed |
| GraphModel.ZoomIdempotentAtBounds | components/NeuralGraph.tsx:436-438 | at k = 5 zooming in, and at k = 0.1 zooming out, changes nothing |
| GraphModel.ZoomTimes | components/NeuralGraph.tsx:436-438 | any number of wheel events keeps a valid scale within [0.1, 5] |
| GraphModel.ZoomInGrows | components/NeuralGraph.tsx:436-438 | n wheel-ups raise k by at least n/100 or reach 5 |
| GraphModel.ZoomOutShrinks | components/NeuralGraph.tsx:436-438 | n wheel-downs lower k by at least n/100 or reach 0.1 |
| GraphModel.ZoomConvergesToBounds | components/NeuralGraph.tsx:436-438 | 490 equal wheel events from any valid scale reach exactly 5 or 0.1 |
| GraphModel.PanPathTelescopes | components/NeuralGraph.tsx:355-363 | incremental pan deltas add up to the last pointer position minus the press position |
| GraphModel.HitIndex | components/NeuralGraph.tsx:318-322 | the hit test returns the first node strictly within `max(20, 20/k)` of the world point, and none iff no node is that close |
| GraphModel.Integrate | components/NeuralGraph.tsx:202-213 | the step changes only position and velocity |
| GraphModel.RestAtCentreIsFixed | components/NeuralGraph.tsx:202-213 | a node at rest on the centre stays there |
| GraphModel.IntegrateTranslates | components/NeuralGraph.tsx:202-213 | the step depends only on the offset from the centre: shifting node and centre by d shifts the result by d |
| NeuralGraph.GraphNode.constructor | components/NeuralGraph.tsx:71-82 | a node object starts with exactly the built field values |
| NeuralGraph.NewNodes | components/NeuralGraph.tsx:64-87 | the `addNode` loop yields distinct fresh node objects whose fields are `BuildNodes` of the old nodes |
| NeuralGraph.InferEdges | components/NeuralGraph.tsx:89-101 | the nested pair loops push exactly the inferred edges, in loop order |
| NeuralGraph.Graph.HitAt | components/NeuralGraph.tsx:318-322 | the hit index, when present, is a valid index into the node list |
| NeuralGraph.Graph.constructor | components/NeuralGraph.tsx:33-53 | on mount there are no nodes or edges, the camera is the identity and nothing is held |
| NeuralGraph.Graph.Rebuild | components/NeuralGraph.tsx:56-108 | the rebuild replaces the nodes by fresh built ones, sets the live edges to the inferred edges followed by the unchanged user edges, and changes nothing else |
| NeuralGraph.Graph.MouseDown | components/NeuralGraph.tsx:311-340 | a press records the click start; a hit starts linking (shift) or dragging that node, a miss starts panning from the pointer |
| NeuralGraph.Graph.MouseMove | components/NeuralGraph.tsx:342-372 | a move updates the preview end when linking, else pins the dragged node to the pointer with zero velocity, else pans by the delta and moves the pan start, else recomputes the hover |
| NeuralGraph.Graph.MouseUp | components/NeuralGraph.tsx:374-415 | a release while linking appends the same 0.1 edge to both edge lists iff a node with another id is hit; the click fires iff not linking, a node is held, a press was recorded, the move is under 5 px and a callback exists; afterwards nothing is held and no pan is active |
| NeuralGraph.Graph.MouseLeave | components/NeuralGraph.tsx:417-425 | leaving drops the held node, the link in progress, the hover and all three flags, and keeps the click and pan start points |
| NeuralGraph.Graph.Wheel | components/NeuralGraph.tsx:427-445 | the camera becomes `Zoom` of the old one, the world point under the pointer stays put, and nothing else changes |
| NeuralGraph.Graph.ApplyForces | components/NeuralGraph.tsx:162-196 | every node but the dragged one receives its velocity change; the dragged one is untouched |
| NeuralGraph.Graph.Advance | components/NeuralGraph.tsx:198-213 | every node but the dragged one takes the centring/integration step about half the canvas size; the dragged node keeps x, y, vx, vy |

## Left out

- Canvas rendering is not modelled: link gradients, node colours and shadows, highlight rings, the dashed link preview, the fade-in alpha and the tooltip markup. It is drawing code with no state the handlers read.
- NeuralGraph.Graph.ApplyForces: the repulsion (150 / distance²) and spring ((distance − 120) · 0.04) magnitudes are given as one velocity change per node rather than computed. They need `Math.sqrt` and floating-point division, and each node's total change depends only on positions, which this phase does not move.
- The `requestAnimationFrame` loop, the resize listener and the effect teardown are host scheduling and are not modelled. One frame is `ApplyForces` followed by `Advance`.
- `Math.random()`, `Date.now()`, the date formatting and the container/canvas size are parameters, not computed.
- `parseFloat` of the amount text is a parameter of `FinanceView.Save`. A `NaN` result, and `toLocaleString` of the balance, are not modelled.
- `localStorage` loading and saving in all views is I/O and is not modelled. So are the demo seed data.
- `services/geminiService.ts` (the AI classification) is not part of this model. Its resolved result is a parameter of `BrainView.Capture`. The `isProcessing` flag around the await and the speech recognition in `components/FinanceView.tsx` are left out too.
- BrainView.Capture: a capture is one atomic step. The Enter key calls the handler even while the button is disabled for an AI call in progress. Two overlapping captures are therefore possible in the component, and each prepends to the notes it read before its await, so the later one drops the earlier note. Clearing the input also wipes text typed during the AI call. Neither overlapping captures nor input typed during the AI call is modelled.
- Text.Lower: folds only the ASCII letters A–Z, whereas JavaScript `toLowerCase` folds all of Unicode.
- Numbers are exact reals, not IEEE doubles: rounding, overflow and `NaN` are not modelled.
- React state updates (`setIsPanning` and the rest) take effect at once. In the component they land on the next render: `handleMouseMove` reads the rendered `isPanning`, the handlers read the refs directly.
- NeuralGraph.Graph.MouseDown: "linking and dragging are never both set" is proved only for a press from a state where neither is set. A second press with no release in between, on a hit with shift toggled, sets the other one too.
- `App.tsx`, `components/Layout.tsx`, `components/Dashboard.tsx`, `components/GlassCard.tsx` and the widgets are routing, layout and demo data, and are not part of this model. The other fields of `types.ts` records (checklists, pomodoro, schedule) are read by none of the modelled code.
