# Atom 5 Engineering site: the logic behind the pages, in Dafny

The site is a marketing site built with React. Most of it is static markup. Four places carry logic that can be stated precisely, and this project models those four:

- **The network background** (`src/components/ui/background-paths.tsx`).
  - 100 nodes are placed at random in a cube of edge 15.
  - Each node is connected to its nearest other nodes. A node takes at most a random cap of 4 to 6 connections, and only nodes closer than 8.
  - The per-node connection lists are flattened into the drawn line segments, each keyed `i-j`.
  - A short glow travels along each line. It is a window of parameters clamped to `[0, 1]` around a clock phase.
  - Modules `BackgroundPaths`, `FlowingGlow` and `Decimal` (the `${n}` rendering that the keys use).
- **The navigation bar** (`src/components/Navigation.tsx`).
  - Which link is active for the current path, and the class and `aria-current` attribute each link gets.
  - When a click is taken over by the client-side router, and when it is left to the browser.
  - Module `Navigation`.
- **The NavLink wrapper** (`src/components/NavLink.tsx`).
  - The `cn` class-name combinator, which filters out falsy values and joins the rest with spaces.
  - The class computed from the router's active and pending flags.
  - The `<span>` fallback rendered when no destination is given.
  - Module `NavLink`.
- **The contact relay** (`supabase/functions/send-contact-email/index.ts`).
  - Preflight, validation, then the send, in that order.
  - The mail that is built: subject, html with line breaks turned into `<br>`, and reply-to.
  - The status, body and headers of every response.
  - Module `SendContactEmail`.

The graph builder is imperative in the source, and it is imperative here too.
- `GenerateNodes` is the placement loop.
- `ConnectNodes` is the connection loop.
- `SelectNeighbours` is the inner loop, with the cap counter and the early `break`.
- `FlattenEdges` and `PushNodeLines` are the nested `forEach` that pushes lines.

Each method is proved against specification functions: `PlaceNode`, `Chosen`, `EdgePairs` and `LineFor`. Lemmas prove the properties of those functions, such as no self-loops, no repeats, in range, nearest first, and distinct keys.

Everything else is pure in the source and is modelled with functions and lemmas.

Inputs the source takes from its environment are parameters:
- the `Math.random()` draws, as sequences of reals;
- the Euclidean distance, as a function value;
- the animation clock;
- the current path;
- the mouse event;
- the parsed request body;
- the outcome of the mail send.

Numbers are modelled as unbounded reals and integers, not IEEE doubles.

Positions are drawn from `[-7.5, 7.5)` on each axis; `InCube` states that half-open range.

## Model

| member | source | states |
|---|---|---|
| BackgroundPaths.Coordinate | src/components/ui/background-paths.tsx:82-84 | a coordinate drawn from a unit draw lies in [-7.5, 7.5) |
| BackgroundPaths.PlaceNode | src/components/ui/background-paths.tsx:81-85 | a node placed from three unit draws lies in the cube |
| BackgroundPaths.GenerateNodes | src/components/ui/background-paths.tsx:76-88 | the placement loop yields exactly 100 nodes; node i is the placement of draw i with no connections; each lies in the cube for unit draws |
| BackgroundPaths.MaxConnections | src/components/ui/background-paths.tsx:92 | the per-node cap lies in [4, 6] for a unit draw |
| BackgroundPaths.CandidatesUpTo | src/components/ui/background-paths.tsx:96-104 | the candidate list has one entry per other node, carries that node's distance, never names i, and is in strictly increasing index order |
| BackgroundPaths.CandidatesUpToComplete | src/components/ui/background-paths.tsx:96-104 | every node other than i appears among the candidates with its distance |
| BackgroundPaths.InsertionPoint | src/components/ui/background-paths.tsx:105 | the insertion point follows every strictly closer entry and precedes the first entry that is not closer |
| BackgroundPaths.Insert | src/components/ui/background-paths.tsx:105 | insertion adds exactly one entry (as a multiset) and keeps a sorted list sorted |
| BackgroundPaths.InsertSorted | src/components/ui/background-paths.tsx:105 | inserting at the insertion point preserves ascending distance order |
| BackgroundPaths.InsertDistinct | src/components/ui/background-paths.tsx:105 | inserting an entry whose index is new keeps all indices distinct |
| BackgroundPaths.SortByDistance | src/components/ui/background-paths.tsx:105 | the sort is a permutation (same multiset), sorted ascending by distance, and keeps distinct indices distinct |
| BackgroundPaths.InRange | src/components/ui/background-paths.tsx:109 | the kept entries are all closer than 8 and no more than the input |
| BackgroundPaths.Limit | src/components/ui/background-paths.tsx:108 | the number taken never exceeds the cap or the supply, and falls short of the supply only when the cap is reached |
| BackgroundPaths.Chosen | src/components/ui/background-paths.tsx:91-113 | node i's connection list: fewer entries than there are nodes, none for a cap of 0 or less, and never more than a non-negative cap |
| BackgroundPaths.InRangePrefix | src/components/ui/background-paths.tsx:107-113 | the in-range entries of a prefix are a prefix of the in-range entries of a longer prefix |
| BackgroundPaths.SelectNeighbours | src/components/ui/background-paths.tsx:107-113 | the inner loop with its counter and early break returns the indices of the first `cap` in-range entries of the sorted candidates |
| BackgroundPaths.PositionsKeep | src/components/ui/background-paths.tsx:110 | appending to one node's connections changes no node's position |
| BackgroundPaths.ConnectNodes | src/components/ui/background-paths.tsx:91-114 | after the connection loop every node keeps its position and its list is extended by the neighbours chosen for it |
| BackgroundPaths.ChosenEverywhere | src/components/ui/background-paths.tsx:91-114 | nodes whose lists are the chosen neighbours are well connected, and unit cap draws keep every list at six or fewer |
| BackgroundPaths.NeuralNetworkNodes | src/components/ui/background-paths.tsx:74-117 | the `nodes` memo places each node from its draws, gives it exactly the chosen neighbours, and is well connected: in-range indices, no self-loops, distances below 8, no repeats, at most six per node |
| BackgroundPaths.InRangeOfSortedIsPrefix | src/components/ui/background-paths.tsx:105-113 | on a sorted list the in-range entries are a prefix, and every later entry is at distance 8 or more |
| BackgroundPaths.AllInRange | src/components/ui/background-paths.tsx:109 | a sorted list bounded by a distance below 8 is kept whole |
| BackgroundPaths.SortedCandidates | src/components/ui/background-paths.tsx:96-105 | the sorted candidates are ordered, distinct, never name i, carry true distances, and include every other node |
| BackgroundPaths.PrefixChoice | src/components/ui/background-paths.tsx:105-113 | the chosen list is the first min(cap, #in-range) sorted entries: in range, without repeats, within the cap, nearest first, and complete when under the cap |
| BackgroundPaths.ChosenProperties | src/components/ui/background-paths.tsx:96-113 | a node's connections are a prefix of its sorted candidates, well formed, and no longer than the cap |
| BackgroundPaths.ChosenOrderedByDistance | src/components/ui/background-paths.tsx:105-113 | the connections of a node are in ascending order of distance |
| BackgroundPaths.ChosenAreNearest | src/components/ui/background-paths.tsx:105-113 | no in-range node left out is closer than a connected one |
| BackgroundPaths.ChosenComplete | src/components/ui/background-paths.tsx:107-113 | a node with fewer connections than its cap is connected to every node closer than 8 |
| BackgroundPaths.NodePairs | src/components/ui/background-paths.tsx:127 | node i contributes one (i, j) pair per stored connection, in list order |
| BackgroundPaths.EdgeKey | src/components/ui/background-paths.tsx:131 | the first '-' of the key `${i}-${j}` comes right after the digits of i |
| BackgroundPaths.EdgeKeyReadBack | src/components/ui/background-paths.tsx:131 | the key reads back as its pair: the digits before its first '-' have the value i, those after it the value j |
| BackgroundPaths.LineFor | src/components/ui/background-paths.tsx:128-132 | the pushed line runs from node i's position to node j's; the lines of mutual neighbours i-j and j-i carry different keys |
| BackgroundPaths.EdgePairsUpTo | src/components/ui/background-paths.tsx:126-134 | the flattened pairs number the sum of the list lengths, each starts at a visited node, and each ends at an existing node when the indices are valid |
| BackgroundPaths.EdgePairOrigin | src/components/ui/background-paths.tsx:126-134 | every flattened pair (i, j) has j among node i's connections |
| BackgroundPaths.PushNodeLines | src/components/ui/background-paths.tsx:127-133 | the inner loop keeps the lines already pushed and appends one line per connection of node i, from i's position to the neighbour's, keyed `i-j` |
| BackgroundPaths.FlattenEdges | src/components/ui/background-paths.tsx:119-137 | the `connections` memo has one line per stored connection, and line e joins the positions of the e-th flattened pair under its key |
| BackgroundPaths.EdgePairsDistinct | src/components/ui/background-paths.tsx:126-131 | when no connection list repeats an index, no (i, j) pair is flattened twice |
| BackgroundPaths.EdgeKeyInjective | src/components/ui/background-paths.tsx:131 | two keys `i-j` are equal only for the same pair |
| BackgroundPaths.FlattenedKeysDistinct | src/components/ui/background-paths.tsx:126-134 | line keys are pairwise distinct when no connection list repeats an index |
| BackgroundPaths.WellConnectedLists | src/components/ui/background-paths.tsx:126-134 | a well-connected network only names existing nodes, so `nodes[connIndex]` is always defined, and repeats no connection |
| BackgroundPaths.PairIsNetworkLine | src/components/ui/background-paths.tsx:126-134 | every flattened pair becomes a line between two distinct nodes closer than 8, with i connected to j |
| BackgroundPaths.NetworkLines | src/components/ui/background-paths.tsx:74-137 | the built network places every node from its draws and gives it exactly its chosen neighbours; the flattened list has one line per connection, line e is the line of the e-th (node, neighbour) pair, every line joins two distinct connected nodes closer than 8, and keys are pairwise distinct |
| Decimal.NatToString | src/components/ui/background-paths.tsx:131 | `${n}` of an index is a non-empty digit string without a leading zero |
| Decimal.DecimalRoundTrip | src/components/ui/background-paths.tsx:131 | the digits of `${n}` read back as n |
| Decimal.NatToStringInjective | src/components/ui/background-paths.tsx:131 | distinct indices render differently |
| Decimal.FirstIndexAfter | src/components/ui/background-paths.tsx:131 | the first '-' of `a-b` is right after a when a has none |
| Decimal.SplitAtSeparator | src/components/ui/background-paths.tsx:131 | `a-b` with '-'-free a determines a and b |
| FlowingGlow.Trunc | src/components/ui/background-paths.tsx:28 | truncation toward zero, as JavaScript's `%` uses it |
| FlowingGlow.CycleRemainder | src/components/ui/background-paths.tsx:28 | `x % 1.5` lies in [0, 1.5) for x ≥ 0 and in (-1.5, 0] otherwise |
| FlowingGlow.GlowPhase | src/components/ui/background-paths.tsx:28-29 | the phase lies in [0, 1) for a non-negative clock plus delay |
| FlowingGlow.GlowWindow | src/components/ui/background-paths.tsx:32-34 | for t in [0, 1]: 0 ≤ startT ≤ t ≤ endT ≤ 1 and endT − startT ≤ 0.08, with equality away from the ends |
| FlowingGlow.ScaleBounds | src/components/ui/background-paths.tsx:37-47 | a fraction s in [0, 1] of a signed length d lies between 0 and d; it is 0 at s = 0 and d at s = 1 |
| FlowingGlow.Lerp | src/components/ui/background-paths.tsx:37-47 | the interpolation hits a at 0 and b at 1 and stays between them |
| FlowingGlow.Interpolate | src/components/ui/background-paths.tsx:37-47 | the interpolated point is the start at 0, the end at 1, and inside the box spanned by the endpoints |
| FlowingGlow.GlowAt | src/components/ui/background-paths.tsx:28-47 | each frame's glow segment spans at most 0.08 of the line and both points lie within the line's box |
| FlowingGlow.GlowDelay | src/components/ui/background-paths.tsx:174 | the glow of line i is delayed by i times 0.08 s: never negative, and at least 0.08 s for every line after the first |
| FlowingGlow.NetworkGlows | src/components/ui/background-paths.tsx:169-176 | one glow per flattened line; glow e runs along line e with delay GlowDelay(e), and for a running clock stays within that line's box |
| Navigation.IsActiveRoot | src/components/Navigation.tsx:19 | the home link is active exactly at "/" and "" |
| Navigation.IsActive | src/components/Navigation.tsx:18-22 | a link is active at its own path; a link other than home is active only where the path ends with it |
| Navigation.IsActiveOther | src/components/Navigation.tsx:18-22 | any other link is active exactly when the path ends with it (so at its own path and below any base path) |
| Navigation.EndsWithAppend | src/components/Navigation.tsx:21 | a path ends with whatever it was extended by |
| Navigation.EndsWithLast | src/components/Navigation.tsx:21 | a path that ends with a link's path ends with its last character |
| Navigation.LinkClass | src/components/Navigation.tsx:24-25 | "text-primary font-semibold" when active, the base class otherwise |
| Navigation.IsPlainLeftClick | src/components/Navigation.tsx:7 | exactly one event is a plain left click: button 0 with no meta, ctrl, shift or alt key |
| Navigation.SafeNavigate | src/components/Navigation.tsx:5-12 | default prevented and navigation to `to` exactly on a plain left click, neither otherwise |
| Navigation.BrowserKeepsModifiedClicks | src/components/Navigation.tsx:6-11 | a middle or modified click has no effect |
| Navigation.NavAnchor | src/components/Navigation.tsx:45-70 | a page link keeps its text, points and navigates to its path, has `aria-current="page"` exactly when active (and no other value), and has the active class exactly when active |
| Navigation.NavigationBar | src/components/Navigation.tsx:31-83 | the bar renders five anchors |
| Navigation.NavigationBarConsistent | src/components/Navigation.tsx:31-83 | each anchor navigates to its own href; `aria-current="page"` exactly when active; link and Contact classes chosen by the same predicate; the logo never carries it |
| Navigation.AtMostOneActive | src/components/Navigation.tsx:45-83 | for every path at most one of Home, Research, AI Solutions and Contact is active |
| NavLink.KeepTruthy | src/components/NavLink.tsx:6 | the filter keeps only non-empty strings and no more entries than it was given |
| NavLink.KeepTruthyAppend | src/components/NavLink.tsx:6 | filtering keeps order: the filter of a concatenation is the concatenation of the filters |
| NavLink.KeepTruthySingle | src/components/NavLink.tsx:6 | a single argument survives exactly when it is a non-empty string |
| NavLink.Join | src/components/NavLink.tsx:6 | joining no parts gives "", joining one gives it unchanged |
| NavLink.JoinEmpty | src/components/NavLink.tsx:6 | joining non-empty parts gives "" only for no parts |
| NavLink.JoinAppend | src/components/NavLink.tsx:6 | joining concatenated non-empty parts puts exactly one space between the two joins |
| NavLink.CnAppend | src/components/NavLink.tsx:5-7 | `cn` of a concatenation is the two results one space apart, or either alone when the other is empty |
| NavLink.CnSingle | src/components/NavLink.tsx:5-7 | `cn` of one argument is its string if truthy, "" otherwise |
| NavLink.Cn | src/components/NavLink.tsx:5-7 | `cn` gives "" exactly when no argument is truthy |
| NavLink.CnThree | src/components/NavLink.tsx:29-33 | `cn` of three arguments glues the truthy ones in order |
| NavLink.ComputedClass | src/components/NavLink.tsx:27-33 | the computed class always starts with the wrapper's own className |
| NavLink.ComputedClassCases | src/components/NavLink.tsx:27-33 | in each of the four router states the class is className plus activeClassName only when active, plus pendingClassName only when pending is defined and true |
| NavLink.DefaultsGiveClassName | src/components/NavLink.tsx:16-33 | with default active and pending classes the class is className in every state |
| NavLink.Render | src/components/NavLink.tsx:16-37 | a missing or empty `to` renders a span carrying exactly className and no link; otherwise a router link to `to` with the defaulted classes |
| NavLink.RenderedClassWithDefaults | src/components/NavLink.tsx:16-37 | without active or pending classes the rendered element always shows className |
| SendContactEmail.CountNewlinesAppend | supabase/functions/send-contact-email/index.ts:51 | newline counts add over concatenation |
| SendContactEmail.ReplaceNewlines | supabase/functions/send-contact-email/index.ts:51 | the embedded message contains no newline and is 3 characters longer per replaced newline |
| SendContactEmail.ReplaceNewlinesAppend | supabase/functions/send-contact-email/index.ts:51 | the replacement distributes over concatenation |
| SendContactEmail.ReplaceNewlinesIdentity | supabase/functions/send-contact-email/index.ts:51 | a message without newlines is embedded unchanged |
| SendContactEmail.ReplaceNewlinesRoundTrip | supabase/functions/send-contact-email/index.ts:51 | a message without '<' is recovered from its embedded form |
| SendContactEmail.Utf16Length | supabase/functions/send-contact-email/index.ts:33 | the JavaScript length lies between the number of characters and twice that |
| SendContactEmail.ContactHtml | supabase/functions/send-contact-email/index.ts:47-52 | the html starts with the template's fixed part up to the message, and its length is the fixed parts plus the message plus 3 per line break |
| SendContactEmail.ContactMail | supabase/functions/send-contact-email/index.ts:43-54 | the mail goes from the fixed sender to the one fixed inbox, replies go to the submitter, the subject names that same address after the fixed prefix, and the body is the contact html |
| SendContactEmail.ContactMailShape | supabase/functions/send-contact-email/index.ts:43-54 | fixed sender and inbox; subject is the prefix followed by the email; reply_to is the email; the message sits between the template's fixed parts with no newline left |
| SendContactEmail.Handle | supabase/functions/send-contact-email/index.ts:16-69 | every response is 200, 400 or 500; a 400 never sends a mail; `{success: true}` comes only after a mail was handed over and the send returned; every non-preflight response carries the JSON headers |
| SendContactEmail.PreflightShortCircuits | supabase/functions/send-contact-email/index.ts:18-20 | OPTIONS returns 200 with a null body and the CORS headers only, whatever the body and the send, and sends nothing |
| SendContactEmail.ResponseShape | supabase/functions/send-contact-email/index.ts:27-67 | every other response carries Content-Type application/json followed by the CORS headers, has status 200, 400 or 500, and is 200 exactly with `{success: true}` |
| SendContactEmail.MissingFieldRejected | supabase/functions/send-contact-email/index.ts:26-31 | a missing or empty field gives 400 "Email and message are required" and no mail, whatever the message length |
| SendContactEmail.TooLongRejected | supabase/functions/send-contact-email/index.ts:33-38 | a present message longer than 5000 code units gives 400 "Message is too long" and no mail |
| SendContactEmail.SentIffAcceptable | supabase/functions/send-contact-email/index.ts:18-54 | a mail is handed to the send exactly when the request is not OPTIONS, the body parsed, both fields are present and the message is at most 5000 long; it is then the contact mail for those fields |
| SendContactEmail.AcceptedOutcome | supabase/functions/send-contact-email/index.ts:43-67 | for an acceptable submission, 200 with `{success: true}` when the send returns and 500 with its error when it throws; length exactly 5000 is acceptable |
| SendContactEmail.ParseFailureIsServerError | supabase/functions/send-contact-email/index.ts:22-23 | a body that fails to parse gives 500 with the parse error and no mail |

## Left out

- Rendering: the three.js / react-three-fiber scene, meshes, buffer attributes, `OrbitControls`, the `useFrame` hook and the framer-motion title are drawing calls, not logic.
- Randomness and arithmetic: `Math.random()` and `Math.sqrt` become inputs, namely the draw sequences and a distance function, and the model makes no claim about the distance function. Arithmetic is on exact reals, not IEEE doubles.
- FlowingGlow opacity: the sine opacity curve of the glow is floating-point animation and is not modelled.
- BackgroundPaths.NodeData: the source mutates node objects in place. The model keeps them as values in a sequence that the loops reassign. A line's `start` and `end` are the nodes' own position arrays, and each glow receives those same arrays. Nothing writes a position after placement, so sharing them changes nothing the model states.
- BackgroundPaths.ConnectNodes: the source pushes each neighbour onto `nodeList[i].connections` inside the inner loop, whereas the model collects node i's neighbours (`SelectNeighbours`) and appends them in one step. The resulting state is the same, because nothing reads those connections in between.
- BackgroundPaths.SortByDistance: `Array.prototype.sort` is modelled as a stable insertion sort. ECMAScript requires the sort to be stable, so entries at equal distance keep their index order. The model does not prove it equal to any other stable sort.
- BackgroundPaths.FlattenEdges: it requires every stored index to name a node. The source would throw on an out-of-range index. The builder never produces one, as `WellConnectedLists` shows.
- Navigation.IsActive, SendContactEmail: strings are sequences of Unicode scalar values, whereas JavaScript strings are sequences of UTF-16 code units. `endsWith`, `message.length` and `replace` agree with the model on well-formed strings. A path or a submitted message holding a lone surrogate (which `req.json()` can yield, for example from `"\ud800"`) is not modelled.
- Navigation.NavigationBar: images, the `<nav>` markup and the link texts are static. `useNavigate`/`useLocation` become the path input and the reported navigation target.
- NavLink.Render: a `to` given as a path object, `ref` forwarding, `props.children`, the other spread props and the `console.warn` call are not modelled. Only string destinations are modelled.
- SendContactEmail: `serve`, `Deno.env`, the Resend client and console logging are I/O. `req.json()` is modelled by its outcome: the two fields as optional strings, or the message of the error it threw. JSON fields of other types are not modelled.
- SendContactEmail.Handle: response bodies are structured values, not the strings `JSON.stringify` produces. The send is modelled only as returned or threw, so a send that returns (whatever it returns) gives 200. The handler does not inspect the method beyond OPTIONS, and the model does not either.
- Pages: `src/pages/Contact.tsx` (form state, timers, toasts), the other pages, `src/App.tsx` and `src/main.tsx` are static markup, routing and mounting, and are not part of this model.
