# Verbosity router and registry, modelled in Dafny

Verbosity is a small single-page-application framework. This project models two of its parts.

- The **router** keeps a table of routes registered in order. Each route has a pattern and a
  view definition: a factory and an optional guard.
- A pattern is matched by one of two matchers:
  - `SimplePath` is used when the pattern holds no colon. It compares raw strings.
  - `DynamicPath` is used otherwise. It splits the pattern and the candidate into
    `/`-separated segments. It accepts a candidate when every candidate segment is either at a
    `:name` parameter position or equal to the pattern's segment at that position.
- `goTo(path, params)` works like this:
  - It finds the first route that accepts the path. If none does, it throws.
  - It asks the route's guard for a redirect, if the route has a guard. A redirect abandons
    the navigation and calls `goTo(redirect)` with no parameters.
  - Otherwise it pushes the path onto the browser history, unless the history state already
    is that path.
  - It merges the caller's parameters with those extracted from the path. The path's values
    win.
  - It calls the view factory with the merged parameters.
  - It swaps the new view into the page. The first time, it replaces the mount element; after
    that, it replaces the previous view.
  - The new view becomes current.
- The browser's back and forward events navigate to the popped history state.
- The **registry** has four parts:
  - three last-write-wins, string-keyed registers: singletons by class name, named components,
    and callbacks;
  - a register of named callback groups. Registering appends to a group; unregistering removes
    every equal element; unregistering from a group that was never created throws.

The model has five modules:
- `Wrappers`: `Option`, which stands for a `null` or `undefined` value, and `Result`, which
  stands for a value or a thrown error.
- `Paths`: path splitting.
- `Matchers`: the two matchers. They are immutable values, so they are modelled as a datatype.
  The constructor's `forEach` and the extraction loop are methods with loops. Each is proved
  equal to a specification function.
- `Routing`: route lookup, redirect chains, and the `VerbosityRouter` class. The class has the
  route table, the current view, the history state, the pushed history entries, and the DOM
  calls made so far.
- `Registry`: the `VerbosityRegistry` class, with four map fields.

The browser and the DOM are modelled as the router's own fields:
- `historyState` is `window.history.state`.
- `historyPushes` records every `pushState`.
- `domCalls` records every call into the DOM collaborator.

Guards are application code. They appear as a function `getRedirect` from a guard's identity to
the redirect it returns. The empty string stands for `null`, which `goTo` treats the same way
because both are falsy. Redirect chains carry a bound `maxRedirects`. `goTo` recurses without a
bound, so a guard cycle recurses until the stack overflows. The model proves three things
instead:
- the bound never changes a successful navigation (`ResolveBoundIrrelevant`);
- two guards that redirect to each other never let either path be mounted, whatever the other
  routes do (`RedirectCycleNeverResolves`); more generally, a set of paths that only redirect
  among themselves is never left (`ChaseClosedRedirects`);
- when every route redirects, no navigation succeeds (`GuardCycleNeverResolves`).

`DynamicPath.matchesPath` never compares segment counts. It only checks that the filter kept
every candidate segment. A candidate with more segments is rejected,
because past the pattern's end nothing is accepted. A candidate with fewer segments that is a
prefix of the pattern is accepted: `/users/:id` matches `/users` and extracts nothing. See
`PrefixMatches`, `LiteralThenParamShorter` and `EmptyPathMatches`.

## Model

| member | source | states |
|---|---|---|
| Paths.SplitOnSlash | src/router/verbosity-router.ts:64 | `split('/')` yields at least one piece and no piece holds a slash |
| Paths.RemoveEmpty | src/router/verbosity-router.ts:64 | the `!!part` filter keeps only non-empty pieces, each taken from the input |
| Paths.RemoveEmptyKeepsNonEmpty | src/router/verbosity-router.ts:64 | the filter drops only empty pieces: every non-empty piece is kept, as often as it occurs |
| Paths.SplitPath | src/router/verbosity-router.ts:61-65 | `splitPath` yields only non-empty, slash-free segments |
| Paths.JoinSplitOnSlash | src/router/verbosity-router.ts:64 | joining the pieces of `split('/')` with `/` gives the string back |
| Paths.SplitOnSlashAppend | src/router/verbosity-router.ts:64 | the pieces of `a/b` are those of `a` followed by those of `b` |
| Paths.SplitOnSlashNoSlash | src/router/verbosity-router.ts:64 | a string without slashes is one piece |
| Paths.RemoveEmptyAppend | src/router/verbosity-router.ts:64 | filtering out empty pieces distributes over concatenation |
| Paths.SplitPathFilters | src/router/verbosity-router.ts:62-64 | the early return for the empty path agrees with splitting then filtering |
| Paths.SplitPathAppend | src/router/verbosity-router.ts:61-65 | the segments of `a/b` are those of `a` followed by those of `b` |
| Paths.SplitPathSegment | src/router/verbosity-router.ts:61-65 | a single segment splits into itself |
| Paths.SplitPathIgnoresOuterSlashes | src/router/verbosity-router.ts:61-65 | a leading or trailing slash does not change the segments |
| Paths.SplitPathJoin | src/router/verbosity-router.ts:61-65 | joining segments with `/`, with or without a leading slash, and splitting again gives the segments back |
| Paths.SplitPathExamples | src/router/verbosity-router.ts:61-65 | `a/b` and `/a/b` both yield `["a", "b"]` |
| Paths.SplitPathSkipsEmptyPieces | src/router/verbosity-router.ts:64 | doubled and trailing slashes are dropped: `a//b/` yields `[a, b]` |
| Paths.SplitPathDoubledSlashExample | src/router/verbosity-router.ts:64 | `a//b/` yields `["a", "b"]` |
| Paths.SplitPathOnlySlashes | src/router/verbosity-router.ts:61-65 | a path of slashes only yields no segments |
| Matchers.ParamName | src/router/verbosity-router.ts:30-34 | the entry for one segment: the text after `:` when the segment starts with `:`, and `null` otherwise. `BuildParamNames` states it per entry |
| Matchers.ParamNames | src/router/verbosity-router.ts:29-35 | the whole parameter map, one entry per segment. The loop of `BuildParamNames` is proved equal to it |
| Matchers.BuildParamNames | src/router/verbosity-router.ts:29-35 | entry `i` is the text after `:` when segment `i` starts with `:`, and `null` otherwise; one entry per segment |
| Matchers.NewDynamicPath | src/router/verbosity-router.ts:25-36 | the constructor stores the pattern's segments along with the parameter map they determine |
| Matchers.MatcherFor | src/router/verbosity-router.ts:90 | the matcher built for a pattern is well formed |
| Matchers.NewMatcher | src/router/verbosity-router.ts:90 | `DynamicPath` exactly when the pattern contains `:`, otherwise `SimplePath` |
| Matchers.AcceptedParts | src/router/verbosity-router.ts:40-42 | the filter keeps at most every candidate segment, and only candidate segments |
| Matchers.MatchesPath | src/router/verbosity-router.ts:16-45 | `matchesPath` of both matchers: raw equality for `SimplePath`, the segment filter for `DynamicPath`. Its meaning is stated by `SimplePathIsRawEquality` and `DynamicMatchesIff` |
| Matchers.AcceptedPartsAll | src/router/verbosity-router.ts:40-44 | the filter keeps at most every segment, and keeps all of them exactly when the callback accepts each one |
| Matchers.DynamicMatchesIff | src/router/verbosity-router.ts:38-45 | matching holds if and only if every candidate segment is at a truthy parameter position or equals the pattern's segment there |
| Matchers.LongerNeverMatches | src/router/verbosity-router.ts:38-45 | a candidate with more segments than the pattern never matches |
| Matchers.PrefixMatches | src/router/verbosity-router.ts:38-45 | a candidate whose segments are a prefix of the pattern's matches |
| Matchers.EmptyPathMatches | src/router/verbosity-router.ts:38-45 | the empty path, and a path of slashes only, match every `DynamicPath` |
| Matchers.LoneColonIsLiteral | src/router/verbosity-router.ts:31 | a lone `:` segment names the empty string, which is falsy, so it matches only a literal `:` |
| Matchers.SimplePathIsRawEquality | src/router/verbosity-router.ts:16-18 | `SimplePath` matches if and only if the strings are equal, so a trailing slash is rejected even though it splits to the same segments |
| Matchers.Extracted | src/router/verbosity-router.ts:51-56 | the extracted record. Its keys are stated by `ExtractedKeys` and its values by `ExtractedValueIsLast` |
| Matchers.PathParams | src/router/verbosity-router.ts:98-104 | `{}` for a `SimplePath`, and `Extracted` on the path's segments for a `DynamicPath`. `ExtractPathParameters` is proved equal to it |
| Matchers.ExtractedKeys | src/router/verbosity-router.ts:51-56 | a name is extracted if and only if some position the candidate has carries it as a truthy parameter name |
| Matchers.ExtractedValueIsLast | src/router/verbosity-router.ts:51-56 | each extracted value is the candidate segment at the last position carrying that name |
| Matchers.ExtractParametersFromPath | src/router/verbosity-router.ts:47-59 | the loop builds exactly the record the specification function `Extracted` describes |
| Matchers.ExtractPathParameters | src/router/verbosity-router.ts:98-104 | a matcher without extraction yields `{}`; a `DynamicPath` extracts from the path's segments |
| Matchers.SplitTwoSegments | src/router/verbosity-router.ts:61-65 | `/a/b` splits into `[a, b]` |
| Matchers.LiteralThenParamPattern | src/router/verbosity-router.ts:25-36 | `/lit/:name` builds the segments `[lit, :name]` with the parameter map `[null, name]` |
| Matchers.LiteralThenParamMatches | src/router/verbosity-router.ts:38-59 | `/lit/:name` matches `/lit/value` and extracts `{ name: value }` |
| Matchers.LiteralThenParamShorter | src/router/verbosity-router.ts:38-59 | `/lit/:name` also matches `/lit`, and extracts nothing |
| Matchers.LiteralThenParamLonger | src/router/verbosity-router.ts:38-45 | `/lit/:name` never matches a path with a third segment |
| Matchers.UsersIdExample | src/router/verbosity-router.ts:38-59 | `/users/:id` matches `/users/42` and extracts `{ id: "42" }` |
| Matchers.RepeatedNameTakesLater | src/router/verbosity-router.ts:51-56 | with a repeated parameter name, the later position's value wins |
| Routing.FindMatchingRoute | src/router/verbosity-router.ts:94-96 | the result is the earliest route accepting the path, or none when no route accepts it |
| Routing.FindMatchingRouteAppend | src/router/verbosity-router.ts:91-96 | registering a route never changes the route that an already-matching path finds |
| Routing.MergeParams | src/router/verbosity-router.ts:133 | the object spread that overlays the path's parameters on the caller's. Its meaning is stated by `MergeParamsOverlay` |
| Routing.MergeParamsOverlay | src/router/verbosity-router.ts:133 | the merged record has every key of either record, and the path's value wins where both have one |
| Routing.RedirectOf | src/router/verbosity-router.ts:116 | the redirect the route's guard asks for, or `""` (`null`) when the route has no guard; `ResolveSound` states that the route mounted at the end asks for none |
| Routing.DispatchOf | src/router/verbosity-router.ts:109-121 | a path that is to be mounted names an existing route |
| Routing.Chase | src/router/verbosity-router.ts:109-121 | following redirects as `goTo` calls itself. Its meaning is stated by `ChaseLands`, `ChaseBoundIrrelevant`, `ChaseNeverMounting` and `ChaseClosedRedirects` |
| Routing.ChaseLands | src/router/verbosity-router.ts:106-121 | a redirect chain from an unmatched path fails at once. Otherwise it ends at a mounted path, within the bound, and a chain without redirects ends where it started |
| Routing.ChaseBoundIrrelevant | src/router/verbosity-router.ts:116-121 | a chain that ends within a bound ends the same way under any larger bound |
| Routing.ChaseNeverMounting | src/router/verbosity-router.ts:116-121 | when no path is ever mounted, every chain fails |
| Routing.ChaseClosedRedirects | src/router/verbosity-router.ts:116-121 | a chain that starts in a set of paths that only redirect to one another fails, whatever the bound |
| Routing.Resolve | src/router/verbosity-router.ts:106-133 | a successful navigation names an existing route |
| Routing.ResolveSound | src/router/verbosity-router.ts:106-133 | a path no route matches throws. A successful navigation ends at a path whose first matching route does not redirect, within the bound. Without a redirect, it has the requested path and the caller's parameters overlaid by the path's; after a redirect, only the path's parameters |
| Routing.ResolveUnmatched | src/router/verbosity-router.ts:109-112 | no matching route means the invalid-path error, whatever the bound |
| Routing.ResolveMounts | src/router/verbosity-router.ts:114-133 | a matching route whose guard lets the navigation through is mounted with the merged parameters |
| Routing.ResolveRedirect | src/router/verbosity-router.ts:116-121 | a redirect is the navigation to the target with no parameters, counted as one more redirect, or the limit error once the bound is spent |
| Routing.DuplicatePatternFirstWins | src/router/verbosity-router.ts:94-96 | of two routes with the same pattern, the first one registered is mounted |
| Routing.ResolveBoundIrrelevant | src/router/verbosity-router.ts:116-121 | a successful navigation is the same under any larger redirect bound |
| Routing.GuardCycleNeverResolves | src/router/verbosity-router.ts:116-121 | when every route redirects, navigation never succeeds |
| Routing.RedirectCycleNeverResolves | src/router/verbosity-router.ts:116-121 | when the routes of two paths redirect to each other, navigating to either fails, whatever the other routes do and whatever the bound |
| Routing.SwapCall | src/router/verbosity-router.ts:136-140 | the call mounts the new view; it replaces a template exactly when a view is current, and then it replaces that view |
| Routing.SwapChainExtend | src/router/verbosity-router.ts:136-142 | mounting a view keeps the DOM calls a chain: the element is replaced once, first, and each later call replaces the view the previous call mounted |
| Routing.VerbosityRouter.constructor | src/router/verbosity-router.ts:80-87 | an empty route table and no current view, on the given history state |
| Routing.VerbosityRouter.AddRoute | src/router/verbosity-router.ts:89-92 | appends one route with the matcher its pattern calls for; nothing else changes |
| Routing.VerbosityRouter.MountRoute | src/router/verbosity-router.ts:123-143 | pushes the path unless the history state already is it; instantiates the view with the merged parameters; swaps it in with the call that matches whether a view was mounted; makes it current |
| Routing.VerbosityRouter.GoTo | src/router/verbosity-router.ts:106-143 | the outcome is `Resolve`'s. A failure changes nothing. A success has the effects of mounting the end of the redirect chain and no others |
| Routing.VerbosityRouter.Redirect | src/router/verbosity-router.ts:116-121 | the guard branch ends as the navigation to the redirect target, with the caller's parameters dropped |
| Routing.VerbosityRouter.OnPopState | src/router/verbosity-router.ts:86 | the popped state becomes the history state, and the router navigates to it with no parameters. A failure leaves the view, the pushes and the DOM calls unchanged. A success mounts the end of the redirect chain as `GoTo` does. An entry that resolves without a redirect pushes nothing, so forward history survives |
| Routing.NavigateTwice | src/router/verbosity-router.ts:126-142 | navigating to the same path twice pushes at most one entry, and the second swap replaces a view with a view |
| Registry.RemoveAll | src/registry/verbosity-registry.ts:53 | the filtered group no longer holds the callback, holds nothing new, and keeps every other element's count |
| Registry.RemoveAllAppend | src/registry/verbosity-registry.ts:53 | filtering preserves order: it distributes over concatenation |
| Registry.RemoveAllAbsent | src/registry/verbosity-registry.ts:53 | removing a callback the group does not hold leaves the group unchanged |
| Registry.RemoveAllIdempotent | src/registry/verbosity-registry.ts:53 | removing twice is the same as removing once |
| Registry.RemoveAllUndoesAppend | src/registry/verbosity-registry.ts:42-54 | registering a new callback and then unregistering it gives the group back |
| Registry.VerbosityRegistry.GetSingleton | src/registry/verbosity-registry.ts:22-24 | the singleton stored under the class name, or absent. The register methods and the constructor state what it returns |
| Registry.VerbosityRegistry.GetNamedComponent | src/registry/verbosity-registry.ts:30-32 | the component stored under the key, or absent |
| Registry.VerbosityRegistry.GetCallback | src/registry/verbosity-registry.ts:38-40 | the callback stored under the key, or absent |
| Registry.VerbosityRegistry.GetCallbackGroup | src/registry/verbosity-registry.ts:56-61 | the stored group, or `[]` for a group that was never created |
| Registry.VerbosityRegistry.constructor | src/registry/verbosity-registry.ts:10-16 | all four registers are empty: every lookup is absent and every group is `[]` |
| Registry.VerbosityRegistry.RegisterSingleton | src/registry/verbosity-registry.ts:18-24 | the component becomes the singleton for its class name, replacing any earlier one; no other lookup changes |
| Registry.VerbosityRegistry.RegisterNamedComponent | src/registry/verbosity-registry.ts:26-32 | last write wins for the key; no other lookup changes |
| Registry.VerbosityRegistry.RegisterCallback | src/registry/verbosity-registry.ts:34-40 | last write wins for the key; no other lookup changes |
| Registry.VerbosityRegistry.RegisterWithCallbackGroup | src/registry/verbosity-registry.ts:42-45 | creates the group if needed and appends the callback at the end; other groups are unchanged |
| Registry.VerbosityRegistry.UnregisterWithCallbackGroup | src/registry/verbosity-registry.ts:47-61 | throws for a group that was never created, and then nothing changes. Otherwise the group loses every element equal to the callback and keeps the rest in order; other groups are unchanged |

## Left out

- The DOM collaborator is left out. `replaceElementWithTemplate` and `replaceTemplateWithTemplate`
  appear only as entries in `domCalls`, and the mount element found by id is not modelled.
- `window.history` is left out. It appears only as `historyState` and `historyPushes`; the
  title and URL arguments of `pushState` are not modelled.
- Guards and views are modelled as data:
  - A guard is the value its `getRedirect` returns now.
  - A view is the factory's identity together with the parameters passed to it.
  - What a factory builds is left out.
- Routing.Resolve: the redirect chain carries a bound `maxRedirects`. When the bound is used up,
  navigation fails with `RedirectLimit`. `goTo` recurses without a bound, so a guard cycle ends
  in a stack overflow.
- Routing.VerbosityRouter.OnPopState: a `null` event state is left out. The state is a string
  here.
- Registry.VerbosityRegistry.RegisterSingleton: the class name is supplied by the caller.
  `registerSingleton` reads `component.constructor.name`, and `getSingleton` reads `clazz.name`.
- Registry.VerbosityRegistry.UnregisterWithCallbackGroup: loose `!=` is modelled as plain
  inequality, so JavaScript's type coercion between callbacks is not modelled.
- The registers are maps from strings. Keys inherited from `Object.prototype`, such as
  `"toString"`, are not modelled.
- Matchers.Extracted and Routing.MergeParams: the records are maps, not plain objects. The
  special key `__proto__` is not modelled. For the pattern `/:__proto__`, `extractedParameters["__proto__"] = pathPart`
  stores no own key, but `Extracted` stores one.
- Registry.VerbosityRegistry.GetCallbackGroup, Registry.VerbosityRegistry.RegisterWithCallbackGroup
  and Registry.VerbosityRegistry.UnregisterWithCallbackGroup: aliasing of callback groups is not
  modelled. A group is a `seq` value here.
  - `getCallbackGroup` returns the live stored array.
  - `registerWithCallbackGroup` pushes onto that same array, so an array a caller obtained
    earlier sees later registrations.
  - `unregisterWithCallbackGroup` stores a filtered copy instead, so that array does not see
    later removals.
- Two JavaScript types appear only in simplified form:
  - the `VerbosityTemplateDefinition` interface, modelled as `ViewDefinition`;
  - thrown `Error` objects and their messages, modelled as `NavError` and `RegistryError` values.
- `src/app/verbosity-app.ts`, `src/index.ts` and `webpack.config.js` are not part of this model.
