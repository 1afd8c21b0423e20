/** The route table and navigation of `VerbosityRouter`: first-match route
    lookup, guard redirects, history reconciliation, parameter merging and the
    choice between the two DOM swap operations. */
module Routing {
  import opened Wrappers
  import opened Matchers

  /** Identifies an application-supplied guard object. */
  type GuardId = nat

  /** Identifies an application-supplied view factory (`instance(...)`). */
  type FactoryId = nat

  /** A template definition: the factory and the optional guard. */
  datatype ViewDefinition = ViewDefinition(factory: FactoryId, guard: Option<GuardId>)

  /** A registered route. */
  datatype Route = Route(componentDefinition: ViewDefinition, pathMatcher: PathMatcher)

  /** The view a factory call produced: which factory, called with which parameters. */
  datatype ViewInstance = ViewInstance(factory: FactoryId, params: map<string, string>)

  /** A call into the DOM collaborator. `ReplaceElementWithTemplate` swaps the page
      mount element for a view; `ReplaceTemplateWithTemplate` swaps one view for another. */
  datatype DomCall =
    | ReplaceElementWithTemplate(mounted: ViewInstance)
    | ReplaceTemplateWithTemplate(previous: ViewInstance, next: ViewInstance)

  /** The errors `goTo` throws: no route matches, or the redirect chain outgrew its bound. */
  datatype NavError = InvalidPath(path: string) | RedirectLimit(path: string)

  /** Where a navigation ends: the path finally mounted, its route, the merged
      parameters handed to the factory, and how many redirects led there. */
  datatype Navigation = Navigation(path: string, routeIndex: nat, params: map<string, string>, redirects: nat)

  /** `routes.find(route => route.pathMatcher.matchesPath(path))`, as an index:
      the earliest-registered route that accepts the path, or none at all. */
  function FindMatchingRoute(routes: seq<Route>, path: string): (r: Option<nat>)
    ensures r.Some? ==> r.value < |routes| && MatchesPath(routes[r.value].pathMatcher, path)
    ensures r.Some? ==> forall j :: 0 <= j < r.value ==> !MatchesPath(routes[j].pathMatcher, path)
    ensures r.None? ==> forall j :: 0 <= j < |routes| ==> !MatchesPath(routes[j].pathMatcher, path)
  {
    if routes == [] then None
    else if MatchesPath(routes[0].pathMatcher, path) then Some(0)
    else match FindMatchingRoute(routes[1..], path)
      case None => None
      case Some(i) => Some(i + 1)
  }

  /** `{ ...(params || {}), ...pathParams }`. */
  function MergeParams(params: map<string, string>, pathParams: map<string, string>): map<string, string>
  {
    params + pathParams
  }

  /** The merged record holds every key of either record, with the path's value
      winning where both have one. */
  lemma MergeParamsOverlay(params: map<string, string>, pathParams: map<string, string>)
    ensures MergeParams(params, pathParams).Keys == params.Keys + pathParams.Keys
    ensures forall k :: k in pathParams ==> MergeParams(params, pathParams)[k] == pathParams[k]
    ensures forall k :: k in params && k !in pathParams ==> MergeParams(params, pathParams)[k] == params[k]
  {
  }

  /** The redirect a definition's guard asks for; `""` stands for both `null` and
      the empty string, which `goTo` treats alike (falsy). */
  function RedirectOf(definition: ViewDefinition, getRedirect: GuardId -> string): string
  {
    if definition.guard.Some? then getRedirect(definition.guard.value) else ""
  }

  /** The first half of `goTo`: no route matches; or the first matching route's
      guard asks for a redirect; or the route at `index` is to be mounted. */
  datatype Dispatch = Unmatched | Redirects(target: string) | Mounts(index: nat)

  /** Which of the three a path leads to, guards consulted now. */
  function DispatchOf(routes: seq<Route>, path: string, getRedirect: GuardId -> string): (d: Dispatch)
    ensures d.Mounts? ==> d.index < |routes|
  {
    match FindMatchingRoute(routes, path)
    case None => Unmatched
    case Some(i) =>
      var redirect := RedirectOf(routes[i].componentDefinition, getRedirect);
      if redirect != "" then Redirects(redirect) else Mounts(i)
  }

  /** A navigation that was reached through one more redirect. */
  function CountRedirect(r: Result<Navigation, NavError>): Result<Navigation, NavError>
  {
    match r
    case Ok(nav) => Ok(nav.(redirects := nav.redirects + 1))
    case Err(e) => Err(e)
  }

  /** Where a chain of guard redirects ends: the path whose route is mounted,
      that route, and how many redirects led there. */
  datatype Landing = Landing(path: string, routeIndex: nat, redirects: nat)

  /** Follows the redirects from `path`, as `goTo` calling itself does, where
      `dispatch` says what one path leads to; `maxRedirects` bounds the chain,
      which `goTo` leaves unbounded. */
  function Chase(dispatch: string -> Dispatch, path: string, maxRedirects: nat): Result<Landing, NavError>
    decreases maxRedirects
  {
    match dispatch(path)
    case Unmatched => Err(InvalidPath(path))
    case Redirects(target) =>
      if maxRedirects == 0 then Err(RedirectLimit(path))
      else
        var rest := Chase(dispatch, target, maxRedirects - 1);
        if rest.Ok? then Ok(rest.value.(redirects := rest.value.redirects + 1)) else rest
    case Mounts(i) => Ok(Landing(path, i, 0))
  }

  /** A chain fails at once on a path that leads nowhere; otherwise it ends at a
      path that is mounted, within the bound, and a chain without redirects ends
      where it started. */
  lemma {:induction false} ChaseLands(dispatch: string -> Dispatch, path: string, maxRedirects: nat)
    ensures dispatch(path).Unmatched? ==> Chase(dispatch, path, maxRedirects) == Err(InvalidPath(path))
    ensures var r := Chase(dispatch, path, maxRedirects);
            r.Ok? ==> && dispatch(r.value.path) == Mounts(r.value.routeIndex)
                      && r.value.redirects <= maxRedirects
                      && (r.value.redirects == 0 ==> r.value.path == path)
    decreases maxRedirects
  {
    match dispatch(path)
    case Unmatched =>
    case Mounts(i) =>
    case Redirects(target) =>
      if maxRedirects > 0 {
        ChaseLands(dispatch, target, maxRedirects - 1);
      }
  }

  /** A chain that ends within a bound ends the same way under any larger bound:
      the bound only turns an over-long chain into `RedirectLimit`. */
  lemma {:induction false} ChaseBoundIrrelevant(dispatch: string -> Dispatch, path: string, bound: nat, larger: nat)
    requires bound <= larger
    requires Chase(dispatch, path, bound).Ok?
    ensures Chase(dispatch, path, larger) == Chase(dispatch, path, bound)
    decreases bound
  {
    match dispatch(path)
    case Unmatched =>
    case Mounts(i) =>
    case Redirects(target) =>
      ChaseBoundIrrelevant(dispatch, target, bound - 1, larger - 1);
  }

  /** When no path is ever mounted, every chain fails, whatever the bound. */
  lemma {:induction false} ChaseNeverMounting(dispatch: string -> Dispatch, path: string, maxRedirects: nat)
    requires forall p :: !dispatch(p).Mounts?
    ensures Chase(dispatch, path, maxRedirects).Err?
    decreases maxRedirects
  {
    match dispatch(path)
    case Unmatched =>
    case Mounts(i) =>
      assert false;
    case Redirects(target) =>
      if maxRedirects > 0 {
        ChaseNeverMounting(dispatch, target, maxRedirects - 1);
      }
  }

  /** A set of paths that only redirect, and only to one another, is never left:
      every chain that starts in it fails, whatever the bound. */
  lemma {:induction false} ChaseClosedRedirects(dispatch: string -> Dispatch, trap: set<string>,
                                                path: string, maxRedirects: nat)
    requires forall p :: p in trap ==> dispatch(p).Redirects? && dispatch(p).target in trap
    requires path in trap
    ensures Chase(dispatch, path, maxRedirects).Err?
    decreases maxRedirects
  {
    if maxRedirects > 0 {
      ChaseClosedRedirects(dispatch, trap, dispatch(path).target, maxRedirects - 1);
    }
  }

  /** What a path leads to in this route table, guards consulted now. */
  function Dispatcher(routes: seq<Route>, getRedirect: GuardId -> string): string -> Dispatch
  {
    p => DispatchOf(routes, p, getRedirect)
  }

  /** Where `goTo(path, params)` ends: the end of the redirect chain, mounted
      with the caller's parameters overlaid by the path's. A redirect calls
      `goTo(redirect)` without parameters, so after one only the path's remain. */
  function Resolve(routes: seq<Route>, path: string, params: map<string, string>,
                   maxRedirects: nat, getRedirect: GuardId -> string): (r: Result<Navigation, NavError>)
    ensures r.Ok? ==> r.value.routeIndex < |routes|
  {
    var chased := Chase(Dispatcher(routes, getRedirect), path, maxRedirects);
    if chased.Err? then Err(chased.error)
    else
      ChaseLands(Dispatcher(routes, getRedirect), path, maxRedirects);
      var landing := chased.value;
      var callerParams := if landing.redirects == 0 then params else map[];
      Ok(Navigation(landing.path, landing.routeIndex,
                    MergeParams(callerParams, PathParams(routes[landing.routeIndex].pathMatcher, landing.path)),
                    landing.redirects))
  }

  /** What a resolution means. A path no route matches fails with
      `InvalidPath`. A successful navigation ends at a path whose first matching
      route does not redirect, within the redirect bound; without redirects it is
      the requested path with the caller's parameters overlaid by the path's;
      after a redirect the caller's parameters are gone. */
  lemma ResolveSound(routes: seq<Route>, path: string, params: map<string, string>,
                     maxRedirects: nat, getRedirect: GuardId -> string)
    ensures var r := Resolve(routes, path, params, maxRedirects, getRedirect);
            && (FindMatchingRoute(routes, path).None? ==> r == Err(InvalidPath(path)))
            && (r.Ok? ==> && FindMatchingRoute(routes, r.value.path) == Some(r.value.routeIndex)
                          && RedirectOf(routes[r.value.routeIndex].componentDefinition, getRedirect) == ""
                          && r.value.redirects <= maxRedirects)
            && (r.Ok? && r.value.redirects == 0 ==>
                  && r.value.path == path
                  && r.value.params == MergeParams(params, PathParams(routes[r.value.routeIndex].pathMatcher, path)))
            && (r.Ok? && r.value.redirects > 0 ==>
                  r.value.params == PathParams(routes[r.value.routeIndex].pathMatcher, r.value.path))
  {
    var dispatch := Dispatcher(routes, getRedirect);
    ChaseLands(dispatch, path, maxRedirects);
    assert dispatch(path) == DispatchOf(routes, path, getRedirect);
    var r := Resolve(routes, path, params, maxRedirects, getRedirect);
    if r.Ok? {
      var landing := Chase(dispatch, path, maxRedirects).value;
      assert dispatch(landing.path) == DispatchOf(routes, landing.path, getRedirect);
      if landing.redirects > 0 {
        var pathParams := PathParams(routes[landing.routeIndex].pathMatcher, landing.path);
        assert MergeParams(map[], pathParams) == pathParams;
      }
    }
  }

  /** A path no route matches fails, whatever the bound. */
  lemma ResolveUnmatched(routes: seq<Route>, path: string, params: map<string, string>,
                         maxRedirects: nat, getRedirect: GuardId -> string)
    requires DispatchOf(routes, path, getRedirect) == Unmatched
    ensures Resolve(routes, path, params, maxRedirects, getRedirect) == Err(InvalidPath(path))
  {
  }

  /** A route that lets the navigation through is mounted at once, whatever the bound. */
  lemma ResolveMounts(routes: seq<Route>, path: string, params: map<string, string>,
                      maxRedirects: nat, getRedirect: GuardId -> string, index: nat)
    requires DispatchOf(routes, path, getRedirect) == Mounts(index)
    ensures Resolve(routes, path, params, maxRedirects, getRedirect)
            == Ok(Navigation(path, index, MergeParams(params, PathParams(routes[index].pathMatcher, path)), 0))
  {
  }

  /** The guard branch: a redirect replaces the navigation by one to its target,
      without the caller's parameters, or fails once the bound is spent. */
  lemma ResolveRedirect(routes: seq<Route>, path: string, params: map<string, string>,
                        maxRedirects: nat, getRedirect: GuardId -> string, target: string)
    requires DispatchOf(routes, path, getRedirect) == Redirects(target)
    ensures Resolve(routes, path, params, maxRedirects, getRedirect)
            == if maxRedirects == 0 then Err(RedirectLimit(path))
               else CountRedirect(Resolve(routes, target, map[], maxRedirects - 1, getRedirect))
  {
  }

  /** Appending a route never changes which route an already-matching path
      resolves to; it only gives unmatched paths a new candidate. */
  lemma {:induction false} FindMatchingRouteAppend(routes: seq<Route>, route: Route, path: string)
    ensures FindMatchingRoute(routes + [route], path) ==
              if FindMatchingRoute(routes, path).Some? then FindMatchingRoute(routes, path)
              else if MatchesPath(route.pathMatcher, path) then Some(|routes|)
              else None
  {
    if routes != [] {
      assert (routes + [route])[0] == routes[0];
      assert (routes + [route])[1..] == routes[1..] + [route];
      FindMatchingRouteAppend(routes[1..], route, path);
    } else {
      assert [route][1..] == [];
    }
  }

  /** Two routes registered with the same pattern: navigating to a path the
      pattern accepts always mounts the first one (when it has no redirecting guard). */
  lemma DuplicatePatternFirstWins(first: ViewDefinition, second: ViewDefinition, pattern: string,
                                  path: string, params: map<string, string>,
                                  maxRedirects: nat, getRedirect: GuardId -> string)
    requires MatchesPath(MatcherFor(pattern), path)
    requires RedirectOf(first, getRedirect) == ""
    ensures var routes := [Route(first, MatcherFor(pattern)), Route(second, MatcherFor(pattern))];
            Resolve(routes, path, params, maxRedirects, getRedirect)
            == Ok(Navigation(path, 0, MergeParams(params, PathParams(MatcherFor(pattern), path)), 0))
  {
    var routes := [Route(first, MatcherFor(pattern)), Route(second, MatcherFor(pattern))];
    assert FindMatchingRoute(routes, path) == Some(0);
    assert DispatchOf(routes, path, getRedirect) == Mounts(0);
  }

  /** A successful resolution is unaffected by a larger redirect bound. */
  lemma ResolveBoundIrrelevant(routes: seq<Route>, path: string, params: map<string, string>,
                               bound: nat, larger: nat, getRedirect: GuardId -> string)
    requires bound <= larger
    requires Resolve(routes, path, params, bound, getRedirect).Ok?
    ensures Resolve(routes, path, params, larger, getRedirect) == Resolve(routes, path, params, bound, getRedirect)
  {
    ChaseBoundIrrelevant(Dispatcher(routes, getRedirect), path, bound, larger);
  }

  /** When the route every path reaches redirects, navigation never succeeds,
      whatever the bound: a guard cycle on which `goTo` recurses forever. */
  lemma GuardCycleNeverResolves(routes: seq<Route>, path: string, params: map<string, string>,
                                maxRedirects: nat, getRedirect: GuardId -> string)
    requires forall i :: 0 <= i < |routes| ==> RedirectOf(routes[i].componentDefinition, getRedirect) != ""
    ensures Resolve(routes, path, params, maxRedirects, getRedirect).Err?
  {
    var dispatch := Dispatcher(routes, getRedirect);
    forall p
      ensures !dispatch(p).Mounts?
    {
      assert dispatch(p) == DispatchOf(routes, p, getRedirect);
    }
    ChaseNeverMounting(dispatch, path, maxRedirects);
  }

  /** Two guards that redirect to each other trap the navigation, whatever the
      other routes do: `goTo` on either path never mounts a view. */
  lemma RedirectCycleNeverResolves(routes: seq<Route>, a: string, b: string, params: map<string, string>,
                                   maxRedirects: nat, getRedirect: GuardId -> string)
    requires DispatchOf(routes, a, getRedirect) == Redirects(b)
    requires DispatchOf(routes, b, getRedirect) == Redirects(a)
    ensures Resolve(routes, a, params, maxRedirects, getRedirect).Err?
    ensures Resolve(routes, b, params, maxRedirects, getRedirect).Err?
  {
    var dispatch := Dispatcher(routes, getRedirect);
    assert dispatch(a) == Redirects(b);
    assert dispatch(b) == Redirects(a);
    ChaseClosedRedirects(dispatch, {a, b}, a, maxRedirects);
    ChaseClosedRedirects(dispatch, {a, b}, b, maxRedirects);
  }

  /** The view the last swap mounted. */
  function Mounted(call: DomCall): ViewInstance
  {
    match call
    case ReplaceElementWithTemplate(v) => v
    case ReplaceTemplateWithTemplate(_, v) => v
  }

  /** The DOM calls so far form one chain: the mount element is replaced once,
      first; every later call replaces the view the previous call mounted; and
      the current view is the one the last call mounted (none before the first). */
  predicate SwapChain(calls: seq<DomCall>, current: Option<ViewInstance>)
  {
    && (calls == [] <==> current.None?)
    && (calls != [] ==> calls[0].ReplaceElementWithTemplate? && current == Some(Mounted(calls[|calls| - 1])))
    && forall i :: 0 < i < |calls| ==>
         calls[i].ReplaceTemplateWithTemplate? && calls[i].previous == Mounted(calls[i - 1])
  }

  /** The DOM call that mounts `instance`, given what is mounted now. */
  function SwapCall(current: Option<ViewInstance>, instance: ViewInstance): (call: DomCall)
    ensures Mounted(call) == instance
    ensures call.ReplaceTemplateWithTemplate? <==> current.Some?
    ensures call.ReplaceTemplateWithTemplate? ==> call.previous == current.value
  {
    if current.Some? then ReplaceTemplateWithTemplate(current.value, instance)
    else ReplaceElementWithTemplate(instance)
  }

  /** Mounting a view keeps the chain of DOM calls coherent. */
  lemma SwapChainExtend(calls: seq<DomCall>, current: Option<ViewInstance>, instance: ViewInstance)
    requires SwapChain(calls, current)
    ensures SwapChain(calls + [SwapCall(current, instance)], Some(instance))
  {
    var extended := calls + [SwapCall(current, instance)];
    assert forall i :: 0 <= i < |calls| ==> extended[i] == calls[i];
  }

  /** The router. History (`window.history`) and the DOM collaborator are
      modelled by fields: the current history state, the states pushed so far,
      and the DOM calls made so far. */
  class VerbosityRouter {
    var routes: seq<Route>
    var currentPageVerbosityTemplate: Option<ViewInstance>
    var historyState: Option<string>
    var historyPushes: seq<string>
    var domCalls: seq<DomCall>

    ghost predicate Valid()
      reads this
    {
      && (forall i :: 0 <= i < |routes| ==> WellFormed(routes[i].pathMatcher))
      && SwapChain(domCalls, currentPageVerbosityTemplate)
    }

    /** A router with no routes and no view, on a history whose state is `initialState`. */
    constructor (initialState: Option<string>)
      ensures Valid()
      ensures routes == [] && currentPageVerbosityTemplate == None
      ensures historyState == initialState && historyPushes == [] && domCalls == []
    {
      routes := [];
      currentPageVerbosityTemplate := None;
      historyState := initialState;
      historyPushes := [];
      domCalls := [];
    }

    /** `addRoute`: appends one route, `DynamicPath` iff the pattern holds a colon. */
    method AddRoute(path: string, componentDefinition: ViewDefinition)
      requires Valid()
      modifies this
      ensures Valid()
      ensures routes == old(routes) + [Route(componentDefinition, MatcherFor(path))]
      ensures currentPageVerbosityTemplate == old(currentPageVerbosityTemplate)
      ensures historyState == old(historyState) && historyPushes == old(historyPushes)
      ensures domCalls == old(domCalls)
    {
      var pathMatcher := NewMatcher(path);
      routes := routes + [Route(componentDefinition, pathMatcher)];
    }

    /** The second half of `goTo`, once the route is found and its guard lets the
        navigation through: reconcile history, instantiate the view with the
        merged parameters, swap it in and make it current. */
    method MountRoute(path: string, params: map<string, string>, index: nat)
      returns (r: Result<Navigation, NavError>)
      requires Valid()
      requires index < |routes|
      modifies this
      ensures Valid()
      ensures routes == old(routes)
      ensures r == Ok(Navigation(path, index, MergeParams(params, PathParams(routes[index].pathMatcher, path)), 0))
      ensures historyState == Some(path)
      ensures historyPushes == old(historyPushes) + (if old(historyState) == Some(path) then [] else [path])
      ensures currentPageVerbosityTemplate == Some(ViewInstance(routes[index].componentDefinition.factory, r.value.params))
      ensures domCalls == old(domCalls) + [SwapCall(old(currentPageVerbosityTemplate), currentPageVerbosityTemplate.value)]
    {
      var matchingRoute := routes[index];
      if historyState != Some(path) {
        historyState := Some(path);
        historyPushes := historyPushes + [path];
      }

      var pathParams := ExtractPathParameters(matchingRoute.pathMatcher, path);
      var mergedParams := params + pathParams;
      var instance := ViewInstance(matchingRoute.componentDefinition.factory, mergedParams);

      SwapChainExtend(domCalls, currentPageVerbosityTemplate, instance);
      if currentPageVerbosityTemplate.Some? {
        domCalls := domCalls + [ReplaceTemplateWithTemplate(currentPageVerbosityTemplate.value, instance)];
      } else {
        domCalls := domCalls + [ReplaceElementWithTemplate(instance)];
      }
      currentPageVerbosityTemplate := Some(instance);
      r := Ok(Navigation(path, index, mergedParams, 0));
    }

    /** `goTo(path, params)`. A path no route matches, or a redirect chain longer
        than `maxRedirects`, fails and changes nothing. Otherwise only the end of
        the redirect chain has effects: one history push unless the state already
        is that path, one factory call with the merged parameters, one DOM swap
        chosen by whether a view was mounted, and the new view becomes current. */
    method GoTo(path: string, params: map<string, string>, maxRedirects: nat, getRedirect: GuardId -> string)
      returns (r: Result<Navigation, NavError>)
      requires Valid()
      modifies this
      ensures Valid()
      ensures routes == old(routes)
      ensures r == Resolve(routes, path, params, maxRedirects, getRedirect)
      ensures r.Err? ==>
                && currentPageVerbosityTemplate == old(currentPageVerbosityTemplate)
                && historyState == old(historyState) && historyPushes == old(historyPushes)
                && domCalls == old(domCalls)
      ensures r.Ok? ==>
                var instance := ViewInstance(routes[r.value.routeIndex].componentDefinition.factory, r.value.params);
                && currentPageVerbosityTemplate == Some(instance)
                && historyState == Some(r.value.path)
                && historyPushes == old(historyPushes) + (if old(historyState) == Some(r.value.path) then [] else [r.value.path])
                && domCalls == old(domCalls) + [SwapCall(old(currentPageVerbosityTemplate), instance)]
      decreases maxRedirects, 1
    {
      var found := FindMatchingRoute(routes, path);
      if found.None? {
        return Err(InvalidPath(path));
      }
      var pageDefinition := routes[found.value].componentDefinition;
      var redirect := if pageDefinition.guard.Some? then getRedirect(pageDefinition.guard.value) else "";
      if redirect != "" {
        assert DispatchOf(routes, path, getRedirect) == Redirects(redirect);
        r := Redirect(path, params, maxRedirects, getRedirect, redirect);
      } else {
        assert DispatchOf(routes, path, getRedirect) == Mounts(found.value);
        r := MountRoute(path, params, found.value);
      }
    }

    /** The guard branch of `goTo`: the matched route's guard asked for a redirect,
        so the navigation to `path` is abandoned and `goTo(redirect)` runs instead,
        without the caller's parameters. */
    method Redirect(path: string, params: map<string, string>, maxRedirects: nat, getRedirect: GuardId -> string,
                    redirect: string)
      returns (r: Result<Navigation, NavError>)
      requires DispatchOf(routes, path, getRedirect) == Redirects(redirect)
      requires Valid()
      modifies this
      ensures Valid()
      ensures routes == old(routes)
      ensures r == Resolve(routes, path, params, maxRedirects, getRedirect)
      ensures r.Err? ==>
                && currentPageVerbosityTemplate == old(currentPageVerbosityTemplate)
                && historyState == old(historyState) && historyPushes == old(historyPushes)
                && domCalls == old(domCalls)
      ensures r.Ok? ==>
                var instance := ViewInstance(routes[r.value.routeIndex].componentDefinition.factory, r.value.params);
                && currentPageVerbosityTemplate == Some(instance)
                && historyState == Some(r.value.path)
                && historyPushes == old(historyPushes) + (if old(historyState) == Some(r.value.path) then [] else [r.value.path])
                && domCalls == old(domCalls) + [SwapCall(old(currentPageVerbosityTemplate), instance)]
      decreases maxRedirects, 0
    {
      ResolveRedirect(routes, path, params, maxRedirects, getRedirect, redirect);
      if maxRedirects == 0 {
        return Err(RedirectLimit(path));
      }
      var inner := GoTo(redirect, map[], maxRedirects - 1, getRedirect);
      r := CountRedirect(inner);
      assert r.Ok? ==> && r.value.path == inner.value.path && r.value.routeIndex == inner.value.routeIndex
                       && r.value.params == inner.value.params;
    }

    /** The `onpopstate` handler: the browser has made the popped entry's state
        current, and the router navigates to it. An entry that resolves without
        redirect pushes nothing, so forward history survives a back navigation. */
    method OnPopState(state: string, maxRedirects: nat, getRedirect: GuardId -> string)
      returns (r: Result<Navigation, NavError>)
      requires Valid()
      modifies this
      ensures Valid()
      ensures routes == old(routes)
      ensures r == Resolve(routes, state, map[], maxRedirects, getRedirect)
      ensures r.Err? ==>
                && currentPageVerbosityTemplate == old(currentPageVerbosityTemplate)
                && historyState == Some(state) && historyPushes == old(historyPushes)
                && domCalls == old(domCalls)
      ensures r.Ok? ==>
                var instance := ViewInstance(routes[r.value.routeIndex].componentDefinition.factory, r.value.params);
                && currentPageVerbosityTemplate == Some(instance)
                && historyState == Some(r.value.path)
                && domCalls == old(domCalls) + [SwapCall(old(currentPageVerbosityTemplate), instance)]
      ensures r.Ok? && r.value.path == state ==> historyPushes == old(historyPushes)
      ensures r.Ok? && r.value.path != state ==> historyPushes == old(historyPushes) + [r.value.path]
    {
      historyState := Some(state);
      r := GoTo(state, map[], maxRedirects, getRedirect);
    }
  }

  /** A client: navigating to the same path twice, as a back-then-forward pair
      does, pushes at most one history entry, and the second navigation swaps a
      view for a view. */
  method NavigateTwice(router: VerbosityRouter, path: string, maxRedirects: nat, getRedirect: GuardId -> string)
    requires router.Valid()
    requires Resolve(router.routes, path, map[], maxRedirects, getRedirect).Ok?
    modifies router
    ensures router.Valid()
    ensures router.routes == old(router.routes)
    ensures var target := Resolve(router.routes, path, map[], maxRedirects, getRedirect).value.path;
            router.historyPushes == old(router.historyPushes)
              + (if old(router.historyState) == Some(target) then [] else [target])
    ensures |router.domCalls| == |old(router.domCalls)| + 2
    ensures router.domCalls[|router.domCalls| - 1].ReplaceTemplateWithTemplate?
  {
    var first := router.GoTo(path, map[], maxRedirects, getRedirect);
    var second := router.GoTo(path, map[], maxRedirects, getRedirect);
  }
}
