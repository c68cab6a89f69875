# fuzionkit core, modelled in Dafny

fuzionkit is a library of Lit web components: an application shell, a
client-side router, dialogs, context menus, trees, tabs and form-element
mixins. Most of its code is templates and DOM glue. This project models the
sequential logic inside those components and proves what that logic
promises.

Each component is modelled with its DOM reads turned into parameters. Its
DOM writes, dispatched events and browser calls are turned into fields and
logs.

| module (file) | component |
|---|---|
| `Common` (common.dfy) | `Option` for `null`/`undefined`, JavaScript's `split` on one character, ASCII lower-casing, decimal rendering of numbers |
| `RouterUtils` (router_utils.dfy) | `compilePath`, the string pipeline building a route regex source and its parameter names; the `handleHrefClick` decision |
| `Navigation` (navigation.dfy) | the navigation authority `Router` and its wait registry `RouterWait` |
| `RouteMatching` (route_matching.dfy) | `fzn-route`: the `$`/`./` decorations, alternatives, base stripping, `baseMatch` and parameter merging, in the newer and the legacy route |
| `Switching` (switching.dfy) | `fzn-switch`: its path source, first-matching child and active-slot swap; `buildSwitches` |
| `PageRouter` (page_router.dfy) | the legacy page router: its path table, the routes map, and route load/unload bookkeeping |
| `Placement` (placement.dfy) | `ContextMenu.reposition`, both branches, and `ContextMenuPosition.toStyle` |
| `Listeners` (listeners.dfy) | `EnhancedEventTarget`: counted listeners, `listenTo` bookkeeping, `applyChange`/`dispatchChange` |
| `Arrays` (arrays.dfy) | `groupBy` and `chunkArray` |
| `TreeView` (tree_view.dfy) | `fzn-tree`: empty-folder filtering and the drag-placement state machine |
| `AppShell` (shell.dfy) | `fzn-shell`: its lock counters, resize and drawer clamps, and swipe rule |
| `Dialogs` (dialog.dfy) | `fzn-dialog`: its scroll lock, z-order counter, move/resize geometry, close gating and window listeners |
| `Mixins` (mixins.dfy) | `ControllableMixin`, `SizedMixin`, `VariantMixin` |
| `TabBar` (tabs.dfy) | `fzn-tabs` and `fzn-tab`: tab activation and tab clicks |

## Copies of the same logic

Several sources exist as a TypeScript file and a compiled or older
JavaScript copy. One model serves each such pair. The table cites the
TypeScript lines, and the copies map onto the same members as follows.

- The older `RouterContext` in `router/context.js` maps onto `Navigation.Router`. Its lines are:
  - `navigateFromPath` 31-47, `handleBeforeUnload` 15-21;
  - `createWait*` 48-72, `removeAllWaits` 73-77, `_addWait`/`_removeWait` 78-86;
  - `navigate` 87-96, `renavigate` 97-101.
- Its `RouterWait` (142-199) maps onto the members of `Navigation.RouterWait`. The logic is the same.
- In `utils/events.js`, the class is at 1-94 and the mixin at 96-191. Both map onto `Listeners.EnhancedEventTarget`:
  - counted add 19-28, counted remove 29-42;
  - `dispatchChange` 43-52, `applyChange` 53-66;
  - `listenTo`/`stopListening*` 74-94.
- The mixin copy inside `utils/events.ts` (174-329) repeats the class at 11-164.
- `utils/arrays.ts:1-9` and `utils/arrays.js:1-6` are the same `groupBy` as `src/utils/arrays.ts:1-9`.
- `tree/tree.js` maps onto `TreeView`:
  - `hasNonItemChildren` 20-31, the mouse-move rule 73-95;
  - drag start and mouseup 96-121;
  - `lastPlacement` 146, the filter 149-155.
- `shell/shell.js` maps onto `AppShell`:
  - `handleResize` 53-62, the up action 71-73, the drawer clamp 74-77;
  - the swipe rule 98-110;
  - the mouse-guard counters 122-133, the scroll counters 134-145.
- `base/controllable-mixin.js` differs in one point: its `change` event bubbles. `Mixins.Controllable` carries that as the constant `bubbles`. Its lines are:
  - constructor 11-16, `connectedCallback` 17-20, `controlled` 20-22;
  - the `internalValue` setter 26-37, and `value` 38-45.
- `base/variant-mixin.js` maps onto `Mixins.Variant`: getter 14-16, setter 17-31, `firstUpdated` 32-37.
- `tabs/tabs.js` maps onto `TabBar`:
  - `getTabByKey` 20-24, `handleSlotChange` 25-34;
  - `activeTab` 37-41, `updated` 42-48;
  - `Tab.handleClick` 80-91.

## Model

| member | source | states |
|---|---|---|
| Common.Split | src/router/route.ts:137 | `split` on one character gives at least one piece, and no piece contains the separator |
| Common.JoinSplit | src/router/route.ts:137 | joining the pieces of `split` with the separator gives the string back |
| Common.SplitJoin | src/router/route.ts:137 | splitting a join of separator-free pieces gives the pieces back |
| Common.SplitWithoutSeparator | utils/events.ts:31-41 | a type string without a space is one piece |
| Common.ToLower | base/sized-mixin.js:29 | lower-casing keeps the length, leaves no upper-case letter and changes nothing else |
| Common.ToLowerIdempotent | base/variant-mixin.ts:39 | lower-casing twice is lower-casing once |
| Common.NatToDecimal | context-menu/context-menu.ts:333 | a number renders as decimal digits with no leading zero |
| Common.ParseNatToDecimal | router/router.js:146-148 | the decimal rendering of an index parses back to that index, so array indices give distinct property keys |
| Common.ParseIntToDecimal | context-menu/context-menu.ts:44-47 | a signed number rendered in decimal parses back to itself |
| Common.SubstringFrom | src/router/route.ts:177-178 | `substring(n)` is the suffix after the first `n` characters, and is empty past the end |
| Common.Overlay | router/router.js:37 | `Object.assign({}, base, top)`: the keys of both, with `top` winning a collision |
| RouterUtils.DropTrailingSlashes | router/utils.ts:73 | removes exactly the trailing run of slashes |
| RouterUtils.DropLeadingSlashes | router/utils.ts:74 | removes exactly the leading run of slashes |
| RouterUtils.Normalize | router/utils.ts:73-74 | the normalised pattern starts with exactly one `/` |
| RouterUtils.EscapeShape | router/utils.ts:75 | escaping backslash-escapes the special characters and nothing else, so unescaping gives the pattern back |
| RouterUtils.WordRun | router/utils.ts:76 | `\w+` takes the longest run of word characters |
| RouterUtils.NoColonNoNames | router/utils.ts:76-79 | a pattern without `:` is not rewritten and yields no names |
| RouterUtils.RewriteNamesAreWords | router/utils.ts:76-79 | every collected parameter name is a non-empty `\w+` word |
| RouterUtils.AfterClass | router/utils.ts:78 | skipping a `[...]` class never grows the string |
| RouterUtils.RewriteGroups | router/utils.ts:75-79 | after escaping, the rewrite adds exactly one capturing group per collected name |
| RouterUtils.ParamGroupCounts | router/utils.ts:78 | `/([^\/]+)` is one capturing group |
| RouterUtils.AnyRestGroups | router/utils.ts:85 | `(.*)$` is one capturing group |
| RouterUtils.SplatRestGroups | router/utils.ts:86 | `(?:\/(.+)\|\/*)$` is one capturing group |
| RouterUtils.TrailingSlashesGroups | router/utils.ts:89 | `\/*$` has no capturing group |
| RouterUtils.SegmentBoundaryGroups | router/utils.ts:98 | `(?:(?=\/\|$))` has no capturing group |
| RouterUtils.Suffix | router/utils.ts:81-101 | the appended suffix holds one capturing group for a `*` pattern and none otherwise |
| RouterUtils.StarIsLast | router/utils.ts:81-82 | `'*'` is the last name exactly when the pattern ends in `*` |
| RouterUtils.CollectedNames | router/utils.ts:76-82 | `'*'` ends the list exactly for a star pattern, and every other name is a non-empty `\w+` word |
| RouterUtils.RewriteConcat | router/utils.ts:76-79 | split before a `/`, the rewritten text and the names of the two halves follow each other, so the names come left to right |
| RouterUtils.ParamPiece | router/utils.ts:76-79 | one `/:name` piece becomes one capture group and contributes exactly `[name]` |
| RouterUtils.SourceEndsWith | router/utils.ts:81-101 | which suffix ends the source, by star pattern, `end` and an empty or `/` pattern |
| RouterUtils.CompilePath | router/utils.ts:56-106 | the matcher ignores case unless `caseSensitive`; a `*` pattern is exactly one whose last name is `'*'`; every other name is a word |
| RouterUtils.CompilePathGroups | router/utils.ts:69-103 | the source has exactly as many capturing groups as there are parameter names |
| RouterUtils.CompilePathSuffix | router/utils.ts:59-101 | the suffix table: `(.*)$`, `(?:\/(.+)\|\/*)$`, `\/*$` (the default), the boundary lookahead, or nothing for `''`/`'/'` |
| RouterUtils.HandleHrefClick | router/utils.ts:16-30 | a middle click does nothing; any other prevents the default and, with a router, navigates with `trigger` to `href`, else to the element's attribute |
| Navigation.IndexOf | router/router.ts:226 | `indexOf`: the first position of the element, or -1 exactly when absent |
| Navigation.RemoveFirstDistinct | router/router.ts:225-231 | removing a wait from a repeat-free list keeps it repeat-free and drops exactly that wait |
| Navigation.RemoveFirstAppended | router/router.ts:221-231 | removing a just-added wait restores the list |
| Navigation.Router.constructor | router/router.ts:35-38 | no current path, `triggerNext` set, both counters 0, no waits |
| Navigation.Router.NavigateFromPath | router/router.ts:118-145 | ignored while `triggerNext` is false; blocked by router waits once a path is set (path kept, one failed attempt, `back()` only for a new path); otherwise the path is committed with one `navigate` event |
| Navigation.Router.HandleBeforeUnload | router/router.ts:147-154 | the warning is returned exactly when a browser wait is held |
| Navigation.Router.Navigate | router/router.ts:156-165 | `triggerNext` becomes `trigger` (default true), with exactly one `replace` or `push` |
| Navigation.Router.Renavigate | router/router.ts:167-176 | re-emits `navigation` for a non-empty current path |
| Navigation.Router.AddWait | router/router.ts:221-223 | appends the wait |
| Navigation.Router.RemoveWait | router/router.ts:225-231 | removes the first occurrence of the wait |
| Navigation.Router.CreateRouterWait | router/router.ts:191-197 | a new registered wait holding the router flag; only `routerWaits` grows, by one |
| Navigation.Router.CreateBrowserWait | router/router.ts:199-205 | a new registered wait holding the browser flag; only `browserWaits` grows, by one |
| Navigation.Router.CreateWaitAll | router/router.ts:207-213 | a new wait holding both flags; both counters grow by one; it is not registered |
| Navigation.Router.CreateWait | router/router.ts:178-189 | `'router'`, `'browser'` or any other kind (both flags), with the matching counters and registration |
| Navigation.Router.RemoveAllWaits | router/router.ts:215-219 | the list ends empty; registered waits lose both flags; unregistered waits (an all-wait) keep theirs and their counts |
| Navigation.RouterWait.constructor | router/context.ts:80-82 | a new wait of this router with no flag |
| Navigation.RouterWait.RefreshActive | router/context.ts:88-96 | appends an unregistered wait that has a flag; removes a registered wait whatever its flags |
| Navigation.RouterWait.AddRouterWait | router/context.ts:98-104 | idempotent: the count grows by one and registration is refreshed only on a false-to-true change; registered iff exactly one flag is kept |
| Navigation.RouterWait.RemoveRouterWait | router/context.ts:106-112 | the count drops by one only on a true-to-false change |
| Navigation.RouterWait.AddBrowserWait | router/context.ts:114-120 | the same rule on `browserWaits` |
| Navigation.RouterWait.RemoveBrowserWait | router/context.ts:122-128 | the same rule on `browserWaits` |
| Navigation.RouterWait.AddWaitAll | router/context.ts:130-133 | both flags set, each counter raised once for a flag that was off; the wait ends unregistered |
| Navigation.RouterWait.Remove | router/context.ts:139-142 | both flags cleared, each counter lowered once for a flag that was on; the wait ends unregistered |
| Navigation.RouterWait.RemoveWaitAll | router/context.ts:135-137 | the same as `remove()` |
| RouteMatching.ParseDecorations | src/router/route.ts:140-152 | a trailing `$` sets `end`; a leading `./` clears `doBaseMatch` keeping the `/`; decorating the result gives the pattern back |
| RouteMatching.ParseDecorate | src/router/route.ts:140-152 | parsing a decorated pattern gives its decorations back |
| RouteMatching.SubjectCases | src/router/route.ts:170-182 | full path when base-matched, without a parent base or controlled; else the parent's length cut unchecked, with `''` becoming `'/'` |
| RouteMatching.ZipParams | src/router/route.ts:196-200 | the zipped captures have exactly the parameter names as keys |
| RouteMatching.LastIndexOf | src/router/route.ts:196-200 | the last position of a repeated name |
| RouteMatching.ZipParamsLast | src/router/route.ts:196-200 | a repeated name takes the capture at its last position |
| RouteMatching.ResolveBaseMatchIsPrefix | src/router/route.ts:188-190 | with an anchored matcher and a parent base that prefixes the path, `baseMatch` prefixes the path |
| RouteMatching.ResolveParams | src/router/route.ts:193-206 | the route's own captures win; other keys come from the parent unchanged |
| RouteMatching.FirstMatchStep | src/router/route.ts:139 | alternatives are tried in order |
| RouteMatching.FirstMatchNone | src/router/route.ts:139 | the intended loop finds nothing exactly when no alternative resolves |
| RouteMatching.FirstMatchAt | src/router/route.ts:139-208 | the intended loop returns the first alternative that resolves |
| RouteMatching.Route.constructor | src/router/route.ts:105 | the default route match `{ baseMatch: '', params: {} }` |
| RouteMatching.Route.HandleNavigate | src/router/route.ts:130-210 | as written: only the first alternative is tried, and a miss keeps the previous route match |
| RouteMatching.Route.HandleNavigateIntended | src/router/route.ts:137-208 | corrected: the first resolving alternative sets the route match |
| RouteMatching.LegacyRoute.constructor | router/route.ts:88-94 | no current path and the default route match |
| RouteMatching.LegacyRoute.HandleNavigate | router/route.ts:88-157 | a repeat of the same path is skipped; the path is recorded before matching; a miss is the error outcome (the source throws) |
| RouteMatching.SecondAlternativeIgnored | src/router/route.ts:184-186 | for `"/a,/b"` on `/b`, the first alternative misses although the second resolves |
| Switching.ChildMatchesResolve | router/switch.ts:201-231 | a child matches in `getRoute` exactly when it would resolve as an uncontrolled route |
| Switching.ScanFound | router/switch.ts:196-236 | a found child is a matching route, and every earlier child missed |
| Switching.ScanNotFound | router/switch.ts:196-239 | `null` exactly when every child is a route that missed |
| Switching.ScanAborted | router/switch.ts:197-199 | a non-route child after misses gives `undefined` |
| Switching.FirstActive | router/switch.ts:181 | the first child in the `active` slot, if any |
| Switching.BuildSwitches | router/switch.ts:29-95 | one built entry per route |
| Switching.BuildSwitchesKinds | router/switch.ts:37-90 | a function renders; `redirect:` redirects; another string is a tag; an array nests a switch; anything else is `null` |
| Switching.RedirectRoundTrip | router/switch.ts:51-57 | `'redirect:' + to` redirects to `to` |
| Switching.RedirectSplit | router/switch.ts:51-57 | every redirect came from `'redirect:' + to` |
| Switching.PathLookup | router/switch.ts:193-240 | a path that is not a string throws exactly at a first child that is a route, and otherwise finds no child |
| Switching.Switch.constructor | router/switch.ts:131-133 | a new switch: the stored path undefined, not updated, no slots set |
| Switching.Switch.CurrentPath | router/switch.ts:136-138 | the stored path when controlled, else the router's (`null` before it navigates), and `undefined` without a router |
| Switching.Switch.GetRoute | router/switch.ts:193-240 | the lookup is the in-order scan for a string, and `PathLookup` (possibly a throw) otherwise |
| Switching.Switch.Navigate | router/switch.ts:174-191 | only `null` returns at once; `undefined` throws at a first route child; otherwise one `navigate` event with the path, the slots swapped, and one active child at most |
| Switching.Switch.HandleNavigate | router/switch.ts:166-172 | router events are ignored when controlled, and otherwise swap the slots to the scan's result |
| Switching.Switch.SetCurrentPath | router/switch.ts:140-152 | stores the path before anything can throw, acts only on change, and navigates only after the first update |
| Switching.Switch.ConnectedCallback | router/switch.ts:154-164 | navigates to the router's path, or to the stored path (undefined until set) when controlled, with the throw of an undefined path |
| Switching.ActiveAfterSwap | router/switch.ts:184-188 | with one active child at most before, exactly the new route is active after |
| PageRouter.ArrayProps | router/router.js:146-148 | the capture groups without group 0 become props keyed `'0'`, `'1'`, … |
| PageRouter.DecimalInjective | router/router.js:146-148 | distinct indices give distinct keys |
| PageRouter.ArrayPropsAt | router/router.js:146-148 | key `'k'` holds the k-th item |
| PageRouter.LookupNone | router/router.js:143-155 | `null` exactly when no entry matches |
| PageRouter.LookupFirst | router/router.js:143-155 | the first matching entry wins |
| PageRouter.DefaultAlwaysFound | router/router.js:150 | with `followDefault`, a `'/*'` entry always matches |
| PageRouter.CaptureProps | router/router.js:145-148 | a regex entry's props are its capture groups after group 0 |
| PageRouter.NewPageRoutes | router/router.js:100-108 | one route record per entry, without an instance |
| PageRouter.Router.constructor | router/router.js:22-24 | empty maps and no current route |
| PageRouter.Router.GetRoute | router/router.js:143-155 | the lookup is the in-order scan |
| PageRouter.Router.SetRoutes | router/router.js:96-111 | acts only on change; the map is keyed by name, a later duplicate wins, and no route has an instance |
| PageRouter.Router.UnloadRoute | router/router.js:175-189 | deletes the instance and clears the current route only when that route exists with an instance |
| PageRouter.Router.LoadRoute | router/router.js:25-66 | unloads first; an unknown name stops there; otherwise the props are overlaid, stored as last props, the instance is created or kept per `shouldComponentReload`, one `route` event, and the route becomes current. The whole new routes map is `LoadMap`: the previous route loses its page object exactly when `unloadRoute` finds one, and the entry under `"null"` loses its page object exactly when the inner unload reaches it (`SecondUnload`); one page object is created exactly when `LoadCreates` |
| PageRouter.Router.Enter | router/router.js:32-65 | the load steps after the unload: the whole new routes map is `EnterMap`, which includes the inner `unloadRoute` whenever a non-null instance is rebuilt; the counters move exactly on a reload |
| PageRouter.LoadMapFacts | router/router.js:25-66 | `loadRoute` changes only the loaded, the current and the `"null"` entries; the loaded route keeps its definition, stores the props and holds a new page object exactly on a reload |
| PageRouter.LoadUnloadsPrevious | router/router.js:29-31 | loading another route deletes the previous route's page object exactly when it had one |
| PageRouter.LoadNullEntry | router/router.js:40-47 | the second `unloadRoute()` runs with no current route, so the `"null"` entry loses its page object exactly when the route is known, the outer unload cleared the current route, the found instance is not null yet is rebuilt, and that entry has one |
| PageRouter.LoadRouteFacts | router/router.js:25-66 | from the functions describing the new state: the frame, the unknown-name case, the stored route, and the previous and `"null"` entries |
| PageRouter.Router.SetLastProps | router/router.js:38 | stores the props as `lastProps` |
| PageRouter.Router.CreateInstance | router/router.js:49 | a new instance with a fresh identity |
| PageRouter.Router.Recreate | router/router.js:44-52 | unloads when asked, leaving the routes map and current route as `unloadRoute` does, then the named route holds a fresh page object |
| PageRouter.Router.SetCurrentPath | router/router.js:124-137 | acts only on change; a route name that resolves without the default redirects; a null route throws; otherwise the state is what `loadRoute` leaves for the looked-up route (`LoadMap`, `LoadCurrent`, one `route` event for a known route, the counters) |
| PageRouter.GroupedFrom | router/router.js:100-108 | every mapped route is one of the entries |
| Placement.FallbacksOthers | context-menu/context-menu.ts:369-383 | the fallback list is the three other directions, each once |
| Placement.Without | context-menu/context-menu.ts:609 | the filter drops exactly the chosen direction |
| Placement.ResolveBounds | context-menu/context-menu.ts:337-352 | corrected: the bounds box spans the element's width and height |
| Placement.AsWrittenAcceptsOutside | context-menu/context-menu.ts:346-351 | as written, a menu outside an element bound at top 100 passes the vertical test |
| Placement.ElementBoundsContain | context-menu/context-menu.ts:346-351 | corrected: an accepted menu lies within an element bound, within 2px |
| Placement.ClampedFits | context-menu/context-menu.ts:414 | a clamped coordinate passes the test exactly when the menu fits, within 2px |
| Placement.CrossSpec | context-menu/context-menu.ts:423-453 | the chosen cross coordinate passes the test |
| Placement.TrySpec | context-menu/context-menu.ts:410-601 | every coordinate a pass accepts lies within the bounds, within 2px |
| Placement.ClampedPass | context-menu/context-menu.ts:413-415 | the clamped retry passes exactly when the menu width fits |
| Placement.Plain | context-menu/context-menu.ts:612-613 | the fallbacks are tried unclamped, in order |
| Placement.ScheduleLength | context-menu/context-menu.ts:604-625 | at most 6 passes, 5 without a separate alternative direction, the last being the clamped retry of the original |
| Placement.WithoutDistinct | context-menu/context-menu.ts:609 | removing a listed direction leaves two |
| Placement.FirstSuccess | context-menu/context-menu.ts:407-625 | the pass that ends the loop succeeds |
| Placement.FirstSuccessNone | context-menu/context-menu.ts:619-620 | the loop exits by force exactly when every pass fails |
| Placement.FirstSuccessEarlier | context-menu/context-menu.ts:604-625 | every pass before the chosen one failed |
| Placement.ForcedExit | context-menu/context-menu.ts:397-400 | once the height is clamped, the exit is forced exactly when all passes fail and the menu is wider than the bounds |
| Placement.ReplaySuccess | context-menu/context-menu.ts:421-447 | a successful pass leaves numeric `top`/`left` within the bounds |
| Placement.Shift | context-menu/context-menu.ts:627-632 | numbers shift by the origin offset; words stay |
| Placement.Align | context-menu/context-menu.ts:423-453 | the cross-alignment loop computes the specified coordinate |
| Placement.Attempt | context-menu/context-menu.ts:410-601 | one pass computes the specified try |
| Placement.Reposition | context-menu/context-menu.ts:310-641 | anchored branch, with the element bounds corrected as under "Findings": at most 6 passes; the first success gives direction and coordinates shifted by the origin; a forced exit keeps the original direction; `right`/`bottom` stay `auto`; width when `matchWidth`; height clamp |
| Placement.Search | context-menu/context-menu.ts:407-625 | the loop ends within 6 passes with the first successful pass, or forced |
| Placement.Advance | context-menu/context-menu.ts:604-625 | the next direction: the alternative once, then the list, then the clamped original, then stop |
| Placement.RestStep | context-menu/context-menu.ts:604-625 | one step of that order |
| Placement.FirstSuccessAt | context-menu/context-menu.ts:604-625 | the first successful pass is the one chosen |
| Placement.PointPosition | context-menu/context-menu.ts:642-666 | point mode: each axis goes to `left`/`top` when positive, else to `right`/`bottom`, never both |
| Placement.PointRoundTrip | context-menu/context-menu.ts:648-666 | the emitted sides give back the shifted point |
| Placement.RenderParse | context-menu/context-menu.ts:44-47 | `${n}px` parses back to `n` |
| Placement.ToStyle | context-menu/context-menu.ts:42-50 | the four sides, rendered; `width` only when truthy |
| Placement.ToStyleRoundTrip | context-menu/context-menu.ts:42-50 | a numeric side is recoverable from its style |
| Listeners.Count | utils/events.ts:27-29 | 0 exactly when the type has no listener |
| Listeners.FilterOut | utils/events.ts:149-151 | `filter(x => x !== l)` keeps exactly the other elements |
| Listeners.FilterOutDistinct | utils/events.ts:80-82 | filtering keeps a list repeat-free |
| Listeners.FilterOutAppended | utils/events.ts:149-151 | filtering out a just-added element restores the list |
| Listeners.AddStepSpec | utils/events.ts:61-67 | one add keeps lists non-empty and repeat-free, counts the listener, and grows the list only if it was absent |
| Listeners.RemoveStepSpec | utils/events.ts:77-86 | one remove drops the listener and deletes an emptied key |
| Listeners.AddThenRemove | utils/events.ts:55-88 | removing a just-added listener restores the map |
| Listeners.AddAllSpec | utils/events.ts:55-69 | adding over all the split types keeps the map well formed |
| Listeners.AddKeepsCounted | utils/events.ts:55-69 | adding never uncounts a listener |
| Listeners.RemoveAllSpec | utils/events.ts:71-88 | removing over all the split types keeps the map well formed |
| Listeners.RemoveKeepsUncounted | utils/events.ts:71-88 | removing never counts a listener |
| Listeners.Keys | utils/events.ts:103-105 | the keys of the entries, in order |
| Listeners.Changes | utils/events.ts:103-110 | exactly the fields whose value differs from the current one |
| Listeners.Assign | utils/events.ts:112 | `Object.assign` covers the old keys and the changed ones |
| Listeners.ChangeEvents | utils/events.ts:90-100 | one event per entry, then one `change` with all values |
| Listeners.AssignSpec | utils/events.ts:112 | after assignment each changed field holds its new value |
| Listeners.ChangesKeys | utils/events.ts:103-110 | the changes keep keys distinct |
| Listeners.ApplyChangeSets | utils/events.ts:102-117 | after `applyChange` every field holds the requested value |
| Listeners.ApplyChangeIdempotent | utils/events.ts:102-117 | a second `applyChange` with the same fields changes nothing |
| Listeners.ChangesNone | utils/events.ts:103-110 | when nothing differs there are no changes |
| Listeners.EnhancedEventTarget.constructor | utils/events.ts:12-19 | empty maps and state |
| Listeners.EnhancedEventTarget.IsListenerCounted | utils/events.ts:23-25 | the type has a list containing the listener |
| Listeners.EnhancedEventTarget.GetCountedEventListener | utils/events.ts:27-29 | the list length, 0 without a list |
| Listeners.EnhancedEventTarget.AddEventListener | utils/events.ts:31-41 | one browser add per space-separated type |
| Listeners.EnhancedEventTarget.RemoveEventListener | utils/events.ts:43-53 | one browser remove per space-separated type |
| Listeners.EnhancedEventTarget.AddCountedEventListener | utils/events.ts:55-69 | applies the add step once per type; the map stays well formed |
| Listeners.EnhancedEventTarget.RemoveCountedEventListener | utils/events.ts:71-88 | applies the remove step once per type; the map stays well formed |
| Listeners.EnhancedEventTarget.DispatchChange | utils/events.ts:90-100 | one `key-change` per entry in order, then one `change` |
| Listeners.EnhancedEventTarget.ApplyChange | utils/events.ts:102-117 | assigns exactly the changed fields and dispatches them unless `silent` |
| Listeners.EnhancedEventTarget.IsListeningTo | utils/events.ts:119-127 | some entry is that triple |
| Listeners.EnhancedEventTarget.ListenTo | utils/events.ts:129-140 | records and attaches the triple only when absent |
| Listeners.EnhancedEventTarget.StopListeningTo | utils/events.ts:142-155 | removes every matching triple, detaching once if present |
| Listeners.EnhancedEventTarget.StopListening | utils/events.ts:157-163 | detaches every recorded triple in order and empties the list |
| Arrays.GroupBy | src/utils/arrays.ts:1-9 | the key set is the image of the key function; an empty source gives an empty map |
| Arrays.GroupByLastWins | src/utils/arrays.ts:1-9 | each key maps to the last item with that key |
| Arrays.GroupBySize | utils/arrays.ts:1-9 | at most as many keys as items |
| Arrays.CeilDiv | src/utils/arrays.ts:12 | `Math.ceil(n / size)` |
| Arrays.Slice | src/utils/arrays.ts:13 | `slice` with its clamping at the end |
| Arrays.ChunkArray | src/utils/arrays.ts:11-15 | size 0 on a non-empty input is the error (an infinite `Array.from` length); a negative size or empty input gives `[]`; otherwise `ceil(n / size)` chunks |
| Arrays.ChunkLengths | src/utils/arrays.ts:12-14 | every chunk but the last has `size` items; the last has 1 to `size` |
| Arrays.ChunkFlatten | src/utils/arrays.ts:12-14 | the chunks concatenate to the input |
| TreeView.ContainsItemIffPath | src/tree/tree.ts:36-46 | `hasNonItemChildren` holds exactly when an item lies at some depth |
| TreeView.NoChildrenNoItem | src/tree/tree.ts:37 | a node with absent or empty children has none |
| TreeView.HasNonItemChildren | src/tree/tree.ts:36-46 | the loop computes that predicate |
| TreeView.KeptChildren | src/tree/tree.ts:150-156 | exactly the items, and the folders kept by `showEmptyNodes` or an item inside |
| TreeView.KeptChildrenOrdered | src/tree/tree.ts:152 | the filtered list is an order-preserving subsequence |
| TreeView.ShowAllKeepsAll | src/tree/tree.ts:154 | with `showEmptyNodes` nothing is filtered |
| TreeView.PlacementPosition | src/tree/tree.ts:196-205 | `INSIDE` iff inside; otherwise `BELOW` iff the offset passes half the height |
| TreeView.Tree.LastPlacement | src/tree/tree.ts:142 | the stored state, else the inherited property |
| TreeView.Tree.constructor | src/tree/tree.ts:56-148 | the initial fields |
| TreeView.Tree.HandleFilteredNodesUpdate | src/tree/tree.ts:150-156 | recomputes the filtered list |
| TreeView.Tree.SetNodeChildren | src/tree/tree.ts:66-72 | stores the children and refilters |
| TreeView.Tree.SetShowEmptyNodes | src/tree/tree.ts:99-105 | stores the flag and refilters |
| TreeView.Tree.HandleMouseMove | src/tree/tree.ts:182-210 | nothing unless dragging; else the placement if the validator accepts it, else none |
| TreeView.Tree.HandleDragStart | src/tree/tree.ts:212-221 | only with dragging allowed and the node movable: starts dragging it and registers one mouseup |
| TreeView.Tree.MouseUp | src/tree/tree.ts:221-237 | one pending listener: stops dragging, forgets the placement, and dispatches `node-placement` iff one existed |
| TreeView.Tree.WindowMouseUp | src/tree/tree.ts:221-237 | one window mouseup runs every pending listener once, in order: all are consumed, the drag state is cleared, and only the first can dispatch `node-placement` |
| AppShell.Acquire | src/shell/shell.ts:180-185 | `++locks`, with the flag set unless the new count is 0 |
| AppShell.Release | src/shell/shell.ts:187-192 | `--locks`, with the flag cleared only at 0 |
| AppShell.BalancedLocks | src/shell/shell.ts:180-192 | never over-unlocked from 0, the count is locks minus unlocks and the flag holds iff it is positive |
| AppShell.UnmatchedUnlock | src/shell/shell.ts:180-192 | an unmatched unlock gives -1, and the next lock 0 without the flag |
| AppShell.DoubleUnmatchedUnlock | src/shell/shell.ts:180-192 | two unmatched unlocks then a lock give -1 with the flag set |
| AppShell.ClampDrawer | src/shell/shell.ts:272 | `min(max(width, min), max)`, with an unset maximum read as 0 |
| AppShell.SwipeDrawer | src/shell/shell.ts:140-146 | left closes; right opens from x in `[0, 20]` |
| AppShell.ClampIdempotent | src/shell/shell.ts:290 | clamping an already clamped width changes nothing |
| AppShell.Shell.constructor | src/shell/shell.ts:99-103 | both counters 0, no lock, default drawer widths |
| AppShell.Shell.LockMouseGuard | src/shell/shell.ts:180-185 | the acquire rule, with a change event when the count is not 0; the whole state is `GuardLocked` of the old one |
| AppShell.Shell.UnlockMouseGuard | src/shell/shell.ts:187-192 | the release rule, with a change event at 0; the whole state is `GuardUnlocked` of the old one |
| AppShell.Shell.LockScroll | src/shell/shell.ts:194-199 | the acquire rule; the body overflow becomes hidden; the whole state is `ScrollLocked` of the old one |
| AppShell.Shell.UnlockScroll | src/shell/shell.ts:201-206 | the release rule; the body overflow becomes auto at 0; the whole state is `ScrollUnlocked` of the old one |
| AppShell.GuardUnlockedTimesFrame | src/shell/shell.ts:187-192 | repeated guard unlocks change only the guard and append events |
| AppShell.GuardUnlockedTimesAdd | src/shell/shell.ts:187-192 | `a` unlocks then `b` unlocks are `a + b` unlocks |
| AppShell.ScrollPairRestores | src/shell/shell.ts:194-206 | from a consistent lock, a lock then an unlock gives the shell back except the body overflow, `auto` with no other lock held and `hidden` otherwise |
| AppShell.GuardPairRestores | src/shell/shell.ts:180-192 | from a consistent guard, a lock then an unlock gives the guard back and appends the `true` change, then the `false` change when no other lock is held |
| AppShell.Shell.HandleResize | src/shell/shell.ts:169-178 | collapsed iff narrower than 700; maximum drawer width = width − 320 |
| AppShell.Shell.FirstUpdated | src/shell/shell.ts:153-167 | resizes, then opens the drawer iff not collapsed |
| AppShell.Shell.HandleUpActionClick | src/shell/shell.ts:265-267 | toggles the drawer |
| AppShell.Shell.HandleDrawerResize | src/shell/shell.ts:269-273 | stores the clamped width |
| AppShell.Shell.AdjustedDrawerWidth | src/shell/shell.ts:290 | the render-time clamp |
| AppShell.Shell.HandleSwipe | src/shell/shell.ts:133-147 | events without pointers are ignored; otherwise the swipe rule at `pageX − deltaX` |
| Dialogs.DialogStack.constructor | dialog/dialog.ts:27-29 | the shared z-index starts at 20000 |
| Dialogs.AddListener | dialog/dialog.ts:230-232 | `addEventListener` registers a listener once |
| Dialogs.RemoveListener | dialog/dialog.ts:251-253 | `removeEventListener` unregisters it |
| Dialogs.RemoveListenerKeeps | dialog/dialog.ts:251-253 | other registrations stay; removing an absent one changes nothing |
| Dialogs.MoveOffset | dialog/dialog.ts:242-243 | the offset is at least 0, at most window − size when that is non-negative, and centred when in range |
| Dialogs.Clamp | dialog/dialog.ts:279-280 | the mouse is clamped into the window |
| Dialogs.DragNearEdge | dialog/dialog.ts:284-294 | left/top drags keep the far edge fixed and respect the minimum size |
| Dialogs.DragFarEdge | dialog/dialog.ts:295-303 | right/bottom drags keep the offset, with size `max(mouse − start, minimum)` |
| Dialogs.FznDialog.constructor | dialog/dialog.ts:71-117 | not floating, not locked, minimum sizes 0 |
| Dialogs.FznDialog.LockScroll | dialog/dialog.ts:144-151 | takes one shell scroll lock only when not locked already: the whole shell becomes `ScrollLocked` of the old shell (`Acquire`, body overflow hidden unless the count reaches 0, every other field kept), and stays as it was otherwise |
| Dialogs.FznDialog.UnlockScroll | dialog/dialog.ts:153-160 | gives back the shell scroll lock only when locked: the whole shell becomes `ScrollUnlocked` of the old shell (`Release`, body overflow `auto` at 0, every other field kept), and stays as it was otherwise |
| Dialogs.FznDialog.SetFloating | dialog/dialog.ts:78-90 | acts only on change: floating makes the whole shell `ScrollUnlocked` if the lock was held, docking makes it `ScrollLocked` if not; in every other case the shell is unchanged |
| Dialogs.FznDialog.BringToFront | dialog/dialog.ts:162-164 | takes the counter, then increments it |
| Dialogs.FznDialog.ConnectedCallback | dialog/dialog.ts:124-132 | locks scroll, the whole shell becoming `ScrollLocked` unless already held, and brings the dialog to the front |
| Dialogs.FznDialog.DisconnectedCallback | dialog/dialog.ts:134-142 | unlocks scroll, the whole shell becoming `ScrollUnlocked` if held, and unchanged otherwise |
| Dialogs.FznDialog.HandleClick | dialog/dialog.ts:166-172 | a floating dialog comes to the front |
| Dialogs.FznDialog.Close | dialog/dialog.ts:174-176 | one `close` event |
| Dialogs.FznDialog.InternalClose | dialog/dialog.ts:182-192 | closes only when internal close is allowed |
| Dialogs.FznDialog.HandleKeyDown | dialog/dialog.ts:208-215 | Escape closes through the gate |
| Dialogs.FznDialog.HandleBackdropClick | dialog/dialog.ts:202-206 | a click on a trigger zone closes through the gate |
| Dialogs.FznDialog.HandleMoveMousemove | dialog/dialog.ts:235-244 | both offsets follow the move rule |
| Dialogs.FznDialog.HandleMoveMousedown | dialog/dialog.ts:221-233 | locks the mouse guard (the whole shell becomes `GuardLocked`: `Acquire`, its change event, the scroll lock and every other field kept), comes to the front, moves, registers three listeners |
| Dialogs.FznDialog.HandleMoveMouseup | dialog/dialog.ts:246-254 | unlocks the guard (the whole shell becomes `GuardUnlocked`, with its change event at 0 and nothing else changed) and removes the three listeners |
| Dialogs.FznDialog.HandleResizeMousemove | dialog/dialog.ts:272-329 | the edge rules by handle: `t`/`b` keep X, `l`/`r` keep Y |
| Dialogs.FznDialog.HandleResizeStart | dialog/dialog.ts:256-270 | locks the guard (the whole shell becomes `GuardLocked`), comes to the front, resizes once, registers a mousemove closure and a mouseup closure |
| Dialogs.FznDialog.HandleResizeMouseupAsWritten | dialog/dialog.ts:331-337 | as written: unlocks the guard (the whole shell becomes `GuardUnlocked`) and removes only the mousemove closure |
| Dialogs.FznDialog.HandleResizeMouseup | dialog/dialog.ts:331-337 | corrected: unlocks the guard (the whole shell becomes `GuardUnlocked`) and also removes its own mouseup registration |
| Dialogs.FznDialog.WindowMouseUp | dialog/dialog.ts:269 | a window mouseup runs every registered mouseup listener once, on a snapshot; the guard ends as `ReleaseTimes` of the unlocks `Dispatch` counts, and the whole shell as `GuardUnlockedTimes` of them |
| Dialogs.FznDialog.FireOne | dialog/dialog.ts:246-254 | one listener's effect on the registrations and the guard; the whole shell becomes `GuardUnlockedTimes` of that listener's unlocks |
| Dialogs.ReleaseTimesDrained | src/shell/shell.ts:187-192 | n releases in closed form |
| Dialogs.EndResize | dialog/dialog.ts:331-337 | a resize mouseup unlocks once, and as written leaves its mouseup closure registered |
| Dialogs.RemoveDragAfterResize | dialog/dialog.ts:250-253 | each drag registration comes off by itself; a leftover resize closure stays in place |
| Dialogs.FireDragEnd | dialog/dialog.ts:246-254 | the drag's own mouseup clears its three registrations and gives back one lock, with or without the leftover closure |
| Dialogs.EndDrag | dialog/dialog.ts:246-254 | a move mouseup unlocks once and leaves nothing registered |
| Dialogs.EndDragAfterResizeAsWritten | dialog/dialog.ts:269 | after a resize, as written, the next drag's mouseup unlocks twice |
| Dialogs.ResizeThenDragAsWritten | dialog/dialog.ts:331-337 | as written: resize, release, drag, release, drag leaves the guard off with 0 locks while dragging |
| Dialogs.ResizeThenDrag | dialog/dialog.ts:331-337 | corrected: the same sequence leaves one lock and the guard on |
| Mixins.LowerIfTruthy | base/variant-mixin.ts:39 | truthy strings are lower-cased; falsy values pass through |
| Mixins.LowerIfTruthyIdempotent | base/variant-mixin.ts:39-45 | lower-casing is idempotent |
| Mixins.Controllable.constructor | src/base/controllable-mixin.ts:43-49 | the internal value starts at the default; uncontrolled |
| Mixins.Controllable.Value | src/base/controllable-mixin.ts:72-74 | the prop value when controlled, else the internal value |
| Mixins.Controllable.ConnectedCallback | src/base/controllable-mixin.ts:36-40 | resets the internal value to the default |
| Mixins.Controllable.SetInternalValue | src/base/controllable-mixin.ts:55-67 | changes the internal value only when uncontrolled; always one `change` event with the value |
| Mixins.Controllable.SetValue | src/base/controllable-mixin.ts:76-80 | stores the prop value; `undefined` returns reads to the internal value |
| Mixins.NormalizeSize | base/sized-mixin.js:28-35 | a valid lower-cased size is kept; otherwise `'m'`, or `null` with `noDefaultSize` |
| Mixins.NormalizeSizeIdempotent | base/sized-mixin.js:28-38 | normalising a normalised size changes nothing |
| Mixins.DefaultSizesInsensitive | base/sized-mixin.js:19 | default sizes survive in any capitalisation |
| Mixins.UnknownSizeFallsBack | base/sized-mixin.js:30-35 | an unknown size gives `'m'`, or `null` |
| Mixins.Sized.constructor | base/sized-mixin.js:21-24 | the initial size is `'m'` |
| Mixins.Sized.Size | base/sized-mixin.js:25-27 | `_size \|\| 'm'` |
| Mixins.Sized.SetSize | base/sized-mixin.js:28-45 | stores the normalised size; a value that is already stored is a no-op; the getter stays valid or `'m'` |
| Mixins.Sized.FirstUpdated | base/sized-mixin.js:46-51 | reflects the size into a missing attribute unless `noDefaultSize` |
| Mixins.Variant.constructor | base/variant-mixin.ts:54 | the initial variant is the default |
| Mixins.Variant.VariantValue | base/variant-mixin.ts:34-36 | `_variant \|\| defaultVariant` |
| Mixins.Variant.SetVariant | base/variant-mixin.ts:38-52 | stores the lower-cased variant unvalidated; an unchanged value is a no-op |
| Mixins.Variant.FirstUpdated | base/variant-mixin.ts:56-63 | sets a missing attribute when a default variant exists |
| TabBar.FindActive | tabs/tabs.ts:21-25 | the first active tab with a truthy key |
| TabBar.FindKey | tabs/tabs.ts:27-31 | the first tab with the key |
| TabBar.SetActive | tabs/tabs.ts:46-49 | sets one tab's flag, nothing else |
| TabBar.SlotChange | tabs/tabs.ts:41-51 | keeps every tab and key |
| TabBar.SlotChangeSpec | tabs/tabs.ts:41-51 | a tab ends active iff it is the key match for a non-empty value, or it was active and is not the old active tab |
| TabBar.KeysUnchanged | tabs/tabs.ts:41-51 | rows with the same keys, whatever their active flags, give the same `getTabByKey` result for every key |
| TabBar.FindKeyUnchanged | tabs/tabs.ts:41-51 | the key search is unaffected by activation |
| TabBar.SlotChangeSelects | tabs/tabs.ts:41-51 | with one active tab at most, exactly the key match (or none for an empty value) is active after |
| TabBar.SlotChangeIdempotent | tabs/tabs.ts:33-39 | with one active tab at most, a second slot change changes nothing |
| TabBar.SlotChangeTimesSucc | tabs/tabs.ts:33-39 | n + 1 runs are one more run |
| TabBar.SlotChangeTimesOnce | tabs/tabs.ts:33-39 | with one active tab at most, any number of runs is one run |
| TabBar.WatchedCount | tabs/tabs.ts:34-38 | at most one rerun per changed property |
| TabBar.WatchedCountZero | tabs/tabs.ts:34-38 | no rerun exactly when neither `value` nor `internalValue` changed |
| TabBar.Tab.constructor | tabs/tabs.ts:76-96 | an inactive tab with its key, disabled flag and router href |
| TabBar.Tab.HandleClick | tabs/tabs.ts:99-113 | a disabled tab swallows the click; otherwise a truthy `routerHref` goes through `handleHrefClick` |
| TabBar.Tabs.constructor | tabs/tabs.ts:15 | the tabs with their controllable value |
| TabBar.Tabs.Rows | tabs/tabs.ts:22-23 | one row per assigned slot node, as `activeTab` and `getTabByKey` see it |
| TabBar.Tabs.ActiveTab | tabs/tabs.ts:21-25 | an active tab with a truthy key |
| TabBar.Tabs.GetTabByKey | tabs/tabs.ts:27-31 | a tab with the key |
| TabBar.Tabs.HandleSlotChange | tabs/tabs.ts:41-51 | the tabs end as the slot-change function gives |
| TabBar.Tabs.SetTabActive | tabs/tabs.ts:46-49 | one tab's flag changes |
| TabBar.Tabs.Updated | tabs/tabs.ts:33-39 | one slot change per watched property that changed |

## Left out

- Regex engine: `pathToRegexp` and `RegExp` matching are not modelled. `compilePath` is modelled only as string construction. Route matching takes the library as a `PathMatcher` parameter, and the page router takes its regex tests as a function parameter.
- RouterUtils: `handleRouteClick` and the `console.log` in `router/utils.ts` are left out. So are the click wrappers in `src/router/utils.ts`, `utils/router.ts` and `utils/router.js`, which are thin copies of `handleHrefClick`.
- Navigation: history `listen`, the `beforeunload` listener registration and `destroy` are I/O. History calls are a log of `Push`, `Replace` and `GlobalBack`; `GlobalBack` is the global `history.back()`.
- Navigation.Router.HandleBeforeUnload: setting `returnValue` on the event is left out; the model returns the message.
- Switching: the `router` setter (a listener swap on the router element) and rendering are left out. `buildSwitches` yields a classification, not templates.
- RouteMatching.Route.HandleNavigate: the `path` attribute is a string parameter. A route without one, on which `this.getAttribute('path').split(',')` throws (`src/router/route.ts:137`), is not modelled; the same holds for RouteMatching.Route.HandleNavigateIntended.
- Switching.FirstActive: `querySelector('[slot="active"]')` searches all descendants, but the model scans only the switch's own children. A nested switch's active child, found first by the source, is not modelled.
- Switching.Switch.GetRoute: the `typeof barePath === 'string'` test always holds for an attribute that exists and is not modelled. A child route without a `path` attribute is out of the model.
- PageRouter: the `paths` setter's `pathsMap`, `updateProps`, the `routerContext` setter and `firstUpdated` are left out. So are DOM insertion and removal of the page instance. The routes are replaced wholesale, not compared by identity.
- PageRouter.Router.LoadRoute: `onCreate` receives the previous instance (`instanceAny`) as written; the model logs which instance that was rather than calling a foreign function.
- PageRouter.ArrayProps: `Object.entries` order for integer keys is not modelled; props are a map.
- Placement: element geometry, the viewport, `takeOrEvaluate`, the debounce and `ResizeObserver`, class-list and style writes, outside-click and focus detection, and the `CONTEXT_MENUS` registry are left out. Coordinates are integers, not floating point, and the margins are taken as given.
- Placement.Reposition: it uses the corrected element bounds (`ResolveBounds`), not the shadowed top and left of `context-menu/context-menu.ts:346-351`, which leave them null and read as 0. The as-written bounds are `ResolveBoundsAsWritten`, and `AsWrittenAcceptsOutside` exhibits the difference (see "Findings").
- Placement.Reposition: `alignX`/`alignY` values other than `left`/`right` and `top`/`bottom` are outside the typed model. An unknown direction string is modelled as a missing direction, which behaves as `down`.
- Listeners: listener `options` (capture, once, passive) are not modelled. The browser's own listener lists are a call log, and listener identities are numbers.
- Listeners.EnhancedEventTarget: the fields read through `this[key]` and the ones written through `model` are one map, `state`. That holds for the default `model = this` (`utils/events.ts:21`); a `model` set to another object is not modelled.
- Listeners.EnhancedEventTarget.ApplyChange: `!==` is modelled as datatype inequality. `NaN` and object identity are not modelled.
- Arrays.ChunkArray: a fractional `size` is not modelled; sizes are integers.
- TreeView: each tree drains only the listeners it registered. Listeners that other trees registered on the same window are not interleaved with them. The listener reads the root at mouseup time, while the source captures it at drag start.
- TreeView.PlacementPosition: `offsetY`, the bounding-rectangle `y` values and `offsetHeight` are integers; the source's are floating-point numbers, so fractional coordinates are not modelled. For whole numbers the doubled comparison is exactly `offsetY - (currentTargetY - targetY) > offsetHeight / 2`. TreeView.Tree.HandleMouseMove inherits this.
- TreeView: rendering, the `node-mutation`/`item-click`/`item-contextmenu` re-dispatch, and `preventDefault`/`stopPropagation` are left out. The one-time mouseup listener is a queue of pending listeners.
- AppShell: Hammer wiring, `initMobileScreen`, content-title handling, computed-style reads, the `ResizeObserver`, events other than the change log, and the `setTimeout` in `shell/shell.js:116` are left out.
- AppShell.ClampDrawer: `Math.min` with a `null` maximum is modelled as 0, which is what JavaScript coerces `null` to.
- Dialogs: `didOpen` (focus via `requestAnimationFrame`, body append), rendering, `DialogFactory`, `console.log` and the `blur` listener's event argument are left out. So are the listeners a dialog puts on its own element: the `click` listener `connectedCallback` adds (`dialog/dialog.ts:131`), and the `keydown`/`click` removals in `disconnectedCallback` (`dialog/dialog.ts:138-139`); only window listeners are modelled. Sizes are real numbers because the move rule halves them.
- Mixins: Lit's `requestUpdate` is a log of the previous values it is passed. Locale-aware lower-casing is modelled as ASCII lower-casing only.
- Mixins.Controllable: the prop value is an `Option`, with `None` for `undefined`, so a `null` value cannot be represented. A removed `value` attribute gives `null`, which the source counts as controlled (`src/base/controllable-mixin.ts:45-47`, `72-74`); `TabBar.Tabs.control` inherits this.
- TabBar: `tabs/tabs.ts` navigates through `this.router`, while `tabs/tabs.js` uses `this.routerContext` and the `utils/router.js` wrapper. Both are modelled as "a router is present". The slotted tab elements are assumed distinct (`DistinctTabs`).
- TabBar.SlotChangeIdempotent: proved only with at most one active tab. With more, a second run can deactivate another tab, so `updated` running the handler twice is not idempotent in general.

## Findings

| source | as written | input that shows it | evidently intended | confidence | as-written member | corrected member |
|---|---|---|---|---|---|---|
| src/router/route.ts:184-186 | a non-matching alternative `return`s from `handleNavigate` | `path="/a,/b"` navigated to `/b`: `/a` misses and `/b` is never tried | `continue` to the next alternative, so the first matching one wins | not executed | RouteMatching.Route.HandleNavigate | RouteMatching.Route.HandleNavigateIntended |
| context-menu/context-menu.ts:346-351 | `const { top: boundTop, left: boundLeft }` shadows the outer variables, so the outer `boundTop`/`boundLeft` stay `null` (read as 0) and only right and bottom are offset | an element bound at top 100 with height 200: a 50px menu at y = 10 passes the vertical test | the outer bounds take the element's top and left | not executed | Placement.AsWrittenAcceptsOutside | Placement.ElementBoundsContain |
| dialog/dialog.ts:331-337 | the resize mouseup closure unlocks the guard but never removes its own window listener | resize, release, then drag twice: the late closure unlocks again, leaving 0 locks and no guard while dragging | the mouseup closure removes itself, as `handleMoveMouseup` does | not executed | Dialogs.ResizeThenDragAsWritten | Dialogs.ResizeThenDrag |
