# EzUI panel system — a Dafny model

EzUI is a Unity UI framework. Its core is the panel system, `UISystem`.

**Requests and the queue.** The system takes requests from game code and from dispatched request events. Requests are show, hide, close, toggle, destroy and destroy-all, for a resource path, a panel class or a panel instance. Each request becomes an operation handle, and the handles run one at a time from a FIFO queue. A drain starts when the first handle is queued. It suspends only while a panel animation plays, and it resumes when the animation ends.

**Panels.** Every panel follows the life cycle Hidden → Shown → Hidden → Closed. Closed is meant to be terminal (see "## Findings"), and the model enforces it. `SetState` announces each change to the system, which dispatches state events.

**Refresh.** After every visible change the system refreshes its registry. It drops destroyed panels and sorts the rest: shown first, then higher layer, then higher sibling index. It gives the modal mask to the topmost visible panel that uses the mask, and the input focus to the topmost visible focus holder.

**Special panels.**
- Main screens (`IMainUI`) switch through a flow that closes or hides every other panel.
- Pop-ups (`PopUI`) react to clicks on the mask and to "close the top pop-up".
- Persistent panels survive closing and unforced destruction.
- Each panel may push an input scheme onto a stack whose top entry is the current scheme.

## Modules

- `ui_types.dfy` (`UITypes`): the enums, nullable values, colours, settings, and `string.IsNullOrWhiteSpace`.
- `lifecycle.dfy` (`Lifecycle`): the panel state machine on plain values. It covers what each system operation and each panel operation does to a panel's state, its `isShowing`/`isHiding` marks and its activity, and what the end of an animation commits.
- `resolver.dfy` (`Resolver`): the sort comparator of `SortUI`, the insertion sort on sequences, and the first-match scans of `RefreshUI` and `OnMaskClick`.
- `input_schemes.dfy` (`InputSchemes`): the owner/scheme stack behind `SetInputScheme`.
- `path_resolution.dfy` (`PathResolution`): `GetPath`, the panel path format and `ResolvePath`.
- `pop_ui.dfy` (`PopUIPolicy`): the mask-click policy of `PopUI` and the scan of `AutoCloseTopPopUI`.
- `requests.dfy` (`Requests`): which API call each request event handler makes.
- `animation_editor_utility.dfy` (`AnimationEditorUtility`): the inspector helpers that list the animation component types and their drop-down labels.
- `ui_system.dfy` (`EzUI`): the classes `Panel`, `OperationHandle` and `UISystem`. Their fields are updated in place as in the source. Each method states the new state through the functions of the modules above.

### Conventions

- **Destroyed objects.** Unity's "destroyed object" is the set `UISystem.destroyed`. Unity's overloaded `==`/`!=` on panels is `IsLive`/`UnityEq`. `Object.Destroy` is deferred: `DestroyInternal` sets `destroyRequested`, and the environment step `EndOfFrame` moves the requested panels into `destroyed`.
- **Animation tokens.** A token is a per-panel generation counter. Starting or cancelling a token moves the counter on, so an older token is no longer current.
- **The drain.** `suspended` records the animation the drain awaits. The environment step `AnimationFinished` ends that animation and runs the queue on.
- **Events and callbacks.** Dispatched events, log warnings and panel callbacks are appended to the log `UISystem.events`.

## Model

| member | source | states |
|---|---|---|
| Lifecycle.Visible | Runtime/Core/Panel.cs:162 | `IsVisible`: Shown, or Hidden with a show animation running. `SystemShowSpec` and `AutoCloseKeepsInvisible` use it. |
| Lifecycle.Commit | Runtime/Core/Panel.cs:174-183 | Corrected `SetState`: Closed is terminal. `ClosedIsTerminal` and `ClosedPanelStaysClosed` state it. |
| Lifecycle.CommitAsWritten | Runtime/Core/Panel.cs:174-183 | `SetState` as written moves to any state. `ClosedPanelReopensAsWritten` shows it leaving Closed. |
| Lifecycle.Notifications | Runtime/Core/Panel.cs:174-183 | The changes a run of `SetState` calls reports. `CloseNotifications` and `NotificationsAreChanges` specify it. |
| Lifecycle.CommitAll | Runtime/Core/Panel.cs:174-183 | The state after a run of `SetState` calls. `CloseNotifications` and `NotificationsAreChanges` specify it. |
| Lifecycle.SystemShow | Runtime/Core/UISystem.Operations.cs:251-286 | `SystemShowAsync` on the flags. `SystemShowSpec` and `ClosedIsTerminal` specify it. |
| Lifecycle.SystemHide | Runtime/Core/UISystem.Operations.cs:299-340 | `SystemHideAsync` on the flags. `SystemHideIdempotent` and `ClosedIsTerminal` specify it. |
| Lifecycle.SystemClose | Runtime/Core/UISystem.Operations.cs:349-394 | `SystemCloseAsync` on the flags. `SystemCloseSpec` and `ClosedIsTerminal` specify it. |
| Lifecycle.SystemFinish | Runtime/Core/UISystem.Operations.cs:277-393 | The end of a system animation. `SupersededFinishCommitsNothing`, `SystemCloseSpec` and `ClosedIsTerminal` specify it. The commit goes through the corrected `SetState`. |
| Lifecycle.PanelShow | Runtime/Core/Panel.cs:288-312 | `Panel.ShowAsync` on the flags. `PanelOperationsSpec` and `ClosedIsTerminal` specify it. |
| Lifecycle.PanelHide | Runtime/Core/Panel.cs:245-268 | `Panel.HideAsync` on the flags. `PanelOperationsSpec` and `ClosedIsTerminal` specify it. |
| Lifecycle.PanelClose | Runtime/Core/Panel.cs:319-347 | `Panel.CloseAsync` on the flags. `PanelOperationsSpec` and `ClosedIsTerminal` specify it. |
| Lifecycle.PanelFinish | Runtime/Core/Panel.cs:245-347 | The end of a panel's own animation, with the corrected `SetState`. `ClosedPanelStaysClosed` and `ClosedIsTerminal` specify it. |
| Lifecycle.PanelFinishAsWritten | Runtime/Core/Panel.cs:245-347 | The same with `SetState` as written. `ClosedPanelReopensAsWritten` specifies it. |
| Lifecycle.CloseNotifications | Runtime/Core/UISystem.Operations.cs:357-370 | Closing commits Hidden then Closed. From Shown that reports Shown→Hidden and Hidden→Closed. From Hidden it reports only Hidden→Closed. From Closed it reports nothing. The panel always ends Closed. |
| Lifecycle.NotificationsAreChanges | Runtime/Core/Panel.cs:174-183 | Over any run of `SetState` calls: every report is a real change, the reports chain, and a Closed panel reports nothing and stays Closed. |
| Lifecycle.ClosedIsTerminal | Runtime/Core/Panel.cs:174-183 | No system or panel show/hide/close leaves Closed. No end of an animation leaves Closed, with the corrected `SetState`. |
| Lifecycle.SystemShowSpec | Runtime/Core/UISystem.Operations.cs:251-286 | The system show acts only on Hidden panels. Without animation the panel ends Shown, active and not marked showing. The show waits exactly when it animates a panel that has an animation component, and the panel is visible meanwhile. |
| Lifecycle.SystemHideIdempotent | Runtime/Core/UISystem.Operations.cs:299-340 | A hide leaves Closed and invisible Hidden panels alone. A second hide without animation changes nothing. A hide never leaves a panel Shown. |
| Lifecycle.SystemCloseSpec | Runtime/Core/UISystem.Operations.cs:349-394 | A close leaves a Closed panel alone. Otherwise the panel ends Closed, inactive and not marked hiding: at once without animation, and at the end of an animation whose token is current. |
| Lifecycle.SupersededFinishCommitsNothing | Runtime/Core/UISystem.Operations.cs:277-285 | When the token was cancelled, the end of the animation keeps the state and the activity, and clears only its own mark. |
| Lifecycle.PanelOperationsSpec | Runtime/Core/Panel.cs:245-347 | The panel's own show acts only from Hidden and its hide only from Shown. Without animation they end Shown or Hidden with the mark cleared, and a close ends Closed. |
| Lifecycle.ClosedPanelReopensAsWritten | Runtime/Core/Panel.cs:288-312 | With `SetState` as written, a panel closed while its own show animation plays is Shown again when the animation ends. |
| Lifecycle.ClosedPanelStaysClosed | Runtime/Core/Panel.cs:174-183 | With Closed terminal, the end of a panel animation leaves a Closed panel Closed. This includes the run above. The end of a system show animation also leaves Closed a panel that closed itself with `Close(false)` while the animation played. |
| Lifecycle.AutoCloseFlags | Runtime/Core/UISystem.MainUI.cs:30-43 | A panel's answer to an auto-close reason, without animation. `AutoCloseKeepsInvisible` specifies it. |
| Lifecycle.MainSwitch | Runtime/Core/UISystem.MainUI.cs:45-63 | What a main-screen switch does to one panel. `MainSwitchSpec` specifies it. |
| Lifecycle.MainSwitchSpec | Runtime/Core/UISystem.MainUI.cs:45-63 | A main-screen switch leaves no panel that must make way Shown. A persistent panel ends Hidden and is never closed. A panel answering Close ends Closed. Main screens and panels answering None are untouched. A second switch changes nothing. |
| Lifecycle.AutoCloseKeepsInvisible | Runtime/Core/UISystem.MainUI.cs:30-63 | An invisible panel stays invisible through any automatic close. It ends Hidden unchanged, or Closed. |
| Lifecycle.Toggle | Runtime/Core/UISystem.Operations.cs:160-182 | `ExecuteToggleAsync` on a found panel. `ToggleTwice` specifies it. |
| Lifecycle.ToggleTwice | Runtime/Core/UISystem.Operations.cs:160-182 | Without animation a toggle flips Hidden and Shown, two toggles give back the starting state, and Closed is left alone. |
| Lifecycle.DestroyFlags | Runtime/Core/UISystem.Operations.cs:184-198 | The hide before a destruction. `DestroyFlagsSpec` specifies it. |
| Lifecycle.DestroyFlagsSpec | Runtime/Core/UISystem.Operations.cs:184-198 | No panel is destroyed Shown: a Shown panel is Hidden and inactive first, any other keeps its flags, and the step is idempotent. |
| Resolver.CompareInt | Runtime/Core/UISystem.Rendering.cs:47-64 | `int.CompareTo` is zero exactly on equal values and negative exactly when the first value is smaller. |
| Resolver.Compare | Runtime/Core/UISystem.Rendering.cs:47-64 | The `SortUI` comparator. `CompareAntisymmetric`, `BeforeTotalPreorder` and `ShownFirst` specify it. |
| Resolver.Before | Runtime/Core/UISystem.Rendering.cs:47-64 | "May stand before" under the comparator. `BeforeTotalPreorder` and `ShownFirst` specify it. |
| Resolver.CompareAntisymmetric | Runtime/Core/UISystem.Rendering.cs:47-64 | The `SortUI` comparator is antisymmetric. It ties exactly on equal shown flag, layer and sibling index. |
| Resolver.BeforeTotalPreorder | Runtime/Core/UISystem.Rendering.cs:47-64 | The comparator's order is total and transitive, so sorting by it is well defined. |
| Resolver.ShownFirst | Runtime/Core/UISystem.Rendering.cs:47-64 | A shown panel strictly precedes every panel that is not shown. |
| Resolver.SortedByGivesSorted | Runtime/Core/UISystem.Rendering.cs:47-64 | A panel list sorted through its views gives a sorted sequence of views. |
| Resolver.InsertByView | Runtime/Core/UISystem.Rendering.cs:47-64 | Inserting into a sorted list adds exactly the new element and keeps the list sorted. |
| Resolver.SortByView | Runtime/Core/UISystem.Rendering.cs:47-64 | The sort returns a permutation of its input in comparator order. |
| Resolver.FirstIndex | Runtime/Core/UISystem.API.cs:192-240 | A found index is in range and meets the criterion. |
| Resolver.FirstIndexIsFirst | Runtime/Core/UISystem.API.cs:192-240 | The search finds nothing exactly when nothing matches, and no earlier entry matches. |
| Resolver.FirstMatchIsTopmost | Runtime/Core/UISystem.API.cs:192-240 | In a sorted list the first match precedes every other match: the mask and the focus go to the topmost candidate. |
| Resolver.ScanMaskAndFocus | Runtime/Core/UISystem.API.cs:192-240 | The single scan with its early exit finds the same mask target and focus holder as two separate first-match searches. |
| InputSchemes.RemoveOwner | Runtime/Core/UISystem.API.cs:326-330 | Removing an owner keeps only entries of the list, and none of them is the owner's. |
| InputSchemes.RemoveOwnerKeepsOthers | Runtime/Core/UISystem.API.cs:326-330 | Every entry of another owner survives the removal. |
| InputSchemes.RemoveAbsentOwner | Runtime/Core/UISystem.API.cs:326-330 | Removing an owner that has no entry leaves the list unchanged. |
| InputSchemes.RemoveOwnerAppend | Runtime/Core/UISystem.API.cs:326-330 | Removal distributes over appending an entry. |
| InputSchemes.RemoveOwnerKeepsUnique | Runtime/Core/UISystem.API.cs:326-330 | Removal keeps owners unique. |
| InputSchemes.Upsert | Runtime/Core/UISystem.API.cs:326-333 | `SetInputScheme` on the list. `UpsertSpec` and `PushThenClearRestores` specify it. |
| InputSchemes.Effective | Runtime/Core/UISystem.API.cs:335 | The top entry's scheme, or the default on an empty list. `UpsertSpec` specifies it. |
| InputSchemes.UpsertSpec | Runtime/Core/UISystem.API.cs:322-349 | After a set, owners are still unique. A scheme that is not blank is the effective one. A blank scheme leaves the owner without an entry. Other owners' entries are kept. |
| InputSchemes.PushThenClearRestores | Runtime/Core/UISystem.API.cs:322-349 | Stack discipline: an owner that sets a scheme and then clears it gives back the exact previous list. |
| InputSchemes.RemoveOwnerBackwards | Runtime/Core/UISystem.API.cs:326-330 | The backwards `RemoveAt` loop removes exactly the owner's entries and keeps the order of the rest. |
| InputSchemes.RemoveAtStep | Runtime/Core/UISystem.API.cs:326-330 | One step of the backwards walk extends the cleaned suffix by one entry. |
| InputSchemes.PrependRemove | Runtime/Core/UISystem.API.cs:326-330 | Removal distributes over prepending an entry. |
| PathResolution.PathFormatOf | Runtime/Core/UISystem.cs:103-104 | The configured format is used when it is not blank, otherwise `UI/{0}`. The result is never blank. |
| PathResolution.FormatPath | Runtime/Core/UISystem.API.cs:464 | `string.Format` with the one item `{0}`. `FallbackFormatPath` specifies it. |
| PathResolution.FallbackFormatPath | Runtime/Core/UISystem.API.cs:458-465 | With the fallback format a class's path is `UI/` followed by its name. |
| PathResolution.GetPath | Runtime/Core/UISystem.API.cs:458-465 | A bound path that is not blank wins. Otherwise, under the fallback format, the path is `UI/<class name>`. |
| PathResolution.ResolvePath | Runtime/Core/UISystem.Events.cs:10-17 | An explicit path that is not blank wins. Otherwise the panel class's path is used, and null when there is no class. |
| PathResolution.ResolvedPathIsUsable | Runtime/Core/UISystem.Events.cs:10-17 | A request naming a path or a class resolves to a usable path, and resolving that path again returns it. |
| Requests.Translate | Runtime/Core/UISystem.Events.cs:47-126 | Each request handler's call. `TranslateSpec`, `MainRequestsAreShows` and `TranslateRoundTrip` specify it. |
| Requests.TranslateSpec | Runtime/Core/UISystem.Events.cs:47-126 | A handler drops a request exactly when its target resolves to null or white space. Otherwise it calls the API with the resolved path. |
| Requests.MainRequestsAreShows | Runtime/Core/UISystem.Events.cs:92-104 | The show-main and switch-main requests are handled exactly like a show request. |
| Requests.NamedRequestsAreHandled | Runtime/Core/UISystem.Events.cs:47-123 | With the fallback format, a request naming a usable path or any panel class is never dropped. |
| Requests.TranslateRoundTrip | Runtime/Core/UISystem.Events.cs:47-126 | Every API call with a usable path is produced by some request, so translation is onto these calls. |
| PopUIPolicy.FromRaw | Runtime/Core/PopUI.cs:21-28 | The enum value a raw integer denotes. `MaskClickRoundTrip` specifies it. |
| PopUIPolicy.OnMaskClick | Runtime/Core/PopUI.cs:82-103 | `PopUI.OnMaskClick`'s action. `MaskClickRoundTrip` specifies it. |
| PopUIPolicy.MaskClickRoundTrip | Runtime/Core/PopUI.cs:82-103 | Each action comes from exactly one named operation. Named values never throw. An integer outside 0..4 throws `ArgumentOutOfRangeException`. |
| PopUIPolicy.PopDefaults | Runtime/Core/PopUI.cs:30-41 | A default pop-up ignores mask clicks, hides on "close the top pop-up" and closes when the main screen changes. |
| PopUIPolicy.TopPopTarget | Runtime/Core/UISystem.API.cs:792-809 | The chosen index is a shown pop-up. |
| PopUIPolicy.TopPopTargetSpec | Runtime/Core/UISystem.API.cs:792-809 | The target is marked Hide or Close, and every shown pop-up before it is marked Ignore. With no target, a shown pop-up marked None comes first. |
| PopUIPolicy.TopPopTargetSkips | Runtime/Core/UISystem.API.cs:794-808 | Skipping a prefix of shown pop-ups marked Ignore does not change the outcome. |
| AnimationEditorUtility.NameLe | Editor/UIAnimationEditorUtility.cs:16 | Ordinal name order, the order the model sorts by. `NameLeTotalPreorder` and `NameLeAntisymmetric` specify it. |
| AnimationEditorUtility.NameLeTotalPreorder | Editor/UIAnimationEditorUtility.cs:16 | Ordinal name order is total and transitive. |
| AnimationEditorUtility.NameLeAntisymmetric | Editor/UIAnimationEditorUtility.cs:16 | Two names are tied exactly when they are equal, so stability for equal names is stability for every tie. |
| AnimationEditorUtility.Offers | Editor/UIAnimationEditorUtility.cs:11-18 | Only types that are not null, not abstract and not generic pass the filter. |
| AnimationEditorUtility.OffersMembers | Editor/UIAnimationEditorUtility.cs:11-18 | A type passes the filter exactly when it is a derived type that meets the conditions. |
| AnimationEditorUtility.NamedAppend | Editor/UIAnimationEditorUtility.cs:16 | Taking the types of one name distributes over concatenation. |
| AnimationEditorUtility.InsertByName | Editor/UIAnimationEditorUtility.cs:16 | Insertion adds exactly one element. `InsertByNameSorted` and `InsertByNameStable` state where it goes. |
| AnimationEditorUtility.InsertByNameSorted | Editor/UIAnimationEditorUtility.cs:16 | Insertion keeps the name order. |
| AnimationEditorUtility.InsertByNameStable | Editor/UIAnimationEditorUtility.cs:16 | The inserted type goes behind every type of its name, and the types of every other name keep their order. |
| AnimationEditorUtility.InsertPastHead | Editor/UIAnimationEditorUtility.cs:16 | Inserting behind the head keeps the head's place among the types of its name. |
| AnimationEditorUtility.InsertAtHead | Editor/UIAnimationEditorUtility.cs:16 | Inserting in front of a sorted list whose head sorts later: no listed type shares the inserted type's name. |
| AnimationEditorUtility.SortByName | Editor/UIAnimationEditorUtility.cs:16 | The stable `OrderBy(t => t.Name)`. `SortByNameSpec` and `SortByNameStable` specify it. |
| AnimationEditorUtility.SortByNameSpec | Editor/UIAnimationEditorUtility.cs:16 | Ordering by name returns a permutation of its input in ascending name order. |
| AnimationEditorUtility.SortByNameStable | Editor/UIAnimationEditorUtility.cs:16 | The ordering is stable: the types of each name keep their input order. |
| AnimationEditorUtility.GetAnimationTypes | Editor/UIAnimationEditorUtility.cs:11-18 | The filter, then the stable name ordering. `GetAnimationTypesSpec` specifies it. |
| AnimationEditorUtility.GetAnimationTypesSpec | Editor/UIAnimationEditorUtility.cs:11-18 | The drop-down lists every offered type and only those, in name order, with types of the same name in the order they were supplied. |
| AnimationEditorUtility.TypeIndex | Editor/UIAnimationEditorUtility.cs:20-32 | The drop-down index stays within the list of labels. |
| AnimationEditorUtility.TypeIndexSpec | Editor/UIAnimationEditorUtility.cs:20-32 | The index is 0 exactly for null or an unlisted type. Otherwise it is one past the first occurrence. |
| AnimationEditorUtility.FindTypeIndex | Editor/UIAnimationEditorUtility.cs:20-32 | The search loop with its early return computes that index. |
| AnimationEditorUtility.DisplayNames | Editor/UIAnimationEditorUtility.cs:34-41 | There is one more label than there are types. |
| AnimationEditorUtility.DisplayNamesSpec | Editor/UIAnimationEditorUtility.cs:34-41 | Label 0 is "None" and label i+1 is type i's name. |
| AnimationEditorUtility.SelectedLabel | Editor/UIAnimationEditorUtility.cs:20-41 | The label shown for a type is its name when it is listed, and "None" otherwise. |
| AnimationEditorUtility.BuildTypeDisplayNames | Editor/UIAnimationEditorUtility.cs:34-41 | The array holds those labels, one more than the types. |
| EzUI.Without | Runtime/Core/UISystem.Operations.cs:404-416 | `List.Remove` keeps every other element and adds none. |
| EzUI.WithoutDistinct | Runtime/Core/UISystem.Operations.cs:404-416 | In a list without repetitions, `Remove` removes the panel altogether. |
| EzUI.LiveOnly | Runtime/Core/UISystem.API.cs:179-180 | Pruning keeps exactly the live panels and no repetitions. |
| EzUI.StateEvents | Runtime/Core/UISystem.Events.cs:19-45 | The events of a state change. `StateEventsSpec` specifies it. |
| EzUI.StateEventsSpec | Runtime/Core/UISystem.Events.cs:19-45 | Every state change dispatches the generic event, then exactly one of Shown, Hidden or Close: the one of the new state. |
| EzUI.MaskColorOf | Runtime/Core/UISystem.API.cs:212 | The mask colour chain. `MaskColorFallback` specifies it. |
| EzUI.MaskColorFallback | Runtime/Core/UISystem.API.cs:212 | The panel's colour wins, then the configured colour, then black at 95% opacity. |
| EzUI.Panel.constructor | Runtime/Core/UISystem.Factory.cs:14-44 | A built panel is Hidden, inactive, unfocused and has no running transition, tasks or user data. |
| EzUI.Panel.SetState | Runtime/Core/Panel.cs:174-183 | Corrected `SetState`: Closed is terminal. A real change runs the state callback and notifies the system once. Closing the current main screen clears it. Setting the same state is silent. |
| EzUI.Panel.SetStateAsWritten | Runtime/Core/Panel.cs:174-183 | `SetState` as written: it moves to any state, Closed included. A real change runs the state callback and notifies the system once, and closing the current main screen clears it. Setting the same state is silent. |
| EzUI.Panel.Initialize | Runtime/Core/Panel.cs:110-132 | Initialisation runs the creation callback. |
| EzUI.Panel.ShowAsync | Runtime/Core/Panel.cs:288-312 | Only a Hidden panel is shown, as `PanelShow` says. The call waits when it animates. Activating a destroyed panel throws `MissingReferenceException`. |
| EzUI.Panel.BeginAnimation | Runtime/Core/Panel.cs:349-391 | The animation starts, is announced, and the call is suspended on it. |
| EzUI.Panel.HideAsync | Runtime/Core/Panel.cs:245-268 | Only a Shown panel is hidden, as `PanelHide` says. It throws exactly when the Shown panel is destroyed. Without animation the throw comes at deactivation. With animation it comes right after the refresh, because `EnsureAnimationComponent` (Panel.cs:351, :436-439) looks up the component on the destroyed object. In that case no animation starts and the panel stays marked hiding. |
| EzUI.Panel.CommitClose | Runtime/Core/Panel.cs:328-330 | The panel ends inactive and Closed from any state. |
| EzUI.Panel.CloseSteps | Runtime/Core/Panel.cs:319-347 | The close up to the queued destruction follows `PanelClose`. A destroyed panel throws instead: at deactivation, or with animation at the component lookup of Panel.cs:351, so it never waits. Without animation the hiding mark stays until the destruction is queued. |
| EzUI.Panel.CloseAsync | Runtime/Core/Panel.cs:319-347 | A Closed panel is left alone. An unanimated close of a live panel queues exactly one Destroy of it. A destroyed panel that is not Closed throws instead, with or without animation. An animated close of a live panel with an animation component waits. |
| EzUI.Panel.EndTask | Runtime/Core/Panel.cs:245-347 | The end of a panel's own animation removes exactly that suspended call and commits as `PanelFinish` says: nothing cancels it. A hide or close of a destroyed panel throws. |
| EzUI.Panel.FinishTask | Runtime/Core/Panel.cs:319-347 | As `EndTask`, and a finished close of a live panel queues exactly one Destroy of it. |
| EzUI.Panel.OnAutoClose | Runtime/Core/Panel.cs:90-106 | `mainUIChangeBehavior` decides: None does nothing, Hide hides a Shown panel, and Close closes and queues the destruction when unanimated. |
| EzUI.Panel.PopMaskClick | Runtime/Core/PopUI.cs:82-103 | It throws exactly for an operation outside the enum. None does nothing. Hide and Close act with or without animation as configured. |
| EzUI.Panel.RegisterView | Runtime/Core/Panel.cs:431-434 | Registering a view adds one view. |
| EzUI.OperationHandle.constructor | Runtime/Core/UIOperationHandle.cs:34-44 | A new handle is Pending and carries exactly the request it was made for. |
| EzUI.OperationHandle.IsCompleted | Runtime/Core/UIOperationHandle.cs:50-53 | A handle is completed exactly when it is neither queued nor running. |
| EzUI.OperationHandle.TryGetPanel | Runtime/Core/UIOperationHandle.cs:57-60 | The result panel appears only once the handle is Completed. |
| EzUI.OperationHandle.TryGetPanelOut | Runtime/Core/UIOperationHandle.cs:62-66 | The answer is true exactly when Completed with a live panel. `result` agrees with `TryGetPanel()`, even for a destroyed panel. |
| EzUI.UISystem.constructor | Runtime/Core/UISystem.API.cs:617-633 | A new system starts empty at the default input scheme, with the mask made exactly when there is a root, and meets every invariant. |
| EzUI.UISystem.InitMask | Runtime/Core/UISystem.Rendering.cs:79-108 | Without a root nothing happens. Otherwise the mask is inactive, in the settings colour, and clickable exactly as the settings allow. |
| EzUI.UISystem.SetLoadingHandler | Runtime/Core/UISystem.API.cs:66-69 | The handler is installed. |
| EzUI.UISystem.NotifyPanelStateChanged | Runtime/Core/UISystem.Events.cs:19-45 | The state events are dispatched. A panel reaching Closed while it is the main screen, by Unity's comparison, clears the main screen. |
| EzUI.UISystem.FindIndex | Runtime/Core/UISystem.API.cs:154-163 | The index is the first live panel with that path. No earlier one has it, and none at all when nothing is found. |
| EzUI.UISystem.FindUI | Runtime/Core/UISystem.API.cs:154-163 | Null exactly when no live listed panel has the path. Otherwise a live listed panel with the path. |
| EzUI.UISystem.SortUI | Runtime/Core/UISystem.Rendering.cs:47-64 | The list is permuted into comparator order. |
| EzUI.UISystem.RefreshUI | Runtime/Core/UISystem.API.cs:168-266 | Switched off, nothing changes. Otherwise the list becomes a sorted permutation of its live panels. The mask and focus go to the topmost candidates, with the colour fallback and the focus kept when no candidate exists. Events fire only on change. |
| EzUI.UISystem.Refresh | Runtime/Core/UISystem.API.cs:168-266 | A refresh counts exactly when enabled, and loses and gains no live panel. |
| EzUI.UISystem.MoveFocus | Runtime/Core/UISystem.API.cs:217-234 | The holder gains the focus, the old focus loses it, and no other panel's focus flag changes. |
| EzUI.UISystem.PruneAndSort | Runtime/Core/UISystem.API.cs:179-182 | The list becomes a sorted permutation of its live panels. |
| EzUI.UISystem.ResolveMaskAndFocus | Runtime/Core/UISystem.API.cs:192-265 | The mask and the focus are resolved on the sorted list, and events fire only on change. |
| EzUI.UISystem.ApplyMask | Runtime/Core/UISystem.API.cs:197-247 | The mask follows the target in the target's colour, else the settings', else the default. With no target it goes off and keeps its colour. |
| EzUI.UISystem.SetInputScheme | Runtime/Core/UISystem.API.cs:322-349 | A null or destroyed owner changes nothing. Otherwise the stack is updated as `Upsert` says, and an event fires exactly when the effective scheme changes. |
| EzUI.UISystem.SetPersistenceUI | Runtime/Core/UISystem.API.cs:294-303 | Only a live panel joins the persistent set. |
| EzUI.UISystem.CancelPersistenceUI | Runtime/Core/UISystem.API.cs:308-317 | Only a live panel leaves the persistent set. |
| EzUI.UISystem.LoadUI | Runtime/Core/UISystem.Factory.cs:63-84 | A template is returned exactly when one loads. A live cache entry is reused. A dead entry is dropped. A missing asset is logged. A loaded prefab is cached. |
| EzUI.UISystem.GetLayer | Runtime/Core/UISystem.Rendering.cs:12-18 | A known layer's container is reused. Otherwise one is made and recorded, and there is none without a root. |
| EzUI.UISystem.CreateLayer | Runtime/Core/UISystem.Rendering.cs:20-45 | Without a root nothing is made. Otherwise exactly one new container is recorded under the layer. |
| EzUI.UISystem.Register | Runtime/Core/UISystem.Factory.cs:14-44 | The new panel is appended to the live list. |
| EzUI.UISystem.Instantiate | Runtime/Core/UISystem.Factory.cs:14-44 | A panel is made exactly when the template loads and builds. It is fresh, Hidden, inactive, registered last, carries its path and is announced. Otherwise the list is unchanged. |
| EzUI.UISystem.Build | Runtime/Core/UISystem.Factory.cs:14-44 | The new panel is built under its layer, registered, initialised and announced. |
| EzUI.UISystem.SystemShowAsync | Runtime/Core/UISystem.Operations.cs:242-286 | A live panel's flags change as `SystemShow` says. The show waits with the current token exactly when it animates. Otherwise the system is unchanged. |
| EzUI.UISystem.ShowNow | Runtime/Core/UISystem.Operations.cs:258-267 | The panel ends Shown and active, and its token is cancelled. |
| EzUI.UISystem.BeginShowAnimation | Runtime/Core/UISystem.Operations.cs:270-275 | The panel is active and marked showing, under a new token. |
| EzUI.UISystem.CommitShown | Runtime/Core/UISystem.Operations.cs:277-285 | Shown is committed, unless the panel is Closed, and the mark is cleared. The commit goes through the corrected `SetState`. |
| EzUI.UISystem.SystemHideAsync | Runtime/Core/UISystem.Operations.cs:288-340 | A live panel's flags change as `SystemHide` says. The hide waits exactly when it animates. Invisible panels are untouched. |
| EzUI.UISystem.HideNow | Runtime/Core/UISystem.Operations.cs:310-320 | The panel ends Hidden and inactive, and its token is cancelled. |
| EzUI.UISystem.BeginHideAnimation | Runtime/Core/UISystem.Operations.cs:323-328 | The panel is marked hiding under a new token. Its state and activity are kept. |
| EzUI.UISystem.CommitHidden | Runtime/Core/UISystem.Operations.cs:330-339 | The panel ends inactive and Hidden, unless Closed. The commit goes through the corrected `SetState`. |
| EzUI.UISystem.SystemCloseAsync | Runtime/Core/UISystem.Operations.cs:342-394 | A live panel's flags change as `SystemClose` says. An unanimated close tears the panel down. A waiting close keeps the persistent set. |
| EzUI.UISystem.CloseNow | Runtime/Core/UISystem.Operations.cs:357-370 | The panel ends Closed and inactive, and is torn down. |
| EzUI.UISystem.CloseStateNow | Runtime/Core/UISystem.Operations.cs:357-368 | The panel ends Closed and inactive, and its token is cancelled. |
| EzUI.UISystem.CloseHooks | Runtime/Core/UISystem.Operations.cs:357-362 | `OnHide` runs only for a visible panel, then `OnClose` runs. |
| EzUI.UISystem.CommitClose | Runtime/Core/UISystem.Operations.cs:365-366 | Hidden then Closed always leaves the panel Closed. |
| EzUI.UISystem.CommitClosed | Runtime/Core/UISystem.Operations.cs:381-393 | The panel ends Closed and inactive, and is torn down, without a refresh. |
| EzUI.UISystem.DestroyInternal | Runtime/Core/UISystem.Operations.cs:396-421 | It acts exactly on a live panel that is not persistent or is forced. The panel then leaves the list, the persistent set and the scheme stack, its token is cancelled and its destruction requested. |
| EzUI.UISystem.RemoveFromList | Runtime/Core/UISystem.Operations.cs:404-416 | The panel is no longer listed. |
| EzUI.UISystem.Unregister | Runtime/Core/UISystem.Operations.cs:404-416 | The panel leaves the list, the persistent set and the input schemes, and is requested destroyed. |
| EzUI.UISystem.AnnounceDestroyed | Runtime/Core/UISystem.Operations.cs:404-416 | The destruction is announced, the token cancelled and `OnClosed` run. |
| EzUI.UISystem.FinishAnimation | Runtime/Core/UISystem.Operations.cs:277-393 | A cancelled token only clears the mark. A current one commits as `SystemFinish` says. A destroyed panel at a hide or close throws `MissingReferenceException`. A finished close tears down. Commits go through the corrected `SetState`. |
| EzUI.UISystem.AutoCloseInternal | Runtime/Core/UISystem.MainUI.cs:30-43 | The panel's answer to the reason gives nothing, a hide or a close. The persistent set is kept. |
| EzUI.UISystem.SwitchAway | Runtime/Core/UISystem.MainUI.cs:45-63 | One panel ends as `SwitchedAway` says, and no other panel changes. |
| EzUI.UISystem.AutoCloseAllNonMainUI | Runtime/Core/UISystem.MainUI.cs:45-63 | Every listed panel ends as `SwitchedAway` says, whatever the other steps did. Unlisted panels are untouched. |
| EzUI.UISystem.ShowMainUIFlow | Runtime/Core/UISystem.MainUI.cs:65-148 | Suppression is balanced and exactly one refresh follows. The new main screen is live, Shown, active, last and carries the user data. None only when the path cannot be instantiated. Other panels are switched away. The loading screen is shown and hidden around it. |
| EzUI.UISystem.SwitchMain | Runtime/Core/UISystem.MainUI.cs:90-126 | The switch keeps suppression balanced, refreshes once and shows the new main screen, or none when it cannot be made. |
| EzUI.UISystem.EndSuppression | Runtime/Core/UISystem.MainUI.cs:122-126 | The suppression is given back and one refresh runs if enabled. |
| EzUI.UISystem.SwitchFrom | Runtime/Core/UISystem.MainUI.cs:94-105 | Other panels are switched away, and the incoming screen stays invisible. |
| EzUI.UISystem.PlaceMain | Runtime/Core/UISystem.MainUI.cs:107-120 | The incoming screen, or a fresh instance when it was destroyed or Closed, becomes the Shown current main screen. Otherwise the main screen is cleared. |
| EzUI.UISystem.ShowAsMain | Runtime/Core/UISystem.MainUI.cs:116-120 | The panel is last, Shown, active, carries the user data and is current. |
| EzUI.UISystem.ShowLast | Runtime/Core/UISystem.Operations.cs:114-117 | The panel is moved last, given the user data and shown as `SystemShow` says. |
| EzUI.UISystem.ExecuteShow | Runtime/Core/UISystem.Operations.cs:79-140 | A blank path does nothing. The result is a Shown live panel of the path, or it waits on its show. A main screen ends current with the others switched away. Null only for a path that cannot be instantiated. |
| EzUI.UISystem.ShowOther | Runtime/Core/UISystem.Operations.cs:99-118 | A non-main panel of the path is shown with the user data, or the show waits. No other panel changes. |
| EzUI.UISystem.Obtain | Runtime/Core/UISystem.Operations.cs:99-112 | The found panel is kept unless its auto-close closed it. Otherwise a fresh one is made. Null only when none can be made. |
| EzUI.UISystem.Reuse | Runtime/Core/UISystem.Operations.cs:101-106 | A visible found panel is auto-closed for `MainUISwitch` and kept exactly when not Closed. An invisible one is kept unchanged. |
| EzUI.UISystem.ShowMain | Runtime/Core/UISystem.Operations.cs:120-139 | The result is the new current main screen: live, Shown, with the user data. Other panels are switched away. |
| EzUI.UISystem.ExecuteHide | Runtime/Core/UISystem.Operations.cs:142-149 | A missing or destroyed target does nothing. Otherwise it hides as `SystemHide` says and returns the target or waits. No other panel changes. |
| EzUI.UISystem.ExecuteClose | Runtime/Core/UISystem.Operations.cs:151-158 | A missing or destroyed target does nothing. Otherwise it closes as `SystemClose` says and tears down or waits. No other panel changes. |
| EzUI.UISystem.ExecuteToggle | Runtime/Core/UISystem.Operations.cs:160-182 | A found panel toggles as `Toggle` says and no other panel changes. Without one it shows the path. A blank path does nothing. |
| EzUI.UISystem.ExecuteDestroy | Runtime/Core/UISystem.Operations.cs:184-198 | A persistent target is untouched unless forced. Otherwise it is hidden first and destroyed. No other panel changes. |
| EzUI.UISystem.CollectDoomed | Runtime/Core/UISystem.Operations.cs:205-217 | The list holds exactly the doomed listed panels, once each. |
| EzUI.UISystem.DestroyOne | Runtime/Core/UISystem.Operations.cs:219-237 | One panel leaves the list and, when live, is hidden first and destroyed without a refresh. |
| EzUI.UISystem.DestroyListed | Runtime/Core/UISystem.Operations.cs:219-237 | Every collected panel leaves the list and every live one is destroyed. The persistent set and the other panels are kept. |
| EzUI.UISystem.ExecuteDestroyAll | Runtime/Core/UISystem.Operations.cs:200-240 | Forcing clears persistence. Every other panel is hidden first and destroyed, and persistent ones stay untouched. Exactly one refresh follows. |
| EzUI.UISystem.ExecuteOperation | Runtime/Core/UISystem.Operations.cs:57-77 | Each type dispatches to its operation. Hide/Close/Destroy return the live target or null. DestroyAll returns null. A wait is on an animation of the operation's own kind. |
| EzUI.UISystem.RunNext | Runtime/Core/UISystem.Operations.cs:29-47 | The head handle leaves the queue and ends Completed with the panel, or Running with the drain suspended on it. |
| EzUI.UISystem.TakeNext | Runtime/Core/UISystem.Operations.cs:31-32 | The queue's head is dequeued and marked Running. |
| EzUI.UISystem.Settle | Runtime/Core/UISystem.Operations.cs:36-39 | A finished operation completes its handle with the panel. A waiting one suspends the drain. |
| EzUI.UISystem.Drain | Runtime/Core/UISystem.Operations.cs:21-55 | First in, first out. When not suspended every queued handle has been taken. It makes progress, and the system ends valid. |
| EzUI.UISystem.AnimationFinished | Runtime/Core/UISystem.Operations.cs:21-55 | The awaited handle fails with `MissingReferenceException` exactly when a current hide/close finds its panel destroyed. Otherwise it completes with the panel. The queue then runs on. |
| EzUI.UISystem.Conclude | Runtime/Core/UISystem.Operations.cs:36-46 | The awaited handle gets its outcome and leaves the wait. |
| EzUI.UISystem.Resume | Runtime/Core/UISystem.Operations.cs:36-46 | An escaped exception fails the handle. Otherwise it completes with the animated panel. |
| EzUI.UISystem.Enqueue | Runtime/Core/UISystem.Operations.cs:13-19 | A fresh handle with the next id joins the queue. While a drain waits nothing else changes. Otherwise it runs at once to Completed, Failed or an awaited animation. |
| EzUI.UISystem.Push | Runtime/Core/UISystem.Operations.cs:13-19 | A Pending handle with the next id joins the end of the queue. |
| EzUI.UISystem.LastTaken | Runtime/Core/UISystem.Operations.cs:21-55 | The last handle taken has run: Completed, Failed, or Running while the drain awaits it. |
| EzUI.UISystem.Show | Runtime/Core/UISystem.API.cs:378-386 | It enqueues exactly one Show of the path with the next id. |
| EzUI.UISystem.ShowPanel | Runtime/Core/UISystem.API.cs:470-487 | A null or destroyed panel enqueues nothing. Otherwise one Show of its class's path. |
| EzUI.UISystem.ShowType | Runtime/Core/UISystem.API.cs:500-517 | A null type enqueues nothing. Otherwise one Show of its path. |
| EzUI.UISystem.Hide | Runtime/Core/UISystem.API.cs:574-582 | It always enqueues one Hide aimed at the panel. Its path is null for a null or destroyed panel. |
| EzUI.UISystem.HidePath | Runtime/Core/UISystem.API.cs:597-604 | It enqueues one Hide of the path. |
| EzUI.UISystem.Close | Runtime/Core/UISystem.API.cs:638-646 | It always enqueues one Close aimed at the panel. Its path is null for a null or destroyed panel. |
| EzUI.UISystem.ClosePath | Runtime/Core/UISystem.API.cs:687-694 | It enqueues one Close of the path. |
| EzUI.UISystem.CloseType | Runtime/Core/UISystem.API.cs:677-682 | A null type enqueues nothing. Otherwise one Close of its path. |
| EzUI.UISystem.Destroy | Runtime/Core/UISystem.API.cs:522-533 | A null or destroyed panel enqueues nothing. Otherwise one Destroy aimed at it with the given force. |
| EzUI.UISystem.DestroyPath | Runtime/Core/UISystem.API.cs:538-553 | It enqueues one unforced Destroy of the path. |
| EzUI.UISystem.DestroyAll | Runtime/Core/UISystem.API.cs:354-361 | It enqueues one DestroyAll with the given force. |
| EzUI.UISystem.ShowOrHide | Runtime/Core/UISystem.API.cs:707-739 | It enqueues one Toggle of the path with the user data. |
| EzUI.UISystem.AutoClose | Runtime/Core/UISystem.API.cs:744-756 | Nothing exactly for a dead panel or a None answer. Otherwise one Hide or Close of it, as its answer says. |
| EzUI.UISystem.AutoClosePath | Runtime/Core/UISystem.API.cs:761-776 | The live panel found under the path is auto-closed, and nothing happens when none is found. |
| EzUI.UISystem.AutoClosePopUI | Runtime/Core/UISystem.API.cs:781-787 | Only a live Shown pop-up is auto-closed for `PopAutoClose`. |
| EzUI.UISystem.FindTopPop | Runtime/Core/UISystem.API.cs:794-808 | The loop finds the index `TopPopTarget` picks, a Shown pop-up. |
| EzUI.UISystem.AutoCloseTopPopUI | Runtime/Core/UISystem.API.cs:792-809 | At most the one pop-up `TopPopTarget` picks is auto-closed. |
| EzUI.UISystem.GetPopUI | Runtime/Core/UISystem.API.cs:391-400 | The result is the first Shown pop-up, and null exactly when there is none. |
| EzUI.UISystem.HasPopUI | Runtime/Core/UISystem.API.cs:405-414 | True exactly when some listed panel is a Shown pop-up. |
| EzUI.UISystem.Create | Runtime/Core/UISystem.API.cs:419-428 | The found live panel is returned. Otherwise a fresh Hidden inactive one, made exactly when possible. Nothing is queued. |
| EzUI.UISystem.LoadPersistenceUI | Runtime/Core/UISystem.API.cs:275-289 | A found panel is returned as it is. A new one is inactive and persistent. Null exactly when none can be made. |
| EzUI.UISystem.IsMainUIPath | Runtime/Core/UISystem.MainUI.cs:12-28 | True exactly when the prefab loads and is a main screen. Every false answer is logged. |
| EzUI.UISystem.FindClickTarget | Runtime/Core/UISystem.Rendering.cs:66-77 | The loop finds the first Shown mask-using panel, as `FirstIndex` does. |
| EzUI.UISystem.OnMaskClick | Runtime/Core/UISystem.Rendering.cs:66-77 | Only that panel is clicked, and only when it is a pop-up. It throws exactly for an undefined operation. |

## Left out

- The scene graph, cameras, canvases, `EventSystem`, `Init.cs` and the legacy `UISystem.cs` partial. Only the path format of `UISystem.cs` is modelled. Layers and sibling positions are abstract numbers.
- `SetUIRoot`, `SetUICamera`, `SetEventSystem`, `OnRegister` and the manual initialisation mode of `OnInitializeAsync`. The model starts from the automatic mode.
- Animation components and their tweening or floating-point timing. An animation is an event that ends when the environment step `AnimationFinished` (or a panel task end) runs. `EnsureAnimationComponent` is taken as having no effect on a live panel. On a destroyed panel its `GetComponent` throws, and `HideAsync` and `CloseSteps` model that throw.
- UniTask, cancellation tokens, `Forget` and `WaitUntil`. Awaits on the loading controller are treated as synchronous. The main-screen switch always runs without animation, as the source does, so its `WaitUntil` branch is unreachable and left out.
- `StartAnimationToken`, `CancelAnimation`, the `InvokeOn*` hooks, `SetStateInternal` and `RunShowAnimationAsync`/`RunHideAnimationAsync` are not part of this model's source. They are modelled by the generation counter, logged callbacks and `SetState`.
- `GetCustomAttribute` reflection: a panel class carries its bound path directly. `string.Format` is reduced to replacing `{0}`.
- The casts `ui as T` in `Create<T>`, `LoadPersistenceUI<T>` and `FindUI<T>` (so `AutoClose<T>`): the panel found under the path of `T` is used uncast, so a panel of another class at that path is not turned into null.
- EzInputBridge, the editor windows, the debug panel and the test helpers.
- Event dispatch: events, warnings and callbacks are appended to a log rather than sent to subscribers. A loading controller that throws is contained, as the source's `try`/`catch` does.
- An exception thrown by unseen code inside an operation other than Unity's `MissingReferenceException` is not modelled. Handles are never Canceled.
- The `finally` of `ProcessOperationQueueAsync` restarts the drain when handles remain. In the model a drain ends only with an empty queue, which is the same outcome.
- `IMaskClickable` is taken to mean "is a pop-up", its only implementer in the core.
- AnimationEditorUtility.SortByName: orders names ordinally (`NameLe`), whereas `OrderBy(t => t.Name)` uses the framework's culture-sensitive default string comparer, which is not modelled. Under a culture order, distinct names may sort differently or tie.
- AnimationEditorUtility.NameLeTotalPreorder: is about ordinal order, not the culture-sensitive comparer.
- AnimationEditorUtility.InsertByNameSorted: is about ordinal order, not the culture-sensitive comparer.
- AnimationEditorUtility.SortByNameSpec: is about ordinal order, not the culture-sensitive comparer.
- AnimationEditorUtility.SortByNameStable: keeps the order of equal names, which are the only ordinal ties.
- AnimationEditorUtility.GetAnimationTypesSpec: states ordinal order, not the culture-sensitive comparer's order.
- EzUI.UISystem.CommitShown: commits through the corrected `SetState`, so a Closed panel stays Closed. The source commits through `SetStateInternal` (UISystem.Operations.cs:284), which is not part of this model. Suppose it has no Closed guard, like `SetState` at Panel.cs:174-183. Then a panel that closes itself with `Close(false)` while a system show animation plays would be Shown again when the animation ends, and a later Destroy would hide it first.
- EzUI.UISystem.CommitHidden: commits through the corrected `SetState`, so a Closed panel stays Closed. The source commits through `SetStateInternal` (UISystem.Operations.cs:338), which is not part of this model. Without a guard, a panel closed with `Close(false)` during a system hide animation would move from Closed back to Hidden.
- AnimationEditorUtility.NameLe: is ordinal order, standing in for the culture-sensitive default string comparer that `OrderBy` uses.
- AnimationEditorUtility.GetAnimationTypes: orders ordinally through `SortByName`, not by the culture-sensitive comparer.
- EzUI.Panel.CloseAsync: does not state the panel's flags after the Destroy it queues. That Destroy may run at once and is specified by `ExecuteDestroy`.
- EzUI.UISystem.SortUI: `List.Sort` is unstable, so only the order of the keys and the permutation are stated, not the order among ties.
- EzUI.UISystem.RefreshUI: the check `_currentMainUI != null && !_currentMainUI` at `UISystem.API.cs:176-177` can never hold under Unity's overloaded comparison, so the model leaves the current main screen as it is, as the code does.
- EzUI.UISystem.AutoCloseInternal: does not state the refresh count when refreshing is enabled.

## Findings

| source | as written | input that shows it | evidently intended | confidence | as-written member | corrected member |
|---|---|---|---|---|---|---|
| Runtime/Core/Panel.cs:174-183 with Runtime/Core/Panel.cs:304-311 | `SetState` has no guard for Closed, and the panel's own animated `ShowAsync` commits Shown when its animation ends | A persistent panel with an animation component is shown with its own `ShowAsync(true)`. While the animation plays, the system closes it without animation (`SystemCloseAsync`), so it is Closed but kept, being persistent. When the animation ends, `SetState(Shown)` moves it from Closed to Shown. | Closed is terminal: a closed panel is never shown again | not executed | Lifecycle.ClosedPanelReopensAsWritten, EzUI.Panel.SetStateAsWritten | Lifecycle.ClosedPanelStaysClosed, EzUI.Panel.SetState |
