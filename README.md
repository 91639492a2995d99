# DXFrameWork core, modelled in Dafny

This project models the core of DXFrameWork, a Cocos Creator game framework
written in TypeScript, and proves properties of the model.

The modelled core covers:

- **Resource layer.**
  - A path-keyed asset cache (`ResCache`).
  - A loader that keeps one transport request per path in flight (`ResourceLoader`).
  - The caching facade over the two (`ResourceManager`).
  - A sprite-frame memo (`SpriteCache`).
- **Pooling and layers.**
  - The prefab-keyed node pools (`ObjectPool`).
  - The UI layer registry (`LayerManager`).
- **The view lifecycle.**
  - The animation registries (`UIAnimationLibrary`, `UIAnimationManager`) and the two animation components with their busy flags.
  - The workflow with its opening and closing locks (`UIWorkflow`).
  - The second-tier manager with its own locks (`ui/manager/UIManager`).
  - The older lock-free manager (`UI/UIManager`).
- **Events.** The global event bus (`EventCenter`).
- **Badges.**
  - The red-dot badge trees, eager (`assets/Core/redDot`) and batched with dirty flags (`dx_framework/.../cocos-red-dot-system`).
  - The build script that flattens the badge configuration into keys.
- **Modules.** The three module registries (`ModuleManager`).
- **Frame slicing.** The three frame-sliced instantiation queues (`FrameInstantiatorService`, `FrameInstantiator`, `FrameLoadingTool`).
- **Sound.** The sound module (`SoundModule`).
- **Logging.** The logger (`Log`).

Each source class whose fields are updated in place is a Dafny `class` with those fields. Its methods carry `modifies` clauses and state the whole new state.

Promises are explicit pending tasks (`Handle`, `TaskId`). The engine's completions are step methods that a driver calls: a transport finishing, a tween ending, a timer or frame firing. The scene graph is a `Scene` class over opaque node ids. The engine's asset release, audio engine and console are logs that the model appends to.

Pure parts are datatypes, functions and lemmas:

- the key generator;
- the frame-loading state machine;
- the listener-list operations;
- the log filter and timestamp.

Where a source operation has no promise of its own to check against, the model gives it a partner:

- a specification function;
- an invariant (`Valid`) that every method keeps;
- or a lemma relating several calls (round trips, idempotence, "the second call is served from the cache").

Source paths below are relative to the repository root.

## Model

| member | source | states |
|---|---|---|
| ResCacheModel.ResCache.constructor | assets/Core/Utils/ResCache.ts:4-6 | a new cache is empty and has released nothing |
| ResCacheModel.ResCache.SetCacheRes | assets/Core/Utils/ResCache.ts:13-20 | an empty path or a missing asset leaves the map unchanged; otherwise the path now maps to the asset, overwriting any earlier entry (last writer wins); nothing is released |
| ResCacheModel.ResCache.GetCacheRes | assets/Core/Utils/ResCache.ts:27-33 | returns an asset exactly when the path is non-empty and cached, and then the cached one; the map is unchanged |
| ResCacheModel.ResCache.RemoveCacheRes | assets/Core/Utils/ResCache.ts:40-53 | returns true exactly when the path is non-empty and cached; then the entry is gone and exactly that asset is released once; otherwise map and release log are unchanged |
| ResCacheModel.ResCache.Destroy | assets/Core/Utils/ResCache.ts:55-57 | the map is empty afterwards and nothing is released |
| ResCacheModel.SetThenGet | assets/Core/Utils/ResCache.ts:19-33 | a set on a non-empty path followed by a get returns the new asset, whatever was cached before |
| ResCacheModel.RemoveTwice | assets/Core/Utils/ResCache.ts:40-53 | a second removal of the same path returns false, and the pair releases at most one asset |
| ResourceLoading.Notify | assets/Core/resource/loader/ResourceLoader.ts:34-44 | `callback?.(…)`: no delivery without a callback, exactly one with the given outcome otherwise |
| ResourceLoading.Waiter | assets/Core/resource/loader/ResourceLoader.ts:66-70 | the callback a load attaches to its task: none when the caller passed none |
| ResourceLoading.Deliveries | assets/Core/resource/loader/ResourceLoader.ts:41-70 | a settled task calls every attached callback once, in attachment order, with the task's outcome |
| ResourceLoading.ResourceLoader.constructor | assets/Core/resource/loader/ResourceLoader.ts:11 | the loading queue starts empty, with no task, request or delivery |
| ResourceLoading.ResourceLoader.StartTask | assets/Core/resource/loader/ResourceLoader.ts:50-107 | for a path not in flight: issues exactly one transport request and records its task under the path; the invariant (queue names only in-flight tasks of that path) is kept |
| ResourceLoading.ResourceLoader.LoadRes | assets/Core/resource/loader/ResourceLoader.ts:26-71 | a missing path or type calls back `(err, null)` at once and changes neither queue nor requests; a path in flight only attaches the callback to the existing task, with no new request; any other path issues one request and enters the queue |
| ResourceLoading.ResourceLoader.LoadResAsync | assets/Core/resource/loader/ResourceLoader.ts:79-110 | missing arguments give an already rejected promise and leave the queue unchanged; a path in flight returns that very task; otherwise one new request and queue entry; a pending result is always the queue's task for the path |
| ResourceLoading.ResourceLoader.OnTransportDone | assets/Core/resource/loader/ResourceLoader.ts:51-131 | when the transport completes, the path leaves the queue on success and on failure, the task settles with the transport's outcome, and its waiting callbacks are called in order |
| ResourceLoading.ResourceLoader.CancelAll | assets/Core/resource/loader/ResourceLoader.ts:138-144 | empties the queue without settling or rejecting any pending task and without issuing anything |
| ResourceLoading.ConcurrentLoads | assets/Core/resource/loader/ResourceLoader.ts:11-92 | k overlapping requests for one path share one task and cause at most one transport request (none when the path was already in flight) |
| ResourceLoading.RetryAfterFailure | assets/Core/resource/loader/ResourceLoader.ts:51-104 | after a failed load the path is free again: the next call issues a second request with a new task |
| ResourceManaging.ResourceManager.constructor | assets/Core/resource/manager/ResourceManager.ts:4-10 | the manager uses the shared loader and a fresh, empty cache of its own |
| ResourceManaging.ResourceManager.RunRelay | assets/Core/resource/manager/ResourceManager.ts:35-45 | a loader error reaches the caller as `(err, null)` with the cache unchanged, or is raised when there is no callback (the call is not optional-chained); a loaded asset is cached exactly when `useCache` (and the path is non-empty) before the caller gets it |
| ResourceManaging.ResourceManager.LoadRes | assets/Core/resource/manager/ResourceManager.ts:20-46 | with `useCache` and a cache hit, the callback gets the cached asset and the loader is not touched; otherwise the loader is asked with a relay that is attached to the path's task; the cache is not written at call time |
| ResourceManaging.ResourceManager.RequestViaLoader | assets/Core/resource/manager/ResourceManager.ts:35 | the loader is asked once: an in-flight path gets the relay attached and no new request; bad arguments reach the caller (or are raised) at once |
| ResourceManaging.ResourceManager.OnLoaderCallback | assets/Core/resource/manager/ResourceManager.ts:35-45 | the loader's delivery to a relay runs that relay (same states as RunRelay) and retires it |
| ResourceManaging.ResourceManager.LoadResAsync | assets/Core/resource/manager/ResourceManager.ts:55-80 | a cache hit with `useCache` resolves at once and leaves the loader untouched; bad arguments reject without a request; otherwise the promise waits on the loader's task for the path, with at most one new request |
| ResourceManaging.ResourceManager.OnLoaderSettled | assets/Core/resource/manager/ResourceManager.ts:71-78 | the promise settles as the loader task did; the asset is cached exactly when the load succeeded and `useCache`; a rejection leaves the cache as it was |
| ResourceManaging.ResourceManager.Destroy | assets/Core/resource/manager/ResourceManager.ts:82-84 | the cache is emptied without releasing anything |
| ResourceManaging.ResourceManager.GetCachedRes | assets/Core/resource/manager/ResourceManager.ts:90-92 | the same answer as the cache's own lookup |
| ResourceManaging.ResourceManager.RemoveCachedRes | assets/Core/resource/manager/ResourceManager.ts:98-100 | the same answer and effect as the cache's own removal: true exactly when the path is non-empty and cached; then the entry is gone and exactly that asset is released once; otherwise the map and the release log are unchanged |
| ResourceManaging.NotifyCaller | assets/Core/resource/manager/ResourceManager.ts:30-44 | `callback?.(...)`: one delivery with the outcome when there is a callback, none otherwise |
| ResourceManaging.SecondLoadIsCached | assets/Core/resource/manager/ResourceManager.ts:62-76 | after a successful cached load, a second load of the path resolves from the cache: over both calls exactly one transport request is made |
| ObjectPooling.Poolable | assets/Core/pool/ObjectPool.ts:129-131 | isPoolableComponent: the component defines onSpawn or onRecycle |
| ObjectPooling.FirstPoolable | assets/Core/pool/ObjectPool.ts:106-131 | the index found is the first component that defines `onSpawn` or `onRecycle`; none is found only when no component does |
| ObjectPooling.SpawnHooks | assets/Core/pool/ObjectPool.ts:103-114 | at most one spawn hook runs: the `onSpawn` of the first poolable component, and none if that component has only `onRecycle` |
| ObjectPooling.RecycleHooks | assets/Core/pool/ObjectPool.ts:120-126 | executeRecycleLogic: the onRecycle of every component that defines it, in component order |
| ObjectPooling.RecycleHooksFrom | assets/Core/pool/ObjectPool.ts:120-126 | exactly the components that define `onRecycle`, each once, in component order |
| ObjectPooling.Put | assets/Core/pool/ObjectPool.ts:29-93 | the engine pool holds a node at most once: putting a held node changes nothing, any other node is appended |
| ObjectPooling.ObjectPool.constructor | assets/Core/pool/ObjectPool.ts:9-11 | no pools, a cap of 50, no nodes and no hooks |
| ObjectPooling.ObjectPool.SetMaxPoolSize | assets/Core/pool/ObjectPool.ts:13-15 | only the cap changes; pools already over the new cap are not trimmed |
| ObjectPooling.ObjectPool.GetPool | assets/Core/pool/ObjectPool.ts:38-47 | returns the prefab's pool, creating it empty under the prefab's uuid when missing; nothing else changes |
| ObjectPooling.ObjectPool.Instantiate | assets/Core/pool/ObjectPool.ts:27 | cc.instantiate: a fresh node, never seen before, carrying the prefab's components, with the activity asked for; pools, cap and hooks unchanged |
| ObjectPooling.ObjectPool.Prewarm | assets/Core/pool/ObjectPool.ts:22-31 | a null prefab throws with no change; otherwise the pool ends at max(old size, min(count, cap)), keeps its old nodes in front, and every added node is fresh and inactive; a second call with the same arguments adds nothing; no pool grows past the cap |
| ObjectPooling.ObjectPool.FillPool | assets/Core/pool/ObjectPool.ts:26-30 | the loop adds fresh inactive nodes behind the existing ones until the pool holds the target |
| ObjectPooling.ObjectPool.GetNode | assets/Core/pool/ObjectPool.ts:58-70 | a null prefab gives undefined and changes nothing; otherwise a non-empty pool hands out its last node, an empty one instantiates a fresh node; the node is active and exactly its spawn hooks run |
| ObjectPooling.ObjectPool.RecycleNode | assets/Core/pool/ObjectPool.ts:77-97 | a null node or prefab, or a destroyed node, changes nothing; otherwise every recycle hook runs, the node is detached and deactivated, and it joins the pool when the pool is below the cap, else it is destroyed; the cap invariant is kept |
| ObjectPooling.ObjectPool.ClearPool | assets/Core/pool/ObjectPool.ts:138-151 | a null or unknown prefab changes nothing; otherwise exactly the pooled nodes are destroyed and the pool leaves the map |
| ObjectPooling.ObjectPool.Clear | assets/Core/pool/ObjectPool.ts:156-159 | the map is emptied and no node is destroyed |
| ObjectPooling.RecycleThenGet | assets/Core/pool/ObjectPool.ts:65-93 | a node recycled into a pool with room is the node the next `getNode` returns, active and detached, and the pool is back as before |
| UITypes.LayerValue | assets/Core/UI/UILayer.ts:1-9 | the numeric value of each enum member (TOP is 10) |
| UITypes.LayerName | assets/Core/UI/UILayer.ts:1-9 | the name each enum member is declared with |
| UITypes.MapsToNumber | assets/Core/ui/manager/LayerManager.ts:37 | `typeof UILayer[key] === "number"`: true only for a member name, not for a reverse-mapping value key |
| UITypes.NumericMembers | assets/Core/ui/manager/LayerManager.ts:36-37 | the members whose keys pass the numeric filter, in key order |
| UITypes.LayerOf | assets/Core/UI/UILayer.ts:1-9 | the enum member with a given value, or none when no member has it |
| UITypes.EnumFilterYieldsEachMember | assets/Core/ui/manager/LayerManager.ts:36-37 | filtering the keys of the compiled enum object by "its value is a number" yields every layer exactly once, in declaration order |
| LayerManaging.LayerManager.constructor | assets/Core/ui/manager/LayerManager.ts:20-23 | no root and no layer nodes |
| LayerManaging.LayerManager.Initialize | assets/Core/ui/manager/LayerManager.ts:29-45 | records the root and replaces the map: its keys are exactly the layer values; each layer maps to a new active node named after the layer and placed under the root; the earlier nodes are untouched and every new node is a layer node |
| LayerManaging.LayerManager.AddLayerNode | assets/Core/ui/manager/LayerManager.ts:38-42 | one iteration of the loop: a new node for the layer, under the root, recorded under the layer's value |
| LayerManaging.LayerManager.GetLayerNode | assets/Core/ui/manager/LayerManager.ts:52-62 | throws "not initialized" before `initialize`, "not found" for a value with no node, and otherwise returns the layer's node |
| LayerManaging.NumericMembersAppend | assets/Core/ui/manager/LayerManager.ts:36-37 | filtering a concatenation of key lists is the concatenation of the filtered lists |
| LayerManaging.DistinctValues | assets/Core/UI/UILayer.ts:1-9 | a layer not yet created has a value no created layer has, so no map entry is overwritten |
| UIAnimation.RegisterSlides | assets/Core/UI/UIAnimationLibrary.ts:154-196 | the slideConfigs loop: each slide registered in order under its name, over the registry built so far |
| UIAnimation.DefaultAnimationsContents | assets/Core/UI/UIAnimationLibrary.ts:112-196 | the default registry holds exactly fade, scale, slide-right, slide-left, slide-top and slide-bottom; right and top slide +1, left and bottom -1, along the width for right/left and the height for top/bottom |
| UIAnimation.Lookup | assets/Core/UI/UIAnimationLibrary.ts:103-109 | getAnimation: the animation registered under the name, else the one under 'fade', else undefined |
| UIAnimation.StartTween | assets/Core/UI/UIAnimationLibrary.ts:44-109 | the tween started is the one registered under the name, else the 'fade' one; the call fails with a TypeError exactly when neither is registered; node, duration and direction are the ones asked for |
| UIAnimation.DefaultsAlwaysResolve | assets/Core/UI/UIAnimationManager.ts:91-97 | in the default registry every name resolves, and an unknown name resolves to the fade |
| UIAnimation.LookupWithoutFade | assets/Core/UI/UIAnimationLibrary.ts:93-109 | after 'fade' is unregistered, a lookup fails exactly for the unregistered names and for 'fade' itself |
| UIAnimation.LookupAfterRegister | assets/Core/UI/UIAnimationLibrary.ts:85-109 | registering a name makes its lookup return the new animation, and changes no other name's lookup unless the name is 'fade' |
| UIAnimation.FinishTween | assets/Core/UI/UIAnimationLibrary.ts:59-63 | when a tween completes, a hide deactivates its node and a show changes nothing more |
| UIAnimation.UIAnimationLibrary.constructor | assets/Core/UI/UIAnimationLibrary.ts:33-196 | the registry is exactly the six defaults |
| UIAnimation.UIAnimationLibrary.RegisterAnimation | assets/Core/UI/UIAnimationLibrary.ts:85-87 | the name maps to the new animation, overwriting any earlier one |
| UIAnimation.UIAnimationLibrary.UnregisterAnimation | assets/Core/UI/UIAnimationLibrary.ts:93-95 | the name is removed and nothing else changes |
| UIAnimation.UIAnimationLibrary.Show | assets/Core/UI/UIAnimationLibrary.ts:44-48 | the lookup comes first, so a failed lookup throws with the node unchanged; otherwise the node is activated and the fallback-resolved tween is started |
| UIAnimation.UIAnimationLibrary.Hide | assets/Core/UI/UIAnimationLibrary.ts:57-65 | starts the fallback-resolved hide tween; the node stays active until the tween finishes |
| UIAnimation.UIAnimationManager.constructor | assets/Core/UI/UIAnimationManager.ts:33-236 | the same six defaults |
| UIAnimation.UIAnimationManager.RegisterAnimation | assets/Core/UI/UIAnimationManager.ts:81-83 | overwrites the name, and 'fade' stays registered (nothing removes it) |
| UIAnimation.UIAnimationManager.Show | assets/Core/UI/UIAnimationManager.ts:44-54 | the node is activated before the lookup, and the lookup always succeeds |
| UIAnimation.UIAnimationManager.Hide | assets/Core/UI/UIAnimationManager.ts:63-74 | the hide tween always starts; deactivation happens when it finishes |
| UIAnimation.TypeName | assets/Core/ui/components/UIAnimationComponent.ts:15-22 | every animation choice maps to one of the default names |
| UIAnimation.TypeNameInjective | assets/Core/UI/UIAnimationComponent.ts:18-25 | two choices play the same registry entry only if they are the same choice |
| UIAnimation.PlayShowAnimation | assets/Core/ui/components/UIAnimationComponent.ts:48-63 | while busy: rejected, with the node and the library untouched; otherwise the flag is set first and the show tween for the mapped name and show duration is started |
| UIAnimation.PlayHideAnimation | assets/Core/ui/components/UIAnimationComponent.ts:68-83 | the same busy protocol with the hide name and hide duration; show and hide share the one flag |
| UIAnimation.FinishPlay | assets/Core/ui/components/UIAnimationComponent.ts:60-82 | when the tween settles the flag is cleared, and a hide deactivates the node |
| UIAnimation.LegacyPlayShowAnimation | assets/Core/UI/UIAnimationComponent.ts:61-86 | while busy: null and nothing started; otherwise the flag is set, the node is activated and the manager's show tween for the mapped name is started |
| UIAnimation.LegacyPlayHideAnimation | assets/Core/UI/UIAnimationComponent.ts:92-117 | while busy: null; otherwise the manager's hide starts and the flag stays set until it settles |
| UIAnimation.StuckAfterMissingAnimation | assets/Core/ui/components/UIAnimationComponent.ts:52-62 | with neither the name nor 'fade' registered, the first show throws before its `.finally` is attached, so the flag stays set and the next play is rejected as busy |
| UIWorkflowModel.Hook | assets/Core/ui/workflow/UIWorkflow.ts:80-154 | `uiBase?.hook()`: the hook is recorded exactly when the node has a UIBase |
| UIWorkflowModel.Instantiate | assets/Core/ui/workflow/UIWorkflow.ts:185 | the instantiated copy has the prefab's components, with its animation component idle |
| UIWorkflowModel.WithFlag | assets/Core/ui/components/UIAnimationComponent.ts:52-81 | sets the busy flag of one node's animation component and changes nothing else |
| UIWorkflowModel.KeepsNode | assets/Core/ui/workflow/UIWorkflow.ts:157 | `!destroy && uiConfig.cache`: close hides the node instead of destroying it |
| UIWorkflowModel.HidePhase | assets/Core/ui/workflow/UIWorkflow.ts:149-150 | a node without an animation component waits for nothing; a busy component fails the close; otherwise the hide tween is started (or its lookup error fails the close) |
| UIWorkflowModel.UIWorkflow.constructor | assets/Core/ui/workflow/UIWorkflow.ts:16-26 | no opening or closing locks, no recorded nodes, and a resource manager of its own over the shared loader |
| UIWorkflowModel.UIWorkflow.Open | assets/Core/ui/workflow/UIWorkflow.ts:34-57 | while the id holds the opening lock the same task is returned, with no load, no hook and no node change; otherwise a new task takes the lock; a recorded node is reactivated with no resource request; an unrecorded id asks for its prefab with at most one transport request and waits for it |
| UIWorkflowModel.UIWorkflow.StartOpen | assets/Core/ui/workflow/UIWorkflow.ts:43-57 | the new task is filed under the id and no other lock changes; it takes the playShow path when the id is recorded, the acquireNode path otherwise |
| UIWorkflowModel.UIWorkflow.Reshow | assets/Core/ui/workflow/UIWorkflow.ts:45-77 | a recorded node is active again and no prefab is requested |
| UIWorkflowModel.UIWorkflow.PlayShow | assets/Core/ui/workflow/UIWorkflow.ts:76-122 | `initialize` is recorded; with an enabled animation component the flag is set and the show starts (a busy component fails the open); with none, `onOpened` follows at once and the open resolves with the node |
| UIWorkflowModel.UIWorkflow.InstantiatePrefab | assets/Core/ui/workflow/UIWorkflow.ts:185 | a new parentless node carrying the prefab's components |
| UIWorkflowModel.UIWorkflow.AttachAndShow | assets/Core/ui/workflow/UIWorkflow.ts:105-106 | without a root, or without a node for the layer, `getLayerNode` throws and the open fails with the node left unattached; otherwise the node is put under its layer node and shown |
| UIWorkflowModel.UIWorkflow.OnPrefabLoaded | assets/Core/ui/workflow/UIWorkflow.ts:100-187 | a failed prefab load fails the open with no new node; a loaded prefab is instantiated as a new active node, placed under its layer and shown; only this open's entry changes |
| UIWorkflowModel.UIWorkflow.ShowFinished | assets/Core/ui/workflow/UIWorkflow.ts:85-122 | when the show tween ends the component's flag clears, `onOpened` is recorded and the open resolves with the node |
| UIWorkflowModel.UIWorkflow.SettleOpen | assets/Core/ui/workflow/UIWorkflow.ts:59-67 | the lock is released on success and on failure; only a success records the node under the id, so a failed open can be retried |
| UIWorkflowModel.UIWorkflow.StartHide | assets/Core/ui/workflow/UIWorkflow.ts:149-150 | the hide starts through the component whether or not it is enabled, setting its flag |
| UIWorkflowModel.UIWorkflow.Close | assets/Core/ui/workflow/UIWorkflow.ts:132-167 | an invalid node, or an id without a valid recorded node, resolves at once with no lock, even while a close is in flight; a close in flight is shared; otherwise a new task takes the closing lock and starts the hide of the node passed in |
| UIWorkflowModel.UIWorkflow.EndHide | assets/Core/UI/UIAnimationLibrary.ts:59-63 | when the hide tween ends the node goes inactive and the flag clears |
| UIWorkflowModel.UIWorkflow.Dispose | assets/Core/ui/workflow/UIWorkflow.ts:157-163 | a kept view is deactivated and stays recorded; any other is detached, destroyed and forgotten under its id |
| UIWorkflowModel.UIWorkflow.HideFinished | assets/Core/ui/workflow/UIWorkflow.ts:150-164 | after the hide, `onClosed` is recorded; then `!destroy && cache` keeps the node inactive and recorded, and anything else destroys it and drops its record |
| UIWorkflowModel.UIWorkflow.SettleClose | assets/Core/ui/workflow/UIWorkflow.ts:169-174 | the closing lock is released and the task settles with the close's outcome; nothing else changes |
| UIWorkflowModel.OpenTwiceSharesTask | assets/Core/ui/workflow/UIWorkflow.ts:38-57 | two opens of one id before the first finishes get the same task, and the prefab is requested once |
| UIManaging.ForgetsView | assets/Core/ui/manager/UIManager.ts:134 | `destroy || !uiConfig.cache` for a registered configuration |
| UIManaging.ForgetsEntry | assets/Core/ui/manager/UIManager.ts:134 | the same test on what the lookup found: an inherited member has no `cache`, so its view is always forgotten |
| UIManaging.ManagedOpen | assets/Core/ui/manager/UIManager.ts:78-98 | a failed workflow open fails the manager open with the same error; for a recorded view the stored node is returned; for a fresh view the node is returned exactly when it is valid, otherwise null |
| UIManaging.ForgetsExactlyWhenDestroyed | assets/Core/ui/manager/UIManager.ts:134-136 | the manager drops its entry (`destroy` or not cached) exactly when the workflow destroys the node (not `!destroy && cache`) |
| UIManaging.UIManager.constructor | assets/Core/ui/manager/UIManager.ts:28-58 | empty tables; the root is the node found at Canvas/UIRoot, else a new node under the canvas; the layer manager is initialized with it only when it is valid |
| UIManaging.UIManager.Open | assets/Core/ui/manager/UIManager.ts:67-101 | while the id holds the opening lock the same task is returned, with no workflow call and no config change; otherwise the workflow open starts, even for a recorded view; the config is registered only if the view is not recorded, has none and the id is not a name every plain object inherits (for such an id `m_configMap[uiID]` already finds the inherited member, so nothing is stored); first registration wins; the new task takes the lock |
| UIManaging.UIManager.StartWorkflowOpen | assets/Core/ui/manager/UIManager.ts:82-92 | the manager awaits the workflow's task for the id |
| UIManaging.UIManager.OpenSettled | assets/Core/ui/manager/UIManager.ts:92-108 | the lock is released on success and failure; only a fresh view whose node is valid enters the map; the task settles as ManagedOpen says |
| UIManaging.UIManager.Close | assets/Core/ui/manager/UIManager.ts:116-140 | no config (neither registered nor inherited) or no recorded node resolves at once with no lock; a close in flight is shared; otherwise the new task takes the closing lock; with a registered config the workflow close of the recorded node starts; with an inherited member the workflow, finding no uiID on it, resolves at once and neither hides the node nor changes its state; the opening locks are not consulted |
| UIManaging.UIManager.CloseSettled | assets/Core/ui/manager/UIManager.ts:132-147 | the lock is released on success and failure; after a successful close the entry is deleted exactly when `destroy` or the view is not cached, and always for an inherited member |
| UIManaging.UIManager.ConfigOf | assets/Core/ui/manager/UIManager.ts:118-119 | what `this.m_configMap[uiID]` finds: the registered config, else the inherited member for a name every plain object has, else nothing |
| UIManaging.InheritedIdClose | assets/Core/ui/manager/UIManager.ts:116-147 | closing a recorded view whose id is an inherited name ("toString") removes it from the manager's map while the workflow's state and the view's node are left as they were: the view stays on screen and onClosed never runs |
| UIManaging.UIManager.CloseAll | assets/Core/ui/manager/UIManager.ts:150-152 | changes nothing |
| UIManaging.OpenDuringOpenShares | assets/Core/ui/manager/UIManager.ts:72-101 | a second open of an id during the first gets the same task and adds one lock in total |
| UIManaging.CloseDuringOpenStarts | assets/Core/ui/manager/UIManager.ts:21-125 | the lock tables are independent: a close of a recorded view starts while an open of the same id is in flight, and both locks are held at once |
| LegacyUIManaging.LegacyLayerName | assets/Core/UI/UIManager.ts:44 | `Layer_${layer}`: the container name of each layer value |
| LegacyUIManaging.ConfigValid | assets/Core/UI/UIManager.ts:53-54 | openUI's argument check: a name and a prefab path are both required |
| LegacyUIManaging.BuildLayerNodes | assets/Core/UI/UIManager.ts:42-48 | exactly one container per numeric layer value, named `Layer_<value>`, under the root, filed under the value; existing nodes are untouched |
| LegacyUIManaging.LegacyUIManager.constructor | assets/Core/UI/UIManager.ts:28-49 | a UIRoot node under the scene root with one container per layer value, and empty view and config tables |
| LegacyUIManaging.LegacyUIManager.OpenUI | assets/Core/UI/UIManager.ts:51-73 | without a name or a prefab path it throws before any change; otherwise the config is overwritten (last writer wins); an open name returns its node with no load and no `init`; any other name starts a prefab load with no lock taken |
| LegacyUIManaging.LegacyUIManager.CreateUINode | assets/Core/UI/UIManager.ts:76-104 | the loaded prefab becomes a new node, placed under its layer's container when one exists (the optional chain skips a missing one) |
| LegacyUIManaging.LegacyUIManager.Present | assets/Core/UI/UIManager.ts:80-97 | `init(data)` runs first when there is a UIBase; then the node is activated and recorded under the name, replacing any node recorded in between; then the show animation starts, or `onShow` runs (and throws without a UIBase) |
| LegacyUIManaging.LegacyUIManager.ShowView | assets/Core/UI/UIManager.ts:89-97 | with an animation component its show starts (a busy one returns null and the open finishes at once); without one `onShow` runs, or throws when there is no UIBase |
| LegacyUIManaging.LegacyUIManager.PrefabArrived | assets/Core/UI/UIManager.ts:70-97 | a failed load fails the open with nothing recorded; a loaded prefab becomes a node that is placed, initialized, activated and recorded, and the open then waits for its show or settles |
| LegacyUIManaging.LegacyUIManager.Materialize | assets/Core/UI/UIManager.ts:72-97 | the success half of the step above: a fresh node is recorded under the view's name |
| LegacyUIManaging.LegacyUIManager.Advance | assets/Core/UI/UIManager.ts:91-97 | an open either waits for its show tween or settles with its outcome |
| LegacyUIManaging.LegacyUIManager.ShowDone | assets/Core/UI/UIAnimationComponent.ts:73-77 | when the show tween ends the flag clears and the open resolves with the node |
| LegacyUIManaging.LegacyUIManager.RemoveUI | assets/Core/UI/UIManager.ts:134-147 | the recorded node is deactivated, destroyed unless its config says `cache` (there is no pool, so a cached node is only hidden), and always forgotten; with no node recorded the property access throws |
| LegacyUIManaging.LegacyUIManager.CloseUI | assets/Core/UI/UIManager.ts:110-132 | an unknown name does nothing; a node without a UIBase is destroyed and forgotten at once; with an animation component its hide starts and removal waits for it; otherwise removal happens at once |
| LegacyUIManaging.LegacyUIManager.StartHide | assets/Core/UI/UIManager.ts:126-128 | a busy component returns null and the `.then` on it throws; otherwise the hide starts and its removal is queued under the name |
| LegacyUIManaging.LegacyUIManager.HideDone | assets/Core/UI/UIManager.ts:126-147 | when the hide ends the node goes inactive, its flag clears, and removeUI runs on whatever node is recorded under the name by then |
| LegacyUIManaging.OverlappingOpensLoadTwice | assets/Core/UI/UIManager.ts:62-87 | two opens of a name that is not open yet make two tasks and request the prefab twice |
| SpriteCaching.Call | assets/Activity/SpriteCache.ts:23-32 | `callback?.(frame)`: one call with the frame when there is a callback, none otherwise |
| SpriteCaching.SpriteCache.constructor | assets/Activity/SpriteCache.ts:6-10 | a fresh, empty cache; no load, no callback call |
| SpriteCaching.SpriteCache.Destroy | assets/Activity/SpriteCache.ts:12-15 | the cache is emptied without releasing anything and the reference is dropped; a second destroy calls through null and throws |
| SpriteCaching.SpriteCache.GetSpriteFrame | assets/Activity/SpriteCache.ts:17-33 | a hit calls back once with the cached frame and issues no load; a miss issues one load and calls back with undefined at once (an empty path also gets null first, from the loader's synchronous error); after destroy the call throws with nothing changed |
| SpriteCaching.SpriteCache.LoadFinished | assets/Activity/SpriteCache.ts:20-29 | a load error calls back with null and leaves the cache unchanged; a frame is cached and then handed to the callback; after destroy the caching throws before the callback |
| SpriteCaching.SpriteCache.GetSpriteFrameAsync | assets/Activity/SpriteCache.ts:35-44 | a hit resolves with the cached frame and issues no load; a miss issues one load and waits for it; an empty path rejects; after destroy it rejects |
| SpriteCaching.SpriteCache.AsyncLoadFinished | assets/Activity/SpriteCache.ts:38-43 | a failed load rejects with the cache untouched; a frame is cached and returned |
| SpriteCaching.MissCallsBackTwice | assets/Activity/SpriteCache.ts:19-32 | on a miss the callback fires twice, with undefined and then the loaded frame; a second get of the path is then a hit and issues no load |
| EventLists.FirstLower | assets/Core/Event/EventCenter.ts:110 | `findIndex(priority < p)`: the index found has lower priority and every entry before it has at least p; -1 only when no entry is lower |
| EventLists.FirstMatch | assets/Core/Event/EventCenter.ts:165-167 | the first entry for the (callback, target) pair, or -1 when none matches |
| EventLists.InsertAt | assets/Core/Event/EventCenter.ts:110-115 | the insertion point is within the list (push when nothing is lower) |
| EventLists.Insert | assets/Core/Event/EventCenter.ts:109-115 | addEvent's insertion into one list: the new entry goes in front of the first entry of lower priority, or at the end when none is lower |
| EventLists.Add | assets/Core/Event/EventCenter.ts:103-116 | addEvent on one list: a (callback, target) pair already listed leaves the list as it is; any other pair is inserted by priority |
| EventLists.RemoveFirst | assets/Core/Event/EventCenter.ts:156-175 | removeEvent on one list: the first entry for the pair is spliced out; a list without the pair is unchanged |
| EventLists.Fired | assets/Core/Event/EventCenter.ts:140-151 | the calls one processEvents pass makes: every entry in list order with the posted data, except a forced entry whose target is inactive |
| EventLists.InsertPlacement | assets/Core/Event/EventCenter.ts:110-115 | in a sorted list a new entry goes after every entry of equal or higher priority and before every lower one |
| EventLists.InsertEntries | assets/Core/Event/EventCenter.ts:114 | `splice(index, 0, e)`: the entries before the point stay, the new entry is at the point, and the rest shift by one |
| EventLists.InsertKeepsSorted | assets/Core/Event/EventCenter.ts:109-115 | insertion keeps a list in non-increasing priority order |
| EventLists.InsertKeepsUnique | assets/Core/Event/EventCenter.ts:103-107 | inserting a pair not yet listed keeps every (callback, target) pair listed at most once |
| EventLists.AddKeepsWellFormed | assets/Core/Event/EventCenter.ts:88-117 | addEvent keeps each list sorted and free of duplicate pairs |
| EventLists.AddLists | assets/Core/Event/EventCenter.ts:103-116 | after addEvent the pair is listed; a listed pair leaves the list unchanged; a new pair adds exactly one entry |
| EventLists.RemoveKeepsWellFormed | assets/Core/Event/EventCenter.ts:156-175 | removing the first match keeps the list well formed and leaves the pair unlisted |
| EventLists.AddThenRemove | assets/Core/Event/EventCenter.ts:88-175 | onEvent followed by offEvent of the same pair gives the list back |
| EventLists.FiredAppend | assets/Core/Event/EventCenter.ts:140-151 | the calls of a pass over a concatenation are the calls over each part, in order |
| EventLists.FiredBounds | assets/Core/Event/EventCenter.ts:140-151 | a pass calls each entry at most once, in list order, with the posted data, and skips only forced entries whose target is inactive |
| EventLists.Removed | assets/Core/Event/EventCenter.ts:156-175 | an unknown name or an unlisted pair leaves the table unchanged; otherwise the first entry for the pair goes and a list left empty takes its name with it |
| EventLists.EventCenter.constructor | assets/Core/Event/EventCenter.ts:19-21 | both tables empty, no calls |
| EventLists.EventCenter.Destroy | assets/Core/Event/EventCenter.ts:23-26 | both tables are emptied |
| EventLists.EventCenter.OnEvent | assets/Core/Event/EventCenter.ts:42-100 | addEvent on the persistent table, creating the name's list if needed; the one-shot table is untouched |
| EventLists.EventCenter.OnEventOnce | assets/Core/Event/EventCenter.ts:53-61 | addEvent on the one-shot table; the persistent table is untouched |
| EventLists.EventCenter.OffEvent | assets/Core/Event/EventCenter.ts:65-76 | with both a callback and a target, the first entry for the pair leaves each table; otherwise the name leaves both tables |
| EventLists.EventCenter.HasEvent | assets/Core/Event/EventCenter.ts:80-82 | true exactly when the name has a list in either table, even an empty one |
| EventLists.EventCenter.PostEvent | assets/Core/Event/EventCenter.ts:33-39 | the persistent listeners run, then the one-shot ones, each over the list as it was when posted; the one-shot list is emptied and its name kept |
| EventLists.EventCenter.ProcessEvents | assets/Core/Event/EventCenter.ts:121-152 | a missing or empty list does nothing; otherwise exactly the calls of one pass over a snapshot taken first are made, and a one-shot list is emptied before any of them |
| EventLists.OnceFiresOnce | assets/Core/Event/EventCenter.ts:80-137 | a one-shot listener fires on the first post and not on the second, while its name stays registered |
| RedDotLists.AddOnce | assets/Core/redDot/RedDotNode.ts:41-123 | `includes` then `push`: the element is listed afterwards, nothing else is added, the old list is a prefix, and a list without repeats stays without repeats |
| RedDotLists.IndexOf | assets/Core/redDot/RedDotNode.ts:55-135 | `indexOf`: -1 exactly when the element is absent, otherwise the position of its first occurrence |
| RedDotLists.RemoveFirstOf | assets/Core/redDot/RedDotNode.ts:55-137 | an absent element leaves the list as it is; otherwise exactly one occurrence goes (the multiset loses one copy) |
| RedDotLists.RemoveFirstOfKeeps | assets/Core/redDot/RedDotNode.ts:50-58 | the removal adds nothing, and on a list without repeats the element is gone entirely |
| RedDotLists.SumOf | assets/Core/redDot/RedDotNode.ts:104-108 | updateFromChildren's reduce: the children's values added up in order, starting from 0 |
| RedDotLists.Notices | assets/Core/redDot/RedDotNode.ts:143-148 | notifyListeners: each listener in registration order, called with the node's value |
| RedDotLists.SumOfFrame | assets/Core/redDot/RedDotNode.ts:104-108 | the children's sum depends only on the children's own values |
| RedDotLists.SumOfOthers | assets/Core/redDot/RedDotNode.ts:104-108 | changing a node that is not a child leaves the sum alone |
| RedDotLists.SumOfNewLeaf | assets/Core/redDot/RedDotNode.ts:104-108 | a new child of value 0 leaves its parent's sum unchanged |
| RedDotLists.Decremented | assets/Core/redDot/RedDotSystem.ts:106 | the decremented value is never negative, and it is the plain difference unless that is negative, when it is 0 |
| RedDotLists.DfsCalls | assets/Core/redDot/RedDotSystem.ts:39-45 | the first registerNode call of a traversal is for the entry itself, under the given parent key |
| RedDotLists.DfsCallsAllStep | assets/Core/redDot/RedDotSystem.ts:42-44 | the loop's calls grow by the next child's subtree, in order |
| RedDotLists.ParentsFirst | assets/Core/redDot/RedDotSystem.ts:39-45 | in the depth-first calls, every call after the first names as parent a key registered by an earlier call, so parents are in the table before their children |
| RedDotLists.ParentsFirstAll | assets/Core/redDot/RedDotSystem.ts:42-44 | the same for the loop over an entry's children: each parent is the entry's key or an earlier call's key |
| RedDotLists.AssignKeepsBalance | assets/Core/redDot/RedDotNode.ts:84-110 | changing a node that is neither m nor one of m's children leaves whether m holds its children's sum unchanged |
| RedDotLists.AncestorsBelow | assets/Core/redDot/RedDotSystem.ts:55-68 | with parents registered first, every ancestor of a node has a smaller id, so the upward walk of setValue ends |
| RedDotLists.ParentFor | assets/Core/redDot/RedDotSystem.ts:64 | no parent key or an empty one means the root; a key in the table its node; an unknown key no parent (the lookup made before the new key goes in) |
| RedDotLists.ParentAsWritten | assets/Core/redDot/RedDotSystem.ts:60-66 | the parent lookup as registerNode writes it, after the new key is stored |
| RedDotLists.Attached | assets/Core/redDot/RedDotNode.ts:36-44 | the child lists after registerNode hangs a new leaf under a parent: the parent gains the leaf once (addChild), and the leaf has no children |
| RedDotLists.SelfParentAsWritten | assets/Core/redDot/RedDotSystem.ts:60-66 | as written, registerNode(k, k) for a new k finds the new node as its own parent, where the lookup before the insertion finds none |
| RedDotLists.AttachKeepsBalance | assets/Core/redDot/RedDotNode.ts:36-44 | hanging a new leaf of value 0 under a node keeps every balanced inner node balanced |
| RedDotLists.AttachKeepsLinks | assets/Core/redDot/RedDotNode.ts:36-44 | adding the last node under an earlier parent keeps child lists and parent links in agreement |
| RedDotLists.RemoveKeepsLinks | assets/Core/redDot/RedDotNode.ts:50-58 | dropping a child from a list keeps the links of the children that stay |
| RedDotLists.AddKeepsTable | assets/Core/redDot/RedDotSystem.ts:60-61 | a new key takes the next id and the key table stays a bijection with "root" at 0 |
| RedDotLists.AddKeepsTree | assets/Core/redDot/RedDotSystem.ts:60-66 | a new leaf keeps the tree a tree (parents before children, links agreeing) and keeps balanced inner nodes balanced |
| RedDotLists.AddKeepsTableShape | assets/Core/redDot/RedDotSystem.ts:55-68 | the whole node table survives a new registration, and every old key keeps its node |
| RedDotLists.ListenersKeepShape | assets/Core/redDot/RedDotNode.ts:116-138 | a listener list without repeats keeps the node table |
| RedDotLists.RemoveChildKeepsShape | assets/Core/redDot/RedDotNode.ts:50-58 | removing a child keeps the node table |
| EagerRedDot.RedDotSystem.NotAChild | assets/Core/redDot/RedDotNode.ts:36-44 | only a node's parent lists it as a child |
| EagerRedDot.RedDotSystem.constructor | assets/Core/redDot/RedDotSystem.ts:19-22 | a table holding only "root", with value 0, no parent, no children and no listeners |
| EagerRedDot.RedDotSystem.ChildSum | assets/Core/redDot/RedDotNode.ts:104-108 | the loop returns the sum of the children's values |
| EagerRedDot.RedDotSystem.SetNodeValue | assets/Core/redDot/RedDotNode.ts:84-91 | an equal value changes nothing; otherwise the value is stored, the listeners are called with it, only the node and its ancestors change, the parent ends up holding its children's sum and no balanced node becomes unbalanced |
| EagerRedDot.RedDotSystem.Store | assets/Core/redDot/RedDotNode.ts:85-148 | the value is stored and each listener called once with it, in order; every node but the parent keeps its balance |
| EagerRedDot.RedDotSystem.UpdateFromChildren | assets/Core/redDot/RedDotNode.ts:104-110 | the node takes its children's sum and so is balanced; only it and its ancestors change |
| EagerRedDot.RedDotSystem.Register | assets/Core/redDot/RedDotSystem.ts:55-68 | a known key returns its node and changes nothing; a new key gets a new leaf of value 0 under the parent the key table names, with the corrected lookup made before the key is stored; the call is logged; balanced nodes stay balanced |
| EagerRedDot.RedDotSystem.AddNode | assets/Core/redDot/RedDotSystem.ts:60-67 | the new-key branch: the next id, value 0, no listeners, attached under the parent |
| EagerRedDot.RedDotSystem.TraverseDFS | assets/Core/redDot/RedDotSystem.ts:39-45 | exactly the depth-first calls are made; old keys keep their nodes and balanced nodes stay balanced |
| EagerRedDot.RedDotSystem.TraverseChildren | assets/Core/redDot/RedDotSystem.ts:42-44 | the loop makes the calls of each child's subtree in order, under the entry's key |
| EagerRedDot.RedDotSystem.Init | assets/Core/redDot/RedDotSystem.ts:28-32 | the traversal from the top under the root; every key of the configuration ends up in the table |
| EagerRedDot.RedDotSystem.SetValue | assets/Core/redDot/RedDotSystem.ts:77-82 | an unknown key changes nothing; a known one takes the value, with only its ancestors also changing and balanced nodes staying balanced |
| EagerRedDot.RedDotSystem.Increment | assets/Core/redDot/RedDotSystem.ts:89-95 | the value grows by the amount, with no upper bound; an unknown key changes nothing |
| EagerRedDot.RedDotSystem.Decrement | assets/Core/redDot/RedDotSystem.ts:102-109 | the value becomes the decremented value, never below 0; an unknown key changes nothing |
| EagerRedDot.RedDotSystem.GetValue | assets/Core/redDot/RedDotSystem.ts:116-122 | the node's value, or 0 for an unknown key |
| EagerRedDot.RedDotSystem.AddListener | assets/Core/redDot/RedDotSystem.ts:129-134 | a null listener or unknown key changes nothing; otherwise the listener is kept once |
| EagerRedDot.RedDotSystem.RemoveListener | assets/Core/redDot/RedDotSystem.ts:141-146 | an unknown key changes nothing; otherwise the listener's first registration goes |
| EagerRedDot.RedDotSystem.RemoveChild | assets/Core/redDot/RedDotNode.ts:50-58 | the child's first occurrence leaves the list; the child keeps its parent link and no value is recomputed |
| EagerRedDot.TwoBadges | assets/Core/redDot/RedDotSystem.ts:55-68 | two keys registered without a parent on a fresh system hang under the root with ids 1 and 2 and value 0 |
| EagerRedDot.RootShowsTotal | assets/Core/redDot/RedDotSystem.ts:89-95 | with two badges under the root, incrementing the first by 2 makes the root show 2 through the upward recompute |
| RedDotBatch.UnderscoresAppend | dx_framework/src/modules/cocos-red-dot-system/src/RedDotSystem.ts:149 | the separators of a concatenation are those of the parts added up |
| RedDotBatch.UnderscoresNone | dx_framework/src/modules/cocos-red-dot-system/src/RedDotSystem.ts:149 | a key has no separator exactly when it holds no '_' |
| RedDotBatch.SegmentLevels | dx_framework/src/modules/cocos-red-dot-system/src/RedDotSystem.ts:149 | each node's level as batchUpdate sorts by it: the number of '_'-separated segments of its key |
| RedDotBatch.SegmentCount | dx_framework/src/modules/cocos-red-dot-system/src/RedDotSystem.ts:149 | `split('_').length` is at least 1, and exactly 1 when the key holds no '_' |
| RedDotBatch.SegmentsOfJoin | dx_framework/src/modules/cocos-red-dot-system/src/RedDotSystem.ts:149 | joining two keys with '_' adds their segment counts |
| RedDotBatch.InsertByDepth | dx_framework/src/modules/cocos-red-dot-system/src/RedDotSystem.ts:148-150 | one insertion of the stable sort adds exactly the element |
| RedDotBatch.InsertKeepsSorted | dx_framework/src/modules/cocos-red-dot-system/src/RedDotSystem.ts:148-150 | the insertion keeps a deepest-first list deepest first |
| RedDotBatch.CountAtMostOne | dx_framework/src/modules/cocos-red-dot-system/src/RedDotSystem.ts:148 | a list without repeats (the set's contents) holds each node at most once |
| RedDotBatch.CountTwice | dx_framework/src/modules/cocos-red-dot-system/src/RedDotSystem.ts:148 | two equal entries count twice |
| RedDotBatch.NoDuplicatesFromMultiset | dx_framework/src/modules/cocos-red-dot-system/src/RedDotSystem.ts:148 | a permutation of a list without repeats has none |
| RedDotBatch.SortByDepth | dx_framework/src/modules/cocos-red-dot-system/src/RedDotSystem.ts:148-150 | the sort is a permutation of the dirty set |
| RedDotBatch.SortByDepthSorted | dx_framework/src/modules/cocos-red-dot-system/src/RedDotSystem.ts:147-150 | the sorted list is deepest first and keeps the nodes distinct |
| RedDotBatch.WithoutRoot | dx_framework/src/modules/cocos-red-dot-system/src/RedDotSystem.ts:153 | the filter keeps exactly the entries other than the root, in order, and adds no repeats |
| RedDotBatch.WithoutRootSorted | dx_framework/src/modules/cocos-red-dot-system/src/RedDotSystem.ts:153 | filtering keeps the deepest-first order |
| RedDotBatch.BatchOrder | dx_framework/src/modules/cocos-red-dot-system/src/RedDotSystem.ts:148-156 | the visiting order ends with the root, holds it nowhere else, holds exactly the dirty nodes and the root, has no repeats, and is deepest first before the root |
| RedDotBatch.UpdateValue | dx_framework/src/modules/cocos-red-dot-system/dist/modules/cocos-red-dot-system/src/RedDotNode.js:107-119 | a clean node answers false and changes nothing; a dirty node is cleaned; a dirty leaf answers true with its value kept; a dirty inner node takes its children's sum and answers whether the value changed; no other node changes |
| RedDotBatch.RunAll | dx_framework/src/modules/cocos-red-dot-system/src/RedDotSystem.ts:159-165 | running updateValue over a batch keeps the tallies well formed |
| RedDotBatch.RunAllUntouched | dx_framework/src/modules/cocos-red-dot-system/src/RedDotSystem.ts:159-165 | nodes outside the order keep value and flag, clean nodes keep their value, and every visited node ends clean |
| RedDotBatch.DirtyFirstBalances | dx_framework/src/modules/cocos-red-dot-system/src/RedDotSystem.ts:147-165 | visiting each node once, dirty children before parents, leaves every node that was dirty holding its children's sum |
| RedDotBatch.BatchChildrenFirst | dx_framework/src/modules/cocos-red-dot-system/src/RedDotSystem.ts:147-156 | with levels that grow from parent to child, the batch order puts every dirty child before its parent |
| RedDotBatch.Batch | dx_framework/src/modules/cocos-red-dot-system/src/RedDotSystem.ts:140-168 | the update pass over the batch order keeps the tallies well formed |
| RedDotBatch.CleanStaysBalanced | dx_framework/src/modules/cocos-red-dot-system/src/RedDotSystem.ts:159-165 | a clean node with clean children keeps its value and its balance through the pass |
| RedDotBatch.BatchBalances | dx_framework/src/modules/cocos-red-dot-system/src/RedDotSystem.ts:140-168 | on a consistent tree, with levels that grow from parent to child, the batch leaves every node clean and holding its children's sum |
| RedDotBatch.Changed | dx_framework/src/modules/cocos-red-dot-system/src/RedDotSystem.ts:159-165 | the nodes whose updateValue answered true, in visiting order (nodesToNotify) |
| RedDotBatch.NoticesFor | dx_framework/src/modules/cocos-red-dot-system/src/RedDotSystem.ts:170-172 | notifyListeners on each collected node in order: its listeners get its current value |
| RedDotBatch.ChangedExactly | dx_framework/src/modules/cocos-red-dot-system/src/RedDotSystem.ts:159-165 | the nodes to notify are exactly the visited nodes that were dirty and are leaves or changed value |
| RedDotBatch.BatchCleans | dx_framework/src/modules/cocos-red-dot-system/src/RedDotSystem.ts:167-168 | after the batch every node is clean |
| RedDotBatch.TreeLevels | dx_framework/src/modules/cocos-red-dot-system/src/RedDotSystem.ts:147 | the corrected levels: each node's depth in the tree, by id |
| RedDotBatch.TreeDepth | dx_framework/src/modules/cocos-red-dot-system/src/RedDotSystem.ts:147 | a node's depth in the tree is at least 1 |
| RedDotBatch.TreeLevelsOrdered | dx_framework/src/modules/cocos-red-dot-system/src/RedDotSystem.ts:147 | depth in the tree grows from parent to child, whatever the keys are |
| RedDotBatch.TreeBatchBalances | dx_framework/src/modules/cocos-red-dot-system/src/RedDotSystem.ts:140-173 | sorting by depth in the tree, the batch leaves every node of any consistent tree clean and holding its children's sum |
| RedDotBatch.InsertLast | dx_framework/src/modules/cocos-red-dot-system/src/RedDotSystem.ts:148-150 | an element no deeper than the rest goes last |
| RedDotBatch.SortKeepsEqualLevels | dx_framework/src/modules/cocos-red-dot-system/src/RedDotSystem.ts:148-150 | when all levels are equal the stable sort keeps the insertion order |
| RedDotBatch.NoUnderscoreLevels | dx_framework/src/modules/cocos-red-dot-system/src/RedDotSystem.ts:149 | keys without '_' all sit at level 1 |
| RedDotBatch.WithoutRootSnoc | dx_framework/src/modules/cocos-red-dot-system/src/RedDotSystem.ts:153 | filtering one more element |
| RedDotBatch.EqualLevelsOrder | dx_framework/src/modules/cocos-red-dot-system/src/RedDotSystem.ts:148-156 | with equal levels the batch order is the dirty set as inserted, with the root moved last |
| RedDotBatch.RunAllSnoc | dx_framework/src/modules/cocos-red-dot-system/src/RedDotSystem.ts:159-165 | running one more node is one more updateValue |
| RedDotBatch.StaleParentAsWritten | dx_framework/src/modules/cocos-red-dot-system/src/RedDotSystem.ts:147-150 | with '.'-joined keys every node sits at level 1, so task is summed before achievement takes its new value; task and the root end clean showing 1 while the leaves hold 2, on a tree that meets every premise of BatchBalances except levels that grow from parent to child |
| RedDotBatch.UnderscoreChildDeeper | dx_framework/src/modules/cocos-red-dot-system/src/RedDotSystem.ts:148-150 | a key extended with '_' and a name counts more '_' segments than the key |
| RedDotBatch.UnderscoreLevelsOrdered | dx_framework/src/modules/cocos-red-dot-system/src/RedDotSystem.ts:147-150 | when every child key is its parent's key, '_' and a name, the segment counts the sort uses grow from parent to child |
| RedDotBatch.UnderscoreBatchBalances | dx_framework/src/modules/cocos-red-dot-system/src/RedDotSystem.ts:140-168 | for such '_'-joined keys the batch as written, sorted by segment count, leaves every node of a consistent tree clean and holding its children's sum |
| RedDotBatch.AttachKeepsClean | dx_framework/src/modules/cocos-red-dot-system/dist/modules/cocos-red-dot-system/src/RedDotNode.js:32-41 | a new clean leaf keeps every clean node balanced, unless its parent is a clean leaf holding a value other than 0 |
| BatchedRedDot.DirtyAncestors | dx_framework/src/modules/cocos-red-dot-system/dist/modules/cocos-red-dot-system/src/RedDotNode.js:91-102 | with the dirty flags closed upwards, every ancestor of a dirty node is dirty |
| BatchedRedDot.DirtyUpCloses | dx_framework/src/modules/cocos-red-dot-system/dist/modules/cocos-red-dot-system/src/RedDotNode.js:91-102 | flags closed upwards along parent links are closed upwards along child lists |
| BatchedRedDot.NotChildOfClean | dx_framework/src/modules/cocos-red-dot-system/dist/modules/cocos-red-dot-system/src/RedDotNode.js:91-102 | a dirty node is never the child of a clean one |
| BatchedRedDot.AddKeepsClean | dx_framework/src/modules/cocos-red-dot-system/src/RedDotSystem.ts:97-104 | a new clean leaf keeps the clean nodes balanced (as AttachKeepsClean says) |
| BatchedRedDot.AddKeepsDirty | dx_framework/src/modules/cocos-red-dot-system/src/RedDotSystem.ts:97-104 | a new clean leaf keeps the flags closed upwards and the dirty set exact |
| BatchedRedDot.RootShape | dx_framework/src/modules/cocos-red-dot-system/src/RedDotSystem.ts:26-29 | a table holding only a clean root, nothing scheduled, meets the invariant |
| BatchedRedDot.SettledShape | dx_framework/src/modules/cocos-red-dot-system/src/RedDotSystem.ts:140-168 | after the batch every flag is down and the set is empty, so the invariant holds with nothing scheduled |
| BatchedRedDot.AddKeepsShape | dx_framework/src/modules/cocos-red-dot-system/src/RedDotSystem.ts:92-106 | registerNode's new node keeps the invariant |
| BatchedRedDot.MarkOne | dx_framework/src/modules/cocos-red-dot-system/dist/modules/cocos-red-dot-system/src/RedDotNode.js:91-97 | raising one flag and adding the node to the set keeps the set exact and leaves only the parent possibly clean above a dirty child |
| BatchedRedDot.MarkedUpDone | dx_framework/src/modules/cocos-red-dot-system/dist/modules/cocos-red-dot-system/src/RedDotNode.js:92-93 | makeDirty on a node already dirty stops at once |
| BatchedRedDot.MarkedUpTop | dx_framework/src/modules/cocos-red-dot-system/dist/modules/cocos-red-dot-system/src/RedDotNode.js:94-97 | makeDirty on a node without a parent marks only that node |
| BatchedRedDot.MarkedUpStep | dx_framework/src/modules/cocos-red-dot-system/dist/modules/cocos-red-dot-system/src/RedDotNode.js:94-101 | makeDirty on a node is its own mark followed by makeDirty on its parent |
| BatchedRedDot.BatchSettles | dx_framework/src/modules/cocos-red-dot-system/src/RedDotSystem.ts:140-168 | in the corrected tree-depth order, the batch leaves every node clean, and every node balanced when every clean node was |
| BatchedRedDot.BatchedRedDotSystem.constructor | dx_framework/src/modules/cocos-red-dot-system/src/RedDotSystem.ts:26-29 | a table holding only "root", clean, with nothing scheduled |
| BatchedRedDot.BatchedRedDotSystem.OnDestroy | dx_framework/src/modules/cocos-red-dot-system/src/RedDotSystem.ts:49-55 | the table, the dirty set and the schedule flag are reset to a fresh root; a pending timer stays pending |
| BatchedRedDot.BatchedRedDotSystem.Register | dx_framework/src/modules/cocos-red-dot-system/src/RedDotSystem.ts:92-106 | a known key returns its node and changes nothing; a new key gets a clean leaf of value 0 under the parent the key table names, with the corrected lookup made before the key is stored; the invariant is kept |
| BatchedRedDot.BatchedRedDotSystem.AddNode | dx_framework/src/modules/cocos-red-dot-system/src/RedDotSystem.ts:97-104 | the new-key branch: the next id, value 0, clean, attached under the parent |
| BatchedRedDot.BatchedRedDotSystem.TraverseDFS | dx_framework/src/modules/cocos-red-dot-system/src/RedDotSystem.ts:75-83 | exactly the depth-first calls are made, an entry without children counting as one with none; old keys keep their nodes |
| BatchedRedDot.BatchedRedDotSystem.TraverseChildren | dx_framework/src/modules/cocos-red-dot-system/src/RedDotSystem.ts:78-82 | the loop makes each child's calls in order, under the entry's key |
| BatchedRedDot.BatchedRedDotSystem.Init | dx_framework/src/modules/cocos-red-dot-system/src/RedDotSystem.ts:64-68 | every key of the configuration ends up in the table |
| BatchedRedDot.BatchedRedDotSystem.ScheduleUpdate | dx_framework/src/modules/cocos-red-dot-system/src/RedDotSystem.ts:132-138 | the flag is up afterwards and a timer is set only when it was down |
| BatchedRedDot.BatchedRedDotSystem.AddDirtyNode | dx_framework/src/modules/cocos-red-dot-system/src/RedDotSystem.ts:126-129 | the node joins the set once and an update is scheduled |
| BatchedRedDot.BatchedRedDotSystem.MakeDirty | dx_framework/src/modules/cocos-red-dot-system/dist/modules/cocos-red-dot-system/src/RedDotNode.js:91-102 | the node and all its ancestors end dirty, no flag is cleared, the set gains exactly the newly marked nodes, and a timer is set only when the flag was down |
| BatchedRedDot.BatchedRedDotSystem.SetNodeValue | dx_framework/src/modules/cocos-red-dot-system/dist/modules/cocos-red-dot-system/src/RedDotNode.js:78-87 | a node with children refuses the value (the warning branch); an equal value changes nothing; otherwise the value is stored and the node and its ancestors are marked; no listener runs yet |
| BatchedRedDot.BatchedRedDotSystem.SetValue | dx_framework/src/modules/cocos-red-dot-system/src/RedDotSystem.ts:114-120 | an unknown key changes nothing; a known key goes through the node's setValue and an update is scheduled even when the node refused |
| BatchedRedDot.BatchedRedDotSystem.Increment | dx_framework/src/modules/cocos-red-dot-system/src/RedDotSystem.ts:181-187 | the node's setValue with the amount added, with no upper bound; an unknown key changes nothing; a clean leaf whose value changes is marked with its ancestors and a timer is set when none was pending, and in every other case (an inner node, an amount of 0, a node already dirty) no flag, set entry or timer changes |
| BatchedRedDot.BatchedRedDotSystem.Decrement | dx_framework/src/modules/cocos-red-dot-system/src/RedDotSystem.ts:194-201 | the node's setValue with the decremented value, never below 0; an unknown key changes nothing; a clean leaf whose value changes is marked with its ancestors and a timer is set when none was pending, and otherwise no flag, set entry or timer changes |
| BatchedRedDot.BatchedRedDotSystem.GetValue | dx_framework/src/modules/cocos-red-dot-system/src/RedDotSystem.ts:208-214 | the node's value, or 0 for an unknown key |
| BatchedRedDot.BatchedRedDotSystem.AddListener | dx_framework/src/modules/cocos-red-dot-system/src/RedDotSystem.ts:221-226 | a null listener or unknown key changes nothing; otherwise the listener is kept once |
| BatchedRedDot.BatchedRedDotSystem.RemoveListener | dx_framework/src/modules/cocos-red-dot-system/src/RedDotSystem.ts:233-238 | an unknown key changes nothing; otherwise the listener's first registration goes |
| BatchedRedDot.BatchedRedDotSystem.ChildSum | dx_framework/src/modules/cocos-red-dot-system/dist/modules/cocos-red-dot-system/src/RedDotNode.js:130-135 | the loop returns the sum of the children's values |
| BatchedRedDot.BatchedRedDotSystem.UpdateFromChildren | dx_framework/src/modules/cocos-red-dot-system/dist/modules/cocos-red-dot-system/src/RedDotNode.js:130-137 | setValue with the children's sum; a node with children refuses it, so only a leaf changes, to 0 |
| BatchedRedDot.BatchedRedDotSystem.UpdateNode | dx_framework/src/modules/cocos-red-dot-system/dist/modules/cocos-red-dot-system/src/RedDotNode.js:107-119 | exactly the step UpdateValue describes |
| BatchedRedDot.BatchedRedDotSystem.UpdatePass | dx_framework/src/modules/cocos-red-dot-system/src/RedDotSystem.ts:159-165 | the tallies after the loop are RunAll's, and the nodes collected are Changed's |
| BatchedRedDot.BatchedRedDotSystem.NotifyAll | dx_framework/src/modules/cocos-red-dot-system/src/RedDotSystem.ts:171-173 | each collected node's listeners are called with its value, in order |
| BatchedRedDot.BatchedRedDotSystem.Recompute | dx_framework/src/modules/cocos-red-dot-system/src/RedDotSystem.ts:147-168 | the recompute equals Batch over the dirty set in the corrected tree-depth order; every node ends clean, and balanced when every clean node was |
| BatchedRedDot.BatchedRedDotSystem.BatchUpdate | dx_framework/src/modules/cocos-red-dot-system/src/RedDotSystem.ts:140-174 | the flag drops; an empty set ends the call with nothing changed; otherwise the batch runs in the corrected tree-depth order, the set is emptied and the changed nodes' listeners are called; every node ends clean and balanced when every clean node was |
| BatchedRedDot.BatchedRedDotSystem.ForceUpdate | dx_framework/src/modules/cocos-red-dot-system/src/RedDotSystem.ts:241-243 | the batch, at once, in the corrected tree-depth order, with the same outcome |
| BatchedRedDot.BatchedRedDotSystem.TimerFires | dx_framework/src/modules/cocos-red-dot-system/src/RedDotSystem.ts:135-137 | a pending timer runs the batch, in the corrected tree-depth order, and is gone |
| BatchedRedDot.ForceThenSet | dx_framework/src/modules/cocos-red-dot-system/src/RedDotSystem.ts:132-138 | forceUpdate while a timer is pending drops the flag but not the timer, so a setValue right after leaves two timers pending |
| RedDotKeyGen.FullKey | assets/dx-framework/scripts/generate-red-dot-keys.js:31 | `prefix ? prefix + '.' + key : key`: an empty prefix counts as none |
| RedDotKeyGen.GenerateKeys | assets/dx-framework/scripts/generate-red-dot-keys.js:27-40 | generateKeys: for each entry in Object.entries order, its full key and then its children's keys under it |
| RedDotKeyGen.EntryKeys | assets/dx-framework/scripts/generate-red-dot-keys.js:30-36 | an entry's block of keys starts with its own full key |
| RedDotKeyGen.KeyCount | assets/dx-framework/scripts/generate-red-dot-keys.js:27-40 | generateKeys emits exactly one key per configuration entry |
| RedDotKeyGen.EntryKeyCount | assets/dx-framework/scripts/generate-red-dot-keys.js:31-36 | one key per entry of a subtree |
| RedDotKeyGen.BelowTrans | assets/dx-framework/scripts/generate-red-dot-keys.js:31 | lying below, one dotted prefix at a time, is transitive |
| RedDotKeyGen.KeysBelow | assets/dx-framework/scripts/generate-red-dot-keys.js:31-35 | under a non-empty prefix every generated key is the prefix, a '.', and more |
| RedDotKeyGen.EntryBelow | assets/dx-framework/scripts/generate-red-dot-keys.js:31-35 | every key of an entry's block lies below a non-empty prefix |
| RedDotKeyGen.EntryPrecedesSubtree | assets/dx-framework/scripts/generate-red-dot-keys.js:31-36 | preorder: an entry's own key comes first in its block and every later key of the block lies below it |
| RedDotKeyGen.DistinctConcat | assets/dx-framework/scripts/generate-red-dot-keys.js:35 | concatenating two key lists without repeats and without common keys gives none |
| RedDotKeyGen.KeysUnderTop | assets/dx-framework/scripts/generate-red-dot-keys.js:30-37 | every key of a forest is at or below the full key of one of its top entries |
| RedDotKeyGen.SameSegment | assets/dx-framework/scripts/generate-red-dot-keys.js:31 | a key at or below the full keys of two dot-free names under one prefix forces the names to agree |
| RedDotKeyGen.KeysDistinct | assets/dx-framework/scripts/generate-red-dot-keys.js:27-40 | a well-named configuration gives every entry its own key: no key is emitted twice |
| RedDotKeyGen.EntryKeysDistinct | assets/dx-framework/scripts/generate-red-dot-keys.js:31-36 | no key is emitted twice within an entry's block |
| RedDotKeyGen.TopWellNamed | assets/dx-framework/scripts/generate-red-dot-keys.js:30 | each top entry of a well-named forest is well named |
| RedDotKeyGen.ConstChar | assets/dx-framework/scripts/generate-red-dot-keys.js:59 | one character of a constant name: '.' becomes '_', an ASCII lower-case letter is upper-cased |
| RedDotKeyGen.ConstName | assets/dx-framework/scripts/generate-red-dot-keys.js:59 | the constant name has the key's length, holds no '.', and has '_' wherever the key had '.' |
| RedDotKeyGen.KeysObject | assets/dx-framework/scripts/generate-red-dot-keys.js:57-62 | the RedDotKeys object: constant name to key, a later key taking over a name an earlier key had |
| RedDotKeyGen.EnumObject | assets/dx-framework/scripts/generate-red-dot-keys.js:64-69 | the RedDotType enum: constant name to list position, again with later keys taking over |
| RedDotKeyGen.TypeMap | assets/dx-framework/scripts/generate-red-dot-keys.js:71-76 | the RedDotTypeMap object: each key's enum value mapped back to the key |
| RedDotKeyGen.IsValidKey | assets/dx-framework/scripts/generate-red-dot-keys.js:81-83 | isValidRedDotKey: the string is one of the values of RedDotKeys |
| RedDotKeyGen.ObjectsCover | assets/dx-framework/scripts/generate-red-dot-keys.js:57-69 | every key's constant is a property of both RedDotKeys and RedDotType |
| RedDotKeyGen.KeysObjectValues | assets/dx-framework/scripts/generate-red-dot-keys.js:57-62 | every value of RedDotKeys is a generated key |
| RedDotKeyGen.ConstNamesDistinctInit | assets/dx-framework/scripts/generate-red-dot-keys.js:57-62 | dropping the last key keeps constant names distinct |
| RedDotKeyGen.KeysObjectAt | assets/dx-framework/scripts/generate-red-dot-keys.js:57-62 | with distinct constant names each key's constant holds that key |
| RedDotKeyGen.EnumObjectAt | assets/dx-framework/scripts/generate-red-dot-keys.js:64-69 | with distinct constant names each key's enum value is its list position |
| RedDotKeyGen.TypeMapUpToIs | assets/dx-framework/scripts/generate-red-dot-keys.js:71-76 | the reverse map's first n entries map each position to its key |
| RedDotKeyGen.IndexRoundTrip | assets/dx-framework/scripts/generate-red-dot-keys.js:57-76 | with distinct constant names RedDotType and RedDotTypeMap invert each other: position to key and key's constant back to position |
| RedDotKeyGen.ValidIffGenerated | assets/dx-framework/scripts/generate-red-dot-keys.js:81-83 | isValidRedDotKey accepts only generated keys, and with distinct constant names it accepts every one of them |
| RedDotKeyGen.ConstCharInjective | assets/dx-framework/scripts/generate-red-dot-keys.js:59 | on plain characters and '.', the constant-name character map is injective |
| RedDotKeyGen.ConstNameInjective | assets/dx-framework/scripts/generate-red-dot-keys.js:59 | on keys made of plain characters and '.', distinct keys get distinct constant names |
| RedDotKeyGen.PlainConstNames | assets/dx-framework/scripts/generate-red-dot-keys.js:59 | a list of distinct plain keys has distinct constant names |
| RedDotKeyGen.PlainKeys | assets/dx-framework/scripts/generate-red-dot-keys.js:31 | a configuration of plain names generates plain keys |
| RedDotKeyGen.GeneratedTablesRoundTrip | assets/dx-framework/scripts/generate-red-dot-keys.js:27-83 | for a well-named configuration of plain names every generated key is valid, only those are, and the enum and reverse map invert each other |
| RedDotKeyGen.ConstNameCollision | assets/dx-framework/scripts/generate-red-dot-keys.js:59-60 | the well-named configuration {a_b, a {b}} generates a_b, a, a.b; a_b and a.b share the constant A_B, so RedDotKeys keeps only a.b and isValidRedDotKey rejects a_b |
| RedDotKeyGen.CollisionKeys | assets/dx-framework/scripts/generate-red-dot-keys.js:27-40 | that configuration is well named and generates a_b, a, a.b |
| RedDotKeyGen.CollidingNames | assets/dx-framework/scripts/generate-red-dot-keys.js:59 | "a_b" and "a.b" both become A_B |
| RedDotKeyGen.CollisionObject | assets/dx-framework/scripts/generate-red-dot-keys.js:57-62 | for those keys RedDotKeys holds A_B for a.b and A for a, and a_b is not valid |
| RedDotKeyGen.TwoLeafEntry | assets/dx-framework/scripts/generate-red-dot-keys.js:30-36 | an entry with two leaf children contributes its key and then its children's, in order |
| RedDotKeyGen.Pair | assets/dx-framework/scripts/generate-red-dot-keys.js:30-37 | two entries contribute their blocks one after the other |
| RedDotKeyGen.SampleGenerates | assets/dx-framework/src/generated/red-dot-keys.ts:13-25 | generateKeys on root { task { daily, achievement }, mail } yields exactly the checked-in keys, in order |
| RedDotKeyGen.MailKeys | assets/dx-framework/src/generated/red-dot-keys.ts:22-24 | the mail block is the last three checked-in keys |
| RedDotKeyGen.TaskKeys | assets/dx-framework/src/generated/red-dot-keys.ts:15-21 | the task block is the checked-in keys 1 to 7 |
| RedDotKeyGen.DailyKeys | assets/dx-framework/src/generated/red-dot-keys.ts:16-18 | the daily block is the checked-in keys 2 to 4 |
| RedDotKeyGen.AchievementKeys | assets/dx-framework/src/generated/red-dot-keys.ts:19-21 | the achievement block is the checked-in keys 5 to 7 |
| RedDotKeyGen.ConstNameConcat | assets/dx-framework/scripts/generate-red-dot-keys.js:59 | the constant name of a concatenation is the concatenation of constant names |
| RedDotKeyGen.SampleConstName | assets/dx-framework/src/generated/red-dot-keys.ts:22 | ROOT_MAIL is the constant of root.mail |
| ModuleRegistry.Defines | assets/dx-framework/src/core/ModuleManager.ts:78-96 | whether a module defines the hook `module.onX` tests |
| ModuleRegistry.Run | assets/dx-framework/src/core/ModuleManager.ts:78-80 | `module.onX && module.onX()`: one call when the hook is defined, none otherwise |
| ModuleRegistry.Each | assets/dx-framework/src/core/ModuleManager.ts:76-96 | `m_modules.forEach(...)`: the calls over every registered module in insertion order |
| ModuleRegistry.EachCallsDefined | assets/dx-framework/src/core/ModuleManager.ts:78-96 | forEach makes a call exactly for each listed module that defines the hook |
| ModuleRegistry.EachBounded | assets/dx-framework/src/core/ModuleManager.ts:78-80 | forEach makes no more calls than there are modules |
| ModuleRegistry.RunHooks | assets/dx-framework/src/core/ModuleManager.ts:78-80 | the loop makes exactly the calls of forEach, in insertion order |
| ModuleRegistry.Without | assets/dx-framework/src/core/ModuleManager.ts:70 | `Map.delete`: the key order keeps exactly the other keys |
| ModuleRegistry.WithoutDistinct | assets/dx-framework/src/core/ModuleManager.ts:70 | deleting keeps the key order free of repeats |
| ModuleRegistry.ModuleManager.constructor | assets/dx-framework/src/core/ModuleManager.ts:15-20 | an empty, unstarted manager with no calls |
| ModuleRegistry.ModuleManager.RegisterModuleByConstructor | assets/dx-framework/src/core/ModuleManager.ts:28-36 | a known token is ignored; otherwise the constructed module is stored under the token, appended to the key order, and no hook runs |
| ModuleRegistry.ModuleManager.RegisterModule | assets/dx-framework/src/core/ModuleManager.ts:43-56 | a used name is ignored; otherwise the module is stored under its class name, replacing an entry there in place, onInit runs, and onStart too when already started |
| ModuleRegistry.ModuleManager.UnregisterModule | assets/dx-framework/src/core/ModuleManager.ts:62-71 | an unknown name is ignored; otherwise onDestroy runs and the entry is deleted |
| ModuleRegistry.ModuleManager.StartAll | assets/dx-framework/src/core/ModuleManager.ts:76-81 | the flag goes up and every module defining onStart runs it, again on every call |
| ModuleRegistry.ModuleManager.UpdateAll | assets/dx-framework/src/core/ModuleManager.ts:87-91 | every module defining onUpdate gets dt, in order |
| ModuleRegistry.ModuleManager.DestroyAll | assets/dx-framework/src/core/ModuleManager.ts:93-99 | onDestroy on every module in order, then the table is emptied and the flag reset |
| ModuleRegistry.ModuleManager.GetModule | assets/dx-framework/src/core/ModuleManager.ts:101-103 | the module stored under the token, and nothing exactly when none is |
| ModuleRegistry.StartAllTwice | assets/dx-framework/src/core/ModuleManager.ts:76-81 | two startAlls run every onStart twice |
| ModuleRegistry.TokenLookupAsWritten | assets/dx-framework/src/core/ModuleManager.ts:43-50 | a module whose class name differs from its token is stored under the class name: getModule(token) finds nothing, and registering the token again runs a second onInit |
| ModuleRegistry.GuardedModuleManager.constructor | dx_framework/src/core/ModuleManager.ts:13-18 | an empty, unstarted manager with no calls |
| ModuleRegistry.GuardedModuleManager.RegisterModule | dx_framework/src/core/ModuleManager.ts:25-33 | a used name is ignored; otherwise the module is stored under that name, onInit runs, and onStart too when already started |
| ModuleRegistry.GuardedModuleManager.UnregisterModule | dx_framework/src/core/ModuleManager.ts:39-44 | an unknown name is ignored; otherwise onDestroy runs and the entry is deleted |
| ModuleRegistry.GuardedModuleManager.StartAll | dx_framework/src/core/ModuleManager.ts:50-56 | onStart runs on every module the first time only |
| ModuleRegistry.GuardedModuleManager.UpdateAll | dx_framework/src/core/ModuleManager.ts:62-66 | every module defining onUpdate gets dt, in order |
| ModuleRegistry.GuardedModuleManager.DestroyAll | dx_framework/src/core/ModuleManager.ts:72-78 | onDestroy on every module in order, then the table is emptied and the flag reset |
| ModuleRegistry.GuardedStartAllTwice | dx_framework/src/core/ModuleManager.ts:50-56 | startAll is idempotent: a second call runs no onStart |
| ModuleRegistry.GuardedRegisterTwice | dx_framework/src/core/ModuleManager.ts:25-33 | a module registered under its own name is found under it, and a second registration changes nothing |
| FrameService.Schedule | assets/Core/performance/FrameInstantiatorService.ts:112-126 | the callbacks the queue still owes, task after task, each task from its done count up to its total |
| FrameService.Advance | assets/Core/performance/FrameInstantiatorService.ts:117-125 | one creation: the head task's done count goes up, and the task is shifted off once it reaches its total |
| FrameService.Drain | assets/Core/performance/FrameInstantiatorService.ts:112-126 | up to n creations from the head of the queue: the tasks left and the callbacks made, in order |
| FrameService.ServiceFps | assets/Core/performance/FrameInstantiatorService.ts:103-104 | `deltaTime > 0 ? 1 / deltaTime : 60` |
| FrameService.Indices | assets/Core/performance/FrameInstantiatorService.ts:117-120 | a task owes one callback per index from done up to total |
| FrameService.AdvanceReady | assets/Core/performance/FrameInstantiatorService.ts:120-125 | one creation keeps every queued task owing at least one node |
| FrameService.ScheduleAdvance | assets/Core/performance/FrameInstantiatorService.ts:117-125 | one creation makes the first callback the queue owes, for the head task at its done index, and the rest of the queue owes the rest |
| FrameService.ScheduleEmpty | assets/Core/performance/FrameInstantiatorService.ts:113 | the queue owes nothing exactly when it is empty |
| FrameService.DrainFollowsSchedule | assets/Core/performance/FrameInstantiatorService.ts:112-126 | the loop works the queue strictly in order: n creations make the first n callbacks owed (or all of them), and what is left owes the rest |
| FrameService.AdjustedCap | assets/Core/performance/FrameInstantiatorService.ts:103-109 | the cap moves by at most one; it drops exactly when the rate is below 30 fps and the cap is above 1; it rises exactly when the rate is above 50 fps and the cap is below 20; it stays within 1 to 20 once there |
| FrameService.NoDeltaRaisesCap | assets/Core/performance/FrameInstantiatorService.ts:104 | a delta time of zero or less counts as 60 fps, so the cap rises while below 20 |
| FrameService.FrameInstantiatorService.constructor | assets/Core/performance/FrameInstantiatorService.ts:27-46 | an empty queue, the flag down, not registered, a cap of 5 |
| FrameService.FrameInstantiatorService.AddTask | assets/Core/performance/FrameInstantiatorService.ts:55-67 | a missing source or a count of zero or less changes nothing; otherwise the task joins the end of the queue with nothing done and step is registered unless the flag is up |
| FrameService.FrameInstantiatorService.StartSchedule | assets/Core/performance/FrameInstantiatorService.ts:79-82 | step is registered unless the flag is up; the flag itself is never raised |
| FrameService.FrameInstantiatorService.StopSchedule | assets/Core/performance/FrameInstantiatorService.ts:85-88 | step is unregistered and the flag is down |
| FrameService.FrameInstantiatorService.Clear | assets/Core/performance/FrameInstantiatorService.ts:70-76 | the queue is emptied; step is unregistered only when the flag was up |
| FrameService.FrameInstantiatorService.Step | assets/Core/performance/FrameInstantiatorService.ts:92-127 | an empty queue unregisters step; otherwise the cap is adjusted to the frame rate first and then the head of the queue is worked off, up to the smaller of the cap and what the 8 ms budget allows |
| FrameService.FrameInstantiatorService.CreateNodes | assets/Core/performance/FrameInstantiatorService.ts:112-126 | the loop makes exactly the first callbacks the queue owes, up to the bound, and leaves the rest queued |
| FrameService.ClearKeepsStep | assets/Core/performance/FrameInstantiatorService.ts:70-82 | since the flag is never raised, addTask then clear leaves step registered with an empty queue |
| FrameService.StepBounded | assets/Core/performance/FrameInstantiatorService.ts:112-116 | a step makes at most the adjusted cap's worth of callbacks |
| FrameLoading.Fresh | assets/Core/performance/FrameInstantiator.ts:55-81 | a new instantiator: an empty queue, no current job, the cap at MAX_PRELOAD_FRAME (5), not running, nothing made |
| FrameLoading.SlowFrame | assets/Core/performance/FrameInstantiator.ts:187-195 | `1 / deltaTime < 30` (REDUCE_FRAME) over the reals: a negative delta time is slow, a zero one is infinitely fast |
| FrameLoading.FastFrame | assets/Core/performance/FrameInstantiator.ts:187-195 | `1 / deltaTime > 50` (INCREASE_FRAME): a zero delta time counts as fast |
| FrameLoading.Executed | assets/Core/performance/FrameInstantiator.ts:144-180 | executeFrameLoading: with no current job nothing happens; otherwise the cap is adjusted, a slice of nodes is made with the job's next indices, the next frame's callback is requested, and a finished job is dropped, together with the running flag as written |
| FrameLoading.Scheduled | assets/Core/performance/FrameInstantiator.ts:127-139 | scheduleFrameLoading: with no current job the head of the queue becomes current at 0 created; then executeFrameLoading runs |
| FrameLoading.RunStarted | assets/Core/performance/FrameInstantiator.ts:114-125 | runTask: an empty queue clears the running flag; otherwise the flag goes up and scheduling starts |
| FrameLoading.TaskAdded | assets/Core/performance/FrameInstantiator.ts:90-109 | addTask: a missing source or a count of zero or less is refused; otherwise the job joins the end of the queue and a run starts unless one is running |
| FrameLoading.Cleared | assets/Core/performance/FrameInstantiator.ts:197-201 | clear: the queue and the current job are dropped, and as written the running flag too |
| FrameLoading.Ticked | assets/Core/performance/FrameInstantiator.ts:177-179 | a new frame: the callbacks requested during the last frame run one after the other |
| FrameLoading.Run | assets/Core/performance/FrameInstantiator.ts:90-201 | a sequence of addTask calls, clear calls and frames applied in order |
| FrameLoading.LoadingSize | assets/Core/performance/FrameInstantiator.ts:187-195 | below 30 fps the cap drops by one but not under 1; otherwise above 50 fps it rises by one while under 20; it stays within 1 to 20 once there and moves by at most one |
| FrameLoading.SliceSize | assets/Core/performance/FrameInstantiator.ts:152-168 | a job with nodes left gets at least one made, never more than it has left nor more than the cap |
| FrameLoading.IndicesSnoc | assets/Core/performance/FrameInstantiator.ts:156-157 | the callback indices run up one at a time |
| FrameLoading.Slice | assets/Core/performance/FrameInstantiator.ts:152-168 | the loop makes the slice's worth of nodes, calling back with the created count before each increment, and advances the job by exactly that |
| FrameLoading.ExecuteSlice | assets/Core/performance/FrameInstantiator.ts:144-180 | one execution with a current job adjusts the cap, makes between one and the cap's worth of nodes with the job's next indices, requests the next frame's callback, and drops a finished job (as written, clearing the running flag with it even when jobs are queued) |
| FrameLoading.ScheduleDequeues | assets/Core/performance/FrameInstantiator.ts:127-139 | the queue is shifted only when there is no current job, and then by exactly its head, which starts at 0 created |
| FrameLoading.AddTaskQueues | assets/Core/performance/FrameInstantiator.ts:90-109 | a missing source or a count of zero or less changes nothing; an accepted job joins the end of the queue, and a run starts at once only when nothing is running |
| FrameLoading.CallbacksValid | assets/Core/performance/FrameInstantiator.ts:177-179 | running the pending frame callbacks keeps the loader well formed |
| FrameLoading.ClearResets | assets/Core/performance/FrameInstantiator.ts:197-201 | clear empties the queue and drops the current job; as written it also clears the running flag |
| FrameLoading.IdleFrame | assets/Core/performance/FrameInstantiator.ts:177-179 | a frame with no callback pending changes nothing but this frame's count |
| FrameLoading.RunValid | assets/Core/performance/FrameInstantiator.ts:90-201 | every addTask, clear and frame keeps the loader well formed, the cap within 1 to 20 whatever the frame rates |
| FrameLoading.SteadyKeepsCap | assets/Core/performance/FrameInstantiator.ts:190-194 | at 40 fps the cap stays where it is |
| FrameLoading.FirstJobFinishes | assets/Core/performance/FrameInstantiator.ts:171-179 | a first job of five finishes within its slice and clears the running flag while its callback stays pending |
| FrameLoading.SecondJobRunsAtOnce | assets/Core/performance/FrameInstantiator.ts:106-108 | a second job added in the same frame starts another run at once |
| FrameLoading.TwoChainsAsWritten | assets/Core/performance/FrameInstantiator.ts:171-179 | as written, addTask of 5 and then of 20 in one frame makes ten nodes in that frame under a cap of five and leaves two callback chains pending |
| FrameLoading.ChainedAdd | assets/Core/performance/FrameInstantiator.ts:90-109 | with the flag kept while a callback is pending, addTask keeps a single chain and the frame's count within the cap |
| FrameLoading.ChainedFrame | assets/Core/performance/FrameInstantiator.ts:177-179 | with that flag, a frame keeps a single chain and the frame's count within the cap |
| FrameLoading.SingleChainKeepsCap | assets/Core/performance/FrameInstantiator.ts:90-201 | with that flag, no sequence of addTask, clear and frames makes more nodes in one frame than the cap, and at most one callback is ever pending |
| FrameLoading.FrameInstantiator.constructor | assets/Core/performance/FrameInstantiator.ts:53-81 | a fresh instantiator: nothing queued, nothing running, a cap of 5 |
| FrameLoading.FrameInstantiator.AddTask | assets/Core/performance/FrameInstantiator.ts:90-109 | the state after the call is addTask's as written |
| FrameLoading.FrameInstantiator.RunTask | assets/Core/performance/FrameInstantiator.ts:114-122 | the state after the call is runTask's as written |
| FrameLoading.FrameInstantiator.ScheduleFrameLoading | assets/Core/performance/FrameInstantiator.ts:127-139 | the state after the call is scheduleFrameLoading's as written |
| FrameLoading.FrameInstantiator.ExecuteFrameLoading | assets/Core/performance/FrameInstantiator.ts:144-180 | the state after the call is executeFrameLoading's as written |
| FrameLoading.FrameInstantiator.Clear | assets/Core/performance/FrameInstantiator.ts:197-201 | the state after the call is clear's as written |
| FrameLoading.FrameInstantiator.Tick | assets/Core/performance/FrameInstantiator.ts:177-179 | a new frame runs the callbacks requested during the last one, one after the other |
| Sound.OutOfRange | assets/dx-framework/src/modules/sound-module/SoundModule.ts:152 | `volume < 0 || volume > 1`: false for NaN |
| Sound.BoolText | assets/dx-framework/src/modules/sound-module/SoundModule.ts:336 | `value.toString()` for a boolean |
| Sound.ConfigRead | assets/dx-framework/src/modules/sound-module/SoundModule.ts:306-314 | getConfig's answer: true for a missing key, else whether the stored string is "true" |
| Sound.ConfigStore | assets/dx-framework/src/modules/sound-module/SoundModule.ts:306-314 | getConfig's write: a missing key gets "true"; present keys are untouched |
| Sound.VolumeRead | assets/dx-framework/src/modules/sound-module/SoundModule.ts:321-328 | getVolumeConfig's answer: the default for a missing key, else what parseFloat makes of the stored string |
| Sound.VolumeStore | assets/dx-framework/src/modules/sound-module/SoundModule.ts:321-328 | getVolumeConfig's write: a missing key gets the default as a number |
| Sound.ConfigRoundTrip | assets/dx-framework/src/modules/sound-module/SoundModule.ts:306-314 | getConfig reports what it writes for a missing key ("true") and afterwards reads the same without writing; a switch persisted with setConfig reads back as set; other keys are untouched |
| Sound.VolumeRoundTrip | assets/dx-framework/src/modules/sound-module/SoundModule.ts:321-328 | a missing volume key reads as the default and stores it, and reads the same afterwards; a volume persisted as a number reads back unchanged |
| Sound.AddId | assets/dx-framework/src/modules/sound-module/SoundModule.ts:262 | `Set.add`: the id is held afterwards, nothing else is added, and no id is held twice |
| Sound.Survivors | assets/dx-framework/src/modules/sound-module/SoundModule.ts:282-289 | cleanFinishedEffects: the ids the engine does not report idle, in insertion order |
| Sound.SurvivorsExact | assets/dx-framework/src/modules/sound-module/SoundModule.ts:282-289 | the cleanup drops exactly the ids the engine reports idle, keeps the rest in order and adds no repeats |
| Sound.StopCalls | assets/dx-framework/src/modules/sound-module/SoundModule.ts:272-275 | one stopEffect per held id, in insertion order |
| Sound.SoundModule.constructor | assets/dx-framework/src/modules/sound-module/SoundModule.ts:13-31 | switches unset, no music, no effects, both volumes 1 |
| Sound.SoundModule.GetConfig | assets/dx-framework/src/modules/sound-module/SoundModule.ts:306-314 | the value and storage after the call are those of getConfig |
| Sound.SoundModule.GetVolumeConfig | assets/dx-framework/src/modules/sound-module/SoundModule.ts:321-328 | the value and storage after the call are those of getVolumeConfig |
| Sound.SoundModule.OnInit | assets/dx-framework/src/modules/sound-module/SoundModule.ts:36-47 | both switches are read (a missing key written as on) and both volumes (a missing key written as 0.8), and the engine gets the music volume and then the effects volume |
| Sound.SoundModule.OnDestroy | assets/dx-framework/src/modules/sound-module/SoundModule.ts:60-64 | every effect is stopped in order, then the music; no id is held afterwards |
| Sound.SoundModule.SwitchMusic | assets/dx-framework/src/modules/sound-module/SoundModule.ts:73-80 | the current value changes nothing; otherwise the switch is stored and persisted and the music resumed or paused |
| Sound.SoundModule.SwitchEffect | assets/dx-framework/src/modules/sound-module/SoundModule.ts:86-96 | the current value changes nothing; otherwise the switch is stored and persisted, and switching off stops every effect |
| Sound.SoundModule.Play | assets/dx-framework/src/modules/sound-module/SoundModule.ts:103-121 | no clip does nothing; background music already playing with the same clip and loop is not restarted; otherwise music goes through playMusic (nothing when music is off); an effect with effects off changes nothing, and with effects on the engine plays it and sets its volume to the configured one or else the effect volume, its id joins the set and idle ids are dropped; the music state is untouched |
| Sound.SoundModule.Pause | assets/dx-framework/src/modules/sound-module/SoundModule.ts:127-133 | pauses the music for background music, every effect otherwise |
| Sound.SoundModule.Resume | assets/dx-framework/src/modules/sound-module/SoundModule.ts:139-145 | resumes the music for background music, every effect otherwise |
| Sound.SoundModule.SetMusicVolume | assets/dx-framework/src/modules/sound-module/SoundModule.ts:151-159 | a volume outside 0 to 1 changes nothing (NaN passes); otherwise it is stored, applied and persisted |
| Sound.SoundModule.SetEffectVolume | assets/dx-framework/src/modules/sound-module/SoundModule.ts:165-173 | a volume outside 0 to 1 changes nothing (NaN passes); otherwise it is stored, applied and persisted |
| Sound.SoundModule.PlayMusic | assets/dx-framework/src/modules/sound-module/SoundModule.ts:211-229 | music switched off does nothing; otherwise the old music is stopped, the new one played, and its id and clip kept |
| Sound.SoundModule.StopMusic | assets/dx-framework/src/modules/sound-module/SoundModule.ts:234-240 | the music playing is stopped, and no music is held afterwards |
| Sound.SoundModule.PlayEffect | assets/dx-framework/src/modules/sound-module/SoundModule.ts:249-267 | no clip or effects switched off does nothing; otherwise the effect is played, its id added, its volume set to the given one or else the effect volume, and idle ids dropped |
| Sound.SoundModule.StopAllEffects | assets/dx-framework/src/modules/sound-module/SoundModule.ts:272-277 | each held id is stopped in insertion order, then none is held |
| Sound.SoundModule.CleanFinishedEffects | assets/dx-framework/src/modules/sound-module/SoundModule.ts:282-289 | the ids left are exactly those the engine does not report idle, in order |
| Sound.ReplaySameMusic | assets/dx-framework/src/modules/sound-module/SoundModule.ts:109-117 | requesting the same background music twice plays it once: the second request is ignored |
| Logging.TypeOf | assets/Core/Log/Log.ts:15-32 | a string passed as the type is one of the LOG_CONFIG keys, a name inherited from Object.prototype (exactly the prototype's property names), or an unknown string |
| Logging.Weight | assets/Core/Log/Log.ts:15-21 | LEVEL_WEIGHTS with `|| 0`: ERROR 4, WARNING 3, NET and BUSINESS 2, TRACE 1, any other type 0 |
| Logging.Printed | assets/Core/Log/Log.ts:49-51 | the level filter: debug prints everything; production prints a type whose weight test `weight < 2` is false |
| Logging.ProductionFilter | assets/Core/Log/Log.ts:46-52 | debug prints every type; production prints exactly errors, warnings, network and business messages, plus names inherited from Object.prototype, whose weight is not a number so the weight test is false |
| Logging.TypeName | assets/Core/Log/Log.ts:23-32 | LOG_CONFIG[type]: the display name of each configured type, "undefined" for an unknown one, the inherited value's text for a prototype name |
| Logging.Style | assets/Core/Log/Log.ts:35-44 | STYLE_MAP.get(type) with `|| ''`: the CSS of each configured type, empty otherwise |
| Logging.StyleDefault | assets/Core/Log/Log.ts:35-44 | only an unknown or inherited type gets the empty style (the Map inherits no keys) |
| Logging.PrintParts | assets/Core/Log/Log.ts:62-77 | print: the header `%c` timestamp [type name] position, its style, a description line when the description is non-empty, then the message |
| Logging.Log | assets/Core/Log/Log.ts:46-58 | log: nothing when the level filter drops the type, else the arguments print hands to console.log |
| Logging.InheritedLogged | assets/Core/Log/Log.ts:46-77 | in production a message of any inherited type gets through the filter and is printed as its header (the inherited value's text as the type name), the empty style and the message, with no description line |
| Logging.InheritedNameLogged | assets/Core/Log/Log.ts:46-77 | in production a message typed toString is printed, headed by the source text of Object.prototype.toString, with the empty style |
| Logging.PadStart | assets/Core/Log/Log.ts:84-85 | `padStart(width, '0')`: zeros in front up to the width; a longer string is left as it is |
| Logging.Pad | assets/Core/Log/Log.ts:84 | `pad`: a clock field as at least two digits |
| Logging.PadMs | assets/Core/Log/Log.ts:85 | `padMs`: milliseconds as at least three digits |
| Logging.DecimalText | assets/Core/Log/Log.ts:84 | `toString` of a non-negative integer is one or more decimal digits |
| Logging.DecimalRoundTrip | assets/Core/Log/Log.ts:84 | the digits read back as the number |
| Logging.DecimalShort | assets/Core/Log/Log.ts:84-85 | a number below 10, 100 or 1000 has at most 1, 2 or 3 digits |
| Logging.Zeros | assets/Core/Log/Log.ts:84-85 | the padding is k zeros |
| Logging.LeadingZeros | assets/Core/Log/Log.ts:84-85 | leading zeros do not change the value |
| Logging.ZerosValue | assets/Core/Log/Log.ts:84-85 | zeros alone read as 0 |
| Logging.PadExact | assets/Core/Log/Log.ts:84-85 | a field below 10 to the width pads to exactly that many digits, which read back as the field |
| Logging.Timestamp | assets/Core/Log/Log.ts:82-87 | getLogTimestamp: `[HH:MM:SS.mmm]` from the clock reading |
| Logging.TemplateFields | assets/Core/Log/Log.ts:86 | where the fields sit in the timestamp template |
| Logging.TimestampLayout | assets/Core/Log/Log.ts:82-87 | for a wall-clock reading the timestamp is fourteen characters, [HH:MM:SS.mmm], each field reading back as the clock's value |
| Logging.LogShape | assets/Core/Log/Log.ts:46-78 | a message is printed exactly when the level filter lets its type through; the printed arguments are the styled header, its style, a description line exactly when a non-empty description is given, and the message last; with the stack trace off the header is timestamp and type name alone |

The compiled JavaScript copies in the repository are the same code as their TypeScript sources and share their models:
- `dx_framework/src/core/ModuleManager.ts` and its compiled copy under `cocos-red-dot-system/dist/core/ModuleManager.js` share `GuardedModuleManager`.
- The batched red-dot `RedDotSystem.ts` and its `dist` copy share `BatchedRedDotSystem`.
- `assets/Core/performance/FrameInstantiator.ts` and `FrameLoadingTool.ts` are one model (`FrameInstantiator`); they differ only in names.

## Left out

- Scene graph: nodes are opaque ids, and the `Scene` class stands in for the engine's node tree (parent, active flag, destroyed flag).
- `cc.instantiate`, `destroy`, widgets, tweens, easing, opacity, scale, slide offsets and durations: engine calls. Each tween is a pending completion that a step method finishes, and its visual effect is not modelled.
- The slide direction and axis of the slide animations: only which animation runs and when it completes is modelled.
- UIFillAndFitUniform is not part of this model.
- Asset transport (`cc.resources.load`, `ResLoad.ts`): an oracle that completes each request exactly once, with an asset or an error. Releasing an asset is recorded in a log. Microtask timing is collapsed into the step that completes a request.
- `setTimeout`, `requestAnimationFrame`, `cc.director` events and `Date.now`: step inputs. A frame's `dt` is a real, and which creations fit within the 8 ms budget is an input.
- Concurrency: JavaScript is single-threaded, and interleavings are modelled only as the order of step calls.
- Exceptions: a hook, callback or listener that throws is not modelled. The event bus catches such throws and goes on to the next listener, which is what the model's invocation log shows. A listener that edits the listener table while an event is being dispatched is not modelled.
- Log output: `console.log` is modelled as the list of arguments it receives. `getStackInfo`'s regular-expression parsing is left out, and the stack position is an input. The message is an opaque value. A `print` that throws is not modelled.
- SoundModule, audio engine: `cc.audioEngine` is a log of calls, and the audio ids it hands out are parameters.
- SoundModule, playing state: the engine's falsy `getState` results are the `idle` set.
- SoundModule, stored volumes: a stored string is classified by what `parseFloat` makes of it: a Numeral holding the number it reads ("0.5", "1abc", or a number the module wrote with `toString`), or Text when it reads NaN. The text of a Numeral is not kept, and parsing itself is not modelled. Infinity is not modelled.
- SoundModule, lifecycle and callers: `onStart` and `onUpdate` do nothing. The `volume` argument of `playMusic` is never passed by `play`. SoundController.ts is not part of this model.
- Legacy UIAnimationComponent: `stopCurrnetAnimation` and the stop before each play are modelled as doing nothing, because `m_currentTween` is never assigned in the source.
- Legacy UIManager: it reads `uiName`, which the UIConfig record does not declare, so its configuration is the `LegacyConfig` datatype. Its `nodePools` is never filled.
- ResourceManager imports `../cache/ResourceCache`, which is not part of this model. `ResCache.ts`, which has the same method names, stands in for it.
- The UIConfig and UILayer types are taken from `assets/Core/UI/UIConfig.ts` and `assets/Core/UI/UILayer.ts`.
- ModuleManager: `getAllModules` is a plain read of the table and is left out. A hook that registers or unregisters a module while it runs is not modelled.
- Red-dot key generator: file reading and writing are left out, and so are the `getAllRedDotKeys`/`hasRedDotKey` aliases. `toUpperCase` is modelled on ASCII letters only. An entry with an empty name leaves its children's keys unprefixed, as in the source.
- RedDotComponent and the demo scripts: view glue and samples, left out.
- BatchedRedDot.BatchedRedDotSystem.OnDestroy: a pending batch timer is kept, as in the source; the timer then fires on cleared maps.
- EagerRedDot.RedDotSystem.Register: looks up the parent before storing the new key (the corrected lookup, RedDotLists.ParentFor). As written, the source stores the node first, so registerNode(k, k) for a new k makes k its own parent (RedDotLists.SelfParentAsWritten); the model hangs it under no parent instead.
- BatchedRedDot.BatchedRedDotSystem.Register: the same corrected lookup as EagerRedDot.RedDotSystem.Register; the source's registerNode there also stores the node before the parent lookup.
- BatchedRedDot.BatchSettles: the batch visits the dirty nodes by their depth in the tree, the corrected order, not by the '_'-segment count of their keys as the source sorts, so its balance clause is the corrected program's. With '.'-joined keys the source as written can leave a parent stale (RedDotBatch.StaleParentAsWritten); with '_'-joined keys it behaves as stated (RedDotBatch.UnderscoreBatchBalances).
- BatchedRedDot.BatchedRedDotSystem.Recompute: visits the dirty nodes in the same corrected tree-depth order as BatchedRedDot.BatchSettles.
- BatchedRedDot.BatchedRedDotSystem.BatchUpdate: visits the dirty nodes in the same corrected tree-depth order as BatchedRedDot.BatchSettles.
- BatchedRedDot.BatchedRedDotSystem.ForceUpdate: visits the dirty nodes in the same corrected tree-depth order as BatchedRedDot.BatchSettles.
- BatchedRedDot.BatchedRedDotSystem.TimerFires: visits the dirty nodes in the same corrected tree-depth order as BatchedRedDot.BatchSettles.
- BatchedRedDot: `updateFromChildren` calls `setValue`, which a node with children refuses, so it never changes an inner node and sets a leaf to 0. The model keeps that behaviour. The batch itself is ordered by depth in the tree, the corrected order (see Findings).
- FrameInstantiatorService: a frame with `dt` of 0 or less counts as 60 fps, so the cap rises. The model follows the code here, not the comment that says the cap stays. `startSchedule` never sets `m_scheduled`, and the model keeps that.
- FrameInstantiator: adjusting the cap has no guard for `dt` of 0 or less, and the model keeps that.
- JavaScript numbers: an event priority (EventCenter), a node count (FrameInstantiatorService.addTask, FrameInstantiator.addTask, ObjectPool.prewarm), and the red-dot values and increment/decrement amounts (both RedDotSystem copies) are integers in the model. A fractional count such as 2.5, which makes three nodes in the source (the loops run while the index is below it), a fractional badge value, and NaN cannot be expressed; the priority is used only in comparisons, so nothing else is lost there.
- Logging.Log: the default argument `type = "TRACE"` of `log` is not modelled; the model always passes the type.
- RedDotKeyGen: the order of an entry's children is the order `Object.entries` lists them, integer-like names first in ascending order; the model takes that order as given rather than computing it from insertion order.
- Cocos engine behaviour assumed by the model: `NodePool.get` pops the last node put; `put` ignores a node already pooled; `clear` destroys the pooled nodes; `director.on` registers a callback once.

## Findings

| source | as written | input that shows it | evidently intended | confidence | as-written member | corrected member |
|---|---|---|---|---|---|---|
| dx_framework/src/modules/cocos-red-dot-system/src/RedDotSystem.ts:147-150 | the batch sorts dirty keys by the number of segments split on '_', but keys are joined with '.', so every key has one segment and the order is the insertion order | keys root, root.task, root.task.daily, root.task.achievement, root.task.achievement.achievement1; setValue daily to 1, then achievement1 to 1, in one batch | parents are updated after all their children, so every parent shows the sum of its children | medium, not executed | RedDotBatch.StaleParentAsWritten | RedDotBatch.TreeBatchBalances |
| assets/Core/redDot/RedDotSystem.ts:60-66 | registerNode stores the new node before looking up its parent, so registering a key as its own parent finds the node itself | registerNode with key k and parent key k | a node is never its own parent; the lookup sees only nodes registered before | medium, not executed | RedDotLists.SelfParentAsWritten | RedDotLists.ParentFor |
| assets/dx-framework/src/core/ModuleManager.ts:44-50 | registerModule checks the given name but stores the module under its class name | a module whose class name differs from its token, such as a minified SoundModule; getModule of the token finds nothing, and registering the token again runs onInit a second time | a module is stored and found under the name it was registered with, as in the dx_framework copy | medium, not executed | ModuleRegistry.TokenLookupAsWritten | ModuleRegistry.GuardedRegisterTwice |
| assets/Core/performance/FrameInstantiator.ts:171-179 | the running flag is cleared while the next animation-frame callback is still pending, so a later addTask starts a second chain | addTask of 5 nodes, then addTask of 20 nodes in the same frame at 40 fps; two chains run, and one frame creates 10 nodes against a cap of 5 | one chain at a time, and no frame creates more than the cap | medium, not executed | FrameLoading.TwoChainsAsWritten | FrameLoading.SingleChainKeepsCap |
