# Glowing object outlines: the glow controller and the glow object

The effect draws a coloured outline around selected objects. Each
`GlowObject` is a two-state toggle: the pointer entering the object (or a
call to `EnableGlow`) switches its glow on and registers the object with the
`GlowController`. The pointer leaving it (or `DisableGlow`) switches the glow
off and deregisters it. The controller keeps the list of glowing objects. It
also owns a command buffer. Each rebuild clears that buffer and records, in
order:

- a full-resolution mask target, allocated, bound and cleared;
- for each object in list order, its colour as the global `_GlowColor`, then
  one silhouette draw per renderer;
- two half-resolution targets, a copy of the mask into one of them, and the
  blur texel size;
- four pairs of horizontal and vertical blur blits;
- the scratch target released and re-allocated at full size in HDR, the
  camera image copied into it and composited back;
- the release of the three temporary targets.

A rebuild runs at most once per frame number. Removing the last object clears
the buffer instead of rebuilding it. Registering an object does not rebuild.

The model has five modules:

- `Lists` (`lists.dfy`) has duplicate-freedom and `List<T>.Remove` as
  `RemoveFirst`, which removes the first occurrence and leaves a list without
  the element unchanged.
- `GlowCommands` (`commands.dfy`) has the command datatype over symbolic
  operands. It also has `BuildCommands(es)`, the list that one successful
  rebuild records for the objects' colours and renderers `es`.
  - The operands are: the target ids `PrePass`, `BlurPass`, `Temp` and
    `CameraTarget`; full or half resolution; default or HDR format; the
    three materials and the shader pass; colours and renderers as opaque
    handles.
- `CommandProperties` (`command_properties.dfy`) states what the rebuilt
  list promises.
  - Against views that do not say how the list is assembled (`SetColors`,
    `DrawnRenderers`, `Colors`, `AllRenderers`, `Lifetime`, `Track`): the
    colours set and renderers drawn, in order; per-target lifetimes
    (acquire/release events); a simulation of the temporary-target pool.
    The simulation fails on a double allocation, on a release of a target
    that is not held, and on a `SetRenderTarget` or blit naming a target
    that is not held. Clears and draws name no target and pass it
    unchecked. `ResourceBalance` adds that the pool ends empty.
  - By position and count, against the sections the list is built from
    (`MaskSetup`, `DrawSection`, `DrawEntry`, the fixed tail after the
    objects): where each section and each object starts, and how often each
    blur and composite blit occurs.
- `TargetContents` (`surfaces.dfy`) follows which targets hold defined
  contents as the list runs, and which target is bound.
  - Acquiring or releasing a target forgets its contents. `SetRenderTarget`
    binds a target. A clear or a draw writes the bound target. A blit or a
    material blit reads its source and writes and binds its destination.
    The composite material blit also reads the mask and the blur target,
    which its shader subtracts (Assets/Scripts/GlowController.cs:111).
    Other reads inside the shaders are not modelled. The camera's image is
    always defined.
  - The simulation fails on a clear with no target bound, on a draw over
    undefined contents and on a blit whose reads include a target nothing
    has written.
    `ContentsDefined` proves that a rebuilt list never fails it, for any
    objects.
  - `CompositeOrderMatters`, `ClearBeforeDraw` and `EarlyMaskRelease`
    show that it does fail: when the camera copy and the composite blit are
    swapped, when the mask is not cleared before the first draw, and when
    the mask is released before the composite.
- `Glow` (`glow.dfy`) has the two behaviours as classes.
  - `GlowController` has the fields `glowObjects` (a `seq` that
    registration and removal reassign), `glowBuff` (the recorded commands,
    appended one at a time by the rebuild's loops) and `lastRebuildFrame`.
  - `GlowObject` has the `active` flag, the constant `Renderers` and the
    object's colour.
  - The rebuild method is proved against `BuildCommands`. The toggles keep
    "active exactly when registered" (`Synced`) for every object of a ghost
    set that only they change.

Inputs from the engine are parameters:

- `Time.frameCount` is the `frameCount` argument of the methods that may rebuild.
- `GetComponentsInChildren` is the renderer sequence given to the `GlowObject` constructor.
- `GlowController.Inst` is the controller object passed to each toggle.

The sections of the list are the functions of `GlowCommands`:

- `MaskSetup` is Assets/Scripts/GlowController.cs:91-93.
- `DrawEntry` (one object: colour, then `Draws`) is 95-98.
- `BlurSetup` is 101-105.
- `Composite` is 112-115.
- `ReleaseAll` is 117-119.

`Synced` in `Glow` is the "active exactly when registered" invariant of
Assets/Scripts/GlowObject.cs:9 and 21-32.

Notes on behaviour the model keeps as written:

- `lastRebuildFrame` starts at 0, the default of a C# `int`, so a rebuild
  attempted with frame number 0 is skipped.
- The buffer may lag behind the list.
  - Only a removal rebuilds. An object that is switched on is not drawn until
    some later removal of another object rebuilds in a new frame.
    `SwitchOnNotDrawn` shows two objects switched on with an empty buffer.
  - An object that glows alone is never drawn at all. `AloneNeverDrawn`
    shows its buffer empty while it is on and after it is off.
  - A removal in a frame that has already rebuilt is not reflected in the
    buffer. `SwitchOffInFrame` shows such a buffer, which still draws the
    removed object.
- The controller reads the colour through `CurrentColor`
  (Assets/Scripts/GlowController.cs:95), while the glow object declares only
  `GlowColor` (Assets/Scripts/GlowObject.cs:5). The model has one opaque
  colour per object and reads it where the source reads `CurrentColor`.

## Model

| member | source | states |
|---|---|---|
| `Lists.RemoveFirst` | Assets/Scripts/GlowController.cs:71 | Removing a non-member returns the list unchanged; removing a member shortens it by exactly one |
| `Lists.RemoveFirstMultiset` | Assets/Scripts/GlowController.cs:71 | Removal takes exactly one copy of the element out of the list's multiset and keeps every other element |
| `Lists.RemoveFirstAt` | Assets/Scripts/GlowController.cs:71 | The removal cuts the list at the first occurrence and keeps the other elements in their order |
| `Lists.RemoveFirstNoDuplicates` | Assets/Scripts/GlowController.cs:71 | On a duplicate-free list, the result is duplicate-free and no longer holds the element; its members are exactly the old members other than the element |
| `Lists.AppendAbsentNoDuplicates` | Assets/Scripts/GlowController.cs:64-65 | Appending an element that is not yet present keeps the list duplicate-free |
| `GlowCommands.Draws` | Assets/Scripts/GlowController.cs:97-98 | One draw per renderer: as many commands as renderers |
| `GlowCommands.DrawSection` | Assets/Scripts/GlowController.cs:94-99 | The object section has one command per object plus one per renderer of every object |
| `GlowCommands.BlurPasses` | Assets/Scripts/GlowController.cs:107-110 | `n` blur pairs are `2n` commands |
| `GlowCommands.BuildCommands` | Assets/Scripts/GlowController.cs:89-119 | A rebuilt list has 3 mask commands, the object section, 4 blur-setup commands, 8 blur blits and 7 composite and release commands |
| `CommandProperties.ObjectsInOrder` | Assets/Scripts/GlowController.cs:94-99 | The colours set are exactly the objects' colours in list order; the renderers drawn are exactly all objects' renderers, object by object; the number of draws is the total renderer count |
| `CommandProperties.MaskFirst` | Assets/Scripts/GlowController.cs:91-93 | The list opens by allocating `PrePass` at full size in the default format, binding it and clearing it |
| `CommandProperties.ObjectLayout` | Assets/Scripts/GlowController.cs:94-99 | Object `i`'s colour command sits at its offset, right after the mask setup and the earlier objects; its renderers' draws follow it directly; the next object starts right after |
| `CommandProperties.DrawSectionColors` | Assets/Scripts/GlowController.cs:95 | The object section sets one colour per object, in list order |
| `CommandProperties.DrawSectionRenderers` | Assets/Scripts/GlowController.cs:97-98 | The object section draws every renderer of every object, object by object |
| `CommandProperties.DrawSectionPassive` | Assets/Scripts/GlowController.cs:94-99 | The object section allocates, releases and binds no target |
| `CommandProperties.DrawSectionAt` | Assets/Scripts/GlowController.cs:94-99 | Inside the object section, object `i`'s commands appear contiguously after those of the objects before it |
| `CommandProperties.BlurLayout` | Assets/Scripts/GlowController.cs:101-110 | After the objects come `Temp` and `BlurPass` at half size, the `PrePass`→`BlurPass` copy and the texel size; then 8 blurs alternate `BlurPass`→`Temp` with pass 0 and `Temp`→`BlurPass` with pass 1 |
| `CommandProperties.BlurPassesAt` | Assets/Scripts/GlowController.cs:107-110 | Even positions of the blur passes are horizontal blurs, odd positions vertical ones |
| `CommandProperties.BlurPassesCount` | Assets/Scripts/GlowController.cs:107-110 | `n` pairs hold exactly `n` horizontal and `n` vertical blurs and nothing else |
| `CommandProperties.BlurCount` | Assets/Scripts/GlowController.cs:107-110 | The whole list has exactly `BlurIterations` (4) horizontal and as many vertical blur blits |
| `CommandProperties.FixedTailLayout` | Assets/Scripts/GlowController.cs:107-110 | In the tail after the objects, positions 4 to 11 alternate horizontal blurs (even offsets) and vertical blurs (odd offsets) |
| `CommandProperties.FixedTailNoObjects` | Assets/Scripts/GlowController.cs:101-119 | The tail sets no colour and draws no renderer |
| `CommandProperties.FixedTailCounts` | Assets/Scripts/GlowController.cs:101-119 | The tail has 4 horizontal blurs, 4 vertical blurs, one camera copy and one composite blit |
| `CommandProperties.CountInList` | Assets/Scripts/GlowController.cs:89-119 | A blit or release occurs in the whole list exactly as often as in the tail: the mask and the object section record none |
| `CommandProperties.ResourceBalance` | Assets/Scripts/GlowController.cs:91-119 | From an empty pool, no command allocates a target already held, or releases, binds or blits one not held; nothing is held at the end |
| `CommandProperties.MaskSetupTrack` | Assets/Scripts/GlowController.cs:91-93 | The mask setup leaves exactly `PrePass` held |
| `CommandProperties.BlurSetupTrack` | Assets/Scripts/GlowController.cs:101-105 | The blur setup adds `Temp` and `BlurPass` to the pool and blits only between held targets |
| `CommandProperties.BlurPassesTrack` | Assets/Scripts/GlowController.cs:107-110 | With both half-size targets held, the blurs name only held targets and leave the pool as it was |
| `CommandProperties.CompositeTrack` | Assets/Scripts/GlowController.cs:112-115 | The composite releases `Temp` and re-acquires it before use, and leaves the pool as it was |
| `CommandProperties.ReleaseAllTrack` | Assets/Scripts/GlowController.cs:117-119 | The three releases empty the pool |
| `CommandProperties.FixedTailTrack` | Assets/Scripts/GlowController.cs:101-119 | With only the mask held, the tail runs without a pool error and leaves nothing held |
| `CommandProperties.TargetLifetimes` | Assets/Scripts/GlowController.cs:91-119 | `PrePass` is acquired once at full size and released; `BlurPass` acquired once at half size and released; `Temp` acquired at half size, released, re-acquired at full size in HDR and released; the camera image is never acquired or released |
| `CommandProperties.LifetimeIs` | Assets/Scripts/GlowController.cs:89-119 | A target's events over the whole list are the mask's acquisition of `PrePass` followed by the tail's events |
| `CommandProperties.FixedTailLifetimes` | Assets/Scripts/GlowController.cs:101-119 | The events each target has in the tail |
| `CommandProperties.MaskLifetime` | Assets/Scripts/GlowController.cs:91 | The mask setup acquires `PrePass` at full size in the default format and touches no other target |
| `CommandProperties.BlurSetupLifetime` | Assets/Scripts/GlowController.cs:101-102 | The blur setup acquires `Temp` and `BlurPass` at half size and nothing else |
| `CommandProperties.CompositeLifetime` | Assets/Scripts/GlowController.cs:112-113 | The composite releases `Temp` and then re-acquires it at full size in HDR |
| `CommandProperties.ReleaseAllLifetime` | Assets/Scripts/GlowController.cs:117-119 | The final releases release each temporary target once |
| `CommandProperties.BlurPassesLifetime` | Assets/Scripts/GlowController.cs:107-110 | Blur blits neither acquire nor release a target |
| `CommandProperties.CompositeTail` | Assets/Scripts/GlowController.cs:112-119 | The last seven commands are: release `Temp`, re-acquire it at full size in HDR, the camera copy, directly followed by the composite blit `Temp`→camera with pass 0, then the releases of `Temp`, `BlurPass` and `PrePass` |
| `CommandProperties.CompositeOnce` | Assets/Scripts/GlowController.cs:114-115 | The camera copy and the composite blit each occur exactly once in the list |
| `CommandProperties.BlursBeforeComposite` | Assets/Scripts/GlowController.cs:107-119 | Every blur blit comes before the composite and the releases |
| `TargetContents.ContentsDefined` | Assets/Scripts/GlowController.cs:89-119 | For any objects, every draw and blit of the rebuilt list reads only defined contents, counting a blit's source and, for the composite, the mask and the blur target as read; every clear has a bound target; at the end only the camera's image is left written, and it is bound |
| `TargetContents.PassiveExecute` | Assets/Scripts/GlowController.cs:93-98 | Colour settings, clears and draws over a written, bound target never fail and leave every target as it was |
| `TargetContents.MaskSetupExecute` | Assets/Scripts/GlowController.cs:91-93 | The mask setup ends with `PrePass` bound and written (by the clear), and nothing else written |
| `TargetContents.DrawSectionExecute` | Assets/Scripts/GlowController.cs:94-99 | Every draw of the object section goes over the cleared mask; the section changes no target's state |
| `TargetContents.BlurSetupExecute` | Assets/Scripts/GlowController.cs:101-105 | The new half-size targets start undefined; the copy reads the mask and writes and binds `BlurPass` |
| `TargetContents.BlurPassesExecute` | Assets/Scripts/GlowController.cs:107-110 | With `BlurPass` written, each blur pair reads `BlurPass`, writes `Temp`, reads it back into `BlurPass`; after at least one pair both are written and `BlurPass` is bound |
| `TargetContents.CompositeExecute` | Assets/Scripts/GlowController.cs:112-115 | The re-acquired scratch target is filled by the camera copy before the composite reads it; the composite writes and binds the camera's image |
| `TargetContents.ReleaseAllExecute` | Assets/Scripts/GlowController.cs:117-119 | The releases forget all three temporary targets and leave the camera's image |
| `TargetContents.CompositeOrderMatters` | Assets/Scripts/GlowController.cs:112-115 | With the composite blit before the camera copy, the composite reads the re-acquired scratch target undefined |
| `TargetContents.EarlyMaskRelease` | Assets/Scripts/GlowController.cs:111-119 | Releasing the mask right after the downsampling copy (and not at the end) makes the composite read it undefined |
| `TargetContents.Downsampling` | Assets/Scripts/GlowController.cs:91-105 | For any objects, the list up to the blur setup ends with the mask and the downsampled copy written and the copy bound |
| `TargetContents.BlurredWithoutMask` | Assets/Scripts/GlowController.cs:101-110 | With the mask released right after the downsampling copy, the blurs still run and leave only `BlurPass` and `Temp` written |
| `TargetContents.UnmaskedComposite` | Assets/Scripts/GlowController.cs:112-115 | Once the mask is undefined, the composite blit fails even after the camera copy has filled the scratch target |
| `TargetContents.ClearBeforeDraw` | Assets/Scripts/GlowController.cs:91-98 | Without the clear, the first draw over the freshly acquired mask reads undefined contents |
| `Glow.GlowController.constructor` | Assets/Scripts/GlowController.cs:14-23 | A new controller has no objects, an empty buffer (the `new CommandBuffer()` of `Awake`, line 55) and last rebuild frame 0 |
| `Glow.GlowController.RegisterObject` | Assets/Scripts/GlowController.cs:63-66 | Keeps the list duplicate-free; afterwards the object is registered; an absent object is appended at the end and a present one leaves the list unchanged; buffer and frame number are untouched (no rebuild) |
| `Glow.GlowController.DeRegisterObject` | Assets/Scripts/GlowController.cs:70-76 | The list becomes the old list with the first occurrence removed (unchanged for a non-member) and no longer holds the object; if it is empty the buffer is emptied and the frame number kept; otherwise the gated rebuild's outcome holds |
| `Glow.GlowController.RebuildCommandBuffer` | Assets/Scripts/GlowController.cs:82-120 | If the last rebuild ran in this frame, buffer and frame number are unchanged; otherwise the buffer is exactly `BuildCommands` of the current objects (whatever it held before) and the frame number is the current one |
| `Glow.GlowController.RecordObjects` | Assets/Scripts/GlowController.cs:94-99 | The nested object/renderer loop appends exactly the object section for the registered objects in list order |
| `Glow.GlowController.RecordEntry` | Assets/Scripts/GlowController.cs:95-98 | One object's part of the loop appends its colour and then one draw per renderer |
| `Glow.GlowController.RecordBlur` | Assets/Scripts/GlowController.cs:101-110 | Appends the blur setup and the four blur pairs |
| `Glow.GlowController.RecordComposite` | Assets/Scripts/GlowController.cs:112-119 | Appends the composite and the three releases |
| `Glow.GlowObject.constructor` | Assets/Scripts/GlowObject.cs:5-13 | A new object has the given colour and renderers and its glow is off |
| `Glow.GlowObject.EnableGlow` | Assets/Scripts/GlowObject.cs:21-26 | An active object leaves the list as it is; an inactive one registers (appended unless present); afterwards the glow is on; the buffer is untouched; "active exactly when registered" is preserved |
| `Glow.GlowObject.DisableGlow` | Assets/Scripts/GlowObject.cs:27-32 | An inactive object changes nothing; an active one is removed from the list, which then clears the buffer or goes through the gated rebuild; afterwards the glow is off; "active exactly when registered" is preserved |
| `Glow.GlowObject.OnMouseEnter` | Assets/Scripts/GlowObject.cs:15-17 | The same contract as `EnableGlow` |
| `Glow.GlowObject.OnMouseExit` | Assets/Scripts/GlowObject.cs:18-20 | The same contract as `DisableGlow` |
| `Glow.SameFrameRebuild` | Assets/Scripts/GlowController.cs:83-87 | Two objects switched on (one of them twice), then two rebuild attempts in frame 1: the first records the list for both in registration order; the second changes nothing |
| `Glow.SwitchOnNotDrawn` | Assets/Scripts/GlowController.cs:63-76 | Two objects switched on leave a new controller's buffer empty (registration does not rebuild); removing one of them in frame 2 records the list for the remaining one only |
| `Glow.AloneNeverDrawn` | Assets/Scripts/GlowController.cs:63-76 | An object switched on alone leaves the buffer empty, and switching it off empties the list and keeps the buffer empty |
| `Glow.SwitchOffInFrame` | Assets/Scripts/GlowController.cs:70-87 | After a rebuild in frame 1, switching one of two objects off in that frame leaves the buffer exactly as it was: `BuildCommands` of both objects, still drawing the removed one; switching the last one off empties it |
| `Glow.ToggleSequence` | Assets/Scripts/GlowObject.cs:15-32 | Over two new objects, "active exactly when registered" holds after the constructors and after each of enable, enable, re-enable, disable, disable; midway the re-enabled object is on and the other off; at the end nothing is registered |

## Left out

- The singleton (`Inst`, lazy creation on the main camera, destroying duplicates, Assets/Scripts/GlowController.cs:25-40): engine lifecycle. The controller is an explicit object passed to each glow object.
- Engine setup: materials from `Shader.Find`, `Shader.PropertyToID`, creating the `CommandBuffer` and attaching it to the camera (Assets/Scripts/GlowController.cs:42-57). These are foreign calls, so materials and property ids are fixed symbolic constants.
- `GlowIntensity` and `glowIntensity` (Assets/Scripts/GlowController.cs:10-12, 53): a floating-point shader uniform that the command list does not carry.
- The blur texel size `1.5f / (Screen.width >> 1)` (Assets/Scripts/GlowController.cs:104) is floating point. Only the `SetGlobalVector(_BlurSize)` command is kept, with no operand.
- Arguments of a command that do not change its role: depth bits and `FilterMode.Bilinear` of `GetTemporaryRT`, and the flags and clear colour of `ClearRenderTarget`. The half-size width `-2` is kept as `Half`, not as a bit shift of the screen width.
- Executing the buffer on the GPU, the shaders and the pixel blending. Only the recorded command sequence is modelled, together with which targets hold defined contents (`TargetContents`), not what those contents are.
- `Time.frameCount` is a parameter and `GetComponentsInChildren` a given sequence. `GlowController.Inst` is the passed-in controller.
- `GlowObject.GlowColor` is a constant fixed at construction. The source field is public and may be reassigned from outside the core (the editor, other scripts), and the core itself never writes it. A colour change made between rebuilds is not modelled.
- "Active exactly when registered" is stated over a ghost set of glow objects that change the controller only through `EnableGlow`/`DisableGlow`. Direct calls to `RegisterObject`/`DeRegisterObject` by other code can break it, as they can in the source.
- The commented-out optimisation notes (Assets/Scripts/GlowController.cs:124-137) are not live behaviour.
- The lerping variant of the glow object is not part of this model.
