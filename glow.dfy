/**
  The two behaviours of the glow effect: `GlowController`, which keeps the
  list of glowing objects and records the command buffer, and `GlowObject`,
  the per-object toggle that registers itself with the controller and
  removes itself again. The controller's list and buffer are fields its
  methods reassign; the buffer is the sequence of commands it holds.
 */
module Glow {
  import opened Lists
  import opened GlowCommands


  class GlowController {
    /** The objects whose glow is drawn, in registration order. */
    var glowObjects: seq<GlowObject>
    /** The commands currently recorded in the buffer. */
    var glowBuff: seq<Cmd>
    /** The frame number of the last rebuild that ran (0 until the first one). */
    var lastRebuildFrame: int

    /** The class invariant: no object is registered twice. */
    ghost predicate Valid()
      reads this`glowObjects
    {
      NoDuplicates(glowObjects)
    }

    /** What a rebuild reads of the registered objects: each one's colour and renderers, in list order. */
    function Entries(): (r: seq<Entry>)
      reads this`glowObjects
    {
      var objs := glowObjects;
      seq(|objs|, i requires 0 <= i < |objs| => Entry(objs[i].GlowColor, objs[i].Renderers))
    }

    /**
      The outcome of the once-per-frame gate: when the last rebuild ran in
      `frameCount`, the buffer and the frame number stay as they were;
      otherwise the buffer holds exactly the command list for the current
      objects and the frame number is `frameCount`.
     */
    ghost predicate Gated(lastBefore: int, buffBefore: seq<Cmd>, frameCount: int)
      reads this
    {
      if lastBefore == frameCount then glowBuff == buffBefore && lastRebuildFrame == lastBefore
      else glowBuff == BuildCommands(Entries()) && lastRebuildFrame == frameCount
    }

    /** After a removal: an empty list leaves an empty buffer, otherwise a rebuild went through the gate. */
    ghost predicate AfterRemoval(lastBefore: int, buffBefore: seq<Cmd>, frameCount: int)
      reads this
    {
      if glowObjects == [] then glowBuff == [] && lastRebuildFrame == lastBefore
      else Gated(lastBefore, buffBefore, frameCount)
    }

    /** `Awake`: an empty list and an empty buffer; no rebuild has run. */
    constructor()
      ensures Valid()
      ensures glowObjects == [] && glowBuff == [] && lastRebuildFrame == 0
    {
      glowObjects := [];
      glowBuff := [];
      lastRebuildFrame := 0;
    }

    /** Append the object unless it is already registered. The buffer is not rebuilt. */
    method RegisterObject(o: GlowObject)
      requires Valid()
      modifies this`glowObjects
      ensures Valid()
      ensures o in glowObjects
      ensures glowObjects == if o in old(glowObjects) then old(glowObjects) else old(glowObjects) + [o]
      ensures glowBuff == old(glowBuff) && lastRebuildFrame == old(lastRebuildFrame)
    {
      if o !in glowObjects {
        AppendAbsentNoDuplicates(glowObjects, o);
        glowObjects := glowObjects + [o];
      }
    }

    /**
      Remove the object (a non-member leaves the list as it is), then clear
      the buffer if no object is left, and otherwise attempt a rebuild.
     */
    method DeRegisterObject(o: GlowObject, frameCount: int)
      requires Valid()
      modifies this
      ensures Valid()
      ensures glowObjects == RemoveFirst(old(glowObjects), o)
      ensures o !in glowObjects
      ensures AfterRemoval(old(lastRebuildFrame), old(glowBuff), frameCount)
    {
      RemoveFirstNoDuplicates(glowObjects, o);
      var remaining := RemoveFirst(glowObjects, o);
      glowObjects := remaining;
      if |remaining| < 1 {
        glowBuff := [];
      } else {
        RebuildCommandBuffer(frameCount);
      }
    }

    /**
      At most once per frame: clear the buffer and record the mask setup,
      one colour and the draws per object, the blur setup, the blur passes,
      the composite and the releases.
     */
    method RebuildCommandBuffer(frameCount: int)
      modifies this`glowBuff, this`lastRebuildFrame
      ensures Gated(old(lastRebuildFrame), old(glowBuff), frameCount)
    {
      if lastRebuildFrame == frameCount {
        return;
      }
      lastRebuildFrame := frameCount;

      glowBuff := [];
      glowBuff := glowBuff + [GetTemporaryRT(PrePass, Full, Default)];
      glowBuff := glowBuff + [SetRenderTarget(PrePass)];
      glowBuff := glowBuff + [ClearRenderTarget];
      PushThree([], GetTemporaryRT(PrePass, Full, Default), SetRenderTarget(PrePass), ClearRenderTarget);
      ghost var afterMask := glowBuff;
      RecordObjects();
      ghost var afterDraws := glowBuff;
      RecordBlur();
      ghost var afterBlur := glowBuff;
      RecordComposite();
      Assembled(Entries(), afterMask, afterDraws, afterBlur, glowBuff);
    }

    /** For each object in list order: its colour, then one silhouette draw per renderer. */
    method RecordObjects()
      modifies this`glowBuff
      ensures glowBuff == old(glowBuff) + DrawSection(Entries())
    {
      ghost var es, start := Entries(), glowBuff;
      var objs := glowObjects;
      for i := 0 to |objs|
        invariant glowBuff == start + DrawSection(es[..i])
      {
        var obj := objs[i];
        ghost var before := glowBuff;
        RecordEntry(obj.GlowColor, obj.Renderers);
        DrawSectionStep(start, es, i, before, glowBuff);
      }
      assert es[..|objs|] == es;
    }

    /** One object's colour as the global `_GlowColor`, then a draw of each of its renderers. */
    method RecordEntry(color: Color, renderers: seq<Renderer>)
      modifies this`glowBuff
      ensures glowBuff == old(glowBuff) + DrawEntry(Entry(color, renderers))
    {
      glowBuff := glowBuff + [SetGlobalColor(GlowColorId, color)];
      ghost var head := glowBuff;
      for j := 0 to |renderers|
        invariant glowBuff == head + Draws(renderers[..j])
      {
        ghost var before := glowBuff;
        glowBuff := glowBuff + [DrawRenderer(renderers[j], GlowMaterial)];
        DrawsStep(head, renderers, j, before, glowBuff);
      }
      assert renderers[..|renderers|] == renderers;
    }

    /** Two half-resolution targets, the downsampling copy, the blur texel size, then four blur pairs. */
    method RecordBlur()
      modifies this`glowBuff
      ensures glowBuff == old(glowBuff) + BlurSetup() + BlurPasses(BlurIterations)
    {
      glowBuff := glowBuff + [GetTemporaryRT(Temp, Half, Default)];
      glowBuff := glowBuff + [GetTemporaryRT(BlurPass, Half, Default)];
      glowBuff := glowBuff + [Blit(PrePass, BlurPass)];
      glowBuff := glowBuff + [SetGlobalVector(BlurSizeId)];
      PushFour(old(glowBuff), GetTemporaryRT(Temp, Half, Default), GetTemporaryRT(BlurPass, Half, Default),
               Blit(PrePass, BlurPass), SetGlobalVector(BlurSizeId));
      ghost var beforeBlur := glowBuff;
      for k := 0 to 4
        invariant glowBuff == beforeBlur + BlurPasses(k)
      {
        ghost var before := glowBuff;
        glowBuff := glowBuff + [HorizontalBlur];
        glowBuff := glowBuff + [VerticalBlur];
        BlurStep(beforeBlur, k, before, glowBuff);
      }
    }

    /** Re-allocate the scratch target in HDR, copy the camera out, composite back, release all targets. */
    method RecordComposite()
      modifies this`glowBuff
      ensures glowBuff == old(glowBuff) + Composite() + ReleaseAll()
    {
      glowBuff := glowBuff + [ReleaseTemporaryRT(Temp)];
      glowBuff := glowBuff + [GetTemporaryRT(Temp, Full, DefaultHDR)];
      glowBuff := glowBuff + [Blit(CameraTarget, Temp)];
      glowBuff := glowBuff + [BlitMaterial(Temp, CameraTarget, CompositeMaterial, 0)];
      PushFour(old(glowBuff), ReleaseTemporaryRT(Temp), GetTemporaryRT(Temp, Full, DefaultHDR),
               Blit(CameraTarget, Temp), BlitMaterial(Temp, CameraTarget, CompositeMaterial, 0));
      ghost var afterComposite := glowBuff;
      glowBuff := glowBuff + [ReleaseTemporaryRT(Temp)];
      glowBuff := glowBuff + [ReleaseTemporaryRT(BlurPass)];
      glowBuff := glowBuff + [ReleaseTemporaryRT(PrePass)];
      PushThree(afterComposite, ReleaseTemporaryRT(Temp), ReleaseTemporaryRT(BlurPass), ReleaseTemporaryRT(PrePass));
    }
  }

  /** Recording the draw of renderer `j` extends the draws of the first `j` renderers by one. */
  lemma DrawsStep(head: seq<Cmd>, rs: seq<Renderer>, j: nat, before: seq<Cmd>, after: seq<Cmd>)
    requires j < |rs|
    requires before == head + Draws(rs[..j])
    requires after == before + [DrawRenderer(rs[j], GlowMaterial)]
    ensures after == head + Draws(rs[..j + 1])
  {
    assert Draws(rs[..j + 1]) == Draws(rs[..j]) + [DrawRenderer(rs[j], GlowMaterial)];
  }

  /** Recording object `i` extends the section of the first `i` objects by its colour and draws. */
  lemma DrawSectionStep(start: seq<Cmd>, es: seq<Entry>, i: nat, before: seq<Cmd>, after: seq<Cmd>)
    requires i < |es|
    requires before == start + DrawSection(es[..i])
    requires after == before + DrawEntry(es[i])
    ensures after == start + DrawSection(es[..i + 1])
  {
    assert es[..i + 1][..i] == es[..i];
  }

  /** Recording one horizontal and one vertical pass adds blur pair `k + 1`. */
  lemma BlurStep(head: seq<Cmd>, k: nat, before: seq<Cmd>, after: seq<Cmd>)
    requires before == head + BlurPasses(k)
    requires after == before + [HorizontalBlur] + [VerticalBlur]
    ensures after == head + BlurPasses(k + 1)
  {
    assert after == head + (BlurPasses(k) + [HorizontalBlur, VerticalBlur]);
  }

  /** Three commands recorded one by one. */
  lemma PushThree(s: seq<Cmd>, a: Cmd, b: Cmd, c: Cmd)
    ensures s + [a] + [b] + [c] == s + [a, b, c]
  {
  }

  /** Four commands recorded one by one. */
  lemma PushFour(s: seq<Cmd>, a: Cmd, b: Cmd, c: Cmd, d: Cmd)
    ensures s + [a] + [b] + [c] + [d] == s + [a, b, c, d]
  {
  }

  /** The sections recorded one after another make up the whole command list. */
  lemma Assembled(es: seq<Entry>, afterMask: seq<Cmd>, afterDraws: seq<Cmd>, afterBlur: seq<Cmd>, cmds: seq<Cmd>)
    requires afterMask == MaskSetup()
    requires afterDraws == afterMask + DrawSection(es)
    requires afterBlur == afterDraws + BlurSetup() + BlurPasses(BlurIterations)
    requires cmds == afterBlur + Composite() + ReleaseAll()
    ensures cmds == BuildCommands(es)
  {
  }

  class GlowObject {
    /** The colour the object glows with, as set on the object before it first glows. */
    const GlowColor: Color
    /** The object's renderers, fixed once `Awake` has collected them. */
    const Renderers: seq<Renderer>
    /** Whether the object is currently registered for glowing. */
    var active: bool

    /** `Awake`: the renderers found below the object; the glow starts off. */
    constructor(glowColor: Color, renderers: seq<Renderer>)
      ensures GlowColor == glowColor && Renderers == renderers && !active
    {
      GlowColor := glowColor;
      Renderers := renderers;
      active := false;
    }

    /**
      Switch the glow on: an active object changes nothing, an inactive one
      becomes active and registers itself. `objs` is a ghost set of glow
      objects over which "active exactly when registered" is kept.
     */
    method EnableGlow(ctrl: GlowController, ghost objs: set<GlowObject>)
      requires ctrl.Valid()
      modifies this`active, ctrl`glowObjects
      ensures ctrl.Valid() && active
      ensures old(active) ==> ctrl.glowObjects == old(ctrl.glowObjects)
      ensures !old(active) ==> ctrl.glowObjects == if this in old(ctrl.glowObjects) then old(ctrl.glowObjects)
                                                   else old(ctrl.glowObjects) + [this]
      ensures ctrl.glowBuff == old(ctrl.glowBuff) && ctrl.lastRebuildFrame == old(ctrl.lastRebuildFrame)
      ensures this in objs && old(Synced(ctrl, objs)) ==> Synced(ctrl, objs)
    {
      if active {
        return;
      }
      active := true;
      ctrl.RegisterObject(this);
    }

    /**
      Switch the glow off: an inactive object changes nothing, an active one
      becomes inactive and deregisters itself, which clears or rebuilds the buffer.
     */
    method DisableGlow(ctrl: GlowController, frameCount: int, ghost objs: set<GlowObject>)
      requires ctrl.Valid()
      modifies this`active, ctrl
      ensures ctrl.Valid() && !active
      ensures !old(active) ==> ctrl.glowObjects == old(ctrl.glowObjects) && ctrl.glowBuff == old(ctrl.glowBuff)
                               && ctrl.lastRebuildFrame == old(ctrl.lastRebuildFrame)
      ensures old(active) ==> ctrl.glowObjects == RemoveFirst(old(ctrl.glowObjects), this) && this !in ctrl.glowObjects
                              && ctrl.AfterRemoval(old(ctrl.lastRebuildFrame), old(ctrl.glowBuff), frameCount)
      ensures this in objs && old(Synced(ctrl, objs)) ==> Synced(ctrl, objs)
    {
      if !active {
        return;
      }
      active := false;
      ghost var before := ctrl.glowObjects;
      ctrl.DeRegisterObject(this, frameCount);
      RemoveFirstNoDuplicates(before, this);
    }

    /** The pointer entering the object switches the glow on. */
    method OnMouseEnter(ctrl: GlowController, ghost objs: set<GlowObject>)
      requires ctrl.Valid()
      modifies this`active, ctrl`glowObjects
      ensures ctrl.Valid() && active
      ensures old(active) ==> ctrl.glowObjects == old(ctrl.glowObjects)
      ensures !old(active) ==> ctrl.glowObjects == if this in old(ctrl.glowObjects) then old(ctrl.glowObjects)
                                                   else old(ctrl.glowObjects) + [this]
      ensures ctrl.glowBuff == old(ctrl.glowBuff) && ctrl.lastRebuildFrame == old(ctrl.lastRebuildFrame)
      ensures this in objs && old(Synced(ctrl, objs)) ==> Synced(ctrl, objs)
    {
      EnableGlow(ctrl, objs);
    }

    /** The pointer leaving the object switches the glow off. */
    method OnMouseExit(ctrl: GlowController, frameCount: int, ghost objs: set<GlowObject>)
      requires ctrl.Valid()
      modifies this`active, ctrl
      ensures ctrl.Valid() && !active
      ensures !old(active) ==> ctrl.glowObjects == old(ctrl.glowObjects) && ctrl.glowBuff == old(ctrl.glowBuff)
                               && ctrl.lastRebuildFrame == old(ctrl.lastRebuildFrame)
      ensures old(active) ==> ctrl.glowObjects == RemoveFirst(old(ctrl.glowObjects), this) && this !in ctrl.glowObjects
                              && ctrl.AfterRemoval(old(ctrl.lastRebuildFrame), old(ctrl.glowBuff), frameCount)
      ensures this in objs && old(Synced(ctrl, objs)) ==> Synced(ctrl, objs)
    {
      DisableGlow(ctrl, frameCount, objs);
    }
  }

  /**
    "Active exactly when registered" over the glow objects `objs`: the list
    holds only objects of `objs`, and each of them is in the list exactly
    when its flag is set.
   */
  ghost predicate Synced(ctrl: GlowController, objs: set<GlowObject>)
    reads ctrl, objs
  {
    && ctrl.Valid()
    && (forall o :: o in ctrl.glowObjects ==> o in objs)
    && (forall o :: o in objs ==> (o.active <==> o in ctrl.glowObjects))
  }

  /**
    Two objects switched on (the first one twice), then two rebuild
    attempts in frame 1: the first records the list for both objects in
    registration order, the second is skipped by the frame gate.
   */
  method SameFrameRebuild(ca: Color, ra: seq<Renderer>, cb: Color, rb: seq<Renderer>)
    returns (first: seq<Cmd>, second: seq<Cmd>)
    ensures first == BuildCommands([Entry(ca, ra), Entry(cb, rb)])
    ensures second == first
  {
    var ctrl := new GlowController();
    var a := new GlowObject(ca, ra);
    var b := new GlowObject(cb, rb);
    a.EnableGlow(ctrl, {});
    assert ctrl.glowObjects == [a];
    b.EnableGlow(ctrl, {});
    assert ctrl.glowObjects == [a, b];
    a.OnMouseEnter(ctrl, {});

    ctrl.RebuildCommandBuffer(1);
    assert ctrl.Entries() == [Entry(ca, ra), Entry(cb, rb)];
    first := ctrl.glowBuff;
    ctrl.RebuildCommandBuffer(1);
    second := ctrl.glowBuff;
  }

  /** A new controller with two new objects switched on, in that order; nothing recorded yet. */
  method TwoSwitchedOn(ca: Color, ra: seq<Renderer>, cb: Color, rb: seq<Renderer>)
    returns (ctrl: GlowController, a: GlowObject, b: GlowObject)
    ensures fresh(ctrl) && fresh(a) && fresh(b)
    ensures ctrl.Valid() && ctrl.glowObjects == [a, b] && a.active && b.active
    ensures ctrl.glowBuff == [] && ctrl.lastRebuildFrame == 0
    ensures a.GlowColor == ca && a.Renderers == ra && b.GlowColor == cb && b.Renderers == rb
  {
    ctrl := new GlowController();
    a := new GlowObject(ca, ra);
    b := new GlowObject(cb, rb);
    a.EnableGlow(ctrl, {});
    assert ctrl.glowObjects == [a];
    b.EnableGlow(ctrl, {});
  }

  /**
    Two objects switched on and a rebuild in frame 1, then both switched
    off in that same frame: after the first switch-off the buffer still
    holds the rebuild's list (the second rebuild of the frame is skipped,
    so the removed object is still drawn); after the last one it is empty.
   */
  method SwitchOffInFrame(ca: Color, ra: seq<Renderer>, cb: Color, rb: seq<Renderer>)
    returns (rebuilt: seq<Cmd>, afterFirstOff: seq<Cmd>, afterLastOff: seq<Cmd>)
    ensures rebuilt == BuildCommands([Entry(ca, ra), Entry(cb, rb)])
    ensures afterFirstOff == rebuilt
    ensures afterLastOff == []
  {
    var ctrl, a, b := TwoSwitchedOn(ca, ra, cb, rb);
    ghost var both := ctrl.glowObjects;
    ctrl.RebuildCommandBuffer(1);
    assert ctrl.Entries() == [Entry(ca, ra), Entry(cb, rb)];
    rebuilt := ctrl.glowBuff;

    b.DisableGlow(ctrl, 1, {});
    assert ctrl.glowObjects == [a] by {
      RemoveFirstAt(both, b, 1);
      assert both[..1] == [a] && both[2..] == [];
    }
    afterFirstOff := ctrl.glowBuff;
    a.OnMouseExit(ctrl, 1, {});
    afterLastOff := ctrl.glowBuff;
  }

  /**
    Switching glows on records nothing: on a new controller, two objects
    switched on leave the buffer empty. The first list that draws anything
    comes from a later removal in a new frame, and it draws only the objects
    that are still registered.
   */
  method SwitchOnNotDrawn(ca: Color, ra: seq<Renderer>, cb: Color, rb: seq<Renderer>)
    returns (afterOn: seq<Cmd>, afterOneOff: seq<Cmd>)
    ensures afterOn == []
    ensures afterOneOff == BuildCommands([Entry(ca, ra)])
  {
    var ctrl, a, b := TwoSwitchedOn(ca, ra, cb, rb);
    ghost var both := ctrl.glowObjects;
    afterOn := ctrl.glowBuff;

    b.DisableGlow(ctrl, 2, {});
    assert ctrl.glowObjects == [a] by {
      RemoveFirstAt(both, b, 1);
      assert both[..1] == [a] && both[2..] == [];
    }
    assert ctrl.Entries() == [Entry(ca, ra)];
    afterOneOff := ctrl.glowBuff;
  }

  /** An object that glows alone is never drawn: its buffer is empty while it is on and after it is off. */
  method AloneNeverDrawn(c: Color, rs: seq<Renderer>, frameCount: int)
    returns (afterOn: seq<Cmd>, afterOff: seq<Cmd>)
    ensures afterOn == [] && afterOff == []
  {
    var ctrl := new GlowController();
    var a := new GlowObject(c, rs);
    a.OnMouseEnter(ctrl, {});
    afterOn := ctrl.glowBuff;
    a.OnMouseExit(ctrl, frameCount, {});
    assert ctrl.glowObjects == [] by {
      RemoveFirstAt([a], a, 0);
    }
    afterOff := ctrl.glowBuff;
  }

  /**
    "Active exactly when registered" over the two objects of a scene: it
    holds for a new controller and new objects, and after each toggle of a
    sequence that switches both on, one of them on again, then both off. At
    the end no object is registered.
   */
  method ToggleSequence(ca: Color, ra: seq<Renderer>, cb: Color, rb: seq<Renderer>, frameCount: int)
    returns (midA: bool, midB: bool, endCount: nat)
    ensures midA && !midB
    ensures endCount == 0
  {
    var ctrl := new GlowController();
    var a := new GlowObject(ca, ra);
    var b := new GlowObject(cb, rb);
    ghost var objs := {a, b};
    assert Synced(ctrl, objs);
    a.EnableGlow(ctrl, objs);
    assert Synced(ctrl, objs);
    b.EnableGlow(ctrl, objs);
    assert Synced(ctrl, objs);
    a.OnMouseEnter(ctrl, objs);
    assert Synced(ctrl, objs);
    b.DisableGlow(ctrl, frameCount, objs);
    assert Synced(ctrl, objs);
    midA, midB := a.active, b.active;
    a.OnMouseExit(ctrl, frameCount, objs);
    assert Synced(ctrl, objs);
    endCount := |ctrl.glowObjects|;
  }
}
