/**
  Which targets hold defined contents while a rebuilt command list runs.
  Acquiring or releasing a temporary target forgets what it held; binding
  a target sends later clears and draws to it; a clear or a draw writes the
  bound target; a blit reads its source and writes its destination, which
  it also binds. The composite blit also reads the mask and the blur target,
  which its shader subtracts; no other read inside a shader is modelled. A
  simulation of these rules fails on any clear with no target bound, any
  draw over a target whose contents are undefined and any blit that reads a
  target nothing has written. The camera's image is always defined.
 */
module TargetContents {
  import opened GlowCommands
  import opened CommandProperties

  /** The targets written since they were last acquired, and the target clears and draws go to. */
  datatype Surfaces = Surfaces(written: set<TargetId>, bound: Option<TargetId>)

  /** Before the list runs: no temporary target written, no target bound. */
  const Start: Surfaces := Surfaces({}, None)

  /** A target whose contents are defined: the camera's image, or a target written since it was acquired. */
  predicate Readable(s: Surfaces, t: TargetId) {
    t == CameraTarget || t in s.written
  }

  /** The surfaces after one command, or `None` when the command reads contents that are not defined. */
  function Exec(s: Surfaces, c: Cmd): (r: Option<Surfaces>) {
    match c
    case GetTemporaryRT(id, _, _) => Some(Surfaces(s.written - {id}, s.bound))
    case ReleaseTemporaryRT(id) => Some(Surfaces(s.written - {id}, s.bound))
    case SetRenderTarget(t) => Some(Surfaces(s.written, Some(t)))
    case ClearRenderTarget =>
      if s.bound.None? then None else Some(Surfaces(s.written + {s.bound.value}, s.bound))
    case DrawRenderer(_, _) =>
      if s.bound.Some? && Readable(s, s.bound.value) then Some(Surfaces(s.written + {s.bound.value}, s.bound))
      else None
    case Blit(src, dst) =>
      if Readable(s, src) then Some(Surfaces(s.written + {dst}, Some(dst))) else None
    case BlitMaterial(src, dst, material, _) =>
      if Readable(s, src) && (material == CompositeMaterial ==> Readable(s, PrePass) && Readable(s, BlurPass))
      then Some(Surfaces(s.written + {dst}, Some(dst)))
      else None
    case _ => Some(s)
  }

  /** The surfaces after a whole list, starting from `s`. */
  function Execute(s: Surfaces, cmds: seq<Cmd>): (r: Option<Surfaces>) {
    if cmds == [] then Some(s)
    else
      match Execute(s, cmds[..|cmds| - 1])
      case None => None
      case Some(t) => Exec(t, cmds[|cmds| - 1])
  }

  /** Continue a simulation that has not failed. */
  function ExecuteAfter(o: Option<Surfaces>, cmds: seq<Cmd>): (r: Option<Surfaces>) {
    match o
    case None => None
    case Some(t) => Execute(t, cmds)
  }

  /** The state after the mask setup: the mask is cleared and bound. */
  const Masked: Surfaces := Surfaces({PrePass}, Some(PrePass))

  /** The state after the blur setup: the mask and the downsampled copy are written, the copy is bound. */
  const Downsampled: Surfaces := Surfaces({PrePass, BlurPass}, Some(BlurPass))

  /** The state after the blur passes: every temporary target is written, the blur target is bound. */
  const Blurred: Surfaces := Surfaces({PrePass, BlurPass, Temp}, Some(BlurPass))

  /** The state at the end of the list: only the camera's image is left, written by the composite, and bound. */
  const Composited: Surfaces := Surfaces({CameraTarget}, Some(CameraTarget))

  lemma {:induction false} ExecuteAppend(s: Surfaces, a: seq<Cmd>, b: seq<Cmd>)
    ensures Execute(s, a + b) == ExecuteAfter(Execute(s, a), b)
  {
    if b != [] {
      var b' := b[..|b| - 1];
      assert (a + b)[..|a + b| - 1] == a + b';
      ExecuteAppend(s, a, b');
    } else {
      assert a + b == a;
    }
  }

  /** The simulation read from the front: run command `k`, then the rest. */
  lemma ExecuteFrom(s: Surfaces, cmds: seq<Cmd>, k: nat)
    requires k < |cmds|
    ensures Execute(s, cmds[k..]) == match Exec(s, cmds[k])
                                     case None => None
                                     case Some(t) => Execute(t, cmds[k + 1..])
  {
    var one, rest := [cmds[k]], cmds[k + 1..];
    assert cmds[k..] == one + rest;
    ExecuteAppend(s, one, rest);
    assert one[..0] == [];
  }

  /** Colour settings, clears and draws over a written, bound target leave every target as it was. */
  lemma {:induction false} PassiveExecute(s: Surfaces, cmds: seq<Cmd>)
    requires s.bound.Some? && s.bound.value in s.written
    requires forall k :: 0 <= k < |cmds| ==> Passive(cmds[k])
    ensures Execute(s, cmds) == Some(s)
  {
    if cmds != [] {
      PassiveExecute(s, cmds[..|cmds| - 1]);
      assert s.written + {s.bound.value} == s.written;
    }
  }

  lemma MaskSetupExecute()
    ensures Execute(Start, MaskSetup()) == Some(Masked)
  {
    var m := MaskSetup();
    var none: set<TargetId> := {};
    assert none - {PrePass} == none && none + {PrePass} == {PrePass};
    assert m[0..] == m && m[3..] == [];
    ExecuteFrom(Surfaces({}, Some(PrePass)), m, 2);
    ExecuteFrom(Start, m, 1);
    ExecuteFrom(Start, m, 0);
  }

  lemma DrawSectionExecute(es: seq<Entry>)
    ensures Execute(Masked, DrawSection(es)) == Some(Masked)
  {
    DrawSectionPassive(es);
    PassiveExecute(Masked, DrawSection(es));
  }

  lemma BlurSetupExecute()
    ensures Execute(Masked, BlurSetup()) == Some(Downsampled)
  {
    var bs := BlurSetup();
    assert {PrePass} - {Temp} == {PrePass} && {PrePass} - {BlurPass} == {PrePass};
    assert {PrePass} + {BlurPass} == {PrePass, BlurPass};
    assert bs[0..] == bs && bs[4..] == [];
    ExecuteFrom(Downsampled, bs, 3);
    ExecuteFrom(Masked, bs, 2);
    ExecuteFrom(Masked, bs, 1);
    ExecuteFrom(Masked, bs, 0);
  }

  /** Each blur pair reads the blur target, writes the scratch target, then reads it back into the blur target. */
  lemma {:induction false} BlurPassesExecute(s: Surfaces, n: nat)
    requires BlurPass in s.written
    ensures Execute(s, BlurPasses(n)) == if n == 0 then Some(s) else Some(Surfaces(s.written + {Temp}, Some(BlurPass)))
  {
    if n > 0 {
      var pair := [HorizontalBlur, VerticalBlur];
      BlurPassesExecute(s, n - 1);
      var before := if n - 1 == 0 then s else Surfaces(s.written + {Temp}, Some(BlurPass));
      assert Execute(s, BlurPasses(n - 1)) == Some(before);
      ExecuteAppend(s, BlurPasses(n - 1), pair);
      var mid := Surfaces(before.written + {Temp}, Some(Temp));
      assert mid.written + {BlurPass} == s.written + {Temp};
      assert pair[0..] == pair && pair[2..] == [];
      ExecuteFrom(mid, pair, 1);
      ExecuteFrom(before, pair, 0);
    }
  }

  lemma CompositeExecute()
    ensures Execute(Blurred, Composite()) == Some(Surfaces({PrePass, BlurPass, Temp, CameraTarget}, Some(CameraTarget)))
  {
    var c := Composite();
    var noTemp := Surfaces({PrePass, BlurPass}, Some(BlurPass));
    var copied := Surfaces({PrePass, BlurPass, Temp}, Some(Temp));
    assert Blurred.written - {Temp} == noTemp.written && noTemp.written - {Temp} == noTemp.written;
    assert noTemp.written + {Temp} == copied.written;
    assert copied.written + {CameraTarget} == {PrePass, BlurPass, Temp, CameraTarget};
    assert c[0..] == c && c[4..] == [];
    ExecuteFrom(copied, c, 3);
    ExecuteFrom(noTemp, c, 2);
    ExecuteFrom(noTemp, c, 1);
    ExecuteFrom(Blurred, c, 0);
  }

  lemma ReleaseAllExecute()
    ensures Execute(Surfaces({PrePass, BlurPass, Temp, CameraTarget}, Some(CameraTarget)), ReleaseAll()) == Some(Composited)
  {
    var ra := ReleaseAll();
    var all := Surfaces({PrePass, BlurPass, Temp, CameraTarget}, Some(CameraTarget));
    var noTemp := Surfaces({PrePass, BlurPass, CameraTarget}, Some(CameraTarget));
    var onlyMask := Surfaces({PrePass, CameraTarget}, Some(CameraTarget));
    assert all.written - {Temp} == noTemp.written && noTemp.written - {BlurPass} == onlyMask.written;
    assert onlyMask.written - {PrePass} == {CameraTarget};
    assert ra[0..] == ra && ra[3..] == [];
    ExecuteFrom(onlyMask, ra, 2);
    ExecuteFrom(noTemp, ra, 1);
    ExecuteFrom(all, ra, 0);
  }

  /**
    Every read in a rebuilt list, for any objects, is of defined contents:
    each draw goes over the cleared mask, the downsampling copy reads the
    mask, each blur reads what the previous blit wrote, the camera copy
    fills the re-acquired scratch target before the composite reads it. At
    the end only the camera's image is left written, and it is bound.
   */
  lemma ContentsDefined(es: seq<Entry>)
    ensures Execute(Start, BuildCommands(es)) == Some(Composited)
  {
    var m, ds, bs := MaskSetup(), DrawSection(es), BlurSetup();
    var bp, c, ra := BlurPasses(BlurIterations), Composite(), ReleaseAll();
    var all := Surfaces({PrePass, BlurPass, Temp, CameraTarget}, Some(CameraTarget));
    MaskSetupExecute();
    DrawSectionExecute(es);
    BlurSetupExecute();
    BlurPassesExecute(Downsampled, BlurIterations);
    assert Downsampled.written + {Temp} == Blurred.written;
    CompositeExecute();
    ReleaseAllExecute();
    ExecuteAppend(Start, m, ds);
    assert Execute(Start, m + ds) == Some(Masked);
    ExecuteAppend(Start, m + ds, bs);
    assert Execute(Start, m + ds + bs) == Some(Downsampled);
    ExecuteAppend(Start, m + ds + bs, bp);
    assert Execute(Start, m + ds + bs + bp) == Some(Blurred);
    ExecuteAppend(Start, m + ds + bs + bp, c);
    assert Execute(Start, m + ds + bs + bp + c) == Some(all);
    ExecuteAppend(Start, m + ds + bs + bp + c, ra);
  }

  /**
    The order inside the composite matters: with the composite blit before
    the camera copy, the composite reads the re-acquired scratch target
    before anything has written it.
   */
  lemma CompositeOrderMatters()
    ensures Execute(Blurred, [ReleaseTemporaryRT(Temp), GetTemporaryRT(Temp, Full, DefaultHDR), CompositeBlit, CameraCopy]) == None
  {
    var c := [ReleaseTemporaryRT(Temp), GetTemporaryRT(Temp, Full, DefaultHDR), CompositeBlit, CameraCopy];
    var noTemp := Surfaces({PrePass, BlurPass}, Some(BlurPass));
    assert Blurred.written - {Temp} == noTemp.written && noTemp.written - {Temp} == noTemp.written;
    assert c[0..] == c;
    ExecuteFrom(noTemp, c, 2);
    ExecuteFrom(noTemp, c, 1);
    ExecuteFrom(Blurred, c, 0);
  }

  /** The composite over a state without the mask fails at the composite blit. */
  lemma UnmaskedComposite()
    ensures Execute(Surfaces({BlurPass, Temp}, Some(BlurPass)), Composite()) == None
  {
    var c := Composite();
    var start, noMask := Surfaces({BlurPass, Temp}, Some(BlurPass)), Surfaces({BlurPass}, Some(BlurPass));
    var copied := Surfaces({BlurPass, Temp}, Some(Temp));
    assert start.written - {Temp} == noMask.written && noMask.written - {Temp} == noMask.written;
    assert noMask.written + {Temp} == copied.written;
    assert c[0..] == c;
    ExecuteFrom(copied, c, 3);
    ExecuteFrom(noMask, c, 2);
    ExecuteFrom(noMask, c, 1);
    ExecuteFrom(start, c, 0);
  }

  /**
    The mask must stay held until the composite: released right after the
    downsampling copy (and not at the end), it is undefined when the
    composite blit reads it.
   */
  lemma EarlyMaskRelease(es: seq<Entry>)
    ensures Execute(Start, MaskSetup() + DrawSection(es) + BlurSetup() + [ReleaseTemporaryRT(PrePass)]
                           + BlurPasses(BlurIterations) + Composite()
                           + [ReleaseTemporaryRT(Temp), ReleaseTemporaryRT(BlurPass)]) == None
  {
    var prefix := MaskSetup() + DrawSection(es) + BlurSetup() + [ReleaseTemporaryRT(PrePass)] + BlurPasses(BlurIterations);
    var c, ra := Composite(), [ReleaseTemporaryRT(Temp), ReleaseTemporaryRT(BlurPass)];
    BlurredWithoutMask(es);
    UnmaskedComposite();
    ExecuteAppend(Start, prefix, c);
    ExecuteAppend(Start, prefix + c, ra);
  }

  /** Up to the end of the blur setup, the list reaches `Downsampled` for any objects. */
  lemma Downsampling(es: seq<Entry>)
    ensures Execute(Start, MaskSetup() + DrawSection(es) + BlurSetup()) == Some(Downsampled)
  {
    MaskSetupExecute();
    DrawSectionExecute(es);
    BlurSetupExecute();
    ExecuteAppend(Start, MaskSetup(), DrawSection(es));
    ExecuteAppend(Start, MaskSetup() + DrawSection(es), BlurSetup());
  }

  /** Releasing the mask after the downsampling copy leaves the blurs running on the two half-size targets. */
  lemma BlurredWithoutMask(es: seq<Entry>)
    ensures Execute(Start, MaskSetup() + DrawSection(es) + BlurSetup() + [ReleaseTemporaryRT(PrePass)] + BlurPasses(BlurIterations))
            == Some(Surfaces({BlurPass, Temp}, Some(BlurPass)))
  {
    var m, ds, bs, rel := MaskSetup(), DrawSection(es), BlurSetup(), [ReleaseTemporaryRT(PrePass)];
    var noMask := Surfaces({BlurPass}, Some(BlurPass));
    Downsampling(es);
    assert Execute(Downsampled, rel) == Some(noMask) by {
      assert Downsampled.written - {PrePass} == noMask.written;
      assert rel[0..] == rel && rel[1..] == [];
      ExecuteFrom(Downsampled, rel, 0);
    }
    ExecuteAppend(Start, m + ds + bs, rel);
    BlurPassesExecute(noMask, BlurIterations);
    assert noMask.written + {Temp} == {BlurPass, Temp};
    ExecuteAppend(Start, m + ds + bs + rel, BlurPasses(BlurIterations));
  }

  /** Without the clear, the first draw over the freshly acquired mask reads undefined contents. */
  lemma ClearBeforeDraw(e: Entry)
    requires e.renderers != []
    ensures Execute(Start, [GetTemporaryRT(PrePass, Full, Default), SetRenderTarget(PrePass)] + DrawEntry(e)) == None
  {
    var cmds := [GetTemporaryRT(PrePass, Full, Default), SetRenderTarget(PrePass)] + DrawEntry(e);
    var unmasked := Surfaces({}, Some(PrePass));
    var none: set<TargetId> := {};
    assert none - {PrePass} == none;
    assert cmds[0..] == cmds && cmds[2] == SetGlobalColor(GlowColorId, e.color);
    assert cmds[3] == DrawRenderer(e.renderers[0], GlowMaterial);
    ExecuteFrom(unmasked, cmds, 3);
    ExecuteFrom(unmasked, cmds, 2);
    ExecuteFrom(Start, cmds, 1);
    ExecuteFrom(Start, cmds, 0);
  }
}
