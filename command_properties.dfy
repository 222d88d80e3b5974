/**
  What a rebuilt command list promises, in two parts. Against views that do
  not mention how the list is assembled (`SetColors`, `DrawnRenderers`,
  `Colors`, `AllRenderers`, `Lifetime`, `Track`): the colours set and the
  renderers drawn, in order; the acquisitions and releases of each target;
  a simulation of the temporary-target pool that fails on any double
  allocation, any release of a target not held, and any `SetRenderTarget`
  or blit naming a target not held (clears and draws go to the bound
  target and are not checked here). By position and count, against the sections the list is built from
  (`MaskSetup`, `DrawSection`, `DrawEntry`, `FixedTail`): where each section
  and each object starts, and how often each blur and composite blit occurs.
 */
module CommandProperties {
  import opened GlowCommands

  datatype Option<T> = None | Some(value: T)

  // ----- Independent views of a command list -----

  /** The objects' colours, in list order. */
  function Colors(es: seq<Entry>): (r: seq<Color>) {
    seq(|es|, i requires 0 <= i < |es| => es[i].color)
  }

  /** All renderers of all objects, object by object. */
  function AllRenderers(es: seq<Entry>): (r: seq<Renderer>) {
    if es == [] then [] else AllRenderers(es[..|es| - 1]) + es[|es| - 1].renderers
  }

  /** The colours set by `SetGlobalColor` commands, in order. */
  function SetColors(cmds: seq<Cmd>): (r: seq<Color>) {
    if cmds == [] then []
    else
      var c := cmds[|cmds| - 1];
      SetColors(cmds[..|cmds| - 1]) + (if c.SetGlobalColor? then [c.color] else [])
  }

  /** The renderers drawn by `DrawRenderer` commands, in order. */
  function DrawnRenderers(cmds: seq<Cmd>): (r: seq<Renderer>) {
    if cmds == [] then []
    else
      var c := cmds[|cmds| - 1];
      DrawnRenderers(cmds[..|cmds| - 1]) + (if c.DrawRenderer? then [c.renderer] else [])
  }

  /** What happens to one target id: it is acquired with a size and format, or released. */
  datatype Event = Acquired(res: Resolution, format: Format) | Released

  /** The event one command contributes to the lifetime of `id`. */
  function EventOf(c: Cmd, id: TargetId): (r: seq<Event>) {
    if c.GetTemporaryRT? && c.id == id then [Acquired(c.res, c.format)]
    else if c.ReleaseTemporaryRT? && c.id == id then [Released]
    else []
  }

  /** The acquisitions and releases of `id`, in order. */
  function Lifetime(cmds: seq<Cmd>, id: TargetId): (r: seq<Event>) {
    if cmds == [] then [] else Lifetime(cmds[..|cmds| - 1], id) + EventOf(cmds[|cmds| - 1], id)
  }

  /** A target a binding or a blit may name: the camera's image always, a temporary one while held. */
  predicate Usable(held: set<TargetId>, t: TargetId) {
    t == CameraTarget || t in held
  }

  /**
    The pool of temporary targets after one command, or `None` when the
    command allocates a target already held (or the camera's), releases one
    not held, or binds or blits one not held. Clears and draws name no
    target and pass unchecked.
   */
  function Step(held: set<TargetId>, c: Cmd): (r: Option<set<TargetId>>) {
    match c
    case GetTemporaryRT(id, _, _) =>
      if id == CameraTarget || id in held then None else Some(held + {id})
    case ReleaseTemporaryRT(id) =>
      if id !in held then None else Some(held - {id})
    case SetRenderTarget(t) =>
      if Usable(held, t) then Some(held) else None
    case Blit(src, dst) =>
      if Usable(held, src) && Usable(held, dst) then Some(held) else None
    case BlitMaterial(src, dst, _, _) =>
      if Usable(held, src) && Usable(held, dst) then Some(held) else None
    case _ => Some(held)
  }

  /** The pool after a whole list, starting from `held`. */
  function Track(held: set<TargetId>, cmds: seq<Cmd>): (r: Option<set<TargetId>>) {
    if cmds == [] then Some(held)
    else
      match Track(held, cmds[..|cmds| - 1])
      case None => None
      case Some(h) => Step(h, cmds[|cmds| - 1])
  }

  /** Continue a simulation that has not failed. */
  function TrackAfter(o: Option<set<TargetId>>, cmds: seq<Cmd>): (r: Option<set<TargetId>>) {
    match o
    case None => None
    case Some(h) => Track(h, cmds)
  }

  /** Commands that neither allocate, release nor touch a target. */
  predicate Passive(c: Cmd) {
    c.SetGlobalColor? || c.DrawRenderer? || c.ClearRenderTarget? || c.SetGlobalVector?
  }

  // ----- The views distribute over concatenation -----

  lemma {:induction false} SetColorsAppend(a: seq<Cmd>, b: seq<Cmd>)
    ensures SetColors(a + b) == SetColors(a) + SetColors(b)
  {
    if b != [] {
      var b' := b[..|b| - 1];
      assert (a + b)[..|a + b| - 1] == a + b';
      SetColorsAppend(a, b');
    } else {
      assert a + b == a;
    }
  }

  lemma {:induction false} DrawnRenderersAppend(a: seq<Cmd>, b: seq<Cmd>)
    ensures DrawnRenderers(a + b) == DrawnRenderers(a) + DrawnRenderers(b)
  {
    if b != [] {
      var b' := b[..|b| - 1];
      assert (a + b)[..|a + b| - 1] == a + b';
      DrawnRenderersAppend(a, b');
    } else {
      assert a + b == a;
    }
  }

  lemma {:induction false} LifetimeAppend(a: seq<Cmd>, b: seq<Cmd>, id: TargetId)
    ensures Lifetime(a + b, id) == Lifetime(a, id) + Lifetime(b, id)
  {
    if b != [] {
      var b' := b[..|b| - 1];
      assert (a + b)[..|a + b| - 1] == a + b';
      LifetimeAppend(a, b', id);
    } else {
      assert a + b == a;
    }
  }

  lemma {:induction false} TrackAppend(held: set<TargetId>, a: seq<Cmd>, b: seq<Cmd>)
    ensures Track(held, a + b) == TrackAfter(Track(held, a), b)
  {
    if b != [] {
      var b' := b[..|b| - 1];
      assert (a + b)[..|a + b| - 1] == a + b';
      TrackAppend(held, a, b');
    } else {
      assert a + b == a;
    }
  }

  /** The simulation read from the front: run command `k`, then the rest. */
  lemma TrackFrom(held: set<TargetId>, s: seq<Cmd>, k: nat)
    requires k < |s|
    ensures Track(held, s[k..]) == match Step(held, s[k])
                                   case None => None
                                   case Some(h) => Track(h, s[k + 1..])
  {
    var one, rest := [s[k]], s[k + 1..];
    assert s[k..] == one + rest;
    TrackAppend(held, one, rest);
    assert one[..0] == [];
  }

  /** The lifetime read from the front: command `k`'s events, then the rest. */
  lemma LifetimeFrom(s: seq<Cmd>, k: nat, id: TargetId)
    requires k < |s|
    ensures Lifetime(s[k..], id) == EventOf(s[k], id) + Lifetime(s[k + 1..], id)
  {
    var one, rest := [s[k]], s[k + 1..];
    assert s[k..] == one + rest;
    LifetimeAppend(one, rest, id);
    assert one[..0] == [];
  }

  /** Passive commands leave the pool alone. */
  lemma {:induction false} PassiveTrack(held: set<TargetId>, cmds: seq<Cmd>)
    requires forall k :: 0 <= k < |cmds| ==> Passive(cmds[k])
    ensures Track(held, cmds) == Some(held)
  {
    if cmds != [] {
      PassiveTrack(held, cmds[..|cmds| - 1]);
    }
  }

  /** Commands other than allocations and releases add no lifetime events. */
  lemma {:induction false} NoLifetime(cmds: seq<Cmd>, id: TargetId)
    requires forall k :: 0 <= k < |cmds| ==> !cmds[k].GetTemporaryRT? && !cmds[k].ReleaseTemporaryRT?
    ensures Lifetime(cmds, id) == []
  {
    if cmds != [] {
      NoLifetime(cmds[..|cmds| - 1], id);
    }
  }

  /** Commands other than colour sets and draws add nothing to those two views. */
  lemma {:induction false} NoObjectCommands(cmds: seq<Cmd>)
    requires forall k :: 0 <= k < |cmds| ==> !cmds[k].SetGlobalColor? && !cmds[k].DrawRenderer?
    ensures SetColors(cmds) == [] && DrawnRenderers(cmds) == []
  {
    if cmds != [] {
      NoObjectCommands(cmds[..|cmds| - 1]);
    }
  }

  // ----- The draw section -----

  lemma {:induction false} DrawsViews(rs: seq<Renderer>)
    ensures SetColors(Draws(rs)) == []
    ensures DrawnRenderers(Draws(rs)) == rs
  {
    if rs != [] {
      var init := rs[..|rs| - 1];
      assert Draws(rs) == Draws(init) + [DrawRenderer(rs[|rs| - 1], GlowMaterial)];
      DrawsViews(init);
      SetColorsAppend(Draws(init), [DrawRenderer(rs[|rs| - 1], GlowMaterial)]);
      DrawnRenderersAppend(Draws(init), [DrawRenderer(rs[|rs| - 1], GlowMaterial)]);
      assert rs == init + [rs[|rs| - 1]];
    }
  }

  lemma DrawEntryColors(e: Entry)
    ensures SetColors(DrawEntry(e)) == [e.color]
  {
    DrawsViews(e.renderers);
    var head: seq<Cmd> := [SetGlobalColor(GlowColorId, e.color)];
    assert head[..0] == [];
    assert SetColors(head) == [e.color];
    SetColorsAppend(head, Draws(e.renderers));
  }

  lemma DrawEntryRenderers(e: Entry)
    ensures DrawnRenderers(DrawEntry(e)) == e.renderers
  {
    DrawsViews(e.renderers);
    var head: seq<Cmd> := [SetGlobalColor(GlowColorId, e.color)];
    assert head[..0] == [];
    assert DrawnRenderers(head) == [];
    DrawnRenderersAppend(head, Draws(e.renderers));
  }

  /** The draw section sets the objects' colours in list order, one per object. */
  lemma {:induction false} DrawSectionColors(es: seq<Entry>)
    ensures SetColors(DrawSection(es)) == Colors(es)
  {
    if es != [] {
      var init, e := es[..|es| - 1], es[|es| - 1];
      DrawSectionColors(init);
      DrawEntryColors(e);
      SetColorsAppend(DrawSection(init), DrawEntry(e));
      assert Colors(es) == Colors(init) + [e.color];
    }
  }

  /** The draw section draws every renderer of every object, object by object. */
  lemma {:induction false} DrawSectionRenderers(es: seq<Entry>)
    ensures DrawnRenderers(DrawSection(es)) == AllRenderers(es)
    ensures |AllRenderers(es)| == TotalRenderers(es)
  {
    if es != [] {
      var init, e := es[..|es| - 1], es[|es| - 1];
      DrawSectionRenderers(init);
      DrawEntryRenderers(e);
      DrawnRenderersAppend(DrawSection(init), DrawEntry(e));
    }
  }

  /** The draw section allocates, releases and binds nothing. */
  lemma {:induction false} DrawSectionPassive(es: seq<Entry>)
    ensures forall k :: 0 <= k < |DrawSection(es)| ==> Passive(DrawSection(es)[k])
  {
    if es != [] {
      var init, e := es[..|es| - 1], es[|es| - 1];
      DrawSectionPassive(init);
      var ds := DrawSection(es);
      forall k | 0 <= k < |ds| ensures Passive(ds[k]) {
        if k >= |DrawSection(init)| {
          assert ds[k] == DrawEntry(e)[k - |DrawSection(init)|];
        } else {
          assert ds[k] == DrawSection(init)[k];
        }
      }
    }
  }

  /** Where object `i`'s commands start: after the mask setup and the earlier objects' commands. */
  function EntryOffset(es: seq<Entry>, i: nat): (r: nat)
    requires i <= |es|
  {
    3 + i + TotalRenderers(es[..i])
  }

  lemma {:induction false} DrawSectionAt(es: seq<Entry>, i: nat)
    requires i < |es|
    ensures i + TotalRenderers(es[..i]) + |DrawEntry(es[i])| <= |DrawSection(es)|
    ensures DrawSection(es)[i + TotalRenderers(es[..i])..][..|DrawEntry(es[i])|] == DrawEntry(es[i])
  {
    var init := es[..|es| - 1];
    if i == |es| - 1 {
      assert es[..i] == init;
    } else {
      assert init[..i] == es[..i];
      DrawSectionAt(init, i);
      var o := i + TotalRenderers(es[..i]);
      var m := |DrawEntry(es[i])|;
      assert DrawSection(es)[o..][..m] == DrawSection(init)[o..][..m];
    }
  }

  // ----- The blur passes -----

  lemma {:induction false} BlurPassesAt(n: nat, k: nat)
    requires k < 2 * n
    ensures BlurPasses(n)[k] == if k % 2 == 0 then HorizontalBlur else VerticalBlur
  {
    if k < 2 * (n - 1) {
      BlurPassesAt(n - 1, k);
    }
  }

  lemma {:induction false} BlurPassesCount(n: nat)
    ensures multiset(BlurPasses(n))[HorizontalBlur] == n
    ensures multiset(BlurPasses(n))[VerticalBlur] == n
    ensures forall k :: 0 <= k < |BlurPasses(n)| ==> BlurPasses(n)[k] in {HorizontalBlur, VerticalBlur}
  {
    if n > 0 {
      BlurPassesCount(n - 1);
      var bp := BlurPasses(n);
      forall k | 0 <= k < |bp| ensures bp[k] in {HorizontalBlur, VerticalBlur} {
        BlurPassesAt(n, k);
      }
    }
  }

  /** Blur blits only read and write the two half-resolution targets. */
  lemma {:induction false} BlurPassesTrack(held: set<TargetId>, n: nat)
    requires Temp in held && BlurPass in held
    ensures Track(held, BlurPasses(n)) == Some(held)
  {
    if n > 0 {
      var pair := [HorizontalBlur, VerticalBlur];
      BlurPassesTrack(held, n - 1);
      TrackAppend(held, BlurPasses(n - 1), pair);
      assert pair[0..] == pair && pair[2..] == [];
      TrackFrom(held, pair, 0);
      TrackFrom(held, pair, 1);
    }
  }

  // ----- The part of the list that does not depend on the objects -----

  /** Everything after the draw section: blur setup, blur passes, composite, releases. */
  function FixedTail(): (r: seq<Cmd>) {
    BlurSetup() + BlurPasses(BlurIterations) + Composite() + ReleaseAll()
  }

  /** The rebuilt list is the mask setup, the objects' draw section and the fixed tail. */
  lemma Split(es: seq<Entry>)
    ensures BuildCommands(es) == MaskSetup() + DrawSection(es) + FixedTail()
    ensures |FixedTail()| == 4 + 2 * BlurIterations + 7
  {
  }

  lemma FixedTailLayout()
    ensures var ft := FixedTail();
      && ft[..4] == BlurSetup()
      && (forall k :: 0 <= k < 2 * BlurIterations ==>
            ft[4 + k] == if k % 2 == 0 then HorizontalBlur else VerticalBlur)
      && ft[4 + 2 * BlurIterations..][..4] == Composite()
      && ft[4 + 2 * BlurIterations + 4..] == ReleaseAll()
  {
    var ft, bp := FixedTail(), BlurPasses(BlurIterations);
    forall k | 0 <= k < 2 * BlurIterations
      ensures ft[4 + k] == if k % 2 == 0 then HorizontalBlur else VerticalBlur
    {
      assert ft[4 + k] == bp[k];
      BlurPassesAt(BlurIterations, k);
    }
  }

  lemma FixedTailNoObjects()
    ensures SetColors(FixedTail()) == [] && DrawnRenderers(FixedTail()) == []
  {
    var ft, bp := FixedTail(), BlurPasses(BlurIterations);
    BlurPassesCount(BlurIterations);
    forall k | 0 <= k < |ft| ensures !ft[k].SetGlobalColor? && !ft[k].DrawRenderer? {
      if 4 <= k < 4 + 2 * BlurIterations {
        assert ft[k] == bp[k - 4];
      }
    }
    NoObjectCommands(ft);
  }

  lemma FixedTailCounts()
    ensures multiset(FixedTail())[HorizontalBlur] == BlurIterations
    ensures multiset(FixedTail())[VerticalBlur] == BlurIterations
    ensures multiset(FixedTail())[CameraCopy] == 1
    ensures multiset(FixedTail())[CompositeBlit] == 1
  {
    var bs, bp, cr := BlurSetup(), BlurPasses(BlurIterations), Composite() + ReleaseAll();
    BlurPassesCount(BlurIterations);
    BlurSetupCounts();
    CompositeCounts();
    assert CameraCopy !in bp && CompositeBlit !in bp;
    assert FixedTail() == bs + bp + cr;
  }

  /** The blur setup has no blur or composite blit. */
  lemma BlurSetupCounts()
    ensures var bs := multiset(BlurSetup());
      bs[HorizontalBlur] == 0 && bs[VerticalBlur] == 0 && bs[CameraCopy] == 0 && bs[CompositeBlit] == 0
  {
    var bs := BlurSetup();
    assert HorizontalBlur !in bs && VerticalBlur !in bs && CameraCopy !in bs && CompositeBlit !in bs;
  }

  /** The composite and the releases have no blur blit and each composite blit once. */
  lemma CompositeCounts()
    ensures var cr := multiset(Composite() + ReleaseAll());
      cr[HorizontalBlur] == 0 && cr[VerticalBlur] == 0 && cr[CameraCopy] == 1 && cr[CompositeBlit] == 1
  {
    var others := multiset{ReleaseTemporaryRT(Temp), GetTemporaryRT(Temp, Full, DefaultHDR),
                           ReleaseTemporaryRT(Temp), ReleaseTemporaryRT(BlurPass), ReleaseTemporaryRT(PrePass)};
    assert multiset(Composite() + ReleaseAll()) == others + multiset{CameraCopy, CompositeBlit};
  }

  /** A command the draw section never records occurs in the whole list as often as in the fixed tail. */
  lemma CountInList(es: seq<Entry>, x: Cmd)
    requires !Passive(x) && !x.GetTemporaryRT? && !x.SetRenderTarget?
    ensures multiset(BuildCommands(es))[x] == multiset(FixedTail())[x]
  {
    var m, ds, ft := MaskSetup(), DrawSection(es), FixedTail();
    Split(es);
    assert x !in ds by {
      DrawSectionPassive(es);
    }
    assert x !in m;
    assert multiset(m + ds + ft) == multiset(m) + multiset(ds) + multiset(ft);
  }

  lemma FixedTailTrack()
    ensures Track({PrePass}, FixedTail()) == Some({})
  {
    var all := {PrePass, Temp, BlurPass};
    var bs, bp, c, ra := BlurSetup(), BlurPasses(BlurIterations), Composite(), ReleaseAll();
    assert Track({PrePass}, bs) == Some(all) by { BlurSetupTrack(); }
    assert Track(all, bp) == Some(all) by { BlurPassesTrack(all, BlurIterations); }
    assert Track(all, c) == Some(all) by { CompositeTrack(); }
    assert Track(all, ra) == Some({}) by { ReleaseAllTrack(); }
    TrackAppend({PrePass}, bs, bp);
    TrackAppend({PrePass}, bs + bp, c);
    TrackAppend({PrePass}, bs + bp + c, ra);
  }

  lemma BlurSetupTrack()
    ensures Track({PrePass}, BlurSetup()) == Some({PrePass, Temp, BlurPass})
  {
    var bs, all := BlurSetup(), {PrePass, Temp, BlurPass};
    assert {PrePass} + {Temp} == {PrePass, Temp} && {PrePass, Temp} + {BlurPass} == all;
    assert bs[0..] == bs && bs[4..] == [];
    TrackFrom(all, bs, 3);
    TrackFrom(all, bs, 2);
    TrackFrom({PrePass, Temp}, bs, 1);
    TrackFrom({PrePass}, bs, 0);
  }

  lemma CompositeTrack()
    ensures Track({PrePass, Temp, BlurPass}, Composite()) == Some({PrePass, Temp, BlurPass})
  {
    var c := Composite();
    var all, noTemp := {PrePass, Temp, BlurPass}, {PrePass, BlurPass};
    assert all - {Temp} == noTemp && noTemp + {Temp} == all;
    assert c[0..] == c && c[4..] == [];
    TrackFrom(all, c, 3);
    TrackFrom(all, c, 2);
    TrackFrom(noTemp, c, 1);
    TrackFrom(all, c, 0);
  }

  lemma ReleaseAllTrack()
    ensures Track({PrePass, Temp, BlurPass}, ReleaseAll()) == Some({})
  {
    var ra := ReleaseAll();
    var all, noTemp := {PrePass, Temp, BlurPass}, {PrePass, BlurPass};
    assert all - {Temp} == noTemp && noTemp - {BlurPass} == {PrePass} && {PrePass} - {PrePass} == {};
    assert ra[0..] == ra && ra[3..] == [];
    TrackFrom({PrePass}, ra, 2);
    TrackFrom(noTemp, ra, 1);
    TrackFrom(all, ra, 0);
  }

  lemma MaskSetupTrack()
    ensures Track({}, MaskSetup()) == Some({PrePass})
  {
    var m := MaskSetup();
    assert {} + {PrePass} == {PrePass};
    assert m[0..] == m && m[3..] == [];
    TrackFrom({PrePass}, m, 2);
    TrackFrom({PrePass}, m, 1);
    TrackFrom({}, m, 0);
  }

  /** A list of three commands, event by event. */
  lemma LifetimeOfThree(s: seq<Cmd>, id: TargetId)
    requires |s| == 3
    ensures Lifetime(s, id) == EventOf(s[0], id) + EventOf(s[1], id) + EventOf(s[2], id)
  {
    assert s[0..] == s && s[3..] == [];
    LifetimeFrom(s, 2, id);
    LifetimeFrom(s, 1, id);
    LifetimeFrom(s, 0, id);
  }

  /** A list of four commands, event by event. */
  lemma LifetimeOfFour(s: seq<Cmd>, id: TargetId)
    requires |s| == 4
    ensures Lifetime(s, id) == EventOf(s[0], id) + EventOf(s[1], id) + EventOf(s[2], id) + EventOf(s[3], id)
  {
    assert s[0..] == s && s[4..] == [];
    LifetimeFrom(s, 3, id);
    LifetimeFrom(s, 2, id);
    LifetimeFrom(s, 1, id);
    LifetimeFrom(s, 0, id);
  }

  /** Blur blits neither allocate nor release. */
  lemma BlurPassesLifetime(n: nat, id: TargetId)
    ensures Lifetime(BlurPasses(n), id) == []
  {
    BlurPassesCount(n);
    NoLifetime(BlurPasses(n), id);
  }

  lemma LifetimeOfParts(a: seq<Cmd>, b: seq<Cmd>, c: seq<Cmd>, d: seq<Cmd>, id: TargetId)
    requires Lifetime(b, id) == []
    ensures Lifetime(a + b + c + d, id) == Lifetime(a, id) + Lifetime(c, id) + Lifetime(d, id)
  {
    LifetimeAppend(a, b, id);
    LifetimeAppend(a + b, c, id);
    LifetimeAppend(a + b + c, d, id);
  }

  /** The lifetime of `id` in the fixed tail: blur setup, composite and releases (blur blits add none). */
  lemma FixedTailLifetime(id: TargetId)
    ensures Lifetime(FixedTail(), id) == Lifetime(BlurSetup(), id) + Lifetime(Composite(), id) + Lifetime(ReleaseAll(), id)
  {
    BlurPassesLifetime(BlurIterations, id);
    LifetimeOfParts(BlurSetup(), BlurPasses(BlurIterations), Composite(), ReleaseAll(), id);
  }

  lemma MaskLifetime(id: TargetId)
    ensures Lifetime(MaskSetup(), id) == if id == PrePass then [Acquired(Full, Default)] else []
  {
    LifetimeOfThree(MaskSetup(), id);
  }

  lemma BlurSetupLifetime(id: TargetId)
    ensures Lifetime(BlurSetup(), id) == if id == Temp || id == BlurPass then [Acquired(Half, Default)] else []
  {
    LifetimeOfFour(BlurSetup(), id);
  }

  lemma CompositeLifetime(id: TargetId)
    ensures Lifetime(Composite(), id) == if id == Temp then [Released, Acquired(Full, DefaultHDR)] else []
  {
    LifetimeOfFour(Composite(), id);
  }

  lemma ReleaseAllLifetime(id: TargetId)
    ensures Lifetime(ReleaseAll(), id) == if id == CameraTarget then [] else [Released]
  {
    LifetimeOfThree(ReleaseAll(), id);
  }

  /** The fixed tail's events for `id`, section by section. */
  lemma FixedTailEvents(id: TargetId)
    ensures Lifetime(FixedTail(), id)
         == (if id == Temp || id == BlurPass then [Acquired(Half, Default)] else [])
          + (if id == Temp then [Released, Acquired(Full, DefaultHDR)] else [])
          + (if id == CameraTarget then [] else [Released])
  {
    FixedTailLifetime(id);
    BlurSetupLifetime(id);
    CompositeLifetime(id);
    ReleaseAllLifetime(id);
  }

  lemma FixedTailLifetimes()
    ensures Lifetime(FixedTail(), PrePass) == [Released]
    ensures Lifetime(FixedTail(), BlurPass) == [Acquired(Half, Default), Released]
    ensures Lifetime(FixedTail(), Temp) == [Acquired(Half, Default), Released, Acquired(Full, DefaultHDR), Released]
    ensures Lifetime(FixedTail(), CameraTarget) == []
  {
    assert Lifetime(FixedTail(), PrePass) == [Released] by { FixedTailEvents(PrePass); }
    assert Lifetime(FixedTail(), BlurPass) == [Acquired(Half, Default), Released] by { FixedTailEvents(BlurPass); }
    assert Lifetime(FixedTail(), Temp) == [Acquired(Half, Default), Released, Acquired(Full, DefaultHDR), Released] by {
      FixedTailEvents(Temp);
    }
    assert Lifetime(FixedTail(), CameraTarget) == [] by { FixedTailEvents(CameraTarget); }
  }

  // ----- The whole rebuilt list -----

  /** Every colour set is an object's colour, in list order; every draw is a renderer of an object, in list order. */
  lemma ObjectsInOrder(es: seq<Entry>)
    ensures SetColors(BuildCommands(es)) == Colors(es)
    ensures DrawnRenderers(BuildCommands(es)) == AllRenderers(es)
    ensures |DrawnRenderers(BuildCommands(es))| == TotalRenderers(es)
  {
    var m, ds, ft := MaskSetup(), DrawSection(es), FixedTail();
    Split(es);
    FixedTailNoObjects();
    assert SetColors(m) == [] && DrawnRenderers(m) == [] by {
      NoObjectCommands(m);
    }
    assert SetColors(m + ds + ft) == SetColors(ds) by {
      SetColorsAppend(m, ds);
      SetColorsAppend(m + ds, ft);
    }
    assert DrawnRenderers(m + ds + ft) == DrawnRenderers(ds) by {
      DrawnRenderersAppend(m, ds);
      DrawnRenderersAppend(m + ds, ft);
    }
    DrawSectionColors(es);
    DrawSectionRenderers(es);
  }

  /** The list opens by allocating the full-resolution mask, binding it and clearing it. */
  lemma MaskFirst(es: seq<Entry>)
    ensures var cmds := BuildCommands(es);
      && cmds[0] == GetTemporaryRT(PrePass, Full, Default)
      && cmds[1] == SetRenderTarget(PrePass)
      && cmds[2] == ClearRenderTarget
  {
    Split(es);
  }

  /**
    Object `i`'s colour is set at `EntryOffset(es, i)`, immediately followed by
    one draw per renderer of that object, and object `i + 1` starts right after.
   */
  lemma ObjectLayout(es: seq<Entry>, i: nat)
    requires i < |es|
    ensures var cmds, o, e := BuildCommands(es), EntryOffset(es, i), DrawEntry(es[i]);
      o + |e| <= |cmds| && cmds[o..o + |e|] == e
    ensures EntryOffset(es, i + 1) == EntryOffset(es, i) + |DrawEntry(es[i])|
  {
    var cmds, ds, e := BuildCommands(es), DrawSection(es), DrawEntry(es[i]);
    var p := i + TotalRenderers(es[..i]);
    Split(es);
    DrawSectionAt(es, i);
    assert cmds[3..3 + |ds|] == ds;
    assert cmds[3 + p..3 + p + |e|] == ds[p..][..|e|];
    NextOffset(es, i);
  }

  lemma NextOffset(es: seq<Entry>, i: nat)
    requires i < |es|
    ensures EntryOffset(es, i + 1) == EntryOffset(es, i) + 1 + |es[i].renderers|
  {
    assert es[..i + 1][..i] == es[..i];
  }

  /** After the objects: two half-resolution targets, the downsample, the texel size, then alternating blurs. */
  lemma BlurLayout(es: seq<Entry>)
    ensures var cmds, b := BuildCommands(es), EntryOffset(es, |es|);
      && b + 4 + 2 * BlurIterations <= |cmds|
      && cmds[b] == GetTemporaryRT(Temp, Half, Default)
      && cmds[b + 1] == GetTemporaryRT(BlurPass, Half, Default)
      && cmds[b + 2] == Blit(PrePass, BlurPass)
      && cmds[b + 3] == SetGlobalVector(BlurSizeId)
      && (forall k :: 0 <= k < 2 * BlurIterations ==>
            cmds[b + 4 + k] == if k % 2 == 0 then HorizontalBlur else VerticalBlur)
  {
    var cmds, b, ft := BuildCommands(es), EntryOffset(es, |es|), FixedTail();
    Split(es);
    FixedTailLayout();
    assert es[..|es|] == es;
    assert forall k :: 0 <= k < |ft| ==> cmds[b + k] == ft[k];
    assert ft[..4][0] == ft[0] && ft[..4][1] == ft[1] && ft[..4][2] == ft[2] && ft[..4][3] == ft[3];
  }

  /** Exactly `BlurIterations` horizontal and as many vertical blur blits. */
  lemma BlurCount(es: seq<Entry>, x: Cmd)
    requires x == HorizontalBlur || x == VerticalBlur
    ensures multiset(BuildCommands(es))[x] == BlurIterations
  {
    CountInList(es, x);
    FixedTailCounts();
  }

  /**
    Starting from an empty pool, the list never allocates a target it holds,
    never releases or uses one it does not hold, and holds nothing at the end.
   */
  lemma ResourceBalance(es: seq<Entry>)
    ensures Track({}, BuildCommands(es)) == Some({})
  {
    assert Track({PrePass}, DrawSection(es)) == Some({PrePass}) by {
      DrawSectionPassive(es);
      PassiveTrack({PrePass}, DrawSection(es));
    }
    MaskSetupTrack();
    FixedTailTrack();
    TrackAround({}, {PrePass}, {}, MaskSetup(), DrawSection(es), FixedTail());
    Split(es);
  }

  lemma TrackAround(h0: set<TargetId>, h1: set<TargetId>, h2: set<TargetId>, a: seq<Cmd>, b: seq<Cmd>, c: seq<Cmd>)
    requires Track(h0, a) == Some(h1) && Track(h1, b) == Some(h1) && Track(h1, c) == Some(h2)
    ensures Track(h0, a + b + c) == Some(h2)
  {
    TrackAppend(h0, a, b);
    TrackAppend(h0, a + b, c);
  }

  /**
    Each target is acquired and then released, with no second acquisition in
    between: the mask once at full size, the blur target once at half size,
    the scratch target first at half size and then again at full size in HDR.
    The camera's image is never acquired or released.
   */
  lemma TargetLifetimes(es: seq<Entry>)
    ensures Lifetime(BuildCommands(es), PrePass) == [Acquired(Full, Default), Released]
    ensures Lifetime(BuildCommands(es), BlurPass) == [Acquired(Half, Default), Released]
    ensures Lifetime(BuildCommands(es), Temp)
         == [Acquired(Half, Default), Released, Acquired(Full, DefaultHDR), Released]
    ensures Lifetime(BuildCommands(es), CameraTarget) == []
  {
    FixedTailLifetimes();
    LifetimeIs(es, PrePass);
    LifetimeIs(es, BlurPass);
    LifetimeIs(es, Temp);
    LifetimeIs(es, CameraTarget);
  }

  /** The lifetime of `id` over the whole list is that over the mask setup and the fixed tail. */
  lemma LifetimeIs(es: seq<Entry>, id: TargetId)
    ensures Lifetime(BuildCommands(es), id)
         == (if id == PrePass then [Acquired(Full, Default)] else []) + Lifetime(FixedTail(), id)
  {
    assert Lifetime(DrawSection(es), id) == [] by {
      DrawSectionPassive(es);
      NoLifetime(DrawSection(es), id);
    }
    MaskLifetime(id);
    LifetimeAround(MaskSetup(), DrawSection(es), FixedTail(), id);
    Split(es);
  }

  lemma LifetimeAround(a: seq<Cmd>, b: seq<Cmd>, c: seq<Cmd>, id: TargetId)
    requires Lifetime(b, id) == []
    ensures Lifetime(a + b + c, id) == Lifetime(a, id) + Lifetime(c, id)
  {
    LifetimeAppend(a, b, id);
    LifetimeAppend(a + b, c, id);
  }

  /**
    The list ends by releasing the scratch target, re-acquiring it at full size
    in HDR, copying the camera's image into it and compositing it back with pass
    0, then releasing the three targets.
   */
  lemma CompositeTail(es: seq<Entry>)
    ensures var cmds := BuildCommands(es); var n := |cmds|;
      && n >= 7
      && cmds[n - 7] == ReleaseTemporaryRT(Temp)
      && cmds[n - 6] == GetTemporaryRT(Temp, Full, DefaultHDR)
      && cmds[n - 5] == CameraCopy
      && cmds[n - 4] == CompositeBlit
      && cmds[n - 3..] == [ReleaseTemporaryRT(Temp), ReleaseTemporaryRT(BlurPass), ReleaseTemporaryRT(PrePass)]
  {
    var cmds := BuildCommands(es);
    var before := MaskSetup() + DrawSection(es) + BlurSetup() + BlurPasses(BlurIterations);
    assert cmds == before + (Composite() + ReleaseAll());
    assert cmds[|cmds| - 7..] == Composite() + ReleaseAll();
  }

  /** The camera copy and the composite blit each occur exactly once. */
  lemma CompositeOnce(es: seq<Entry>, x: Cmd)
    requires x == CameraCopy || x == CompositeBlit
    ensures multiset(BuildCommands(es))[x] == 1
  {
    CountInList(es, x);
    FixedTailCounts();
  }

  /** Every blur blit comes before the composite tail (the last seven commands). */
  lemma BlursBeforeComposite(es: seq<Entry>)
    ensures var cmds := BuildCommands(es);
      forall k :: 0 <= k < |cmds| && (cmds[k] == HorizontalBlur || cmds[k] == VerticalBlur) ==> k < |cmds| - 7
  {
    var before := MaskSetup() + DrawSection(es) + BlurSetup() + BlurPasses(BlurIterations);
    assert BuildCommands(es) == before + (Composite() + ReleaseAll());
  }
}
