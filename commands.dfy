/**
  The GPU command list that the glow controller records into its command
  buffer, over symbolic operands, and `BuildCommands`: the list that one
  successful rebuild records for a given list of glowing objects.
 */
module GlowCommands {

  /** Render targets: the three temporary targets and the camera's own image. */
  datatype TargetId = PrePass | BlurPass | Temp | CameraTarget

  /** Width/height argument of a temporary target: -1 is the screen size, -2 half of it. */
  datatype Resolution = Full | Half

  /** `RenderTextureFormat.Default` or `RenderTextureFormat.DefaultHDR`. */
  datatype Format = Default | DefaultHDR

  /** The three materials built from the glow, blur and composite shaders. */
  datatype Material = GlowMaterial | BlurMaterial | CompositeMaterial

  /** Global shader properties set from the buffer (`_GlowColor`, `_BlurSize`). */
  datatype ShaderProperty = GlowColorId | BlurSizeId

  /** An object's glow colour and a renderer, as opaque handles. */
  datatype Color = Color(handle: nat)
  datatype Renderer = Renderer(handle: nat)

  /** One recorded command. The `_BlurSize` vector is a floating-point value and is not carried. */
  datatype Cmd =
    | GetTemporaryRT(id: TargetId, res: Resolution, format: Format)
    | SetRenderTarget(target: TargetId)
    | ClearRenderTarget
    | SetGlobalColor(prop: ShaderProperty, color: Color)
    | DrawRenderer(renderer: Renderer, material: Material)
    | Blit(src: TargetId, dst: TargetId)
    | BlitMaterial(src: TargetId, dst: TargetId, material: Material, pass: nat)
    | SetGlobalVector(prop: ShaderProperty)
    | ReleaseTemporaryRT(id: TargetId)

  /** What the rebuild reads of one glowing object: its colour and its renderers. */
  datatype Entry = Entry(color: Color, renderers: seq<Renderer>)

  /** Number of horizontal/vertical blur pairs. */
  const BlurIterations: nat := 4

  const HorizontalBlur: Cmd := BlitMaterial(BlurPass, Temp, BlurMaterial, 0)
  const VerticalBlur: Cmd := BlitMaterial(Temp, BlurPass, BlurMaterial, 1)
  const CameraCopy: Cmd := Blit(CameraTarget, Temp)
  const CompositeBlit: Cmd := BlitMaterial(Temp, CameraTarget, CompositeMaterial, 0)

  /** Total number of renderers over all objects. */
  function TotalRenderers(es: seq<Entry>): (r: nat) {
    if es == [] then 0 else TotalRenderers(es[..|es| - 1]) + |es[|es| - 1].renderers|
  }

  /** Allocate the full-resolution mask target, bind it and clear it. */
  function MaskSetup(): (r: seq<Cmd>) {
    [GetTemporaryRT(PrePass, Full, Default), SetRenderTarget(PrePass), ClearRenderTarget]
  }

  /** One silhouette draw per renderer, in order. */
  function Draws(rs: seq<Renderer>): (r: seq<Cmd>)
    ensures |r| == |rs|
    ensures forall j :: 0 <= j < |rs| ==> r[j] == DrawRenderer(rs[j], GlowMaterial)
  {
    seq(|rs|, j requires 0 <= j < |rs| => DrawRenderer(rs[j], GlowMaterial))
  }

  /** An object's colour, then its draws. */
  function DrawEntry(e: Entry): (r: seq<Cmd>) {
    [SetGlobalColor(GlowColorId, e.color)] + Draws(e.renderers)
  }

  /** The objects' commands in list order (one colour plus one draw per renderer each). */
  function DrawSection(es: seq<Entry>): (r: seq<Cmd>)
    ensures |r| == |es| + TotalRenderers(es)
  {
    if es == [] then [] else DrawSection(es[..|es| - 1]) + DrawEntry(es[|es| - 1])
  }

  /** Two half-resolution targets, the downsampling copy and the blur texel size. */
  function BlurSetup(): (r: seq<Cmd>) {
    [ GetTemporaryRT(Temp, Half, Default), GetTemporaryRT(BlurPass, Half, Default),
      Blit(PrePass, BlurPass), SetGlobalVector(BlurSizeId) ]
  }

  /** `n` horizontal/vertical blur pairs. */
  function BlurPasses(n: nat): (r: seq<Cmd>)
    ensures |r| == 2 * n
  {
    if n == 0 then [] else BlurPasses(n - 1) + [HorizontalBlur, VerticalBlur]
  }

  /** Re-allocate the scratch target at full size in HDR, copy the camera out, composite back. */
  function Composite(): (r: seq<Cmd>) {
    [ReleaseTemporaryRT(Temp), GetTemporaryRT(Temp, Full, DefaultHDR), CameraCopy, CompositeBlit]
  }

  /** Hand the three temporary targets back to the pool. */
  function ReleaseAll(): (r: seq<Cmd>) {
    [ReleaseTemporaryRT(Temp), ReleaseTemporaryRT(BlurPass), ReleaseTemporaryRT(PrePass)]
  }

  /** The whole list one successful rebuild records for the objects `es`. */
  function BuildCommands(es: seq<Entry>): (r: seq<Cmd>)
    ensures |r| == 3 + |es| + TotalRenderers(es) + 4 + 2 * BlurIterations + 7
  {
    MaskSetup() + DrawSection(es) + BlurSetup() + BlurPasses(BlurIterations) + Composite() + ReleaseAll()
  }
}
