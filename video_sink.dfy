/**
 * The video sink's frame hand-off. The streaming thread stores each new
 * buffer in a one-slot mailbox (FrameSource); the GUI main loop dispatches
 * the source, applies pending caps, and uploads the buffer with the chosen
 * renderer. Each method below is one section the C code runs under the
 * mailbox lock, or runs on one thread only.
 */
module ClutterGstVideoSink {
  import opened Wrappers
  import C = GstCaps
  import opened Renderers
  import opened Negotiation
  import opened Programs

  /** The GstFlowReturn values the sink produces. */
  datatype FlowReturn = FlowOk | FlowNotNegotiated | FlowError

  /** The rectangle of a GstVideoCropMeta. */
  datatype Crop = Crop(x: nat, y: nat, width: nat, height: nat)

  /** A GstBuffer: its identity and the two metas the sink looks at. */
  datatype Buffer = Buffer(id: nat, crop: Option<Crop>, glTextureUploadMeta: bool)

  /** The buffer reference a slot holds: one for a pending buffer, none for an empty slot. */
  function Refs(slot: Option<Buffer>): seq<Buffer> {
    if slot.Some? then [slot.value] else []
  }

  /**
   * The shader source a renderer's init asks the program cache for; the
   * texts themselves are named, not modelled. The RGB, hardware-surface and
   * GL-upload renderers use no shader program.
   */
  function ShaderSource(r: Renderer): Option<string> {
    match r.format
    case Yv12 => Some(if Fp in r.flags then "YV12_fp" else "yv12_to_rgba_shader")
    case I420 => Some(if Fp in r.flags then "I420_fp" else "yv12_to_rgba_shader")
    case Nv12 => Some("nv12_to_rgba_shader")
    case Ayuv => Some("ayuv_to_rgba_shader")
    case _ => None
  }

  /** The GL-upload context after renderer `r`'s deinit: only the GL-upload renderer frees it. */
  function ContextAfterDeinit(ctx: bool, r: Option<Renderer>): bool {
    ctx && !(r.Some? && r.value.format == GlTextureUpload)
  }

  /** The GL-upload context after renderer `r`'s init: the GL-upload renderer allocates it. */
  function ContextAfterInit(ctx: bool, r: Renderer): bool {
    ctx || r.format == GlTextureUpload
  }

  /** The shader sources renderer `r`'s init compiles, given the programs already cached. */
  function NewlyCompiled(cached: map<string, Program>, r: Renderer): seq<string> {
    if ShaderSource(r).Some? && ShaderSource(r).value !in cached then [ShaderSource(r).value] else []
  }

  /** Renderer `r`'s program, if it has one, is in the cache. */
  ghost predicate ShaderCached(cache: ProgramCache, r: Renderer)
    reads cache
  {
    ShaderSource(r).Some? ==> ShaderSource(r).value in cache.programs
  }

  /**
   * Whether dispatch's first step moves to the GL-texture-upload renderer:
   * in a GL build, for the first pending buffer carrying the upload meta.
   */
  function AdoptsGlUpload(build: Build, seen: bool, pending: Option<Buffer>): bool {
    build.hasGl && !seen && pending.Some? && pending.value.glTextureUploadMeta
  }

  /** An error message the sink posts on the bus. */
  datatype ElementError = ResourceClose(text: string)

  /**
   * ClutterGstSource: the mailbox. `received` logs the buffers whose
   * reference the source took, `released` those whose reference it gave
   * back; `attached` says whether the source is attached to the GUI main
   * context.
   */
  class FrameSource {
    var buffer: Option<Buffer>
    var hasNewCaps: bool
    var stageLost: bool
    var hasGlTextureUploadMeta: bool
    var attached: bool
    ghost var received: seq<Buffer>
    ghost var released: seq<Buffer>

    /**
     * Reference accounting: every buffer handed to the source was released,
     * in arrival order, except the one still pending. So the source holds at
     * most one reference, and none leaks.
     */
    ghost predicate Valid()
      reads this`buffer, this`received, this`released
    {
      received == released + Refs(buffer)
    }

    /** clutter_gst_source_new: a zero-filled source with an empty slot. */
    constructor ()
      ensures Valid()
      ensures buffer == None && received == [] && released == []
      ensures !hasNewCaps && !stageLost && !hasGlTextureUploadMeta && !attached
    {
      buffer := None;
      hasNewCaps := false;
      stageLost := false;
      hasGlTextureUploadMeta := false;
      attached := false;
      received := [];
      released := [];
    }

    /** clutter_gst_source_prepare: ready iff a buffer is pending; never asks for a timeout. */
    method Prepare() returns (ready: bool, timeout: int)
      ensures ready <==> buffer.Some?
      ensures timeout == -1
    {
      timeout := -1;
      ready := buffer != None;
    }

    /** clutter_gst_source_check: ready iff a buffer is pending. */
    method Check() returns (ready: bool)
      ensures ready <==> buffer.Some?
    {
      ready := buffer != None;
    }

    /** clutter_gst_source_finalize: release a pending buffer and empty the slot. */
    method Finalize()
      requires Valid()
      modifies this
      ensures Valid() && buffer == None
      ensures released == old(released) + Refs(old(buffer)) && received == old(received)
      ensures hasNewCaps == old(hasNewCaps) && stageLost == old(stageLost)
      ensures hasGlTextureUploadMeta == old(hasGlTextureUploadMeta) && attached == old(attached)
    {
      if buffer.Some? {
        released := released + [buffer.value];
      }
      buffer := None;
    }
  }

  /** ClutterGstVideoSink and its private structure, without the GObject and GUI plumbing. */
  class VideoSink {
    const build: Build
    const features: set<Feature>
    /** priv->renderers */
    const renderers: seq<Renderer>
    /** priv->caps: the union of the renderers' caps */
    const caps: C.Caps
    /** the process-wide shader program cache */
    const programs: ProgramCache

    var flowRet: FlowReturn
    /** priv->info; None until a parse saves one */
    var info: Option<VideoInfo>
    var format: RendererFormat
    var bgr: Option<bool>
    var renderer: Option<Renderer>
    /** whether priv->texture is set */
    var hasTexture: bool
    var cropMeta: Crop
    var hasCropMeta: bool
    var cropMetaHasChanged: bool
    /** whether the GL-texture-upload renderer's context is allocated */
    var glUploadContext: bool
    /** priv->source; null outside start/stop */
    var source: FrameSource?
    /** the element errors posted on the bus, oldest first */
    var errors: seq<ElementError>

    /** The renderer list and the caps are the ones init derives from the build and the GPU features. */
    ghost predicate Configured() {
      && renderers == RendererList(build, features)
      && caps == C.Set(RenderersCaps(renderers))
    }

    /** The mailbox, as a set: empty outside start/stop. */
    ghost function Mailbox(): (m: set<FrameSource>)
      reads this`source
      ensures source != null <==> source in m
    {
      if source == null then {} else {source}
    }

    /** In GL builds the lookup for the GL-texture-upload layout finds its renderer. */
    ghost predicate GlUploadAvailable() {
      build.hasGl ==> FindRendererByFormat(renderers, GlTextureUpload) == Some(GL_TEXTURE_UPLOAD_RENDERER)
    }

    ghost predicate Valid()
      reads this`renderer, this`source, programs
      reads Mailbox()`buffer, Mailbox()`received, Mailbox()`released, Mailbox()`hasNewCaps
    {
      && programs.Valid()
      && (renderer.Some? ==> renderer.value in renderers)
      && (source != null ==> source.Valid())
      // a buffer is only stored after caps were accepted, so one waiting
      // without new caps always has a renderer to go to
      && (source != null && source.buffer.Some? && !source.hasNewCaps ==> renderer.Some?)
    }

    /**
     * clutter_gst_video_sink_init: detect the GPU features, build the
     * renderer list and the caps it advertises. `nTextureUnits`, `arbFp`
     * and `glsl` are the answers of the GPU queries.
     */
    constructor (build: Build, nTextureUnits: int, arbFp: bool, glsl: bool, programs: ProgramCache)
      requires programs.Valid()
      ensures Valid() && Configured() && GlUploadAvailable()
      ensures this.build == build && this.programs == programs
      ensures features == DetectFeatures(build, nTextureUnits, arbFp, glsl)
      ensures flowRet == FlowOk && info == None && format == NoFormat && renderer == None
      ensures !hasTexture && !hasCropMeta && !cropMetaHasChanged && !glUploadContext && source == null
      ensures errors == []
    {
      var detected := DetectFeatures(build, nTextureUnits, arbFp, glsl);
      var list := BuildRenderersList(RendererTable(build), detected);
      this.build := build;
      features := detected;
      renderers := list;
      caps := C.Set(RenderersCaps(list));
      this.programs := programs;
      flowRet := FlowOk;
      info := None;
      format := NoFormat;
      bgr := Some(false);
      renderer := None;
      hasTexture := false;
      cropMeta := Crop(0, 0, 0, 0);
      hasCropMeta := false;
      cropMetaHasChanged := false;
      glUploadContext := false;
      source := null;
      errors := [];
      if build.hasGl {
        GlTextureUploadAlwaysFound(build, detected);
      }
    }

    /** The effect of clutter_gst_video_sink_set_texture on priv->texture. */
    method SetTexture(present: bool)
      modifies this`hasTexture
      ensures hasTexture == present
    {
      hasTexture := present;
    }

    /** clutter_gst_video_sink_start: a new, attached, empty mailbox and a clean flow state. */
    method Start()
      requires Valid()
      modifies this`source, this`flowRet
      ensures Valid() && fresh(source)
      ensures source.buffer == None && source.received == [] && source.released == [] && source.attached
      ensures !source.hasNewCaps && !source.stageLost && !source.hasGlTextureUploadMeta
      ensures flowRet == FlowOk
    {
      var s := new FrameSource();
      s.attached := true;
      source := s;
      flowRet := FlowOk;
    }

    /**
     * clutter_gst_video_sink_stop: detach the mailbox and drop it; dropping
     * the last reference finalizes it, which releases a pending buffer.
     */
    method Stop()
      requires Valid()
      modifies this`source, source
      ensures Valid() && source == null
      ensures old(source) != null ==>
                !old(source).attached && old(source).buffer == None
                && old(source).released == old(source.released) + Refs(old(source.buffer))
    {
      if source != null {
        source.attached := false;
        source.Finalize();
        source := null;
      }
    }

    /**
     * clutter_gst_parse_caps called with `save` set: a success stores the
     * video info, layout, `bgr` flag and renderer; a failure changes
     * nothing. Called without `save` it is the function ParseCaps.
     */
    method ParseCapsInto(offered: StreamCaps) returns (ok: bool)
      requires Valid() && source != null
      modifies this`info, this`format, this`bgr, this`renderer
      ensures Valid()
      ensures var r := ParseCaps(caps, renderers, source.hasGlTextureUploadMeta, offered);
              && ok == r.Ok?
              && (ok ==>
                    info == Some(r.value.info) && format == r.value.format
                    && bgr == r.value.bgr && renderer == Some(r.value.renderer))
      ensures !ok ==> info == old(info) && format == old(format) && bgr == old(bgr) && renderer == old(renderer)
    {
      var r := ParseCaps(caps, renderers, source.hasGlTextureUploadMeta, offered);
      ok := r.Ok?;
      if ok {
        info := Some(r.value.info);
        format := r.value.format;
        bgr := r.value.bgr;
        renderer := Some(r.value.renderer);
      }
    }

    /**
     * clutter_gst_video_sink_set_caps: check the caps without saving them
     * and, if they are acceptable, flag them for the next dispatch.
     */
    method SetCaps(offered: StreamCaps) returns (ok: bool)
      requires Valid() && source != null
      modifies source`hasNewCaps
      ensures Valid()
      ensures ok == ParseCaps(caps, renderers, source.hasGlTextureUploadMeta, offered).Ok?
      ensures source.hasNewCaps == (old(source.hasNewCaps) || ok)
    {
      ok := ParseCaps(caps, renderers, source.hasGlTextureUploadMeta, offered).Ok?;
      if ok {
        source.hasNewCaps := true;
      }
    }

    /**
     * clutter_gst_video_sink_render. A sticky flow error is returned as is;
     * a lost stage gives an error; otherwise a pending buffer is released
     * and replaced by the new one, which the source now holds. A lost stage
     * also posts a RESOURCE/CLOSE element error. The caller (the base sink)
     * only renders once caps have been accepted.
     */
    method Render(b: Buffer) returns (ret: FlowReturn)
      requires Valid() && source != null
      requires source.hasNewCaps || renderer.Some?
      modifies source, this`errors
      ensures Valid()
      ensures old(flowRet) != FlowOk ==> ret == flowRet && unchanged(source) && errors == old(errors)
      ensures flowRet == FlowOk && old(source.stageLost) ==>
                && ret == FlowError && unchanged(source)
                && errors == old(errors) + [ResourceClose("The window has been closed.")]
      ensures !(flowRet == FlowOk && old(source.stageLost)) ==> errors == old(errors)
      ensures flowRet == FlowOk && !old(source.stageLost) ==>
                && ret == FlowOk
                && source.buffer == Some(b)
                && source.received == old(source.received) + [b]
                && source.released == old(source.released) + Refs(old(source.buffer))
                && source.hasNewCaps == old(source.hasNewCaps) && !source.stageLost
                && source.hasGlTextureUploadMeta == old(source.hasGlTextureUploadMeta)
                && source.attached == old(source.attached)
    {
      if flowRet != FlowOk {
        return flowRet;
      }
      if source.stageLost {
        errors := errors + [ResourceClose("The window has been closed.")];
        return FlowError;
      }
      if source.buffer.Some? {
        source.released := source.released + [source.buffer.value];
      }
      source.buffer := Some(b);
      source.received := source.received + [b];
      ret := FlowOk;
    }

    /**
     * on_stage_destroyed: release a pending buffer, mark the stage lost and
     * forget the texture.
     */
    method OnStageDestroyed()
      requires Valid() && source != null
      modifies this`hasTexture, source
      ensures Valid()
      ensures source.buffer == None && source.stageLost && !hasTexture
      ensures source.released == old(source.released) + Refs(old(source.buffer))
      ensures source.hasNewCaps == old(source.hasNewCaps) && source.attached == old(source.attached)
      ensures source.hasGlTextureUploadMeta == old(source.hasGlTextureUploadMeta)
    {
      if source.buffer.Some? {
        source.released := source.released + [source.buffer.value];
      }
      source.stageLost := true;
      source.buffer := None;
      hasTexture := false;
    }

    /**
     * The crop-meta tracking of dispatch: the stored rectangle becomes the
     * buffer's, and `cropMetaHasChanged` says whether it differed.
     */
    method TrackCrop(crop: Crop)
      modifies this`cropMeta, this`hasCropMeta, this`cropMetaHasChanged
      ensures hasCropMeta && cropMeta == crop
      ensures cropMetaHasChanged <==> crop != old(cropMeta)
    {
      hasCropMeta := true;
      if cropMeta == crop {
        cropMetaHasChanged := false;
      } else {
        cropMeta := crop;
        cropMetaHasChanged := true;
      }
    }

    /** The crop-meta tracking of dispatch, applied to the pending buffer if it has a crop meta. */
    method TrackBufferCrop()
      requires source != null
      modifies this`cropMeta, this`hasCropMeta, this`cropMetaHasChanged
      ensures source.buffer.Some? && source.buffer.value.crop.Some? ==>
                var crop := source.buffer.value.crop.value;
                hasCropMeta && cropMeta == crop && (cropMetaHasChanged <==> crop != old(cropMeta))
      ensures !(source.buffer.Some? && source.buffer.value.crop.Some?) ==>
                hasCropMeta == old(hasCropMeta) && cropMeta == old(cropMeta)
                && cropMetaHasChanged == old(cropMetaHasChanged)
    {
      if source.buffer.Some? && source.buffer.value.crop.Some? {
        TrackCrop(source.buffer.value.crop.value);
      }
    }

    /**
     * The current renderer's deinit. Only the GL-texture-upload renderer's
     * (clutter_gst_gl_texture_upload_deinit) has an effect in this model: it
     * frees that renderer's context.
     */
    method DeinitRenderer()
      modifies this`glUploadContext
      ensures glUploadContext == ContextAfterDeinit(old(glUploadContext), renderer)
    {
      if renderer.Some? && renderer.value.format == GlTextureUpload {
        glUploadContext := false;
      }
    }

    /**
     * The current renderer's init: the GL-texture-upload renderer allocates
     * its context (clutter_gst_gl_texture_upload_init, a no-op when one is
     * there); the shader renderers fetch their program from the cache.
     */
    method InitRenderer()
      requires Valid() && renderer.Some?
      modifies this`glUploadContext, programs
      ensures Valid()
      ensures glUploadContext == (old(glUploadContext) || renderer.value.format == GlTextureUpload)
      ensures ShaderSource(renderer.value).Some? ==> ShaderSource(renderer.value).value in programs.programs
      ensures ShaderSource(renderer.value).Some? && ShaderSource(renderer.value).value in old(programs.programs) ==>
                programs.programs == old(programs.programs) && programs.compiled == old(programs.compiled)
      ensures ShaderSource(renderer.value).None? ==> unchanged(programs)
      ensures programs.compiled == old(programs.compiled) + NewlyCompiled(old(programs.programs), renderer.value)
    {
      if renderer.value.format == GlTextureUpload {
        glUploadContext := true;
      }
      var shader := ShaderSource(renderer.value);
      if shader.Some? {
        var _ := programs.Get(shader.value);
      }
    }

    /**
     * Whether the current renderer's upload succeeds. `uploadOk` is the
     * outcome of the GPU work; the GL-texture-upload renderer also fails
     * without its context or when the buffer lacks the upload meta.
     */
    function UploadSucceeds(r: Renderer, b: Buffer, uploadOk: bool): bool
      reads this
    {
      if r.format == GlTextureUpload then glUploadContext && b.glTextureUploadMeta && uploadOk
      else uploadOk
    }

    /**
     * clutter_gst_source_dispatch. `current` is the sink pad's current caps
     * and `uploadOk` the outcome of the GPU upload. Returning false makes
     * the main loop detach the source. `parsed` is the outcome of parsing
     * pending caps, None when no caps were pending.
     */
    method Dispatch(current: StreamCaps, uploadOk: bool) returns (keep: bool, ghost parsed: Option<Result<Negotiated, ParseError>>)
      requires Valid() && GlUploadAvailable() && source != null && source.attached
      modifies this`renderer, this`glUploadContext, this`cropMeta, this`hasCropMeta, this`cropMetaHasChanged
      modifies this`info, this`format, this`bgr, this`hasTexture, this`flowRet
      modifies source`hasGlTextureUploadMeta, source`hasNewCaps, source`attached, source`buffer, source`released, programs
      ensures Valid()
      ensures source.attached == keep
      // the GL-texture-upload meta of the pending buffer
      ensures var adopt := AdoptsGlUpload(build, old(source.hasGlTextureUploadMeta), old(source.buffer));
              source.hasGlTextureUploadMeta == (old(source.hasGlTextureUploadMeta) || adopt)
      // the crop meta of the pending buffer
      ensures old(source.buffer).Some? && old(source.buffer).value.crop.Some? ==>
                var crop := old(source.buffer).value.crop.value;
                hasCropMeta && cropMeta == crop && (cropMetaHasChanged <==> crop != old(cropMeta))
      ensures !(old(source.buffer).Some? && old(source.buffer).value.crop.Some?) ==>
                hasCropMeta == old(hasCropMeta) && cropMeta == old(cropMeta)
                && cropMetaHasChanged == old(cropMetaHasChanged)
      ensures parsed == if old(source.hasNewCaps)
                        then Some(ParseCaps(caps, renderers, source.hasGlTextureUploadMeta, current))
                        else None
      // the renderer and its context once the meta is handled, and what the caps step makes of them
      ensures var adopt := AdoptsGlUpload(build, old(source.hasGlTextureUploadMeta), old(source.buffer));
              var r1 := if adopt then Some(GL_TEXTURE_UPLOAD_RENDERER) else old(renderer);
              var ctx1 := if adopt then ContextAfterDeinit(old(glUploadContext), old(renderer)) else old(glUploadContext);
              && (parsed.None? ==>
                    renderer == r1 && glUploadContext == ctx1 && hasTexture == old(hasTexture)
                    && programs.programs == old(programs.programs) && programs.compiled == old(programs.compiled))
              && (parsed.Some? && parsed.value.Err? ==>
                    renderer == r1 && glUploadContext == ContextAfterDeinit(ctx1, r1)
                    && programs.programs == old(programs.programs) && programs.compiled == old(programs.compiled))
              && (parsed.Some? && parsed.value.Ok? ==>
                    && renderer == Some(parsed.value.value.renderer)
                    && glUploadContext == ContextAfterInit(ContextAfterDeinit(ctx1, r1), renderer.value)
                    && ShaderCached(programs, renderer.value)
                    && programs.compiled == old(programs.compiled) + NewlyCompiled(old(programs.programs), renderer.value))
      // new caps that do not parse: sticky NOT_NEGOTIATED, the buffer stays pending
      ensures parsed.Some? && parsed.value.Err? ==>
                && !keep && flowRet == FlowNotNegotiated && source.hasNewCaps
                && source.buffer == old(source.buffer) && source.released == old(source.released)
                && info == old(info) && format == old(format) && bgr == old(bgr) && hasTexture == old(hasTexture)
      // new caps that parse: saved, and the renderer they select is the one used
      ensures parsed.Some? && parsed.value.Ok? ==>
                && info == Some(parsed.value.value.info) && format == parsed.value.value.format
                && bgr == parsed.value.value.bgr && hasTexture
      ensures parsed.None? ==> info == old(info) && format == old(format) && bgr == old(bgr)
      // otherwise the slot is drained, the buffer released after the upload
      ensures !(parsed.Some? && parsed.value.Err?) ==>
                && source.buffer == None && !source.hasNewCaps
                && source.released == old(source.released) + Refs(old(source.buffer))
                && (old(source.buffer).None? ==> keep && flowRet == old(flowRet))
                && (old(source.buffer).Some? ==>
                      && renderer.Some?
                      && keep == UploadSucceeds(renderer.value, old(source.buffer).value, uploadOk)
                      && flowRet == if keep then old(flowRet) else FlowError)
    {
      AdoptGlTextureUploadMeta();
      TrackBufferCrop();
      keep, parsed := DeliverPending(current, uploadOk);
    }

    /**
     * The part of dispatch after the meta checks: apply pending caps, then
     * take, upload and release the pending buffer.
     */
    method DeliverPending(current: StreamCaps, uploadOk: bool) returns (keep: bool, ghost parsed: Option<Result<Negotiated, ParseError>>)
      requires Valid() && source != null && source.attached
      modifies this`renderer, this`glUploadContext, this`info, this`format, this`bgr, this`hasTexture, this`flowRet
      modifies source`hasNewCaps, source`attached, source`buffer, source`released, programs
      ensures Valid()
      ensures source.attached == keep
      ensures parsed == if old(source.hasNewCaps)
                        then Some(ParseCaps(caps, renderers, source.hasGlTextureUploadMeta, current))
                        else None
      ensures parsed.None? ==>
                && renderer == old(renderer) && glUploadContext == old(glUploadContext)
                && info == old(info) && format == old(format) && bgr == old(bgr) && hasTexture == old(hasTexture)
                && programs.programs == old(programs.programs) && programs.compiled == old(programs.compiled)
      // new caps that do not parse: sticky NOT_NEGOTIATED, the buffer stays pending
      ensures parsed.Some? && parsed.value.Err? ==>
                && !keep && flowRet == FlowNotNegotiated && source.hasNewCaps
                && source.buffer == old(source.buffer) && source.released == old(source.released)
                && renderer == old(renderer) && glUploadContext == ContextAfterDeinit(old(glUploadContext), old(renderer))
                && info == old(info) && format == old(format) && bgr == old(bgr) && hasTexture == old(hasTexture)
                && programs.programs == old(programs.programs) && programs.compiled == old(programs.compiled)
      // new caps that parse: saved, and the renderer they select is initialised and used
      ensures parsed.Some? && parsed.value.Ok? ==>
                && info == Some(parsed.value.value.info) && format == parsed.value.value.format
                && bgr == parsed.value.value.bgr && renderer == Some(parsed.value.value.renderer) && hasTexture
                && glUploadContext == ContextAfterInit(ContextAfterDeinit(old(glUploadContext), old(renderer)), renderer.value)
                && ShaderCached(programs, renderer.value)
                && programs.compiled == old(programs.compiled) + NewlyCompiled(old(programs.programs), renderer.value)
      // otherwise the slot is drained, the buffer released after the upload
      ensures !(parsed.Some? && parsed.value.Err?) ==>
                && source.buffer == None && !source.hasNewCaps
                && source.released == old(source.released) + Refs(old(source.buffer))
                && (old(source.buffer).None? ==> keep && flowRet == old(flowRet))
                && (old(source.buffer).Some? ==>
                      && renderer.Some?
                      && keep == UploadSucceeds(renderer.value, old(source.buffer).value, uploadOk)
                      && flowRet == if keep then old(flowRet) else FlowError)
    {
      var ok;
      ok, parsed := ApplyPendingCaps(current);
      if !ok {
        return false, parsed;
      }
      keep := TakeAndUpload(uploadOk);
    }

    /**
     * The first step of dispatch: a pending buffer carrying the
     * GL-texture-upload meta, seen for the first time in a GL build, moves
     * the sink to the GL-upload renderer.
     */
    method AdoptGlTextureUploadMeta()
      requires Valid() && GlUploadAvailable() && source != null
      modifies this`renderer, this`glUploadContext, source`hasGlTextureUploadMeta
      ensures Valid()
      ensures var adopt := AdoptsGlUpload(build, old(source.hasGlTextureUploadMeta), source.buffer);
              && source.hasGlTextureUploadMeta == (old(source.hasGlTextureUploadMeta) || adopt)
              && (adopt ==> renderer == Some(GL_TEXTURE_UPLOAD_RENDERER)
                            && glUploadContext == ContextAfterDeinit(old(glUploadContext), old(renderer)))
              && (!adopt ==> renderer == old(renderer) && glUploadContext == old(glUploadContext))
    {
      if AdoptsGlUpload(build, source.hasGlTextureUploadMeta, source.buffer) {
        DeinitRenderer();
        renderer := FindRendererByFormat(renderers, GlTextureUpload);
        source.hasGlTextureUploadMeta := true;
      }
    }

    /**
     * The new-caps step of dispatch: deinit the current renderer, parse and
     * save the caps, create the texture if there is none, and init the
     * renderer the caps selected. Caps that do not parse make the flow
     * return sticky NOT_NEGOTIATED and detach the source, leaving the buffer
     * pending and the old renderer deinitialised.
     */
    method ApplyNewCaps(current: StreamCaps) returns (ok: bool, ghost r: Result<Negotiated, ParseError>)
      requires Valid() && source != null && source.hasNewCaps
      modifies this`info, this`format, this`bgr, this`renderer, this`hasTexture, this`flowRet, this`glUploadContext
      modifies source`hasNewCaps, source`attached, programs
      ensures Valid()
      ensures r == ParseCaps(caps, renderers, source.hasGlTextureUploadMeta, current) && ok == r.Ok?
      ensures ok ==> && info == Some(r.value.info) && format == r.value.format && bgr == r.value.bgr
                     && renderer == Some(r.value.renderer) && hasTexture && !source.hasNewCaps
                     && source.attached == old(source.attached) && flowRet == old(flowRet)
                     && glUploadContext == ContextAfterInit(ContextAfterDeinit(old(glUploadContext), old(renderer)), renderer.value)
                     && ShaderCached(programs, renderer.value)
                     && programs.compiled == old(programs.compiled) + NewlyCompiled(old(programs.programs), renderer.value)
      ensures !ok ==> && flowRet == FlowNotNegotiated && source.hasNewCaps && !source.attached
                      && info == old(info) && format == old(format) && bgr == old(bgr)
                      && renderer == old(renderer) && hasTexture == old(hasTexture)
                      && glUploadContext == ContextAfterDeinit(old(glUploadContext), old(renderer))
                      && programs.programs == old(programs.programs) && programs.compiled == old(programs.compiled)
    {
      r := ParseCaps(caps, renderers, source.hasGlTextureUploadMeta, current);
      DeinitRenderer();
      ok := ParseCapsInto(current);
      if !ok {
        flowRet := FlowNotNegotiated;
        source.attached := false;
        return;
      }
      source.hasNewCaps := false;
      StartRenderer(current);
    }

    /** The new-caps step of dispatch, when caps are pending; without pending caps nothing happens. */
    method ApplyPendingCaps(current: StreamCaps) returns (ok: bool, ghost parsed: Option<Result<Negotiated, ParseError>>)
      requires Valid() && source != null
      modifies this`info, this`format, this`bgr, this`renderer, this`hasTexture, this`flowRet, this`glUploadContext
      modifies source`hasNewCaps, source`attached, programs
      ensures Valid()
      ensures parsed == if old(source.hasNewCaps)
                        then Some(ParseCaps(caps, renderers, source.hasGlTextureUploadMeta, current))
                        else None
      ensures ok <==> !(parsed.Some? && parsed.value.Err?)
      ensures ok ==> !source.hasNewCaps && source.attached == old(source.attached) && flowRet == old(flowRet)
      ensures parsed.None? ==>
                && renderer == old(renderer) && info == old(info) && format == old(format) && bgr == old(bgr)
                && glUploadContext == old(glUploadContext) && hasTexture == old(hasTexture)
                && programs.programs == old(programs.programs) && programs.compiled == old(programs.compiled)
      ensures parsed.Some? && parsed.value.Ok? ==>
                && info == Some(parsed.value.value.info) && format == parsed.value.value.format
                && bgr == parsed.value.value.bgr && renderer == Some(parsed.value.value.renderer) && hasTexture
                && glUploadContext == ContextAfterInit(ContextAfterDeinit(old(glUploadContext), old(renderer)), renderer.value)
                && ShaderCached(programs, renderer.value)
                && programs.compiled == old(programs.compiled) + NewlyCompiled(old(programs.programs), renderer.value)
      ensures !ok ==>
                && flowRet == FlowNotNegotiated && source.hasNewCaps && !source.attached
                && info == old(info) && format == old(format) && bgr == old(bgr)
                && renderer == old(renderer) && hasTexture == old(hasTexture)
                && glUploadContext == ContextAfterDeinit(old(glUploadContext), old(renderer))
                && programs.programs == old(programs.programs) && programs.compiled == old(programs.compiled)
    {
      ok := true;
      parsed := None;
      if source.hasNewCaps {
        ghost var r;
        ok, r := ApplyNewCaps(current);
        parsed := Some(r);
      }
    }

    /**
     * The end of the new-caps step, once the caps parsed: create the stage
     * and texture if there is none, parse and save the caps a second time
     * (with the same inputs that cannot fail) and init the renderer.
     */
    method StartRenderer(current: StreamCaps)
      requires Valid() && source != null
      requires ParseCaps(caps, renderers, source.hasGlTextureUploadMeta, current).Ok?
      modifies this`info, this`format, this`bgr, this`renderer, this`hasTexture, this`glUploadContext, programs
      ensures Valid() && hasTexture
      ensures var r := ParseCaps(caps, renderers, source.hasGlTextureUploadMeta, current);
              && info == Some(r.value.info) && format == r.value.format && bgr == r.value.bgr
              && renderer == Some(r.value.renderer)
      ensures glUploadContext == ContextAfterInit(old(glUploadContext), renderer.value)
      ensures ShaderCached(programs, renderer.value)
      ensures programs.compiled == old(programs.compiled) + NewlyCompiled(old(programs.programs), renderer.value)
    {
      if !hasTexture {
        // a stage and a texture are created for the video
        hasTexture := true;
      }
      var again := ParseCapsInto(current);
      assert again;
      InitRenderer();
    }

    /**
     * The last step of dispatch: take the pending buffer out of the slot,
     * upload it with the current renderer and release it. A failed upload
     * makes the flow return sticky ERROR and detaches the source.
     */
    method TakeAndUpload(uploadOk: bool) returns (keep: bool)
      requires Valid() && source != null && (source.buffer.Some? ==> !source.hasNewCaps)
      modifies this`flowRet, source`buffer, source`released, source`attached
      ensures Valid()
      ensures source.buffer == None && source.released == old(source.released) + Refs(old(source.buffer))
      ensures old(source.buffer).None? ==> keep && flowRet == old(flowRet) && source.attached == old(source.attached)
      ensures old(source.buffer).Some? ==>
                && renderer.Some?
                && keep == UploadSucceeds(renderer.value, old(source.buffer).value, uploadOk)
                && flowRet == (if keep then old(flowRet) else FlowError)
                && source.attached == (keep && old(source.attached))
    {
      var pending := source.buffer;
      source.buffer := None;
      keep := true;
      if pending.Some? {
        keep := UploadSucceeds(renderer.value, pending.value, uploadOk);
        source.released := source.released + [pending.value];
        if !keep {
          flowRet := FlowError;
          source.attached := false;
        }
      }
    }
  }
}
