/**
 * clutter_gst_parse_caps as a pure function: check the offered caps against
 * what the sink advertises, map the video format to a renderer layout and
 * pick the renderer for that layout.
 */
module Negotiation {
  import opened Wrappers
  import C = GstCaps
  import opened Renderers

  /** The parts of GstVideoInfo the sink keeps. */
  datatype VideoInfo = VideoInfo(format: C.GstFormat, width: nat, height: nat)

  /**
   * Caps offered by upstream, together with what gst_video_info_from_caps
   * reads from them: None when that call fails (caps not fixed, or a field
   * such as width, height or framerate missing). The datatype does not tie
   * the two together; InfoReadFromCaps states the pairing where it matters.
   */
  datatype StreamCaps = StreamCaps(caps: C.Caps, info: Option<VideoInfo>)

  /**
   * The info was read from the caps: they are fixed caps holding the raw
   * video (or, for ENCODED, surface) structure of the info's format.
   */
  predicate InfoReadFromCaps(offered: StreamCaps) {
    offered.info.Some? ==> offered.caps.Set? && AdvertisedTag(offered.info.value.format) in offered.caps.tags
  }

  /**
   * A renderer layout and the `bgr` flag. `bgr` is None where the format
   * switch leaves its local uninitialised (YV12, NV12, I420, ENCODED).
   */
  datatype Layout = Layout(format: RendererFormat, bgr: Option<bool>)

  /** The format switch of clutter_gst_parse_caps; None is its `unhandled_format` exit. */
  function MapFormat(f: C.GstFormat): Option<Layout> {
    match f
    case YV12 => Some(Layout(Yv12, None))
    case NV12 => Some(Layout(Nv12, None))
    case I420 => Some(Layout(RendererFormat.I420, None))
    case AYUV => Some(Layout(Ayuv, Some(false)))
    case RGB => Some(Layout(Rgb24, Some(false)))
    case BGR => Some(Layout(Rgb24, Some(true)))
    case RGBA => Some(Layout(Rgb32, Some(false)))
    case BGRA => Some(Layout(Rgb32, Some(true)))
    case Encoded => Some(Layout(RendererFormat.Surface, None))
    case Other(_) => None
  }

  /** The caps structure a renderer must advertise to draw a video format. */
  function AdvertisedTag(f: C.GstFormat): C.CapsTag {
    if f == C.Encoded then C.Surface else C.Raw(f)
  }

  /** The four error exits of clutter_gst_parse_caps. */
  datatype ParseError = NoIntersection | UnknownFormat | UnhandledFormat | NoSuitableRenderer

  /** What a successful parse stores when asked to save. */
  datatype Negotiated = Negotiated(info: VideoInfo, format: RendererFormat, bgr: Option<bool>, renderer: Renderer)

  /**
   * clutter_gst_parse_caps without its side effects. `sinkCaps` is the
   * sink's own caps, `renderers` its renderer list and
   * `hasGlTextureUploadMeta` the flag that forces the GL-upload layout.
   */
  function ParseCaps(sinkCaps: C.Caps, renderers: seq<Renderer>, hasGlTextureUploadMeta: bool,
                     offered: StreamCaps): (r: Result<Negotiated, ParseError>)
    ensures r.Ok? ==> r.value.renderer in renderers && r.value.renderer.format == r.value.format
    ensures r.Ok? ==> Some(r.value.info) == offered.info
    ensures r.Ok? ==> FindRendererByFormat(renderers, r.value.format) == Some(r.value.renderer)
    ensures r.Ok? ==> !C.IsEmpty(C.Intersect(sinkCaps, offered.caps))
    ensures r.Ok? ==> MapFormat(r.value.info.format).Some?
    ensures r.Ok? ==> r.value.format == if hasGlTextureUploadMeta then GlTextureUpload
                                         else MapFormat(r.value.info.format).value.format
    ensures r == Err(NoIntersection) <==> C.IsEmpty(C.Intersect(sinkCaps, offered.caps))
    ensures r.Ok? <==>
              && !C.IsEmpty(C.Intersect(sinkCaps, offered.caps))
              && offered.info.Some? && MapFormat(offered.info.value.format).Some?
              && FindRendererByFormat(renderers, if hasGlTextureUploadMeta then GlTextureUpload
                                                 else MapFormat(offered.info.value.format).value.format).Some?
  {
    if C.IsEmpty(C.Intersect(sinkCaps, offered.caps)) then Err(NoIntersection)
    else if offered.info.None? then Err(UnknownFormat)
    else
      var info := offered.info.value;
      match MapFormat(info.format)
      case None => Err(UnhandledFormat)
      case Some(layout) =>
        var format := if hasGlTextureUploadMeta then GlTextureUpload else layout.format;
        match FindRendererByFormat(renderers, format)
        case None => Err(NoSuitableRenderer)
        case Some(renderer) => Ok(Negotiated(info, format, layout.bgr, renderer))
  }

  /** The layout loses nothing: two formats with the same layout and `bgr` are the same format. */
  lemma LayoutDeterminesFormat(f: C.GstFormat, g: C.GstFormat)
    requires MapFormat(f).Some? && MapFormat(f) == MapFormat(g)
    ensures f == g
  {
    match f
    case Other(_) =>
    case _ =>
      match g
      case Other(_) =>
      case _ =>
  }

  /**
   * The two tables agree: whichever renderer the lookup picks for the
   * layout of a format advertises that format in its caps.
   */
  lemma SelectedRendererAdvertisesFormat(build: Build, features: set<Feature>, f: C.GstFormat, r: Renderer)
    requires MapFormat(f).Some?
    requires FindRendererByFormat(RendererList(build, features), MapFormat(f).value.format) == Some(r)
    ensures AdvertisedTag(f) in r.caps
  {
    var t := RendererTable(build);
    ReverseMembers(Supported(t, features), r);
    SupportedMembers(t, features, r);
    var j :| 0 <= j < |t| && t[j] == r;
    TableEntryAdvertises(build, j, f);
  }

  /** Every table entry advertises each format whose layout it draws. */
  lemma TableEntryAdvertises(build: Build, j: nat, f: C.GstFormat)
    requires j < |RendererTable(build)|
    requires MapFormat(f).Some? && MapFormat(f).value.format == RendererTable(build)[j].format
    ensures AdvertisedTag(f) in RendererTable(build)[j].caps
  {
    var t := RendererTable(build);
    match build
    case Build(true, true) =>
      assert t == [RGB24_RENDERER, RGB32_RENDERER, YV12_GLSL_RENDERER, NV12_GLSL_RENDERER, I420_GLSL_RENDERER,
                   YV12_FP_RENDERER, I420_FP_RENDERER, AYUV_GLSL_RENDERER, HW_RENDERER, GL_TEXTURE_UPLOAD_RENDERER];
    case Build(true, false) =>
      assert t == [RGB24_RENDERER, RGB32_RENDERER, YV12_GLSL_RENDERER, NV12_GLSL_RENDERER, I420_GLSL_RENDERER,
                   YV12_FP_RENDERER, I420_FP_RENDERER, AYUV_GLSL_RENDERER, GL_TEXTURE_UPLOAD_RENDERER];
    case Build(false, true) =>
      assert t == [RGB24_RENDERER, RGB32_RENDERER, YV12_GLSL_RENDERER, NV12_GLSL_RENDERER, I420_GLSL_RENDERER,
                   AYUV_GLSL_RENDERER, HW_RENDERER];
    case Build(false, false) =>
      assert t == [RGB24_RENDERER, RGB32_RENDERER, YV12_GLSL_RENDERER, NV12_GLSL_RENDERER, I420_GLSL_RENDERER,
                   AYUV_GLSL_RENDERER];
  }

  /**
   * Offering caps holding exactly one supported format selects the renderer
   * the lookup gives for its layout, and stores that layout and `bgr`, as
   * long as no GL-upload meta has been seen.
   */
  lemma SingleFormatSelectsRenderer(build: Build, features: set<Feature>, info: VideoInfo, r: Renderer)
    requires MapFormat(info.format).Some?
    requires FindRendererByFormat(RendererList(build, features), MapFormat(info.format).value.format) == Some(r)
    ensures var list := RendererList(build, features);
            var offered := StreamCaps(C.Set({AdvertisedTag(info.format)}), Some(info));
            ParseCaps(C.Set(RenderersCaps(list)), list, false, offered)
              == Ok(Negotiated(info, MapFormat(info.format).value.format, MapFormat(info.format).value.bgr, r))
  {
    var list := RendererList(build, features);
    var tag := AdvertisedTag(info.format);
    SelectedRendererAdvertisesFormat(build, features, info.format, r);
    assert tag in RenderersCaps(list);
    assert tag in RenderersCaps(list) * {tag};
  }

  /**
   * Any offered caps whose info was read from them, in a format whose
   * layout has a renderer, parse to that format's layout, `bgr` and
   * looked-up renderer as long as no GL-upload meta has been seen, however
   * many other structures the caps hold.
   */
  lemma ReadCapsSelectRenderer(build: Build, features: set<Feature>, offered: StreamCaps, r: Renderer)
    requires InfoReadFromCaps(offered) && offered.info.Some?
    requires MapFormat(offered.info.value.format).Some?
    requires FindRendererByFormat(RendererList(build, features), MapFormat(offered.info.value.format).value.format) == Some(r)
    ensures var list := RendererList(build, features);
            var layout := MapFormat(offered.info.value.format).value;
            ParseCaps(C.Set(RenderersCaps(list)), list, false, offered)
              == Ok(Negotiated(offered.info.value, layout.format, layout.bgr, r))
  {
    var list := RendererList(build, features);
    var tag := AdvertisedTag(offered.info.value.format);
    SelectedRendererAdvertisesFormat(build, features, offered.info.value.format, r);
    assert tag in RenderersCaps(list) * offered.caps.tags;
  }

  /**
   * Once the GL-texture-upload meta has been seen, any acceptable caps of a
   * handled format select the GL-upload renderer in a GL build, whatever
   * format they carry.
   */
  lemma GlMetaSelectsUploadRenderer(build: Build, features: set<Feature>, offered: StreamCaps)
    requires build.hasGl
    requires !C.IsEmpty(C.Intersect(C.Set(RenderersCaps(RendererList(build, features))), offered.caps))
    requires offered.info.Some? && MapFormat(offered.info.value.format).Some?
    ensures var list := RendererList(build, features);
            var r := ParseCaps(C.Set(RenderersCaps(list)), list, true, offered);
            r.Ok? && r.value.renderer == GL_TEXTURE_UPLOAD_RENDERER && r.value.format == GlTextureUpload
  {
    GlTextureUploadAlwaysFound(build, features);
  }

  /** A format outside the switch is refused whatever else the caps say. */
  lemma UnhandledFormatRefused(sinkCaps: C.Caps, renderers: seq<Renderer>, hasMeta: bool, offered: StreamCaps)
    requires offered.info.Some? && MapFormat(offered.info.value.format).None?
    ensures ParseCaps(sinkCaps, renderers, hasMeta, offered).Err?
  {
  }
}
