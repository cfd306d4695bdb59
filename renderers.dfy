/**
 * The renderer table of the video sink: one renderer per pixel layout, each
 * needing some GPU features, and the list of the renderers usable on the
 * running GPU, searched front to back for a format.
 */
module Renderers {
  import opened Wrappers
  import C = GstCaps

  /** ClutterGstVideoFormat: the layouts a renderer can draw. */
  datatype RendererFormat =
    | NoFormat | Rgb32 | Rgb24 | Ayuv | Yv12 | Nv12 | I420 | Surface | GlTextureUpload

  /**
   * ClutterGstFeatures: what the GPU supports. The C code keeps them as bits
   * of a word; a set of them is that word, and "every bit of the renderer's
   * flags is set in the features" is the subset test.
   */
  datatype Feature = Fp | Glsl | MultiTexture

  /** Which optional parts were compiled in: CLUTTER_COGL_HAS_GL and HAVE_HW_DECODER_SUPPORT. */
  datatype Build = Build(hasGl: bool, hwDecoder: bool)

  /** A renderer descriptor; the init, deinit and upload entry points are identified by `name`. */
  datatype Renderer = Renderer(name: string, format: RendererFormat, flags: set<Feature>, caps: set<C.CapsTag>)

  const RGB24_RENDERER := Renderer("RGB 24", Rgb24, {}, {C.Raw(C.RGB), C.Raw(C.BGR)})
  const RGB32_RENDERER := Renderer("RGB 32", Rgb32, {}, {C.Raw(C.RGBA), C.Raw(C.BGRA)})
  const YV12_GLSL_RENDERER := Renderer("YV12 glsl", Yv12, {Glsl, MultiTexture}, {C.Raw(C.YV12)})
  const NV12_GLSL_RENDERER := Renderer("NV12 glsl", Nv12, {Glsl, MultiTexture}, {C.Raw(C.NV12)})
  const YV12_FP_RENDERER := Renderer("YV12 fp", Yv12, {Fp, MultiTexture}, {C.Raw(C.YV12)})
  const I420_GLSL_RENDERER := Renderer("I420 glsl", I420, {Glsl, MultiTexture}, {C.Raw(C.I420)})
  const I420_FP_RENDERER := Renderer("I420 fp", I420, {Fp, MultiTexture}, {C.Raw(C.I420)})
  const AYUV_GLSL_RENDERER := Renderer("AYUV glsl", Ayuv, {Glsl}, {C.Raw(C.AYUV)})
  const HW_RENDERER := Renderer("HW surface", Surface, {}, {C.Surface})
  const GL_TEXTURE_UPLOAD_RENDERER :=
    Renderer("GL Texture upload renderer", GlTextureUpload, {}, {C.GLUpload(C.RGBA)})

  /** The static renderers[] array, in declaration order, for a given build. */
  function RendererTable(build: Build): seq<Renderer> {
    [RGB24_RENDERER, RGB32_RENDERER, YV12_GLSL_RENDERER, NV12_GLSL_RENDERER, I420_GLSL_RENDERER]
    + (if build.hasGl then [YV12_FP_RENDERER, I420_FP_RENDERER] else [])
    + [AYUV_GLSL_RENDERER]
    + (if build.hwDecoder then [HW_RENDERER] else [])
    + (if build.hasGl then [GL_TEXTURE_UPLOAD_RENDERER] else [])
  }

  /**
   * The feature word computed from the GPU queries: multi-texturing needs at
   * least three fragment texture units, ARB fragment programs are only asked
   * for in GL builds, GLSL always.
   */
  function DetectFeatures(build: Build, nTextureUnits: int, arbFp: bool, glsl: bool): (features: set<Feature>)
    ensures MultiTexture in features <==> nTextureUnits >= 3
    ensures Fp in features <==> build.hasGl && arbFp
    ensures Glsl in features <==> glsl
  {
    (if nTextureUnits >= 3 then {MultiTexture} else {})
    + (if build.hasGl && arbFp then {Fp} else {})
    + (if glsl then {Glsl} else {})
  }

  /** A renderer can be used when every feature it needs is present. */
  predicate Usable(r: Renderer, features: set<Feature>) {
    r.flags <= features
  }

  /** The usable renderers of a table, in table order. */
  function Supported(table: seq<Renderer>, features: set<Feature>): seq<Renderer> {
    if table == [] then []
    else
      var last := table[|table| - 1];
      Supported(table[..|table| - 1], features) + (if Usable(last, features) then [last] else [])
  }

  function Reverse<T>(s: seq<T>): (r: seq<T>)
    ensures |r| == |s|
  {
    if s == [] then [] else [s[|s| - 1]] + Reverse(s[..|s| - 1])
  }

  /** What clutter_gst_build_renderers_list returns for a build and a feature word. */
  function RendererList(build: Build, features: set<Feature>): seq<Renderer> {
    Reverse(Supported(RendererTable(build), features))
  }

  /** clutter_gst_build_renderers_list: walk the table, prepending each usable renderer. */
  method BuildRenderersList(table: seq<Renderer>, features: set<Feature>) returns (list: seq<Renderer>)
    ensures list == Reverse(Supported(table, features))
    ensures forall r :: r in list <==> r in table && Usable(r, features)
  {
    list := [];
    for i := 0 to |table|
      invariant list == Reverse(Supported(table[..i], features))
    {
      PrependStep(table, features, i);
      if table[i].flags <= features {
        list := [table[i]] + list;
      }
    }
    assert table[..|table|] == table;
    forall r ensures r in list <==> r in table && Usable(r, features) {
      ReverseMembers(Supported(table, features), r);
      SupportedMembers(table, features, r);
    }
  }

  /** One step of the build loop: entry `i` goes in front of the list iff it is usable. */
  lemma PrependStep(table: seq<Renderer>, features: set<Feature>, i: nat)
    requires i < |table|
    ensures Reverse(Supported(table[..i + 1], features)) ==
            (if Usable(table[i], features) then [table[i]] else []) + Reverse(Supported(table[..i], features))
  {
    assert table[..i + 1][..i] == table[..i];
    var s := Supported(table[..i], features);
    if Usable(table[i], features) {
      assert Supported(table[..i + 1], features) == s + [table[i]];
      assert (s + [table[i]])[..|s|] == s;
    } else {
      assert Supported(table[..i + 1], features) == s;
    }
  }

  lemma {:induction false} ReverseMembers<T>(s: seq<T>, x: T)
    ensures x in Reverse(s) <==> x in s
  {
    if s != [] {
      ReverseMembers(s[..|s| - 1], x);
      assert s == s[..|s| - 1] + [s[|s| - 1]];
    }
  }

  /** A renderer is in the filtered table iff it is in the table and usable. */
  lemma {:induction false} SupportedMembers(table: seq<Renderer>, features: set<Feature>, r: Renderer)
    ensures r in Supported(table, features) <==> r in table && Usable(r, features)
  {
    if table != [] {
      SupportedMembers(table[..|table| - 1], features, r);
      assert table == table[..|table| - 1] + [table[|table| - 1]];
    }
  }

  /** clutter_gst_find_renderer_by_format: the first renderer of the list drawing `format`. */
  function FindRendererByFormat(list: seq<Renderer>, format: RendererFormat): (r: Option<Renderer>)
    ensures r.Some? ==> r.value in list && r.value.format == format
    ensures r.None? <==> forall x :: x in list ==> x.format != format
  {
    if list == [] then None
    else if list[0].format == format then Some(list[0])
    else FindRendererByFormat(list[1..], format)
  }

  /** The lookup returns the earliest match: every entry before it draws another format. */
  lemma {:induction false} FindReturnsFirst(list: seq<Renderer>, format: RendererFormat, k: nat)
    requires k < |list| && list[k].format == format
    requires forall j :: 0 <= j < k ==> list[j].format != format
    ensures FindRendererByFormat(list, format) == Some(list[k])
  {
    if k > 0 {
      FindReturnsFirst(list[1..], format, k - 1);
    }
  }

  /**
   * Because the list is built by prepending, the lookup finds the LAST usable
   * table entry for a format: a later entry wins over an earlier one.
   */
  lemma {:induction false} LaterEntryWins(table: seq<Renderer>, features: set<Feature>, format: RendererFormat, k: nat)
    requires k < |table| && table[k].format == format && Usable(table[k], features)
    requires forall j :: k < j < |table| && Usable(table[j], features) ==> table[j].format != format
    ensures FindRendererByFormat(Reverse(Supported(table, features)), format) == Some(table[k])
  {
    var n := |table|;
    var init := table[..n - 1];
    var last := table[n - 1];
    var rest := Reverse(Supported(init, features));
    assert Supported(table, features) == Supported(init, features) + (if Usable(last, features) then [last] else []);
    if k == n - 1 {
      var s := Supported(init, features) + [last];
      assert Supported(table, features) == s;
      assert s[..|s| - 1] == Supported(init, features);
      assert Reverse(s) == [last] + rest;
      assert FindRendererByFormat([last] + rest, format) == Some(last);
    } else {
      assert table[k] == init[k];
      assert forall j :: k < j < |init| && Usable(init[j], features) ==> init[j].format != format by {
        forall j | k < j < |init| ensures init[j] == table[j] { }
      }
      LaterEntryWins(init, features, format, k);
      if Usable(last, features) {
        var s := Supported(init, features) + [last];
        assert s[..|s| - 1] == Supported(init, features);
        assert Supported(table, features) == s;
        assert Reverse(s) == [last] + rest;
        assert ([last] + rest)[1..] == rest;
        assert FindRendererByFormat([last] + rest, format) == FindRendererByFormat(rest, format);
      } else {
        assert Supported(table, features) == Supported(init, features);
      }
    }
  }

  /** When no usable table entry draws a format, the lookup fails. */
  lemma NoUsableEntryNoRenderer(table: seq<Renderer>, features: set<Feature>, format: RendererFormat)
    requires forall r :: r in table && Usable(r, features) ==> r.format != format
    ensures FindRendererByFormat(Reverse(Supported(table, features)), format) == None
  {
    forall r | r in Reverse(Supported(table, features)) ensures r.format != format {
      ReverseMembers(Supported(table, features), r);
      SupportedMembers(table, features, r);
    }
  }

  /**
   * For the planar 4:2:0 layouts the fragment-program renderer is preferred:
   * it is chosen whenever it is compiled in and usable, otherwise the GLSL
   * one when usable, otherwise none.
   */
  lemma PlanarRendererChoice(build: Build, features: set<Feature>)
    ensures FindRendererByFormat(RendererList(build, features), Yv12) ==
      if build.hasGl && Usable(YV12_FP_RENDERER, features) then Some(YV12_FP_RENDERER)
      else if Usable(YV12_GLSL_RENDERER, features) then Some(YV12_GLSL_RENDERER)
      else None
    ensures FindRendererByFormat(RendererList(build, features), I420) ==
      if build.hasGl && Usable(I420_FP_RENDERER, features) then Some(I420_FP_RENDERER)
      else if Usable(I420_GLSL_RENDERER, features) then Some(I420_GLSL_RENDERER)
      else None
  {
    PlanarChoice(build, features, Yv12, YV12_GLSL_RENDERER, YV12_FP_RENDERER, 2, 5);
    PlanarChoice(build, features, I420, I420_GLSL_RENDERER, I420_FP_RENDERER, 4, 6);
  }

  /** The table positions of the renderers of each planar layout. */
  lemma PlanarChoice(build: Build, features: set<Feature>, format: RendererFormat, glsl: Renderer, fp: Renderer, g: nat, f: nat)
    requires (format, glsl, fp, g, f) == (Yv12, YV12_GLSL_RENDERER, YV12_FP_RENDERER, 2, 5)
          || (format, glsl, fp, g, f) == (I420, I420_GLSL_RENDERER, I420_FP_RENDERER, 4, 6)
    ensures FindRendererByFormat(RendererList(build, features), format) ==
      if build.hasGl && Usable(fp, features) then Some(fp)
      else if Usable(glsl, features) then Some(glsl)
      else None
  {
    var t := RendererTable(build);
    assert t[g] == glsl;
    assert build.hasGl ==> t[f] == fp;
    assert forall j :: 0 <= j < |t| && t[j].format == format ==> j == g || (build.hasGl && j == f);
    if build.hasGl && Usable(fp, features) {
      LaterEntryWins(t, features, format, f);
    } else if Usable(glsl, features) {
      LaterEntryWins(t, features, format, g);
    } else {
      forall r | r in t && Usable(r, features) ensures r.format != format {
        var j :| 0 <= j < |t| && t[j] == r;
      }
      NoUsableEntryNoRenderer(t, features, format);
    }
  }

  /** With both fragment programs and GLSL (and enough texture units), fp beats glsl. */
  lemma FpPreferredOverGlsl(nTextureUnits: int)
    requires nTextureUnits >= 3
    ensures var features := DetectFeatures(Build(true, false), nTextureUnits, true, true);
            var list := RendererList(Build(true, false), features);
            FindRendererByFormat(list, Yv12) == Some(YV12_FP_RENDERER)
            && FindRendererByFormat(list, I420) == Some(I420_FP_RENDERER)
  {
    PlanarRendererChoice(Build(true, false), DetectFeatures(Build(true, false), nTextureUnits, true, true));
  }

  /** In GL builds the GL-texture-upload renderer needs no feature, so the lookup always finds it. */
  lemma GlTextureUploadAlwaysFound(build: Build, features: set<Feature>)
    requires build.hasGl
    ensures FindRendererByFormat(RendererList(build, features), GlTextureUpload) == Some(GL_TEXTURE_UPLOAD_RENDERER)
  {
    var t := RendererTable(build);
    LaterEntryWins(t, features, GlTextureUpload, |t| - 1);
  }

  /** clutter_gst_build_caps: the union of the caps of the listed renderers. */
  function RenderersCaps(list: seq<Renderer>): (tags: set<C.CapsTag>)
    ensures forall t :: t in tags <==> exists r :: r in list && t in r.caps
  {
    if list == [] then {}
    else
      assert forall r :: r in list <==> r == list[0] || r in list[1..];
      list[0].caps + RenderersCaps(list[1..])
  }
}
