# clutter-gst video sinks: a Dafny model

This project models the decision and bookkeeping logic of the two GStreamer
sinks in clutter-gst.

**`cluttersink`** (ClutterGstVideoSink) hands decoded frames from the
streaming thread to the Clutter main loop.

- Its renderer list is built once from a static table. The table is filtered
  by the GPU features the renderers need, and a later table entry wins.
- New caps are checked against that list by `clutter_gst_parse_caps`. That
  function maps a video format to a renderer layout and a `bgr` flag.
- Each frame is stored in a one-slot mailbox, a GSource called
  ClutterGstSource. `render` fills the slot, replacing and releasing an
  undisplayed frame.
- The main loop's `dispatch` takes the frame out. It first applies pending
  caps and then uploads the frame with the selected renderer.
- A caps failure or an upload failure becomes a sticky flow return, and every
  later `render` reports it.

**`autocluttersink`** (ClutterGstAutoVideoSink) is a bin.

- On NULL→READY it discovers the registry's Clutter-capable video sinks. It
  filters them by klass and rank and sorts them by rank, then by name.
- On the first buffer it links, as its only child, the first candidate whose
  caps meet the stream.
- The `need_async_start` / `async_pending` flags keep its READY→PAUSED
  transition asynchronous until that child is in place.

## How it is modelled

**Values and pure functions.**

- Caps are ANY or a finite set of format tags. Intersection is set
  intersection, merge is union, and emptiness is set emptiness (module
  `GstCaps`).
- Renderers, features, video info and plugin features are datatypes.
- The C feature bit word is a `set<Feature>`, and the flag test
  `(needed & features) == needed` is a subset test.
- The compile-time options `CLUTTER_COGL_HAS_GL` and
  `HAVE_HW_DECODER_SUPPORT` are a `Build` parameter.
- `clutter_gst_parse_caps` is a pure function. With `save` set it is the
  method `ParseCapsInto`, which stores its result.
- The candidate filter, the comparator, the pretty name and the lookup by caps
  are pure functions.

**Classes for the state the C code updates in place.**

- `FrameSource` (the mailbox): its slot, flags, and ghost logs of the buffer
  references taken and given back.
- `VideoSink` (the private structure).
- `ProgramCache` (the static shader program table).
- `AutoVideoSink` (the fields of the bin's struct).

Each locked section of the C code is one method.

**Answers from the environment become parameters.** These are the GPU
queries, the outcome of an upload, the peer's caps, the parent class's state
change result, the probe id, and what creating and probing each factory
reports (`probe`). Buffers are ids carrying the crop and GL-upload metas.

**Where the model differs from the text.**

- `dispatch` parses new caps once more after creating the texture. The model
  does the same: `StartRenderer` parses again and proves the second parse
  succeeds.
- The GL-texture-upload renderer keeps its context in the static renderer
  structure. The model keeps it as the sink field `glUploadContext`.
- `stop` drops the source, and the main loop finalizes it later. The model
  finalizes it at once.
- In `_sinks_discover`, the C code appends each kept entry to `bin->sinks`
  inside the loop. The model collects the entries in the loop
  (`ProbeFactories`) and appends them after it. Nothing reads the list in
  between.
- Discovery sorts with the intended comparator `CompareRanks`, the corrected
  member of the second Findings row, not with the comparator as written. The
  two agree whenever the ranks differ by less than 2^31
  (`AsWrittenAgreesOnCloseRanks`). For larger gaps the code as written inverts
  the order (`RankWrapInvertsOrder`), and it is then not a total order.
- GLib sorts with a merge sort; the model uses an insertion sort. With the
  intended comparator and distinct feature names both give the same list:
  `SortedPermutationUnique` proves the sorted permutation is unique.

## Model

| member | source | states |
|---|---|---|
| Renderers.DetectFeatures | clutter-gst/clutter-gst-video-sink.c:1598-1610 | multi-texture iff at least 3 fragment texture units; fp iff a GL build and ARBfp is available; glsl iff GLSL is available |
| Renderers.BuildRenderersList | clutter-gst/clutter-gst-video-sink.c:1569-1622 | the prepend loop yields the reversed list of usable table entries; a renderer is listed iff it is in the table and its needed flags are a subset of the features |
| Renderers.FindRendererByFormat | clutter-gst/clutter-gst-video-sink.c:323-341 | a found renderer is in the list and draws the format; None iff no listed renderer draws it |
| Renderers.FindReturnsFirst | clutter-gst/clutter-gst-video-sink.c:323-341 | the lookup returns the earliest entry with the format |
| Renderers.LaterEntryWins | clutter-gst/clutter-gst-video-sink.c:1574-1619 | because the list is built by prepending, the lookup returns the last usable table entry for a format |
| Renderers.NoUsableEntryNoRenderer | clutter-gst/clutter-gst-video-sink.c:1612-1617 | when no usable table entry draws a format, the lookup returns None |
| Renderers.PlanarRendererChoice | clutter-gst/clutter-gst-video-sink.c:1578-1595 | for YV12 and I420 the fp renderer is chosen when compiled in and usable, else the glsl one when usable, else none |
| Renderers.FpPreferredOverGlsl | clutter-gst/clutter-gst-video-sink.c:1574-1577 | on a GL build with fp, GLSL and 3 texture units, YV12 and I420 get the fp renderers |
| Renderers.GlTextureUploadAlwaysFound | clutter-gst/clutter-gst-video-sink.c:1591-1593 | in GL builds the GL-texture-upload renderer is always listed and found |
| Renderers.RenderersCaps | clutter-gst/clutter-gst-video-sink.c:1624-1646 | the sink's caps hold a tag iff some listed renderer advertises it |
| Negotiation.ParseCaps | clutter-gst/clutter-gst-video-sink.c:364-477 | succeeds iff the caps meet the sink's caps, carry video info of a handled format, and the lookup finds a renderer for the layout (GL_TEXTURE_UPLOAD when the meta was seen); success keeps the caps' info and picks that renderer; caps not meeting the sink's caps give exactly the no-intersection error |
| Negotiation.LayoutDeterminesFormat | clutter-gst/clutter-gst-video-sink.c:386-422 | the format switch is injective: layout plus `bgr` identify the video format |
| Negotiation.SelectedRendererAdvertisesFormat | clutter-gst/clutter-gst-video-sink.c:426-431 | the renderer the lookup gives for a format's layout advertises that format in its caps |
| Negotiation.SingleFormatSelectsRenderer | clutter-gst/clutter-gst-video-sink.c:364-477 | caps with one supported format parse to that format's layout, `bgr` and looked-up renderer |
| Negotiation.ReadCapsSelectRenderer | clutter-gst/clutter-gst-video-sink.c:364-477 | caps whose info was read from them parse, without the meta, to the format's layout, `bgr` and looked-up renderer, however many structures they hold |
| Negotiation.GlMetaSelectsUploadRenderer | clutter-gst/clutter-gst-video-sink.c:426-433 | in a GL build, once the upload meta was seen, acceptable caps of any handled format select the GL-texture-upload renderer |
| Negotiation.UnhandledFormatRefused | clutter-gst/clutter-gst-video-sink.c:420-421 | a format outside the switch is always refused |
| Programs.ProgramCache.constructor | clutter-gst/clutter-gst-video-sink.c:780-784 | the cache starts empty |
| Programs.ProgramCache.Get | clutter-gst/clutter-gst-video-sink.c:774-795 | a cached source returns its program with nothing compiled; a new source is compiled once, stored, and gets a handle no other source has |
| Programs.ProgramCache.GetTwice | clutter-gst/clutter-gst-video-sink.c:774-795 | two lookups of one source give the same program and compile it at most once |
| ClutterGstVideoSink.FrameSource.constructor | clutter-gst/clutter-gst-video-sink.c:670-690 | a new source has an empty slot and holds no reference |
| ClutterGstVideoSink.FrameSource.Prepare | clutter-gst/clutter-gst-video-sink.c:300-310 | ready iff a buffer is pending; timeout -1 |
| ClutterGstVideoSink.FrameSource.Check | clutter-gst/clutter-gst-video-sink.c:312-321 | ready iff a buffer is pending |
| ClutterGstVideoSink.FrameSource.Finalize | clutter-gst/clutter-gst-video-sink.c:287-298 | a pending buffer is released and the slot emptied |
| ClutterGstVideoSink.VideoSink.constructor | clutter-gst/clutter-gst-video-sink.c:1706-1722 | features come from the GPU answers; the renderer list and caps are the ones they determine; in GL builds the GL-upload renderer is available |
| ClutterGstVideoSink.VideoSink.SetTexture | clutter-gst/clutter-gst-video-sink.c:1850-1871 | the texture is set or cleared |
| ClutterGstVideoSink.VideoSink.Start | clutter-gst/clutter-gst-video-sink.c:1929-1942 | a fresh, attached, empty source and flow return OK |
| ClutterGstVideoSink.VideoSink.Stop | clutter-gst/clutter-gst-video-sink.c:1945-1961 | the old source is detached, its pending buffer released, and the sink has no source |
| ClutterGstVideoSink.VideoSink.ParseCapsInto | clutter-gst/clutter-gst-video-sink.c:437-450 | succeeds iff ParseCaps does; success stores exactly its info, layout, `bgr` and renderer; failure changes none of them |
| ClutterGstVideoSink.VideoSink.SetCaps | clutter-gst/clutter-gst-video-sink.c:1783-1800 | accepted iff the caps parse (nothing saved); new caps are flagged only when accepted |
| ClutterGstVideoSink.VideoSink.Render | clutter-gst/clutter-gst-video-sink.c:1726-1772 | a sticky flow return is returned with the source untouched; a lost stage posts a RESOURCE/CLOSE element error and gives ERROR; otherwise the pending buffer is released and replaced by the new one, which is returned OK |
| ClutterGstVideoSink.VideoSink.OnStageDestroyed | clutter-gst/clutter-gst-video-sink.c:479-502 | the pending buffer is released, the slot emptied, the stage marked lost and the texture cleared |
| ClutterGstVideoSink.VideoSink.TrackCrop | clutter-gst/clutter-gst-video-sink.c:549-565 | the stored rectangle becomes the new one; changed iff it differed from the stored one |
| ClutterGstVideoSink.VideoSink.TrackBufferCrop | clutter-gst/clutter-gst-video-sink.c:549-550 | crop tracking runs only for a pending buffer with a crop meta |
| ClutterGstVideoSink.VideoSink.DeinitRenderer | clutter-gst/clutter-gst-video-sink.c:1448-1458 | the GL-upload context is freed iff the current renderer is the GL-upload one |
| ClutterGstVideoSink.VideoSink.InitRenderer | clutter-gst/clutter-gst-video-sink.c:1434-1446 | the GL-upload renderer gets its context; a shader renderer's program ends up cached, and exactly the uncached shader source is compiled |
| ClutterGstVideoSink.VideoSink.Dispatch | clutter-gst/clutter-gst-video-sink.c:522-661 | the pending buffer's upload meta switches a GL build to the GL-upload renderer once, and its crop meta is tracked; without pending caps the renderer and its context stay as that step left them; pending caps that fail to parse deinit the renderer, give sticky NOT_NEGOTIATED, detach the source and keep the buffer; caps that parse are saved and their renderer initialised (context, cached program); then the slot is drained and the buffer released; a failed upload with that renderer gives sticky ERROR and detaches |
| ClutterGstVideoSink.VideoSink.DeliverPending | clutter-gst/clutter-gst-video-sink.c:567-641 | the same outcome for the part of dispatch after the meta checks; with no caps pending the renderer, its context and the program cache are unchanged |
| ClutterGstVideoSink.VideoSink.AdoptGlTextureUploadMeta | clutter-gst/clutter-gst-video-sink.c:536-547 | in a GL build the first buffer with the upload meta switches to the GL-upload renderer, deinitialising the old one; otherwise nothing changes |
| ClutterGstVideoSink.VideoSink.ApplyNewCaps | clutter-gst/clutter-gst-video-sink.c:567-623 | the old renderer is deinitialised; parse outcome as ParseCaps; on success saved, texture present, caps no longer pending and the new renderer initialised (context, cached program); on failure NOT_NEGOTIATED, still pending, detached, nothing saved and nothing compiled |
| ClutterGstVideoSink.VideoSink.ApplyPendingCaps | clutter-gst/clutter-gst-video-sink.c:567-623 | without pending caps nothing changes; with them, as ApplyNewCaps |
| ClutterGstVideoSink.VideoSink.StartRenderer | clutter-gst/clutter-gst-video-sink.c:582-620 | the texture exists, the second parse succeeds with the same result, and the selected renderer is initialised: its GL-upload context allocated if it needs one, its program cached, only an uncached source compiled |
| ClutterGstVideoSink.VideoSink.TakeAndUpload | clutter-gst/clutter-gst-video-sink.c:625-660 | the slot is emptied and the taken buffer released; the source stays attached iff the upload succeeds; failure gives sticky ERROR |
| SinkCandidates.HasSubstring | clutter-gst/clutter-gst-auto-video-sink.c:139-140 | the strstr test is true iff the needle occurs at some offset |
| SinkCandidates.FactoryFilter | clutter-gst/clutter-gst-auto-video-sink.c:127-149 | accepted iff an element factory whose klass contains "Sink" and "Video" and whose rank is at least MARGINAL (64) |
| SinkCandidates.FilterFeatures | clutter-gst/clutter-gst-auto-video-sink.c:219-220 | a feature is a candidate iff it is in the registry and passes the filter |
| SinkCandidates.StrCmp | clutter-gst/clutter-gst-auto-video-sink.c:161-162 | strcmp's sign is 0 iff the strings are equal |
| SinkCandidates.StrCmpAntisymmetric | clutter-gst/clutter-gst-auto-video-sink.c:161-162 | swapping strcmp's arguments negates its sign |
| SinkCandidates.StrCmpTransitive | clutter-gst/clutter-gst-auto-video-sink.c:161-162 | strcmp orders strings transitively |
| SinkCandidates.ToInt32 | clutter-gst/clutter-gst-auto-video-sink.c:154-156 | storing a guint in a gint yields a 32-bit signed value congruent to it modulo 2^32 |
| SinkCandidates.CompareRanksAsWritten | clutter-gst/clutter-gst-auto-video-sink.c:151-163 | the comparator as written is 0 iff rank and name are equal |
| SinkCandidates.CompareRanksOrder | clutter-gst/clutter-gst-auto-video-sink.c:151-163 | negative (first) iff higher rank, or equal rank and the name strcmp orders later; 0 iff equal rank and name |
| SinkCandidates.CompareRanksAntisymmetric | clutter-gst/clutter-gst-auto-video-sink.c:151-163 | the ordering is antisymmetric |
| SinkCandidates.CompareRanksTransitive | clutter-gst/clutter-gst-auto-video-sink.c:151-163 | the ordering is transitive |
| SinkCandidates.AsWrittenAgreesOnCloseRanks | clutter-gst/clutter-gst-auto-video-sink.c:154-158 | for ranks less than 2^31 apart the code as written computes the intended value |
| SinkCandidates.RankWrapInvertsOrder | clutter-gst/clutter-gst-auto-video-sink.c:154-158 | for ranks at least 2^31 apart the code as written puts the lower rank first |
| SinkCandidates.InsertByRank | clutter-gst/clutter-gst-auto-video-sink.c:221 | inserting into a sorted list keeps it sorted and adds exactly that feature |
| SinkCandidates.SortByRank | clutter-gst/clutter-gst-auto-video-sink.c:221 | the sorted candidates are in comparator order and a permutation of the input |
| SinkCandidates.SortedPermutationUnique | clutter-gst/clutter-gst-auto-video-sink.c:221 | with distinct names, two sorted permutations are equal, so the order is deterministic |
| SinkCandidates.Marker | clutter-gst/clutter-gst-auto-video-sink.c:172-176 | the marker is a substring of the factory name starting at offset at most 3 (the decoration cases are the four lemmas below) |
| SinkCandidates.ChildName | clutter-gst/clutter-gst-auto-video-sink.c:177 | the child name splits into the bin name, "-actual-sink-" and the marker |
| SinkCandidates.MarkerStripsDecoration | clutter-gst/clutter-gst-auto-video-sink.c:172-177 | "gst" + m + "sink" gives marker m and child "<bin>-actual-sink-m" (so "gstfoosink" gives "foo") |
| SinkCandidates.MarkerStripsSinkSuffix | clutter-gst/clutter-gst-auto-video-sink.c:172-176 | m + "sink" gives marker m when m does not start with "gst" (so "cluttersink" gives "clutter") |
| SinkCandidates.MarkerStripsGstPrefix | clutter-gst/clutter-gst-auto-video-sink.c:172-176 | "gst" + m gives marker m when it does not end in "sink" |
| SinkCandidates.MarkerKeepsPlainName | clutter-gst/clutter-gst-auto-video-sink.c:172-176 | a name without either decoration is kept unchanged |
| SinkCandidates.CapsFailureUnrefsTwice | clutter-gst/clutter-gst-auto-video-sink.c:238-246 | as written, a Clutter sink whose caps cannot be read is unreferenced after its count reached zero, ending at -1 |
| SinkCandidates.ProbeRefOps | clutter-gst/clutter-gst-auto-video-sink.c:96-110 | with one unref per failure, the count never drops to zero before the last operation and ends at 1 for a kept element, else 0 |
| SinkCandidates.DiscoveredStep | clutter-gst/clutter-gst-auto-video-sink.c:238-249 | trying one more factory appends its entry iff it is kept |
| SinkCandidates.DiscoveredFromKeptFactory | clutter-gst/clutter-gst-auto-video-sink.c:228-249 | every discovered entry comes from a factory with a texture property and caps |
| SinkCandidates.KeptFactoryDiscovered | clutter-gst/clutter-gst-auto-video-sink.c:228-249 | every such factory yields an entry |
| SinkCandidates.UnionCapsEmpty | clutter-gst/clutter-gst-auto-video-sink.c:241-252 | the union of the entries' caps is empty iff every entry's caps are |
| SinkCandidates.UnionMeetsSomeCandidate | clutter-gst/clutter-gst-auto-video-sink.c:241-252 | caps meet the union iff they meet some entry's caps |
| SinkCandidates.FirstMatching | clutter-gst/clutter-gst-auto-video-sink.c:270-286 | the index of the first entry whose caps meet the request; all before it do not |
| SinkCandidates.FindSinkByCaps | clutter-gst/clutter-gst-auto-video-sink.c:265-290 | returns the element of the first entry whose caps meet the request; None iff none does |
| SinkCandidates.GetCaps | clutter-gst/clutter-gst-auto-video-sink.c:426-438 | the discovered caps, or ANY before any were published |
| SinkCandidates.AcceptCaps | clutter-gst/clutter-gst-auto-video-sink.c:440-461 | accepted iff the offered caps meet the published caps, or are non-empty when none were published |
| SinkCandidates.AcceptIffSinkFound | clutter-gst/clutter-gst-auto-video-sink.c:440-461 | once the union is published, caps are accepted iff a child can be found for them |
| ClutterGstAutoVideoSink.PublishedCaps | clutter-gst/clutter-gst-auto-video-sink.c:250-253 | `video_caps` changes only to the non-empty union |
| ClutterGstAutoVideoSink.ProbeFactories | clutter-gst/clutter-gst-auto-video-sink.c:224-249 | the loop collects exactly the discovered entries and their caps union |
| ClutterGstAutoVideoSink.DiscoveredCapsDecideAcceptance | clutter-gst/clutter-gst-auto-video-sink.c:250-253 | after a discovery that found non-empty caps, accept-caps answers true iff a child can be found |
| ClutterGstAutoVideoSink.AutoVideoSink.constructor | clutter-gst/clutter-gst-auto-video-sink.c:734-741 | no child, no candidates, no caps, no probe, and no async state or setup |
| ClutterGstAutoVideoSink.AutoVideoSink.DoAsyncStart | clutter-gst/clutter-gst-auto-video-sink.c:292-306 | posts async-start and marks it pending iff one is needed |
| ClutterGstAutoVideoSink.AutoVideoSink.DoAsyncDone | clutter-gst/clutter-gst-auto-video-sink.c:308-322 | posts async-done iff pending; afterwards neither flag is set |
| ClutterGstAutoVideoSink.AutoVideoSink.Discover | clutter-gst/clutter-gst-auto-video-sink.c:213-255 | appends the entries for the filtered factories in rank order, and publishes their caps union only when it is non-empty |
| ClutterGstAutoVideoSink.AutoVideoSink.TryFactories | clutter-gst/clutter-gst-auto-video-sink.c:224-255 | as Discover, for an already sorted factory list |
| ClutterGstAutoVideoSink.AutoVideoSink.Destroy | clutter-gst/clutter-gst-auto-video-sink.c:257-263 | the candidate list is empty |
| ClutterGstAutoVideoSink.AutoVideoSink.Reconfigure | clutter-gst/clutter-gst-auto-video-sink.c:324-379 | succeeds iff a candidate matches, and the child is then that candidate (unchanged if it already was); otherwise no child, with an element error posted; the ghost pad targets the child |
| ClutterGstAutoVideoSink.AutoVideoSink.SinkPadBlocked | clutter-gst/clutter-gst-auto-video-sink.c:381-424 | setup becomes true only with non-empty peer caps and a matching candidate, and then async-done is handled; on failure the async flags are kept; the block id is always 0 |
| ClutterGstAutoVideoSink.AutoVideoSink.PrepareChange | clutter-gst/clutter-gst-auto-video-sink.c:507-531 | NULL→READY discovers; READY→PAUSED needs an async start, installs the probe unless one is installed, posts async-start and answers ASYNC |
| ClutterGstAutoVideoSink.AutoVideoSink.FinishChange | clutter-gst/clutter-gst-auto-video-sink.c:556-590 | PLAYING→PAUSED needs an async start; PAUSED→READY clears the block id, target, child and setup; READY→NULL empties the candidates and finishes async |
| ClutterGstAutoVideoSink.AutoVideoSink.ApplyParentResult | clutter-gst/clutter-gst-auto-video-sink.c:533-590 | FAILURE returns at once with nothing changed; NO_PREROLL runs async-done and is returned, ASYNC is returned, SUCCESS keeps the bin's result; the per-transition cleanup runs for every result but FAILURE; the messages posted, the async flags, the candidates, the probe id, the child and the setup are stated for each case |
| ClutterGstAutoVideoSink.AutoVideoSink.ChangeState | clutter-gst/clutter-gst-auto-video-sink.c:501-597 | the result as the children's answer decides; the bus gets async-start on READY→PAUSED and async-done when one is pending and NO_PREROLL or a successful READY→NULL finishes it; the async flags, candidates (found on NULL→READY whatever the children answer, freed on a successful READY→NULL), published caps, probe id, child and setup are stated for every transition and answer, with every other field unchanged; the invariant holds (a pending async-start is needed, the ghost pad targets the child, a set-up bin has a child) |

## Left out

- The GPU side: texture, material and shader creation, the shader texts, and
  every `upload` body. An upload is a boolean parameter; a renderer's init is
  its GL-upload context and its program-cache lookup.
- The hardware-surface and X11 pixmap paths, the GL context query,
  `propose_allocation`, navigation events and their float scaling.
- Stage creation and resizing, and `ensure_texture_pixel_aspect_ratio`. These
  are Clutter UI calls; creating the texture is the flag `hasTexture`.
- Mutexes, `g_main_context_wakeup`, and GSource attach and destroy. Each
  locked section is one method, and attachment is a flag.
- GObject properties, class and type registration, `ts-offset`, and the
  texture handed to the auto sink's child. Also the auto sink's `dispose` and
  `finalize`, and the video sink's `dispose` and `finalize`.
- Element states, the bin's membership list and the pads of the auto sink.
  Pads are reduced to the ghost pad's target.
- Reference counts of child elements held by the auto sink after discovery.
  Only the counts during probing are modelled, for the finding below.
- The `intersection` left unreferenced on parse_caps' no-intersection path,
  and the `gst_object_unref` of a possibly NULL pad in `_get_sink_caps`. Both
  are leak or warning details, not decisions.
- `clutter-gst/clutter-gst-util.c`, `clutter-gst/clutter-gst-plugin.c` and
  `tests/test-rgb-upload.c` are not part of this model.
- Negotiation.ParseCaps: `bgr` is `None` where the C local is left
  uninitialised (YV12, NV12, I420, ENCODED). The model states no value there.
- ClutterGstVideoSink.VideoSink.Render: requires that caps were accepted
  before the first buffer (`hasNewCaps` or a renderer). The base sink
  guarantees that; the C code would dereference a NULL renderer in dispatch
  otherwise.
- ClutterGstAutoVideoSink.AutoVideoSink.Reconfigure: keeps the invariant
  unless it fails on a bin that is already set up. The only caller calls it
  when not set up.

## Findings

| source | as written | input that shows it | evidently intended | confidence | as-written member | corrected member |
|---|---|---|---|---|---|---|
| clutter-gst/clutter-gst-auto-video-sink.c:98-101 | when a Clutter sink's caps cannot be read, `_sink_element_create` unrefs the element, and `_sinks_discover` (lines 244-246) unrefs it again | a factory whose element has a ClutterTexture "texture" property but fails to reach READY | one unref on that path, leaving the count at 0 | medium, not executed | SinkCandidates.CapsFailureUnrefsTwice | SinkCandidates.ProbeRefOps |
| clutter-gst/clutter-gst-auto-video-sink.c:154-158 | the guint rank difference is stored in a gint and returned | ranks 64 and 64 + 2^31 (a rank set through GST_PLUGIN_FEATURE_RANK) | rank descending for all guint ranks | low, not executed | SinkCandidates.RankWrapInvertsOrder | SinkCandidates.CompareRanksTransitive |
