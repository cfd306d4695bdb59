/**
 * ClutterGstAutoVideoSink: a bin that discovers the Clutter-capable video
 * sinks in the registry when it goes to READY, and on the first buffer
 * links the first of them whose caps meet the stream as its only child.
 * The async-start / async-done flags keep its PAUSED transition pending
 * until that child is in place.
 */
module ClutterGstAutoVideoSink {
  import opened Wrappers
  import C = GstCaps
  import opened SinkCandidates

  datatype StateChange = NullToReady | ReadyToPaused | PausedToPlaying | PlayingToPaused | PausedToReady | ReadyToNull

  datatype StateChangeReturn = Failure | Success | Async | NoPreroll

  /** The messages the bin posts on its own behalf: async-start, async-done and its element error. */
  datatype Message = AsyncStart | AsyncDone | NoUsableSink

  /** What `video_caps` becomes after a discovery that found `found`: their union, unless that is empty. */
  function PublishedCaps(previous: Option<C.Caps>, found: seq<SinkElement>): (caps: Option<C.Caps>)
    ensures caps.Some? && caps != previous ==> !C.IsEmpty(caps.value)
    ensures caps == previous || caps == Some(UnionCaps(found))
  {
    if C.IsEmpty(UnionCaps(found)) then previous else Some(UnionCaps(found))
  }

  /**
   * The loop of _sinks_discover: probe each factory in order, collect an
   * entry for every kept one and merge its caps into the running union.
   */
  method ProbeFactories(binName: string, factories: seq<PluginFeature>, probe: PluginFeature -> Probe)
    returns (found: seq<SinkElement>, caps: C.Caps)
    ensures found == Discovered(binName, factories, probe)
    ensures caps == UnionCaps(found)
  {
    found := [];
    caps := C.EMPTY;
    var i := 0;
    while i < |factories|
      invariant 0 <= i <= |factories|
      invariant found == Discovered(binName, factories[..i], probe)
      invariant caps == UnionCaps(found)
    {
      var f := factories[i];
      var p := probe(f);
      DiscoveredStep(binName, factories, i, probe);
      if Kept(p) {
        var se := KeptEntry(binName, f, p);
        UnionCapsStep(found, se);
        caps := C.Merge(caps, se.caps);
        found := found + [se];
      }
      i := i + 1;
    }
    assert factories[..i] == factories;
  }

  class AutoVideoSink {
    /** The bin's object name, the prefix of its children's names. */
    const name: string
    var sinkBlockId: Uint32
    var child: Option<ElementId>
    /** The element whose sink pad the bin's ghost sink pad targets, None while it has no target. */
    var target: Option<ElementId>
    var videoCaps: Option<C.Caps>
    var sinks: seq<SinkElement>
    var needAsyncStart: bool
    var asyncPending: bool
    var setup: bool
    /** The messages handed to the parent class's handle_message, oldest first. */
    var posted: seq<Message>

    /**
     * An async-start is only pending while one is needed, the ghost pad
     * targets exactly the current child, and a set-up bin has a child.
     */
    ghost predicate Valid()
      reads this
    {
      && (asyncPending ==> needAsyncStart)
      && target == child
      && (setup ==> child.Some?)
    }

    /** The entries one discovery appends for this bin. */
    ghost function Found(registry: seq<PluginFeature>, probe: PluginFeature -> Probe): seq<SinkElement> {
      Discovered(name, SortByRank(FilterFeatures(registry)), probe)
    }

    /** clutter_gst_auto_video_sink_init, with the zeroed fields of a new GObject. */
    constructor (name: string)
      ensures Valid()
      ensures this.name == name
      ensures sinkBlockId == 0 && child.None? && target.None? && videoCaps.None? && sinks == []
      ensures !needAsyncStart && !asyncPending && !setup && posted == []
    {
      this.name := name;
      sinkBlockId := 0;
      child := None;
      target := None;
      videoCaps := None;
      sinks := [];
      needAsyncStart := false;
      asyncPending := false;
      setup := false;
      posted := [];
    }

    /** do_async_start: post async-start and mark it pending, only when one is needed. */
    method DoAsyncStart()
      requires Valid()
      modifies this`asyncPending, this`posted
      ensures Valid()
      ensures asyncPending == (old(asyncPending) || needAsyncStart)
      ensures posted == old(posted) + if needAsyncStart then [AsyncStart] else []
    {
      if !needAsyncStart {
        return;
      }
      asyncPending := true;
      posted := posted + [AsyncStart];
    }

    /** do_async_done: post async-done if one is pending; afterwards neither flag is set. */
    method DoAsyncDone()
      requires Valid()
      modifies this`asyncPending, this`needAsyncStart, this`posted
      ensures Valid()
      ensures !asyncPending && !needAsyncStart
      ensures posted == old(posted) + if old(asyncPending) then [AsyncDone] else []
    {
      if asyncPending {
        posted := posted + [AsyncDone];
        asyncPending := false;
      }
      needAsyncStart := false;
    }

    /**
     * _sinks_discover: try the filtered factories in rank order, append an
     * entry for every Clutter sink whose caps could be read, and publish
     * the union of their caps unless it is empty. `probe` stands for
     * creating the element, inspecting its "texture" property and querying
     * its caps.
     */
    method Discover(registry: seq<PluginFeature>, probe: PluginFeature -> Probe)
      modifies this`sinks, this`videoCaps
      ensures sinks == old(sinks) + Found(registry, probe)
      ensures videoCaps == PublishedCaps(old(videoCaps), Found(registry, probe))
    {
      var factories := SortByRank(FilterFeatures(registry));
      TryFactories(factories, probe);
    }

    /**
     * The rest of _sinks_discover: append the entries the loop over the
     * sorted factories collects, and publish the union of their caps unless
     * it is empty.
     */
    method TryFactories(factories: seq<PluginFeature>, probe: PluginFeature -> Probe)
      modifies this`sinks, this`videoCaps
      ensures sinks == old(sinks) + Discovered(name, factories, probe)
      ensures videoCaps == PublishedCaps(old(videoCaps), Discovered(name, factories, probe))
    {
      var found, caps := ProbeFactories(name, factories, probe);
      sinks := sinks + found;
      if !C.IsEmpty(caps) {
        videoCaps := Some(caps);
      }
    }

    /** _sinks_destroy: every entry is freed and the list is emptied. */
    method Destroy()
      modifies this`sinks
      ensures sinks == []
    {
      sinks := [];
    }

    /**
     * clutter_gst_auto_video_sink_reconfigure: make the first candidate
     * whose caps meet `caps` the child. Nothing changes when it already is;
     * otherwise the old child is unlinked first, and when no candidate
     * matches the bin posts its element error and is left without a child.
     */
    method Reconfigure(caps: C.Caps) returns (ok: bool)
      requires Valid()
      modifies this`child, this`target, this`posted
      ensures ok || !setup ==> Valid()
      ensures target == child
      ensures ok <==> FindSinkByCaps(sinks, caps).Some?
      ensures ok ==> child == FindSinkByCaps(sinks, caps) && posted == old(posted)
      ensures !ok ==> child.None? && posted == old(posted) + [NoUsableSink]
    {
      var sink := FindSinkByCaps(sinks, caps);
      if sink.Some? && sink == child {
        return true;
      }
      if child.Some? {
        target := None;
        child := None;
      }
      if sink.None? {
        posted := posted + [NoUsableSink];
        return false;
      }
      child := sink;
      target := child;
      ok := true;
    }

    /**
     * sink_pad_blocked_cb: on the first buffer after a (re)start, read the
     * peer's caps (`peerCaps`, None when the query gives none), link a
     * matching child and finish the pending async transition. Any failure
     * leaves `setup` unset and the async transition pending. The probe is
     * removed in every case.
     */
    method SinkPadBlocked(peerCaps: Option<C.Caps>)
      requires Valid()
      modifies this`setup, this`child, this`target, this`posted, this`asyncPending, this`needAsyncStart, this`sinkBlockId
      ensures Valid()
      ensures sinkBlockId == 0
      ensures setup <==> old(setup) || (peerCaps.Some? && !C.IsEmpty(peerCaps.value) && FindSinkByCaps(sinks, peerCaps.value).Some?)
      ensures old(setup) ==> child == old(child)
      ensures !old(setup) && setup ==> child == FindSinkByCaps(sinks, peerCaps.value)
      ensures setup ==> !asyncPending && !needAsyncStart
      ensures setup ==> posted == old(posted) + if old(asyncPending) then [AsyncDone] else []
      ensures !setup ==> asyncPending == old(asyncPending) && needAsyncStart == old(needAsyncStart)
      ensures !setup && (peerCaps.None? || C.IsEmpty(peerCaps.value)) ==> child == old(child) && posted == old(posted)
      ensures !setup && peerCaps.Some? && !C.IsEmpty(peerCaps.value) ==> child.None? && posted == old(posted) + [NoUsableSink]
    {
      if !setup {
        if peerCaps.None? || C.IsEmpty(peerCaps.value) {
          sinkBlockId := 0;
          return;
        }
        var ok := Reconfigure(peerCaps.value);
        if !ok {
          sinkBlockId := 0;
          return;
        }
        setup := true;
      }
      DoAsyncDone();
      sinkBlockId := 0;
    }

    /**
     * The part of change_state before the parent class runs: discovery on
     * NULL to READY; on READY to PAUSED an async start is needed, the
     * blocking probe (`probeId`) is installed unless one is, and the result
     * becomes ASYNC.
     */
    method PrepareChange(transition: StateChange, probeId: Uint32, registry: seq<PluginFeature>, probe: PluginFeature -> Probe)
      returns (ret: StateChangeReturn)
      requires Valid()
      modifies this`sinks, this`videoCaps, this`needAsyncStart, this`sinkBlockId, this`asyncPending, this`posted
      ensures Valid()
      ensures ret == if transition == ReadyToPaused then Async else Success
      ensures transition == NullToReady ==> sinks == old(sinks) + Found(registry, probe)
                                            && videoCaps == PublishedCaps(old(videoCaps), Found(registry, probe))
      ensures transition != NullToReady ==> sinks == old(sinks) && videoCaps == old(videoCaps)
      ensures transition == ReadyToPaused ==> && needAsyncStart && asyncPending
                                              && sinkBlockId == (if old(sinkBlockId) == 0 then probeId else old(sinkBlockId))
                                              && posted == old(posted) + [AsyncStart]
      ensures transition != ReadyToPaused ==> && needAsyncStart == old(needAsyncStart) && asyncPending == old(asyncPending)
                                              && sinkBlockId == old(sinkBlockId) && posted == old(posted)
    {
      ret := Success;
      match transition
      case NullToReady =>
        Discover(registry, probe);
      case ReadyToPaused =>
        needAsyncStart := true;
        if sinkBlockId == 0 {
          sinkBlockId := probeId;
        }
        ret := Async;
        DoAsyncStart();
      case _ =>
    }

    /**
     * The part of change_state after the parent class succeeded: PLAYING to
     * PAUSED needs an async start again; PAUSED to READY removes the probe,
     * unlinks and drops the child and forgets the setup; READY to NULL frees
     * the candidates and finishes any pending async transition.
     */
    method FinishChange(transition: StateChange)
      requires Valid()
      modifies this`needAsyncStart, this`sinkBlockId, this`target, this`child, this`setup, this`sinks, this`asyncPending, this`posted
      ensures Valid()
      ensures transition == PlayingToPaused ==> needAsyncStart && asyncPending == old(asyncPending)
      ensures transition == PausedToReady ==> sinkBlockId == 0 && child.None? && target.None? && !setup
      ensures transition == ReadyToNull ==> && sinks == [] && !asyncPending && !needAsyncStart
                                            && posted == old(posted) + (if old(asyncPending) then [AsyncDone] else [])
      ensures transition != PausedToReady ==> sinkBlockId == old(sinkBlockId) && child == old(child) && setup == old(setup)
      ensures transition != ReadyToNull ==> sinks == old(sinks) && posted == old(posted)
      ensures transition !in {PlayingToPaused, ReadyToNull} ==> needAsyncStart == old(needAsyncStart) && asyncPending == old(asyncPending)
    {
      match transition
      case PlayingToPaused =>
        needAsyncStart := true;
      case PausedToReady =>
        if sinkBlockId != 0 {
          sinkBlockId := 0;
        }
        target := None;
        if child.Some? {
          child := None;
        }
        setup := false;
      case ReadyToNull =>
        Destroy();
        DoAsyncDone();
      case _ =>
    }

    /**
     * clutter_gst_auto_video_sink_change_state. `parentResult` is what the
     * parent class's change_state returns for the children. FAILURE is
     * returned at once; NO_PREROLL finishes any pending async transition and
     * is returned; ASYNC is returned; SUCCESS keeps the bin's own result.
     */
    method ChangeState(transition: StateChange, parentResult: StateChangeReturn, probeId: Uint32,
                       registry: seq<PluginFeature>, probe: PluginFeature -> Probe)
      returns (ret: StateChangeReturn)
      requires Valid()
      modifies this`sinks, this`videoCaps, this`needAsyncStart, this`sinkBlockId, this`asyncPending, this`posted,
               this`target, this`child, this`setup
      ensures Valid()
      ensures ret == match parentResult
                     case Success => if transition == ReadyToPaused then Async else Success
                     case _ => parentResult
      ensures transition == NullToReady ==> videoCaps == PublishedCaps(old(videoCaps), Found(registry, probe))
      ensures transition == NullToReady && parentResult != Failure ==> sinks == old(sinks) + Found(registry, probe)
      ensures transition == ReadyToPaused ==> sinkBlockId == (if old(sinkBlockId) == 0 then probeId else old(sinkBlockId))
      ensures transition == ReadyToPaused && parentResult != NoPreroll ==> asyncPending
      ensures parentResult == NoPreroll ==> !asyncPending && (needAsyncStart <==> transition == PlayingToPaused)
      ensures transition == PlayingToPaused && parentResult != Failure ==> needAsyncStart
      ensures transition == PausedToReady && parentResult != Failure ==> sinkBlockId == 0 && child.None? && !setup
      ensures transition == ReadyToNull && parentResult != Failure ==> sinks == [] && !asyncPending && !needAsyncStart
      ensures parentResult == Failure ==> child == old(child) && setup == old(setup)
      // the bus: async-start for READY to PAUSED, async-done when one is pending and do_async_done runs
      ensures posted == old(posted)
                        + (if transition == ReadyToPaused then [AsyncStart] else [])
                        + (if AsyncDoneRuns(transition, parentResult) && (transition == ReadyToPaused || old(asyncPending))
                           then [AsyncDone] else [])
      ensures asyncPending == if AsyncDoneRuns(transition, parentResult) then false
                              else transition == ReadyToPaused || old(asyncPending)
      ensures needAsyncStart == if parentResult != Failure && transition == PlayingToPaused then true
                                else if AsyncDoneRuns(transition, parentResult) then false
                                else transition == ReadyToPaused || old(needAsyncStart)
      // the candidates: found on NULL to READY whatever the children answer, freed on a successful READY to NULL
      ensures sinks == if transition == NullToReady then old(sinks) + Found(registry, probe)
                       else if transition == ReadyToNull && parentResult != Failure then []
                       else old(sinks)
      ensures transition != NullToReady ==> videoCaps == old(videoCaps)
      // the probe, the child and the setup
      ensures sinkBlockId == if transition == ReadyToPaused then (if old(sinkBlockId) == 0 then probeId else old(sinkBlockId))
                             else if transition == PausedToReady && parentResult != Failure then 0
                             else old(sinkBlockId)
      ensures !(transition == PausedToReady && parentResult != Failure) ==> child == old(child) && setup == old(setup)
    {
      ret := PrepareChange(transition, probeId, registry, probe);
      ret := ApplyParentResult(transition, parentResult, ret);
    }

    /**
     * The part of change_state once the parent class has run: FAILURE is
     * returned at once, NO_PREROLL finishes any pending async transition,
     * and every result but FAILURE goes on to the per-transition cleanup.
     * `prepared` is the bin's own result so far.
     */
    method ApplyParentResult(transition: StateChange, parentResult: StateChangeReturn, prepared: StateChangeReturn)
      returns (ret: StateChangeReturn)
      requires Valid()
      modifies this`needAsyncStart, this`sinkBlockId, this`target, this`child, this`setup, this`sinks, this`asyncPending, this`posted
      ensures Valid()
      ensures ret == if parentResult == Success then prepared else parentResult
      ensures posted == old(posted) + if AsyncDoneRuns(transition, parentResult) && old(asyncPending) then [AsyncDone] else []
      ensures asyncPending == (!AsyncDoneRuns(transition, parentResult) && old(asyncPending))
      ensures needAsyncStart == if parentResult != Failure && transition == PlayingToPaused then true
                                else if AsyncDoneRuns(transition, parentResult) then false
                                else old(needAsyncStart)
      ensures sinks == if transition == ReadyToNull && parentResult != Failure then [] else old(sinks)
      ensures transition == PausedToReady && parentResult != Failure ==> sinkBlockId == 0 && child.None? && !setup
      ensures !(transition == PausedToReady && parentResult != Failure) ==>
                sinkBlockId == old(sinkBlockId) && child == old(child) && setup == old(setup)
    {
      match parentResult {
        case Failure =>
          return Failure;
        case NoPreroll =>
          DoAsyncDone();
          ret := NoPreroll;
        case Async =>
          ret := Async;
        case Success =>
          ret := prepared;
      }
      FinishChange(transition);
    }
  }

  /**
   * Whether change_state runs do_async_done: on a NO_PREROLL answer of the
   * children, and after a successful READY to NULL.
   */
  function AsyncDoneRuns(transition: StateChange, parentResult: StateChangeReturn): bool {
    parentResult == NoPreroll || (parentResult != Failure && transition == ReadyToNull)
  }

  /**
   * After a discovery that found candidates, a caps query is answered with
   * their union, and the bin accepts exactly the caps a child can be found for.
   */
  lemma DiscoveredCapsDecideAcceptance(previous: Option<C.Caps>, found: seq<SinkElement>, caps: C.Caps)
    requires found != [] && exists j :: 0 <= j < |found| && !C.IsEmpty(found[j].caps)
    ensures PublishedCaps(previous, found) == Some(UnionCaps(found))
    ensures AcceptCaps(PublishedCaps(previous, found), caps) <==> FindSinkByCaps(found, caps).Some?
  {
    UnionCapsEmpty(found);
    AcceptIffSinkFound(found, caps);
  }
}
