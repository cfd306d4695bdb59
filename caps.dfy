/**
 * Abstract GStreamer caps. A caps value is either ANY or a finite set of
 * format tags; intersection is set intersection, merging is set union and
 * emptiness is set emptiness.
 */
module GstCaps {

  /** The GstVideoFormat values the sinks distinguish; every other format is `Other`. */
  datatype GstFormat =
    | YV12 | NV12 | I420 | AYUV | RGB | BGR | RGBA | BGRA | Encoded
    | Other(code: nat)

  /**
   * One caps structure: plain raw video in a format, raw video carrying the
   * GL-texture-upload meta feature, or the hardware surface media type.
   */
  datatype CapsTag = Raw(format: GstFormat) | GLUpload(format: GstFormat) | Surface

  datatype Caps = Any | Set(tags: set<CapsTag>)

  const EMPTY: Caps := Set({})

  /** gst_caps_is_empty */
  predicate IsEmpty(c: Caps) {
    c == EMPTY
  }

  /** gst_caps_intersect */
  function Intersect(a: Caps, b: Caps): (r: Caps)
    ensures a.Any? ==> r == b
    ensures b.Any? ==> r == a
  {
    match (a, b)
    case (Any, _) => b
    case (_, Any) => a
    case (Set(x), Set(y)) => Set(x * y)
  }

  /** gst_caps_merge: the union of both caps; ANY absorbs everything. */
  function Merge(a: Caps, b: Caps): (r: Caps)
    ensures IsEmpty(r) <==> IsEmpty(a) && IsEmpty(b)
  {
    match (a, b)
    case (Any, _) => Any
    case (_, Any) => Any
    case (Set(x), Set(y)) => Set(x + y)
  }

  /** A caps value meets a merge exactly when it meets one of the two parts. */
  lemma IntersectMerge(c: Caps, a: Caps, b: Caps)
    ensures !IsEmpty(Intersect(c, Merge(a, b))) <==>
            !IsEmpty(Intersect(c, a)) || !IsEmpty(Intersect(c, b))
  {
    match (c, a, b)
    case (Set(x), Set(y), Set(z)) =>
      if !IsEmpty(Intersect(c, a)) {
        var t :| t in x * y;
        assert t in x * (y + z);
      } else if !IsEmpty(Intersect(c, b)) {
        var t :| t in x * z;
        assert t in x * (y + z);
      }
    case _ =>
  }
}
