/**
 * The process-wide shader program cache of the video sink: a table from
 * shader source text to a linked program, so each distinct source is
 * compiled once however often renderers are initialised.
 */
module Programs {

  /** A Cogl program handle; `create` hands out a new one for each compilation. */
  type Program = nat

  class ProgramCache {
    /** The hash table: source text to program. */
    var programs: map<string, Program>
    /** Every source passed to `_create_cogl_program`, in call order. */
    var compiled: seq<string>
    /** The next handle Cogl will return. */
    var nextHandle: nat

    ghost predicate Valid()
      reads this
    {
      && (forall s :: s in programs <==> s in compiled)
      && (forall i, j :: 0 <= i < j < |compiled| ==> compiled[i] != compiled[j])
      && (forall s :: s in programs ==> programs[s] < nextHandle)
      && (forall s, t :: s in programs && t in programs && s != t ==> programs[s] != programs[t])
    }

    /** The table as first created: empty. */
    constructor ()
      ensures Valid() && programs == map[] && compiled == []
    {
      programs := map[];
      compiled := [];
      nextHandle := 1;
    }

    /**
     * _get_cached_cogl_program: return the cached program for `source`, or
     * compile one, store it and return it.
     */
    method Get(source: string) returns (handle: Program)
      requires Valid()
      modifies this
      ensures Valid()
      ensures source in programs && handle == programs[source]
      ensures source in old(programs) ==>
                handle == old(programs)[source] && programs == old(programs) && compiled == old(compiled)
      ensures source !in old(programs) ==>
                programs == old(programs)[source := handle] && compiled == old(compiled) + [source]
                && handle !in old(programs).Values
    {
      if source in programs {
        handle := programs[source];
      } else {
        handle := nextHandle;
        nextHandle := nextHandle + 1;
        compiled := compiled + [source];
        programs := programs[source := handle];
      }
    }

    /**
     * Two lookups of the same source give the same program, and between
     * them the source is compiled at most once.
     */
    method GetTwice(source: string) returns (first: Program, second: Program)
      requires Valid()
      modifies this
      ensures Valid()
      ensures first == second
      ensures compiled == old(compiled) || compiled == old(compiled) + [source]
    {
      first := Get(source);
      second := Get(source);
    }
  }
}
