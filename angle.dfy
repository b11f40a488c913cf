/**
 * The part of ANGLE's shader translator API (`sh::*`) the translator calls,
 * as an oracle. ANGLE's code is not part of this model: what a construction
 * or a compile yields is fixed by an `Oracle` value, and a `Compilers` object
 * keeps the handles that are alive, what the last compile on each one left
 * behind, and a ghost trace of the calls made.
 */
module Angle {
  import opened Wrappers
  import opened ShaderTypes
  import opened Reflection

  /** A 32-bit word of a SPIR-V binary (sh::BinaryBlob is a vector of uint32_t). */
  type Word = w: int | 0 <= w < 0x1_0000_0000

  /** What `sh::ConstructCompiler` is given. */
  datatype Config = Config(stage: Stage, spec: Spec, output: Output, resources: Resources)

  /** What a call to `sh::Compile` leaves in its handle for the getters to read. */
  datatype CompileOutcome = CompileOutcome(
    success: bool,
    infoLog: string,
    objectCode: string,
    blob: seq<Word>,
    variables: ActiveVariables)

  /**
   * ANGLE's behaviour, fixed for a run: the record `sh::InitBuiltInResources`
   * fills, whether a construction succeeds, and what compiling a C string
   * with given options produces.
   */
  datatype Oracle = Oracle(
    initResources: Resources,
    constructs: Config -> bool,
    compile: (Config, string, CompileOptions) -> CompileOutcome)

  /** The calls the translator makes, as they happen. */
  datatype Event = Constructed(handle: nat) | ConstructFailed | Compiled(handle: nat) | Destructed(handle: nat)

  /** Removing a key that was just added gives back the map it was added to. */
  lemma RemoveAdded<K, V>(m: map<K, V>, k: K, v: V)
    requires k !in m
    ensures m[k := v] - {k} == m
  {
  }

  class Compilers {
    const oracle: Oracle
    /** The live handles and what each was constructed with; 0 is never a handle. */
    var live: map<nat, Config>
    /** The outcome of the last compile on each live handle that has been compiled. */
    var outcomes: map<nat, CompileOutcome>
    /** The handle the next successful construction returns. */
    var next: nat
    ghost var trace: seq<Event>

    ghost predicate Valid()
      reads this
    {
      0 < next && (forall h | h in live :: 0 < h < next) && outcomes.Keys <= live.Keys
    }

    /** The number of compilers constructed and not yet destructed. */
    function LiveCount(): nat
      reads this
    {
      |live|
    }

    constructor (oracle: Oracle)
      ensures Valid() && this.oracle == oracle
      ensures live == map[] && outcomes == map[] && trace == []
    {
      this.oracle := oracle;
      live := map[];
      outcomes := map[];
      next := 1;
      trace := [];
    }

    /** `sh::ConstructCompiler`: a fresh handle, or None for the null handle. */
    method Construct(config: Config) returns (h: Option<nat>)
      requires Valid()
      modifies this
      ensures Valid()
      ensures h.Some? <==> oracle.constructs(config)
      ensures next == if h.Some? then old(next) + 1 else old(next)
      ensures h.Some? ==> h.value == old(next)
      ensures h.Some? ==> h.value !in old(live)
      ensures h.Some? ==> live == old(live)[h.value := config] && trace == old(trace) + [Constructed(h.value)]
      ensures h.None? ==> live == old(live) && trace == old(trace) + [ConstructFailed]
      ensures outcomes == old(outcomes)
    {
      if oracle.constructs(config) {
        h := Some(next);
        live := live[next := config];
        next := next + 1;
        trace := trace + [Constructed(h.value)];
      } else {
        h := None;
        trace := trace + [ConstructFailed];
      }
    }

    /** `sh::Compile` on one source string, already cut at its first NUL. */
    method Compile(h: nat, source: string, options: CompileOptions) returns (ok: bool)
      requires Valid() && h in live
      modifies this
      ensures Valid() && live == old(live) && next == old(next)
      ensures outcomes == old(outcomes)[h := oracle.compile(live[h], source, options)]
      ensures ok == outcomes[h].success
      ensures trace == old(trace) + [Compiled(h)]
    {
      var outcome := oracle.compile(live[h], source, options);
      outcomes := outcomes[h := outcome];
      trace := trace + [Compiled(h)];
      ok := outcome.success;
    }

    /** `sh::Destruct`: only a live handle may be destructed, so never twice. */
    method Destruct(h: nat)
      requires Valid() && h in live
      modifies this
      ensures Valid()
      ensures live == old(live) - {h} && outcomes == old(outcomes) - {h} && next == old(next)
      ensures LiveCount() == old(LiveCount()) - 1
      ensures trace == old(trace) + [Destructed(h)]
    {
      live := live - {h};
      outcomes := outcomes - {h};
      trace := trace + [Destructed(h)];
    }

    /** `sh::GetInfoLog`. */
    function InfoLog(h: nat): string
      reads this
      requires h in outcomes
    {
      outcomes[h].infoLog
    }

    /** `sh::GetObjectCode`. */
    function ObjectCode(h: nat): string
      reads this
      requires h in outcomes
    {
      outcomes[h].objectCode
    }

    /** `sh::GetObjectBinaryBlob`. */
    function ObjectBinaryBlob(h: nat): seq<Word>
      reads this
      requires h in outcomes
    {
      outcomes[h].blob
    }

    /** The eight reflection getters (`sh::GetAttributes` … `sh::GetInterfaceBlocks`). */
    function ActiveVariablesOf(h: nat): ActiveVariables
      reads this
      requires h in outcomes
    {
      outcomes[h].variables
    }
  }
}
