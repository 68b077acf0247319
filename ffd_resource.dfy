/** The shader-variant pool of the free-form deformation task: one GPU program
    per (brush type, hardness level) pair, stored row by row in a flat array,
    plus a single blur program. Compilation and linking are opaque here; a
    program is represented by the variant it was built as and the
    transform-feedback outputs it declares. */
module FfdResource {

  /** Brush type codes. Each has a row of programs, one per hardness level. */
  const kTypeDeformer: int := 0
  const kTypeEraser: int := 1
  const kType: nat := 2

  /** Names of the transform-feedback outputs declared before linking. */
  const kOutPosition: string := "outPosition"
  const kOutWeight: string := "outWeight"

  datatype ShaderProgram =
    | Unbuilt
    | Variant(brushType: int, hardness: int, feedback: seq<string>)
    | Blur(feedback: seq<string>)

  /** The program buildShader produces for one variant: the hardness value is
      substituted into the source text, and a deformer declares the weight
      output after the position, every other type the position alone. */
  function BuildShader(brushType: int, hard: int): (program: ShaderProgram)
  {
    Variant(brushType, hard,
            if brushType == kTypeDeformer then [kOutPosition, kOutWeight] else [kOutPosition])
  }

  /** The blur program: no variation, one feedback output. */
  function BuildBlurShader(): (program: ShaderProgram)
  {
    Blur([kOutPosition])
  }

  /** Position of a variant in the flat program array. */
  function SlotIndex(brushType: int, hard: int, kHardness: nat): (slot: int)
  {
    brushType * kHardness + hard
  }

  /** A key that names a variant of the grid. */
  predicate KeyInRange(brushType: int, hard: int, kHardness: nat)
  {
    0 <= brushType < kType && 0 <= hard < kHardness
  }

  /** The guard that Resource::program asserts: upper bounds only. */
  predicate ProgramGuardAsWritten(brushType: int, hard: int, kHardness: nat)
  {
    brushType < kType && hard < kHardness
  }

  /** The array contents after setup: slot i holds the variant whose row is
      i / kHardness and whose hardness is i % kHardness. */
  function ProgramTable(kHardness: nat): (table: seq<ShaderProgram>)
  {
    seq(kType * kHardness, i => if kHardness == 0 then Unbuilt else BuildShader(i / kHardness, i % kHardness))
  }

  /** Every in-range key addresses a slot of the kType * kHardness array. */
  lemma SlotInRange(brushType: int, hard: int, kHardness: nat)
    requires KeyInRange(brushType, hard, kHardness)
    ensures 0 <= SlotIndex(brushType, hard, kHardness) < kType * kHardness
  {
  }

  /** The slot of a key decodes back to that key: row by division, hardness
      by remainder. */
  lemma SlotDecode(brushType: int, hard: int, kHardness: nat)
    requires KeyInRange(brushType, hard, kHardness)
    ensures SlotIndex(brushType, hard, kHardness) / kHardness == brushType
    ensures SlotIndex(brushType, hard, kHardness) % kHardness == hard
  {
  }

  /** Distinct keys address distinct slots. */
  lemma SlotInjective(t1: int, h1: int, t2: int, h2: int, kHardness: nat)
    requires KeyInRange(t1, h1, kHardness) && KeyInRange(t2, h2, kHardness)
    requires SlotIndex(t1, h1, kHardness) == SlotIndex(t2, h2, kHardness)
    ensures t1 == t2 && h1 == h2
  {
  }

  /** After setup the slot of a key holds exactly that key's variant. */
  lemma ProgramTableAt(brushType: int, hard: int, kHardness: nat)
    requires KeyInRange(brushType, hard, kHardness)
    ensures 0 <= SlotIndex(brushType, hard, kHardness) < |ProgramTable(kHardness)|
    ensures ProgramTable(kHardness)[SlotIndex(brushType, hard, kHardness)] == BuildShader(brushType, hard)
  {
  }

  /** Resource::program asserts only upper bounds, so a negative hardness
      passes the guard: for the deformer it addresses a slot before the array,
      and for the eraser it silently addresses the last deformer variant. */
  lemma GuardAdmitsNegativeHardness(kHardness: nat)
    requires kHardness > 0
    ensures ProgramGuardAsWritten(kTypeDeformer, -1, kHardness)
    ensures !KeyInRange(kTypeDeformer, -1, kHardness)
    ensures SlotIndex(kTypeDeformer, -1, kHardness) < 0
    ensures ProgramGuardAsWritten(kTypeEraser, -1, kHardness)
    ensures SlotIndex(kTypeEraser, -1, kHardness) == SlotIndex(kTypeDeformer, kHardness - 1, kHardness)
  {
  }

  /** Task::Resource: the program grid and the blur program. */
  class Resource {
    const hardnessLevels: nat              // kHardness
    const programs: array<ShaderProgram>   // mProgram, kVariation slots
    var blurProgram: ShaderProgram         // mBlurProgram

    predicate Valid()
    {
      programs.Length == kType * hardnessLevels
    }

    /** Every slot and the blur program hold what setup builds. */
    ghost predicate Ready()
      reads this, programs
    {
      Valid() && programs[..] == ProgramTable(hardnessLevels) && blurProgram == BuildBlurShader()
    }

    /** The constructor asserts that the array size kVariation is kType * kHardness. */
    constructor (kHardness: nat, kVariation: nat)
      requires kType * kHardness == kVariation
      ensures Valid() && hardnessLevels == kHardness && programs.Length == kVariation
      ensures fresh(programs)
      ensures forall i :: 0 <= i < programs.Length ==> programs[i] == Unbuilt
      ensures blurProgram == Unbuilt
    {
      hardnessLevels := kHardness;
      programs := new ShaderProgram[kVariation](_ => Unbuilt);
      blurProgram := Unbuilt;
    }

    /** setup: fills the deformer row, then the eraser row, one slot per
        hardness level, then builds the blur program. `written` lists the
        slots in the order they are assigned: each slot exactly once. Loading
        and compile failures halt the process and are not modelled. */
    method Setup() returns (ghost written: seq<int>)
      requires Valid()
      modifies programs, this`blurProgram
      ensures Ready()
      ensures |written| == programs.Length
      ensures forall j :: 0 <= j < |written| ==> written[j] == j
    {
      written := [];
      var hard := 0;
      while hard < hardnessLevels
        invariant 0 <= hard <= hardnessLevels
        invariant forall j :: 0 <= j < hard ==> programs[j] == BuildShader(kTypeDeformer, j)
        invariant |written| == hard
        invariant forall j :: 0 <= j < hard ==> written[j] == j
      {
        var slot := SlotIndex(kTypeDeformer, hard, hardnessLevels);
        SlotInRange(kTypeDeformer, hard, hardnessLevels);
        programs[slot] := BuildShader(kTypeDeformer, hard);
        written := written + [slot];
        hard := hard + 1;
      }
      hard := 0;
      while hard < hardnessLevels
        invariant 0 <= hard <= hardnessLevels
        invariant forall j :: 0 <= j < hardnessLevels ==> programs[j] == BuildShader(kTypeDeformer, j)
        invariant forall j :: 0 <= j < hard ==> programs[hardnessLevels + j] == BuildShader(kTypeEraser, j)
        invariant |written| == hardnessLevels + hard
        invariant forall j :: 0 <= j < |written| ==> written[j] == j
      {
        var slot := SlotIndex(kTypeEraser, hard, hardnessLevels);
        SlotInRange(kTypeEraser, hard, hardnessLevels);
        programs[slot] := BuildShader(kTypeEraser, hard);
        written := written + [slot];
        hard := hard + 1;
      }
      blurProgram := BuildBlurShader();
      forall i | 0 <= i < programs.Length
        ensures programs[i] == ProgramTable(hardnessLevels)[i]
      {
        if i < hardnessLevels {
          SlotDecode(kTypeDeformer, i, hardnessLevels);
        } else {
          SlotDecode(kTypeEraser, i - hardnessLevels, hardnessLevels);
        }
      }
    }

    /** program: the variant stored for a key. The model demands the whole
        key range; the source asserts only the upper bounds. */
    function Program(brushType: int, hard: int): (p: ShaderProgram)
      reads this, programs
      requires Valid() && KeyInRange(brushType, hard, hardnessLevels)
      ensures Ready() ==> p == BuildShader(brushType, hard)
    {
      ProgramTableAt(brushType, hard, hardnessLevels);
      programs[SlotIndex(brushType, hard, hardnessLevels)]
    }
  }
}
