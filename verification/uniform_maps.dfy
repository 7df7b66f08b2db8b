/**
 * The uniform maps of the two outline passes, derived from the splat draw
 * command's own uniform map: the mask pass switches `u_outlineMaskPass` on,
 * the ring pass switches `u_outlineRingPass` on and the mask flag off.
 */
module UniformMaps {

  /** A uniform callback: a constant boolean flag, or any other uniform (identified, never inspected). */
  datatype Uniform = Flag(on: bool) | Other(id: int)

  const MaskPass: string := "u_outlineMaskPass"
  const RingPass: string := "u_outlineRingPass"

  /** `createOutlineMaskUniformMap`: every own uniform copied, then the mask flag set. */
  function MaskUniformMap(base: map<string, Uniform>): (m: map<string, Uniform>)
    ensures m.Keys == base.Keys + {MaskPass}
    ensures m[MaskPass] == Flag(true)
    ensures forall k :: k in base && k != MaskPass ==> m[k] == base[k]
  {
    base[MaskPass := Flag(true)]
  }

  /**
   * `createOutlineRingUniformMap`: every own uniform copied, except that the
   * ring flag is on and a present mask flag is off; the ring flag is added
   * when the base lacks it.
   */
  function RingUniformMap(base: map<string, Uniform>): (m: map<string, Uniform>)
    ensures m.Keys == base.Keys + {RingPass}
    ensures m[RingPass] == Flag(true)
    ensures MaskPass in base ==> m[MaskPass] == Flag(false)
    ensures forall k :: k in base && k != MaskPass && k != RingPass ==> m[k] == base[k]
  {
    var copied := map k | k in base :: if k == RingPass then Flag(true) else if k == MaskPass then Flag(false) else base[k];
    if RingPass in copied then copied else copied[RingPass := Flag(true)]
  }

  /** Deriving a pass map twice changes nothing: each pass map is a fixed point of its own derivation. */
  lemma DerivationsIdempotent(base: map<string, Uniform>)
    ensures MaskUniformMap(MaskUniformMap(base)) == MaskUniformMap(base)
    ensures RingUniformMap(RingUniformMap(base)) == RingUniformMap(base)
  {
    var r := RingUniformMap(base);
    var rr := RingUniformMap(r);
    assert rr.Keys == r.Keys;
    forall k | k in r ensures rr[k] == r[k] {
      if k == MaskPass {
        assert MaskPass in base;
      }
    }
  }

  /** The two pass maps never both switch their pass on: a ring map built from a mask map has the mask flag off. */
  lemma PassesExclusive(base: map<string, Uniform>)
    ensures RingUniformMap(MaskUniformMap(base))[MaskPass] == Flag(false)
    ensures RingUniformMap(MaskUniformMap(base))[RingPass] == Flag(true)
    ensures MaskUniformMap(base)[MaskPass] == Flag(true)
  {
  }
}
