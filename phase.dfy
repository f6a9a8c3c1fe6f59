/** Which output the transform produces: the bundle or the runtime (hot-update) form. */
module Phase {

  newtype U32 = x: int | 0 <= x < 0x1_0000_0000

  datatype ModulePhase = Bundle | Runtime

  /** `phase as u32`: the enum's discriminant. */
  function Discriminant(p: ModulePhase): (n: U32)
    ensures n <= 1
  {
    if p.Bundle? then 0 else 1
  }

  /** `From<u32>`: 0 is `Bundle`, 1 is `Runtime`; any other value panics. */
  function FromU32(value: U32): (p: ModulePhase)
    requires value <= 1
    ensures p == Bundle <==> value == 0
    ensures p == Runtime <==> value == 1
  {
    if value == 0 then Bundle else Runtime
  }

  /** Decoding a discriminant gives the phase back, and encoding a valid value
      gives the value back. */
  lemma FromU32RoundTrip(p: ModulePhase, value: U32)
    requires value <= 1
    ensures FromU32(Discriminant(p)) == p
    ensures Discriminant(FromU32(value)) == value
  {
  }
}
