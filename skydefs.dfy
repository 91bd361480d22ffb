/** Sky definitions (SKYDEFS): the records, their defaults and the sky-type codes. */
module Skydefs {
  import opened Wrappers
  import opened Scalars

  /** Fire-sky animation parameters. */
  datatype Fire = Fire(updatetime: F32, palette: seq<u8>)

  /** A sky texture with its placement; scroll and scale are stored, never computed with. */
  datatype SkyTex = SkyTex(name: string, mid: u16, scrollx: F32, scrolly: F32, scalex: F32, scaley: F32)

  datatype SkyType = Standard | Fire | WithForeground

  /** A sky: its type, background texture, and the payload its type calls for. */
  datatype Sky = Sky(skyType: SkyType, backgroundtex: SkyTex, fire: Option<Fire>, foregroundtex: Option<SkyTex>)

  /** Maps a flat to a sky texture. */
  datatype FlatMapping = FlatMapping(flat: string, sky: string)

  /** 0.05715 seconds (two tics) as binary32. */
  const TwoTics: F32 := F32(0x3D6A_161E)

  /** `Fire::default()`. */
  const DefaultFire: Fire := Fire.Fire(TwoTics, [])

  /** `SkyTex::default()`. */
  const DefaultSkyTex: SkyTex := SkyTex("SKY1", 100, Zero, Zero, One, One)

  /** `Sky::default()`. */
  const DefaultSky: Sky := Sky(Standard, DefaultSkyTex, None, None)

  /** `FlatMapping::default()`. */
  const DefaultFlatMapping: FlatMapping := FlatMapping("F_SKY1", "SKY1")

  /** A sky whose payloads are those its type uses and no others. */
  predicate PayloadMatchesType(s: Sky)
  {
    match s.skyType
    case Standard => s.fire.None? && s.foregroundtex.None?
    case Fire => s.fire.Some? && s.foregroundtex.None?
    case WithForeground => s.fire.None? && s.foregroundtex.Some?
  }

  /** The defaults as documented; the default sky is a consistent standard sky. */
  lemma Defaults()
    ensures DefaultFire.palette == [] && DefaultFire.updatetime == TwoTics
    ensures DefaultSkyTex.name == "SKY1" && DefaultSkyTex.mid == 100
    ensures DefaultSkyTex.scrollx == DefaultSkyTex.scrolly == Zero
    ensures DefaultSkyTex.scalex == DefaultSkyTex.scaley == One
    ensures DefaultSky.skyType == Standard && DefaultSky.backgroundtex == DefaultSkyTex
    ensures PayloadMatchesType(DefaultSky)
    ensures DefaultFlatMapping.flat == "F_SKY1" && DefaultFlatMapping.sky == "SKY1"
  {
  }

  // ---------------------------------------------------------------------
  // SkyType: `#[repr(u8)]` codes in declaration order, and display names.
  // ---------------------------------------------------------------------

  const SkyTypes: seq<SkyType> := [Standard, SkyType.Fire, WithForeground]

  function SkyTypeCode(t: SkyType): (r: u8)
    ensures r < |SkyTypes| && SkyTypes[r] == t
  {
    match t
    case Standard => 0
    case Fire => 1
    case WithForeground => 2
  }

  function SkyTypeFromCode(code: u8): (r: Option<SkyType>)
    ensures r.Some? <==> code <= 2
    ensures r.Some? ==> SkyTypeCode(r.value) == code
  {
    if code < |SkyTypes| then Some(SkyTypes[code]) else None
  }

  /** The `Display` text of a sky type, as the type picker shows it. */
  function SkyTypeName(t: SkyType): (r: string)
    ensures |r| > 0
  {
    match t
    case Standard => "Standard"
    case Fire => "Fire"
    case WithForeground => "With Foreground"
  }

  /** Codes and names both tell the three sky types apart. */
  lemma SkyTypeTables(a: SkyType, b: SkyType)
    ensures SkyTypeFromCode(SkyTypeCode(a)) == Some(a)
    ensures SkyTypeCode(a) == SkyTypeCode(b) ==> a == b
    ensures SkyTypeName(a) == SkyTypeName(b) ==> a == b
  {
  }
}
