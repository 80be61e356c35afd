/**
 The live-tunable parameter set `CFG` of the background (js/bg.js), its
 named presets, and `Object.assign` of a preset over it.
 */
module Config {
  import opened Options

  /** The numeric controls of `CFG`, one constructor per field. */
  datatype Key =
    | DominantWeight | Density | EdgeMargin
    | TwinkleRate | TwinkleMs | TwinkleDepth | TwinkleSizePulse
    | SwirlRadius | SwirlStrength | SwirlFalloff | VelDamp
    | ScrollStrength | ScrollDamp
    | RotActive | RotIdle | IdleDelayMs | IdleFadeMs
    | VignetteOuter

  datatype Config = Config(
    dominantWeight: real,   // share of dominant colours at spawn
    density: real,          // multiplier on the automatic count
    edgeMargin: real,       // off-screen spawn and wrap margin, px
    twinkleRate: real,      // twinkle starts per particle per second
    twinkleMs: real,        // twinkle duration
    twinkleDepth: real,     // alpha dip at the middle of a twinkle
    twinkleSizePulse: real, // size growth at the middle of a twinkle
    swirlRadius: real,
    swirlStrength: real,
    swirlFalloff: real,
    velDamp: real,          // per-frame factor on the swirl velocity
    scrollStrength: real,
    scrollDamp: real,
    rotActive: real,        // rad/ms while the user is active
    rotIdle: real,          // rad/ms once fully idle
    idleDelayMs: real,
    idleFadeMs: real,
    vignetteOuter: real,
    preset: string)

  /** The starting values of `CFG`. */
  const Initial: Config := Config(
    0.85, 1.0, 80.0,
    0.08, 1100.0, 0.85, 0.12,
    200.0, 0.10, 2.0, 0.92,
    0.10, 0.10,
    0.000003, 0.000010, 1200.0, 800.0,
    1.2,
    "Calm Nebula")

  /** Reads one numeric control, `CFG[k]`. */
  function Get(c: Config, k: Key): real
  {
    match k
    case DominantWeight => c.dominantWeight
    case Density => c.density
    case EdgeMargin => c.edgeMargin
    case TwinkleRate => c.twinkleRate
    case TwinkleMs => c.twinkleMs
    case TwinkleDepth => c.twinkleDepth
    case TwinkleSizePulse => c.twinkleSizePulse
    case SwirlRadius => c.swirlRadius
    case SwirlStrength => c.swirlStrength
    case SwirlFalloff => c.swirlFalloff
    case VelDamp => c.velDamp
    case ScrollStrength => c.scrollStrength
    case ScrollDamp => c.scrollDamp
    case RotActive => c.rotActive
    case RotIdle => c.rotIdle
    case IdleDelayMs => c.idleDelayMs
    case IdleFadeMs => c.idleFadeMs
    case VignetteOuter => c.vignetteOuter
  }

  /** A direct edit `CFG[k] = v`, as the tuning panel makes it. */
  function Set(c: Config, k: Key, v: real): (r: Config)
    ensures Get(r, k) == v
    ensures forall j :: j != k ==> Get(r, j) == Get(c, j)
    ensures r.preset == c.preset
  {
    match k
    case DominantWeight => c.(dominantWeight := v)
    case Density => c.(density := v)
    case EdgeMargin => c.(edgeMargin := v)
    case TwinkleRate => c.(twinkleRate := v)
    case TwinkleMs => c.(twinkleMs := v)
    case TwinkleDepth => c.(twinkleDepth := v)
    case TwinkleSizePulse => c.(twinkleSizePulse := v)
    case SwirlRadius => c.(swirlRadius := v)
    case SwirlStrength => c.(swirlStrength := v)
    case SwirlFalloff => c.(swirlFalloff := v)
    case VelDamp => c.(velDamp := v)
    case ScrollStrength => c.(scrollStrength := v)
    case ScrollDamp => c.(scrollDamp := v)
    case RotActive => c.(rotActive := v)
    case RotIdle => c.(rotIdle := v)
    case IdleDelayMs => c.(idleDelayMs := v)
    case IdleFadeMs => c.(idleFadeMs := v)
    case VignetteOuter => c.(vignetteOuter := v)
  }

  /** A preset overrides some of the controls. */
  type Preset = map<Key, real>

  const CalmNebula: Preset := map[
    DominantWeight := 0.9, Density := 1.0, TwinkleRate := 0.06, TwinkleMs := 1200.0,
    TwinkleDepth := 0.8, SwirlRadius := 180.0, SwirlStrength := 0.07, SwirlFalloff := 2.0,
    ScrollStrength := 0.08, RotActive := 0.000003, RotIdle := 0.000010, VignetteOuter := 1.2]
  const SpiralGalaxy: Preset := map[
    DominantWeight := 0.8, Density := 1.2, TwinkleRate := 0.07, TwinkleMs := 1400.0,
    TwinkleDepth := 0.9, SwirlRadius := 260.0, SwirlStrength := 0.12, SwirlFalloff := 1.8,
    ScrollStrength := 0.12, RotActive := 0.000004, RotIdle := 0.000014, VignetteOuter := 1.35]
  const StarfieldCalm: Preset := map[
    DominantWeight := 0.95, Density := 0.9, TwinkleRate := 0.04, TwinkleMs := 1000.0,
    TwinkleDepth := 0.7, SwirlRadius := 140.0, SwirlStrength := 0.05, SwirlFalloff := 2.4,
    ScrollStrength := 0.06, RotActive := 0.000002, RotIdle := 0.000007, VignetteOuter := 1.15]
  const SwirlStorm: Preset := map[
    DominantWeight := 0.75, Density := 1.4, TwinkleRate := 0.10, TwinkleMs := 1200.0,
    TwinkleDepth := 0.95, SwirlRadius := 300.0, SwirlStrength := 0.16, SwirlFalloff := 1.6,
    ScrollStrength := 0.14, RotActive := 0.000005, RotIdle := 0.000018, VignetteOuter := 1.4]

  /** The own keys of `PRESETS`. */
  const PresetNames: set<string> := {"Calm Nebula", "Spiral Galaxy", "Starfield (calm)", "Swirl Storm"}

  /** `PRESETS[name]` for an own key. */
  function OwnPreset(name: string): (p: Preset)
    requires name in PresetNames
    ensures p.Keys == PresetKeys
  {
    if name == "Calm Nebula" then CalmNebula
    else if name == "Spiral Galaxy" then SpiralGalaxy
    else if name == "Starfield (calm)" then StarfieldCalm
    else SwirlStorm
  }

  /** The keys every preset sets; the other six controls are never touched by one. */
  const PresetKeys: set<Key> := {
    DominantWeight, Density, TwinkleRate, TwinkleMs, TwinkleDepth, SwirlRadius,
    SwirlStrength, SwirlFalloff, ScrollStrength, RotActive, RotIdle, VignetteOuter}

  /**
   Names that `PRESETS[name]` resolves through the prototype chain to a
   member of `Object.prototype`: the lookup is truthy, but the object has
   no own enumerable keys for `Object.assign` to copy.
   */
  const InheritedNames: set<string> := {
    "constructor", "__proto__", "hasOwnProperty", "isPrototypeOf",
    "propertyIsEnumerable", "toString", "toLocaleString", "valueOf",
    "__defineGetter__", "__defineSetter__", "__lookupGetter__", "__lookupSetter__"}

  /** `PRESETS[name]`, or None when it is falsy (undefined). */
  function Lookup(name: string): (p: Option<Preset>)
    ensures name in PresetNames ==> p == Some(OwnPreset(name))
    ensures name !in PresetNames && name in InheritedNames ==> p == Some(map[])
    ensures p.None? <==> name !in PresetNames && name !in InheritedNames
  {
    if name in PresetNames then Some(OwnPreset(name))
    else if name in InheritedNames then Some(map[])
    else None
  }

  /** The value `Object.assign(CFG, p)` leaves under key `k`. */
  function Pick(c: Config, p: Preset, k: Key): real
  {
    if k in p then p[k] else Get(c, k)
  }

  /** `Object.assign(CFG, p)`, field by field. */
  function Merge(c: Config, p: Preset): Config
  {
    Config(
      Pick(c, p, DominantWeight), Pick(c, p, Density), Pick(c, p, EdgeMargin),
      Pick(c, p, TwinkleRate), Pick(c, p, TwinkleMs), Pick(c, p, TwinkleDepth),
      Pick(c, p, TwinkleSizePulse), Pick(c, p, SwirlRadius), Pick(c, p, SwirlStrength),
      Pick(c, p, SwirlFalloff), Pick(c, p, VelDamp), Pick(c, p, ScrollStrength),
      Pick(c, p, ScrollDamp), Pick(c, p, RotActive), Pick(c, p, RotIdle),
      Pick(c, p, IdleDelayMs), Pick(c, p, IdleFadeMs), Pick(c, p, VignetteOuter),
      c.preset)
  }

  /** After the merge every key of `p` reads `p`'s value and every other key is unchanged. */
  lemma MergeSpec(c: Config, p: Preset)
    ensures forall k :: Get(Merge(c, p), k) == (if k in p then p[k] else Get(c, k))
    ensures Merge(c, p).preset == c.preset
  {
    var r := Merge(c, p);
    forall k ensures Get(r, k) == Pick(c, p, k) {
      match k
      case DominantWeight =>
      case Density =>
      case EdgeMargin =>
      case TwinkleRate =>
      case TwinkleMs =>
      case TwinkleDepth =>
      case TwinkleSizePulse =>
      case SwirlRadius =>
      case SwirlStrength =>
      case SwirlFalloff =>
      case VelDamp =>
      case ScrollStrength =>
      case ScrollDamp =>
      case RotActive =>
      case RotIdle =>
      case IdleDelayMs =>
      case IdleFadeMs =>
      case VignetteOuter =>
    }
  }

  /**
   The parameter half of `applyPreset(name)`: a falsy lookup changes
   nothing; otherwise the preset's keys and then `{ preset: name }` are
   assigned over the configuration.
   */
  function ApplyPreset(c: Config, name: string): (r: Config)
    ensures Lookup(name).None? ==> r == c
    ensures Lookup(name).Some? ==> r.preset == name
    ensures Lookup(name).Some? ==> forall k :: Get(r, k) == Pick(c, Lookup(name).value, k)
  {
    match Lookup(name)
    case None => c
    case Some(p) =>
      MergeSpec(c, p);
      RenameKeepsControls(Merge(c, p), name);
      Merge(c, p).(preset := name)
  }

  /**
   `applyPreset` by name: one of the four presets sets exactly the twelve
   preset keys and leaves the other six controls alone; an inherited
   prototype name only renames; any other name changes nothing.
   */
  lemma ApplyPresetByName(c: Config, name: string)
    ensures name in PresetNames ==>
      && ApplyPreset(c, name).preset == name
      && (forall k :: k in PresetKeys ==> Get(ApplyPreset(c, name), k) == OwnPreset(name)[k])
      && (forall k :: k !in PresetKeys ==> Get(ApplyPreset(c, name), k) == Get(c, k))
    ensures name !in PresetNames && name in InheritedNames ==>
      && ApplyPreset(c, name).preset == name
      && (forall k :: Get(ApplyPreset(c, name), k) == Get(c, k))
    ensures name !in PresetNames && name !in InheritedNames ==> ApplyPreset(c, name) == c
  {
  }

  /**
   The starting configuration names Calm Nebula, and applying it at boot
   moves the twelve preset controls to its values (so the dominant weight
   becomes 0.9, not the starting 0.85) and keeps the other six.
   */
  lemma BootPreset()
    ensures Lookup(Initial.preset).Some?
    ensures var c := ApplyPreset(Initial, Initial.preset);
      && c.preset == "Calm Nebula"
      && (forall k :: k in PresetKeys ==> Get(c, k) == CalmNebula[k])
      && (forall k :: k !in PresetKeys ==> Get(c, k) == Get(Initial, k))
      && c.dominantWeight == 0.9 && c.density == 1.0
  {
    CalmNebulaFacts();
    var c := ApplyPreset(Initial, Initial.preset);
    assert Get(c, DominantWeight) == Pick(Initial, CalmNebula, DominantWeight);
    assert Get(c, Density) == Pick(Initial, CalmNebula, Density);
  }

  lemma CalmNebulaFacts()
    ensures Lookup(Initial.preset) == Some(CalmNebula)
    ensures CalmNebula.Keys == PresetKeys
    ensures CalmNebula[DominantWeight] == 0.9 && CalmNebula[Density] == 1.0
  {
    assert OwnPreset(Initial.preset) == CalmNebula;
  }

  /** `Object.assign(CFG, { preset: name })` changes the preset name and no control. */
  lemma RenameKeepsControls(c: Config, name: string)
    ensures forall k :: Get(c.(preset := name), k) == Get(c, k)
  {
    forall k ensures Get(c.(preset := name), k) == Get(c, k) {
      match k
      case DominantWeight =>
      case Density =>
      case EdgeMargin =>
      case TwinkleRate =>
      case TwinkleMs =>
      case TwinkleDepth =>
      case TwinkleSizePulse =>
      case SwirlRadius =>
      case SwirlStrength =>
      case SwirlFalloff =>
      case VelDamp =>
      case ScrollStrength =>
      case ScrollDamp =>
      case RotActive =>
      case RotIdle =>
      case IdleDelayMs =>
      case IdleFadeMs =>
      case VignetteOuter =>
    }
  }

  /**
   Presets are a bulk merge, not a layer: whichever write comes last wins,
   a direct edit after a preset as well as a preset after a direct edit.
   */
  lemma LastWriteWins(c: Config, name: string, k: Key, v: real)
    ensures Get(Set(ApplyPreset(c, name), k, v), k) == v
    ensures name in PresetNames && k in PresetKeys ==>
      Get(ApplyPreset(Set(c, k, v), name), k) == OwnPreset(name)[k]
    ensures name in PresetNames && k !in PresetKeys ==>
      Get(ApplyPreset(Set(c, k, v), name), k) == v
  {
  }

  /** Applying the same preset twice is the same as applying it once. */
  lemma ApplyPresetIdempotent(c: Config, name: string)
    ensures ApplyPreset(ApplyPreset(c, name), name) == ApplyPreset(c, name)
  {
    var once := ApplyPreset(c, name);
    var twice := ApplyPreset(once, name);
    if Lookup(name).Some? {
      assert forall k :: Get(twice, k) == Get(once, k);
      GetDetermines(twice, once);
    }
  }

  /** Two configurations that agree on every control and on the preset name are equal. */
  lemma GetDetermines(a: Config, b: Config)
    requires forall k :: Get(a, k) == Get(b, k)
    requires a.preset == b.preset
    ensures a == b
  {
    assert Get(a, DominantWeight) == Get(b, DominantWeight);
    assert Get(a, Density) == Get(b, Density);
    assert Get(a, EdgeMargin) == Get(b, EdgeMargin);
    assert Get(a, TwinkleRate) == Get(b, TwinkleRate);
    assert Get(a, TwinkleMs) == Get(b, TwinkleMs);
    assert Get(a, TwinkleDepth) == Get(b, TwinkleDepth);
    assert Get(a, TwinkleSizePulse) == Get(b, TwinkleSizePulse);
    assert Get(a, SwirlRadius) == Get(b, SwirlRadius);
    assert Get(a, SwirlStrength) == Get(b, SwirlStrength);
    assert Get(a, SwirlFalloff) == Get(b, SwirlFalloff);
    assert Get(a, VelDamp) == Get(b, VelDamp);
    assert Get(a, ScrollStrength) == Get(b, ScrollStrength);
    assert Get(a, ScrollDamp) == Get(b, ScrollDamp);
    assert Get(a, RotActive) == Get(b, RotActive);
    assert Get(a, RotIdle) == Get(b, RotIdle);
    assert Get(a, IdleDelayMs) == Get(b, IdleDelayMs);
    assert Get(a, IdleFadeMs) == Get(b, IdleFadeMs);
    assert Get(a, VignetteOuter) == Get(b, VignetteOuter);
  }
}
