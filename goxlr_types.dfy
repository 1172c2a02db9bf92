/** The enumerations the profile code indexes its maps by, with the tag
    names and suffixes it matches against. They are declared in lib.rs,
    which is not part of this model; the names here are the ones the
    profile XML uses for them. */
module GoXLRTypes {
  /** An XML attribute: local name and value. */
  datatype Attribute = Attribute(name: string, value: string)

  /** The six effect presets, in `Preset::iter()` order. */
  datatype Preset = Preset1 | Preset2 | Preset3 | Preset4 | Preset5 | Preset6

  const PRESETS: seq<Preset> := [Preset1, Preset2, Preset3, Preset4, Preset5, Preset6]

  /** `tagSuffix`, appended to an effect's tag name for its per-preset element. */
  function TagSuffix(p: Preset): string
  {
    match p
    case Preset1 => "preset1"
    case Preset2 => "preset2"
    case Preset3 => "preset3"
    case Preset4 => "preset4"
    case Preset5 => "preset5"
    case Preset6 => "preset6"
  }

  /** `contextTitle`, the tag of a preset's `effects` element. */
  function ContextTitle(p: Preset): string
  {
    match p
    case Preset1 => "effects1"
    case Preset2 => "effects2"
    case Preset3 => "effects3"
    case Preset4 => "effects4"
    case Preset5 => "effects5"
    case Preset6 => "effects6"
  }

  /** The four faders, in `Faders::iter()` order. */
  datatype Fader = A | B | C | D

  const FADERS: seq<Fader> := [A, B, C, D]

  /** The five sample buttons. */
  datatype SampleButton = TopLeft | TopRight | BottomLeft | BottomRight | Clear

  /** The simple (colour-only) elements, in `SimpleElements::iter()` order. */
  datatype SimpleElement = SampleBankA | SampleBankB | SampleBankC | FxClear | Swear | GlobalColour | LogoX

  const SIMPLE_ELEMENTS: seq<SimpleElement> := [SampleBankA, SampleBankB, SampleBankC, FxClear, Swear, GlobalColour, LogoX]

  /** The tag (and `FromStr` name) of a simple element. */
  function SimpleTag(e: SimpleElement): string
  {
    match e
    case SampleBankA => "sampleBankA"
    case SampleBankB => "sampleBankB"
    case SampleBankC => "sampleBankC"
    case FxClear => "fxClear"
    case Swear => "swear"
    case GlobalColour => "globalColour"
    case LogoX => "logoX"
  }
}
