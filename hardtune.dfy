/** The hardtune effect of a profile (profile/src/components/hardtune.rs):
    the per-preset effect values with their bounded setters, the style
    table `set_style` applies, the string encodings of state, style and
    source, and the reading and writing of the `hardtuneEffect` elements. */
module HardTune {
  import opened Wrappers
  import opened Ints
  import opened Text
  import opened GoXLRTypes
  import opened Seqs

  /** `ParseError`: the ways reading an attribute can fail. */
  datatype ParseError = ExpectedInt | ExpectedFloat | ExpectedEnum | InvalidColours

  // ---- Style -------------------------------------------------------------

  datatype HardTuneStyle = Normal | Medium | Hard

  /** `HardTuneStyle::iter()` order. */
  const STYLES: seq<HardTuneStyle> := [Normal, Medium, Hard]

  /** The `uiIndex` property a style is written as. */
  function UiIndex(style: HardTuneStyle): string
  {
    match style
    case Normal => "0"
    case Medium => "1"
    case Hard => "2"
  }

  /** The first style, in iteration order, whose `uiIndex` is `value`. */
  function FirstWithUiIndex(styles: seq<HardTuneStyle>, value: string): (r: Option<HardTuneStyle>)
    ensures r.Some? ==> r.value in styles && UiIndex(r.value) == value
    ensures r.None? ==> forall s | s in styles :: UiIndex(s) != value
  {
    if styles == [] then None
    else if UiIndex(styles[0]) == value then Some(styles[0])
    else FirstWithUiIndex(styles[1..], value)
  }

  /** `uiIndex` is a bijection between the styles and "0", "1", "2". */
  lemma UiIndexRoundTrip(style: HardTuneStyle, value: string)
    ensures FirstWithUiIndex(STYLES, UiIndex(style)) == Some(style)
    ensures FirstWithUiIndex(STYLES, value).Some? <==> value in {"0", "1", "2"}
  {
    assert style in STYLES;
    if value in {"0", "1", "2"} {
      assert UiIndex(STYLES[value[0] as int - '0' as int]) == value;
    }
  }

  // ---- Source ------------------------------------------------------------

  datatype HardTuneSource = All | Music | Game | LineIn | System

  /** `Display` of a source. */
  function SourceName(source: HardTuneSource): string
  {
    match source
    case All => "ALL"
    case Music => "MUSIC"
    case Game => "GAME"
    case LineIn => "LINEIN"
    case System => "SYSTEM"
  }

  /** `HardTuneSource::from_str`: exactly the five names, case-sensitive. */
  function SourceFromStr(s: string): (r: Result<HardTuneSource, ParseError>)
    ensures r.Ok? ==> SourceName(r.value) == s
    ensures r.Err? ==> r.error == ExpectedEnum
  {
    if s == "ALL" then Ok(All)
    else if s == "MUSIC" then Ok(Music)
    else if s == "GAME" then Ok(Game)
    else if s == "LINEIN" then Ok(LineIn)
    else if s == "SYSTEM" then Ok(System)
    else Err(ExpectedEnum)
  }

  /** Names and sources are in bijection: every source's name parses back
      to it, and only the five names parse. */
  lemma SourceRoundTrip(source: HardTuneSource, s: string)
    ensures SourceFromStr(SourceName(source)) == Ok(source)
    ensures SourceFromStr(s).Ok? <==> s in {"ALL", "MUSIC", "GAME", "LINEIN", "SYSTEM"}
  {
  }

  // ---- State -------------------------------------------------------------

  /** `hardtuneEffectstate` as written. */
  function StateString(state: bool): string
  {
    if state then "1" else "0"
  }

  /** `hardtuneEffectstate` as read: "1" is on, anything else is off. */
  predicate ParseState(s: string)
  {
    s == "1"
  }

  lemma StateRoundTrip(state: bool)
    ensures ParseState(StateString(state)) == state
  {
  }

  // ---- The effect value and its setters ----------------------------------

  /** A snapshot of `HardTuneEffect`'s fields. */
  datatype Effect = Effect(
    state: bool, style: HardTuneStyle, keySource: byte, amount: byte,
    window: u16, rate: byte, scale: byte, pitchAmt: byte,
    source: Option<HardTuneSource>)

  /** `HardTuneEffect::new()`. */
  const DEFAULT_EFFECT: Effect := Effect(false, Normal, 0, 0, 0, 0, 0, 0, None)

  /** The ranges the checked setters accept. */
  predicate InBounds(e: Effect)
  {
    e.amount <= 100 && e.window <= 600 && e.rate <= 100 && e.pitchAmt == 0
  }

  /** `HardtunePreset`: the values a style stands for. */
  datatype HardtunePreset = HardtunePreset(amount: byte, window: u16, rate: byte, scale: byte, pitchAmt: byte)

  /** `HardtunePreset::get_preset`: every row lies within the setters' bounds. */
  function PresetForStyle(style: HardTuneStyle): (p: HardtunePreset)
    ensures p.amount <= 100 && p.window <= 600 && p.rate <= 100 && p.pitchAmt == 0
    ensures p.scale == 5
  {
    match style
    case Normal => HardtunePreset(70, 20, 20, 5, 0)
    case Medium => HardtunePreset(53, 20, 99, 5, 0)
    case Hard => HardtunePreset(100, 60, 100, 5, 0)
  }

  /** `e` after `set_style(style)`: the style and its table row. */
  function Styled(e: Effect, style: HardTuneStyle): Effect
  {
    var p := PresetForStyle(style);
    e.(style := style, amount := p.amount, window := p.window, rate := p.rate, scale := p.scale, pitchAmt := p.pitchAmt)
  }

  /** `set_style` leaves the state, key source and source alone and always
      lands within the setters' bounds; styling twice is styling once. */
  lemma StyledProperties(e: Effect, style: HardTuneStyle, other: HardTuneStyle)
    ensures var s := Styled(e, style);
      && InBounds(s)
      && s.state == e.state && s.keySource == e.keySource && s.source == e.source
      && Styled(Styled(e, other), style) == s
  {
  }

  class HardTuneEffect {
    var state: bool
    var style: HardTuneStyle
    var keySource: byte
    var amount: byte
    var window: u16
    var rate: byte
    var scale: byte
    var pitchAmt: byte
    var source: Option<HardTuneSource>

    function Value(): Effect
      reads this
    {
      Effect(state, style, keySource, amount, window, rate, scale, pitchAmt, source)
    }

    /** `HardTuneEffect::new()`: off, `Normal`, all values 0, no source. */
    constructor ()
      ensures Value() == DEFAULT_EFFECT
    {
      state, style, keySource, amount := false, Normal, 0, 0;
      window, rate, scale, pitchAmt, source := 0, 0, 0, 0, None;
    }

    method SetState(state: bool)
      modifies this
      ensures Value() == old(Value()).(state := state)
    {
      this.state := state;
    }

    /** Stores the style, then sets amount, window, rate, scale and pitch
        through the setters; the table rows always pass them. */
    method SetStyle(style: HardTuneStyle) returns (r: Result<(), string>)
      modifies this
      ensures r.Ok?
      ensures Value() == Styled(old(Value()), style)
    {
      this.style := style;
      var preset := PresetForStyle(style);
      r := SetAmount(preset.amount);
      if r.Err? { return; }
      r := SetWindow(preset.window);
      if r.Err? { return; }
      r := SetRate(preset.rate);
      if r.Err? { return; }
      SetScale(preset.scale);
      r := SetPitchAmt(preset.pitchAmt);
      if r.Err? { return; }
      r := Ok(());
    }

    /** Accepts a percentage; a larger value fails and changes nothing. */
    method SetAmount(value: byte) returns (r: Result<(), string>)
      modifies this
      ensures r.Err? <==> value > 100
      ensures r.Err? ==> r.error == "Amount should be a percentage"
      ensures Value() == if value > 100 then old(Value()) else old(Value()).(amount := value)
      ensures InBounds(old(Value())) ==> InBounds(Value())
    {
      if value > 100 {
        return Err("Amount should be a percentage");
      }
      amount := value;
      r := Ok(());
    }

    /** Accepts 0 to 600; a larger value fails and changes nothing. */
    method SetWindow(value: u16) returns (r: Result<(), string>)
      modifies this
      ensures r.Err? <==> value > 600
      ensures r.Err? ==> r.error == "Window should be between 0 and 600"
      ensures Value() == if value > 600 then old(Value()) else old(Value()).(window := value)
      ensures InBounds(old(Value())) ==> InBounds(Value())
    {
      if value > 600 {
        return Err("Window should be between 0 and 600");
      }
      window := value;
      r := Ok(());
    }

    /** Accepts a percentage; a larger value fails and changes nothing. */
    method SetRate(value: byte) returns (r: Result<(), string>)
      modifies this
      ensures r.Err? <==> value > 100
      ensures r.Err? ==> r.error == "Rate should be a percentage"
      ensures Value() == if value > 100 then old(Value()) else old(Value()).(rate := value)
      ensures InBounds(old(Value())) ==> InBounds(Value())
    {
      if value > 100 {
        return Err("Rate should be a percentage");
      }
      rate := value;
      r := Ok(());
    }

    /** Unchecked. */
    method SetScale(value: byte)
      modifies this
      ensures Value() == old(Value()).(scale := value)
    {
      scale := value;
    }

    /** Only 0 is accepted; anything else fails and changes nothing. */
    method SetPitchAmt(value: byte) returns (r: Result<(), string>)
      modifies this
      ensures r.Err? <==> value != 0
      ensures r.Err? ==> r.error == "Hardtune Pitch Amt should be 0.."
      ensures Value() == if value != 0 then old(Value()) else old(Value()).(pitchAmt := value)
      ensures InBounds(old(Value())) ==> InBounds(Value())
    {
      if value != 0 {
        return Err("Hardtune Pitch Amt should be 0..");
      }
      pitchAmt := value;
      r := Ok(());
    }

    method SetSource(source: HardTuneSource)
      modifies this
      ensures Value() == old(Value()).(source := Some(source))
      ensures GetSource() == source
    {
      this.source := Some(source);
    }

    /** The stored source, or the default `All` when none was read or set. */
    function GetSource(): (s: HardTuneSource)
      reads this
      ensures source.Some? ==> s == source.value
      ensures source.None? ==> s == All
    {
      if source.Some? then source.value else All
    }
  }

  // ---- Reading a preset element -------------------------------------------

  /** `parse::<c_float>()? as u8` (or `as u16`): Rust's float-to-integer
      cast truncates toward zero and saturates at 0 and at `max`. */
  function Saturate(x: real, max: nat): (n: nat)
    ensures n <= max
  {
    if x <= 0.0 then 0 else if x >= max as real then max else x.Floor
  }

  /** A whole number within range survives the cast. */
  lemma SaturateWhole(n: nat, max: nat)
    requires n <= max
    ensures Saturate(n as real, max) == n
  {
  }

  /** One attribute of a `hardtuneEffectpresetN` element applied to the
      effect being built: the state is on only for "1", an unknown
      `uiIndex` keeps the style, a number that does not parse as a float or
      a source that is not one of the five names fails, and an unknown
      attribute is skipped. `parseFloat` stands for `str::parse::<f32>`. */
  function ApplyAttribute(e: Effect, attr: Attribute, parseFloat: string -> Option<real>): (r: Result<Effect, ParseError>)
    ensures r.Err? ==>
      || (r.error == ExpectedFloat && attr.name in NUMERIC_ATTRIBUTES && parseFloat(attr.value).None?)
      || (r.error == ExpectedEnum && attr.name == "HARDTUNE_SOURCE")
  {
    var v := attr.value;
    if attr.name == "hardtuneEffectstate" then Ok(e.(state := ParseState(v)))
    else if attr.name == "HARDTUNE_STYLE" then
      match FirstWithUiIndex(STYLES, v)
      case None => Ok(e)
      case Some(style) => Ok(e.(style := style))
    else if attr.name in NUMERIC_ATTRIBUTES then
      match parseFloat(v)
      case None => Err(ExpectedFloat)
      case Some(x) =>
        if attr.name == "HARDTUNE_KEYSOURCE" then Ok(e.(keySource := Saturate(x, U8_MAX)))
        else if attr.name == "HARDTUNE_AMOUNT" then Ok(e.(amount := Saturate(x, U8_MAX)))
        else if attr.name == "HARDTUNE_WINDOW" then Ok(e.(window := Saturate(x, U16_MAX)))
        else if attr.name == "HARDTUNE_RATE" then Ok(e.(rate := Saturate(x, U8_MAX)))
        else if attr.name == "HARDTUNE_SCALE" then Ok(e.(scale := Saturate(x, U8_MAX)))
        else Ok(e.(pitchAmt := Saturate(x, U8_MAX)))
    else if attr.name == "HARDTUNE_SOURCE" then
      match SourceFromStr(v)
      case Err(err) => Err(err)
      case Ok(source) => Ok(e.(source := Some(source)))
    else Ok(e)
  }

  const NUMERIC_ATTRIBUTES: set<string> :=
    {"HARDTUNE_KEYSOURCE", "HARDTUNE_AMOUNT", "HARDTUNE_WINDOW", "HARDTUNE_RATE", "HARDTUNE_SCALE", "HARDTUNE_PITCH_AMT"}

  /** The attributes applied in order to `e`; the first failure ends the read. */
  function ApplyAll(e: Effect, attrs: seq<Attribute>, parseFloat: string -> Option<real>): (r: Result<Effect, ParseError>)
    ensures r.Err? ==> r.error == ExpectedFloat || r.error == ExpectedEnum
    decreases |attrs|
  {
    if attrs == [] then Ok(e)
    else
      match ApplyAttribute(e, attrs[0], parseFloat)
      case Err(err) => Err(err)
      case Ok(e1) => ApplyAll(e1, attrs[1..], parseFloat)
  }

  /** A `HARDTUNE_STYLE` value selects the style with that `uiIndex`; any
      other value leaves the style as it was. */
  lemma StyleAttribute(e: Effect, value: string, parseFloat: string -> Option<real>)
    ensures forall style :: UiIndex(style) == value ==>
      ApplyAttribute(e, Attribute("HARDTUNE_STYLE", value), parseFloat) == Ok(e.(style := style))
    ensures value !in {"0", "1", "2"} ==> ApplyAttribute(e, Attribute("HARDTUNE_STYLE", value), parseFloat) == Ok(e)
  {
    forall style | UiIndex(style) == value
      ensures ApplyAttribute(e, Attribute("HARDTUNE_STYLE", value), parseFloat) == Ok(e.(style := style))
    {
      UiIndexRoundTrip(style, value);
    }
    UiIndexRoundTrip(Normal, value);
  }

  /** Reading stores numbers as they come, without the setters' checks: an
      amount of 150 is accepted and leaves the effect out of bounds. */
  lemma ReadSkipsSetterChecks(parseFloat: string -> Option<real>)
    requires parseFloat("150") == Some(150.0)
    ensures ApplyAll(DEFAULT_EFFECT, [Attribute("HARDTUNE_AMOUNT", "150")], parseFloat) == Ok(DEFAULT_EFFECT.(amount := 150))
    ensures !InBounds(DEFAULT_EFFECT.(amount := 150))
  {
    assert Saturate(150.0, U8_MAX) == 150;
  }

  /** The preset slot `parse_hardtune_preset` stores into: ids 1 to 6 name
      Preset1 to Preset6, any other id stores nothing. */
  function PresetForId(id: byte): (r: Option<Preset>)
    ensures r.Some? <==> 1 <= id <= 6
    ensures r.Some? ==> r.value == PRESETS[id - 1]
  {
    if id == 1 then Some(Preset1)
    else if id == 2 then Some(Preset2)
    else if id == 3 then Some(Preset3)
    else if id == 4 then Some(Preset4)
    else if id == 5 then Some(Preset5)
    else if id == 6 then Some(Preset6)
    else None
  }

  // ---- Writing -------------------------------------------------------------

  /** An element written: tag and attributes. */
  datatype Element = Element(name: string, attributes: seq<Attribute>)

  /** The attributes `write_hardtune` gives a preset element, in insertion
      order: state as "1"/"0", style as its `uiIndex`, the numbers in
      decimal, and the source only when one is set. */
  function PresetAttributes(e: Effect): (w: seq<Attribute>)
    ensures forall i, j | 0 <= i < j < |w| :: w[i].name != w[j].name
  {
    [ Attribute("hardtuneEffectstate", StateString(e.state)),
      Attribute("HARDTUNE_STYLE", UiIndex(e.style)),
      Attribute("HARDTUNE_KEYSOURCE", NatToString(e.keySource)),
      Attribute("HARDTUNE_AMOUNT", NatToString(e.amount)),
      Attribute("HARDTUNE_WINDOW", NatToString(e.window)),
      Attribute("HARDTUNE_RATE", NatToString(e.rate)),
      Attribute("HARDTUNE_SCALE", NatToString(e.scale)),
      Attribute("HARDTUNE_PITCH_AMT", NatToString(e.pitchAmt)) ]
    + (if e.source.Some? then [Attribute("HARDTUNE_SOURCE", SourceName(e.source.value))] else [])
  }

  /** `parseFloat` reads the decimal rendering of every whole number up to
      `u16::MAX` back exactly. An `f32` holds every such number, and these
      are the only numbers `write_hardtune` writes. */
  ghost predicate ReadsDecimals(parseFloat: string -> Option<real>)
  {
    forall n: nat | n <= U16_MAX :: parseFloat(NatToString(n)) == Some(n as real)
  }

  /** Each attribute `write_hardtune` writes sets exactly its own field when read. */
  lemma ReadWrittenAttribute(e: Effect, target: Effect, k: nat, parseFloat: string -> Option<real>)
    requires ReadsDecimals(parseFloat)
    requires k < |PresetAttributes(target)|
    ensures ApplyAttribute(e, PresetAttributes(target)[k], parseFloat) == Ok(AttributeRead(e, target, k))
  {
    var attr := PresetAttributes(target)[k];
    if k == 0 {
      assert attr == Attribute("hardtuneEffectstate", StateString(target.state));
    } else if k == 1 {
      assert attr == Attribute("HARDTUNE_STYLE", UiIndex(target.style));
      UiIndexRoundTrip(target.style, "");
    } else if k == 2 {
      assert attr == Attribute("HARDTUNE_KEYSOURCE", NatToString(target.keySource));
      ReadNumber(target.keySource, U8_MAX, parseFloat);
    } else if k == 3 {
      assert attr == Attribute("HARDTUNE_AMOUNT", NatToString(target.amount));
      ReadNumber(target.amount, U8_MAX, parseFloat);
    } else if k == 4 {
      assert attr == Attribute("HARDTUNE_WINDOW", NatToString(target.window));
      ReadNumber(target.window, U16_MAX, parseFloat);
    } else if k == 5 {
      assert attr == Attribute("HARDTUNE_RATE", NatToString(target.rate));
      ReadNumber(target.rate, U8_MAX, parseFloat);
    } else if k == 6 {
      assert attr == Attribute("HARDTUNE_SCALE", NatToString(target.scale));
      ReadNumber(target.scale, U8_MAX, parseFloat);
    } else if k == 7 {
      assert attr == Attribute("HARDTUNE_PITCH_AMT", NatToString(target.pitchAmt));
      ReadNumber(target.pitchAmt, U8_MAX, parseFloat);
    } else {
      assert attr == Attribute("HARDTUNE_SOURCE", SourceName(target.source.value));
      SourceRoundTrip(target.source.value, "");
    }
  }

  /** The effect after reading the `k`-th attribute written for `target`:
      `e` with that attribute's own field taken from `target`. */
  function AttributeRead(e: Effect, target: Effect, k: nat): Effect
  {
    match k
    case 0 => e.(state := target.state)
    case 1 => e.(style := target.style)
    case 2 => e.(keySource := target.keySource)
    case 3 => e.(amount := target.amount)
    case 4 => e.(window := target.window)
    case 5 => e.(rate := target.rate)
    case 6 => e.(scale := target.scale)
    case 7 => e.(pitchAmt := target.pitchAmt)
    case _ => e.(source := target.source)
  }

  /** A number within range, written in decimal, reads back unchanged. */
  lemma ReadNumber(n: nat, max: nat, parseFloat: string -> Option<real>)
    requires ReadsDecimals(parseFloat) && n <= max <= U16_MAX
    ensures parseFloat(NatToString(n)) == Some(n as real) && Saturate(n as real, max) == n
  {
    SaturateWhole(n, max);
  }

  /** Reading one attribute that succeeds moves the fold one step on. */
  lemma ApplyAllStep(e: Effect, e1: Effect, attrs: seq<Attribute>, k: nat, parseFloat: string -> Option<real>)
    requires k < |attrs| && ApplyAttribute(e, attrs[k], parseFloat) == Ok(e1)
    ensures ApplyAll(e, attrs[k..], parseFloat) == ApplyAll(e1, attrs[k + 1..], parseFloat)
  {
    assert attrs[k..][0] == attrs[k] && attrs[k..][1..] == attrs[k + 1..];
  }

  /** The effect after reading the first `k` attributes written for `e`,
      starting from `HardTuneEffect::new()`: the fields written so far come
      from `e`, the rest keep their defaults. */
  function Rebuilt(e: Effect, k: nat): Effect
  {
    Effect(
      if k > 0 then e.state else DEFAULT_EFFECT.state,
      if k > 1 then e.style else DEFAULT_EFFECT.style,
      if k > 2 then e.keySource else DEFAULT_EFFECT.keySource,
      if k > 3 then e.amount else DEFAULT_EFFECT.amount,
      if k > 4 then e.window else DEFAULT_EFFECT.window,
      if k > 5 then e.rate else DEFAULT_EFFECT.rate,
      if k > 6 then e.scale else DEFAULT_EFFECT.scale,
      if k > 7 then e.pitchAmt else DEFAULT_EFFECT.pitchAmt,
      if k > 8 then e.source else DEFAULT_EFFECT.source)
  }

  /** Reading the `k`-th attribute moves the rebuild one field on. */
  lemma RebuiltStep(e: Effect, k: nat)
    requires k < 9
    ensures AttributeRead(Rebuilt(e, k), e, k) == Rebuilt(e, k + 1)
  {
  }

  /** Reading back what `write_hardtune` wrote for a preset, starting from
      `HardTuneEffect::new()`, rebuilds the effect exactly. */
  lemma {:induction false} PresetRoundTrip(e: Effect, parseFloat: string -> Option<real>)
    requires ReadsDecimals(parseFloat)
    ensures ApplyAll(DEFAULT_EFFECT, PresetAttributes(e), parseFloat) == Ok(e)
  {
    var attrs := PresetAttributes(e);
    assert Rebuilt(e, 0) == DEFAULT_EFFECT;
    for k := 0 to |attrs|
      invariant ApplyAll(DEFAULT_EFFECT, attrs, parseFloat) == ApplyAll(Rebuilt(e, k), attrs[k..], parseFloat)
    {
      ReadWrittenAttribute(Rebuilt(e, k), e, k, parseFloat);
      RebuiltStep(e, k);
      ApplyAllStep(Rebuilt(e, k), Rebuilt(e, k + 1), attrs, k, parseFloat);
    }
    assert Rebuilt(e, |attrs|) == e;
    assert attrs[|attrs|..] == [];
  }

  // ---- The hardtune element of a profile -----------------------------------

  /** The root attributes `write_hardtune` writes besides the colours. */
  function RootAttributes(source: HardTuneSource): seq<Attribute>
  {
    [Attribute("HARDTUNE_SOURCE", SourceName(source))]
  }

  /** Where reading the root attributes leaves the base: its source, and
      whether the read succeeded. */
  datatype RootRead = RootRead(source: HardTuneSource, result: Result<(), ParseError>)

  /** Reading the root attributes in order: `HARDTUNE_SOURCE` sets the
      source, and a bad name ends the read with `ExpectedEnum`; every other
      attribute goes to the colour map, whose failure ends the read with
      `InvalidColours`. Either way the source set before the failure stays.
      `readsColour` stands for `read_colours` not failing on an attribute;
      the colour map itself is not modelled. */
  function ReadRoot(source: HardTuneSource, attrs: seq<Attribute>, readsColour: Attribute -> bool): (w: RootRead)
    ensures w.result.Err? ==> w.result.error == ExpectedEnum || w.result.error == InvalidColours
    decreases |attrs|
  {
    if attrs == [] then RootRead(source, Ok(()))
    else if attrs[0].name == "HARDTUNE_SOURCE" then
      match SourceFromStr(attrs[0].value)
      case Err(err) => RootRead(source, Err(err))
      case Ok(s) => ReadRoot(s, attrs[1..], readsColour)
    else if !readsColour(attrs[0]) then RootRead(source, Err(InvalidColours))
    else ReadRoot(source, attrs[1..], readsColour)
  }

  /** A root attribute the read fails on: a source name that names no
      source, or another attribute the colour map rejects. */
  predicate BadRootAttribute(attr: Attribute, readsColour: Attribute -> bool)
  {
    if attr.name == "HARDTUNE_SOURCE" then SourceFromStr(attr.value).Err? else !readsColour(attr)
  }

  /** The error a bad root attribute raises. */
  function RootError(attr: Attribute): ParseError
  {
    if attr.name == "HARDTUNE_SOURCE" then ExpectedEnum else InvalidColours
  }

  /** The read fails exactly when some attribute is bad. */
  lemma {:induction false} ReadRootFails(source: HardTuneSource, attrs: seq<Attribute>, readsColour: Attribute -> bool)
    ensures ReadRoot(source, attrs, readsColour).result.Err? <==>
      exists k | 0 <= k < |attrs| :: BadRootAttribute(attrs[k], readsColour)
    decreases |attrs|
  {
    if attrs != [] {
      ReadRootFails(if attrs[0].name == "HARDTUNE_SOURCE" && SourceFromStr(attrs[0].value).Ok?
        then SourceFromStr(attrs[0].value).value else source, attrs[1..], readsColour);
      assert forall k | 0 < k < |attrs| :: attrs[k] == attrs[1..][k - 1];
      if exists k | 0 <= k < |attrs| :: BadRootAttribute(attrs[k], readsColour) {
        var k :| 0 <= k < |attrs| && BadRootAttribute(attrs[k], readsColour);
        if k > 0 {
          assert attrs[1..][k - 1] == attrs[k];
        }
      }
    }
  }

  /** A bad attribute after attributes that read well ends the read there
      with its own error: the source those attributes set stays, and
      nothing after the bad attribute is read. */
  lemma {:induction false} ReadRootStops(source: HardTuneSource, good: seq<Attribute>, bad: Attribute, rest: seq<Attribute>,
                                         readsColour: Attribute -> bool)
    requires ReadRoot(source, good, readsColour).result.Ok?
    requires BadRootAttribute(bad, readsColour)
    ensures ReadRoot(source, good + [bad] + rest, readsColour)
      == RootRead(ReadRoot(source, good, readsColour).source, Err(RootError(bad)))
    decreases |good|
  {
    if good == [] {
      assert good + [bad] + rest == [bad] + rest;
    } else {
      assert (good + [bad] + rest)[0] == good[0];
      assert (good + [bad] + rest)[1..] == good[1..] + [bad] + rest;
      var next := if good[0].name == "HARDTUNE_SOURCE" then SourceFromStr(good[0].value).value else source;
      ReadRootStops(next, good[1..], bad, rest, readsColour);
    }
  }

  /** The root element `write_hardtune` writes reads back as its source,
      whatever the colour map accepts. */
  lemma RootRoundTrip(before: HardTuneSource, source: HardTuneSource, readsColour: Attribute -> bool)
    ensures ReadRoot(before, RootAttributes(source), readsColour) == RootRead(source, Ok(()))
  {
    SourceRoundTrip(source, "");
    assert RootAttributes(source)[1..] == [];
  }

  /** A map that gives the six presets six different effects, each holding
      `HardTuneEffect::new()`, has every preset, never shares an effect and
      holds the default everywhere. */
  lemma SlotsDistinct(m: map<Preset, HardTuneEffect>, e1: HardTuneEffect, e2: HardTuneEffect, e3: HardTuneEffect,
                      e4: HardTuneEffect, e5: HardTuneEffect, e6: HardTuneEffect)
    requires e1 != e2 && e1 != e3 && e1 != e4 && e1 != e5 && e1 != e6
    requires e2 != e3 && e2 != e4 && e2 != e5 && e2 != e6
    requires e3 != e4 && e3 != e5 && e3 != e6
    requires e4 != e5 && e4 != e6
    requires e5 != e6
    requires m == map[Preset1 := e1, Preset2 := e2, Preset3 := e3, Preset4 := e4, Preset5 := e5, Preset6 := e6]
    requires e1.Value() == e2.Value() == e3.Value() == e4.Value() == e5.Value() == e6.Value() == DEFAULT_EFFECT
    ensures forall p: Preset :: p in m
    ensures forall p: Preset, q: Preset :: p != q ==> m[p] != m[q]
    ensures forall p: Preset :: m[p].Value() == DEFAULT_EFFECT
  {
    forall p: Preset ensures p in m && m[p].Value() == DEFAULT_EFFECT {
      match p
      case Preset1 =>
      case Preset2 =>
      case Preset3 =>
      case Preset4 =>
      case Preset5 =>
      case Preset6 =>
    }
  }

  /** `HardtuneEffectBase`: the source and one effect per preset (the
      colour map is not part of this model). */
  class HardtuneEffectBase {
    var presetMap: map<Preset, HardTuneEffect>
    var source: HardTuneSource

    /** Like the `EnumMap` it stands for, the map has an effect for every
        preset, and no two presets share one. */
    ghost predicate Valid()
      reads this
    {
      && (forall p: Preset :: p in presetMap)
      && (forall p: Preset, q: Preset :: p != q ==> presetMap[p] != presetMap[q])
    }

    /** The effect values, preset by preset. */
    function Presets(): map<Preset, Effect>
      reads this, presetMap.Values
    {
      map p | p in presetMap :: presetMap[p].Value()
    }

    /** `HardtuneEffectBase::new`: default source, a new effect per preset. */
    constructor ()
      ensures Valid() && source == All
      ensures forall p: Preset :: presetMap[p].Value() == DEFAULT_EFFECT
    {
      var e1 := new HardTuneEffect();
      var e2 := new HardTuneEffect();
      var e3 := new HardTuneEffect();
      var e4 := new HardTuneEffect();
      var e5 := new HardTuneEffect();
      var e6 := new HardTuneEffect();
      presetMap := map[Preset1 := e1, Preset2 := e2, Preset3 := e3, Preset4 := e4, Preset5 := e5, Preset6 := e6];
      source := All;
      new;
      SlotsDistinct(presetMap, e1, e2, e3, e4, e5, e6);
    }

    /** `parse_hardtune_root`: walks the root attributes; `HARDTUNE_SOURCE`
        sets the source, every other attribute goes to the colour map, and a
        bad name or a colour the map rejects ends the walk with an error,
        keeping what was set before it. */
    method ParseHardtuneRoot(attributes: seq<Attribute>, readsColour: Attribute -> bool) returns (r: Result<(), ParseError>)
      modifies this
      ensures presetMap == old(presetMap)
      ensures RootRead(source, r) == ReadRoot(old(source), attributes, readsColour)
    {
      for i := 0 to |attributes|
        invariant presetMap == old(presetMap)
        invariant ReadRoot(old(source), attributes, readsColour) == ReadRoot(source, attributes[i..], readsColour)
      {
        assert attributes[i..][1..] == attributes[i + 1..];
        var attr := attributes[i];
        if attr.name == "HARDTUNE_SOURCE" {
          var parsed := SourceFromStr(attr.value);
          if parsed.Err? {
            return Err(parsed.error);
          }
          source := parsed.value;
          continue;
        }
        if !readsColour(attr) {
          return Err(InvalidColours);
        }
      }
      assert attributes[|attributes|..] == [];
      r := Ok(());
    }

    /** `parse_hardtune_preset`: builds a new effect from the attributes,
        then stores it in the slot `id` names (1 to 6); any other id stores
        nothing. A failed attribute ends the call before anything is stored. */
    method ParseHardtunePreset(id: byte, attributes: seq<Attribute>, parseFloat: string -> Option<real>)
      returns (r: Result<(), ParseError>)
      requires Valid()
      modifies this
      ensures Valid() && source == old(source)
      ensures match ApplyAll(DEFAULT_EFFECT, attributes, parseFloat)
        case Err(err) => r == Err(err) && presetMap == old(presetMap)
        case Ok(e) =>
          && r.Ok?
          && (match PresetForId(id)
              case None => presetMap == old(presetMap)
              case Some(p) =>
                && fresh(presetMap[p]) && presetMap[p].Value() == e
                && forall q: Preset :: q != p ==> presetMap[q] == old(presetMap[q]))
    {
      var preset := new HardTuneEffect();
      for i := 0 to |attributes|
        invariant presetMap == old(presetMap) && source == old(source)
        invariant ApplyAll(DEFAULT_EFFECT, attributes, parseFloat) == ApplyAll(preset.Value(), attributes[i..], parseFloat)
      {
        assert attributes[i..][0] == attributes[i] && attributes[i..][1..] == attributes[i + 1..];
        var attr := attributes[i];
        if attr.name == "hardtuneEffectstate" {
          preset.state := ParseState(attr.value);
          continue;
        }
        if attr.name == "HARDTUNE_STYLE" {
          var style := FirstWithUiIndex(STYLES, attr.value);
          if style.Some? {
            preset.style := style.value;
          }
          continue;
        }
        if attr.name in NUMERIC_ATTRIBUTES {
          var number := parseFloat(attr.value);
          if number.None? {
            return Err(ExpectedFloat);
          }
          if attr.name == "HARDTUNE_KEYSOURCE" {
            preset.keySource := Saturate(number.value, U8_MAX);
          } else if attr.name == "HARDTUNE_AMOUNT" {
            preset.amount := Saturate(number.value, U8_MAX);
          } else if attr.name == "HARDTUNE_WINDOW" {
            preset.window := Saturate(number.value, U16_MAX);
          } else if attr.name == "HARDTUNE_RATE" {
            preset.rate := Saturate(number.value, U8_MAX);
          } else if attr.name == "HARDTUNE_SCALE" {
            preset.scale := Saturate(number.value, U8_MAX);
          } else {
            preset.pitchAmt := Saturate(number.value, U8_MAX);
          }
          continue;
        }
        if attr.name == "HARDTUNE_SOURCE" {
          var parsed := SourceFromStr(attr.value);
          if parsed.Err? {
            return Err(parsed.error);
          }
          preset.source := Some(parsed.value);
          continue;
        }
      }
      assert attributes[|attributes|..] == [];

      var slot := PresetForId(id);
      if slot.Some? {
        presetMap := presetMap[slot.value := preset];
      }
      r := Ok(());
    }

    /** `write_hardtune`: the root element, then one element per preset in
        `EnumMap` order, named `hardtuneEffect` plus the preset's tag suffix. */
    method WriteHardtune() returns (elements: seq<Element>)
      requires Valid()
      ensures elements == Written(source, Presets())
    {
      elements := [Element("hardtuneEffect", RootAttributes(source))];
      for i := 0 to |PRESETS|
        invariant elements == [Element("hardtuneEffect", RootAttributes(source))] + PresetElements(PRESETS[..i], Presets())
      {
        var key := PRESETS[i];
        PresetElementsAppend(PRESETS[..i], key, Presets());
        PrefixGrows(PRESETS, i);
        elements := elements + [Element("hardtuneEffect" + TagSuffix(key), PresetAttributes(presetMap[key].Value()))];
      }
      assert PRESETS[..|PRESETS|] == PRESETS;
    }
  }

  /** The per-preset elements written for `keys`, in order. */
  function PresetElements(keys: seq<Preset>, presets: map<Preset, Effect>): (w: seq<Element>)
    requires forall p: Preset :: p in presets
    ensures |w| == |keys|
    ensures forall k | 0 <= k < |keys| ::
      w[k] == Element("hardtuneEffect" + TagSuffix(keys[k]), PresetAttributes(presets[keys[k]]))
  {
    if keys == [] then []
    else
      [Element("hardtuneEffect" + TagSuffix(keys[0]), PresetAttributes(presets[keys[0]]))]
      + PresetElements(keys[1..], presets)
  }

  lemma PresetElementsAppend(keys: seq<Preset>, key: Preset, presets: map<Preset, Effect>)
    requires forall p: Preset :: p in presets
    ensures PresetElements(keys + [key], presets)
      == PresetElements(keys, presets) + [Element("hardtuneEffect" + TagSuffix(key), PresetAttributes(presets[key]))]
  {
    var longer := PresetElements(keys + [key], presets);
    var grown := PresetElements(keys, presets) + [Element("hardtuneEffect" + TagSuffix(key), PresetAttributes(presets[key]))];
    forall k | 0 <= k < |longer|
      ensures longer[k] == grown[k]
    {
      assert (keys + [key])[k] == if k < |keys| then keys[k] else key;
    }
  }

  /** Everything `write_hardtune` writes. */
  function Written(source: HardTuneSource, presets: map<Preset, Effect>): (w: seq<Element>)
    requires forall p: Preset :: p in presets
    ensures |w| == 1 + |PRESETS|
    ensures w[0] == Element("hardtuneEffect", RootAttributes(source))
    ensures forall k | 0 <= k < |PRESETS| ::
      w[k + 1] == Element("hardtuneEffect" + TagSuffix(PRESETS[k]), PresetAttributes(presets[PRESETS[k]]))
  {
    [Element("hardtuneEffect", RootAttributes(source))] + PresetElements(PRESETS, presets)
  }
}
