/** The routing logic of the profile reader and the scribble files of the
    profile archive (profile/src/profile.rs). XML events are given as a
    list; the component parsers a tag is handed to are not part of this
    model, so a loaded profile is the list of hand-offs the reader made. */
module Profile {
  import opened Wrappers
  import opened Ints
  import opened Text
  import opened GoXLRTypes
  import opened Seqs

  /** Why loading fails. `Panic` stands for an `unwrap()` on `None`, which
      aborts the program rather than returning. */
  datatype ProfileError =
    | ExpectedInt            // the last character of an indexed tag is not a digit
    | NoSuchPreset           // "Unable to Parse Preset from Number"
    | UnknownSimpleElement   // `SimpleElements::from_str` failed
    | PresetNameNotFound     // "Preset Name not Found, cannot proceed."
    | FileNotFound(file: string)
    | Panic

  // ---- Digit suffixes ------------------------------------------------------

  /** `name.chars().last().map(|s| u8::from_str(..)).transpose()?` for a
      non-empty name: the value of its last character as a digit. */
  function DigitSuffix(name: string): (r: Result<nat, ProfileError>)
    requires |name| > 0
    ensures r.Ok? ==> r.value < 10 && name[|name| - 1] == DigitChar(r.value)
    ensures r.Err? ==> r.error == ExpectedInt && !('0' <= name[|name| - 1] <= '9')
  {
    match DigitValue(name[|name| - 1])
    case None => Err(ExpectedInt)
    case Some(d) => Ok(d)
  }

  /** `id - 1` on a `u8` as a release build computes it: 0 wraps to 255. */
  function WrappingDecrement(id: byte): byte
  {
    if id == 0 then U8_MAX else id - 1
  }

  /** `Preset::iter().nth(k)`. */
  function NthPreset(k: nat): Option<Preset>
  {
    if k < |PRESETS| then Some(PRESETS[k]) else None
  }

  /** `Faders::iter().nth(k)`. */
  function NthFader(k: nat): Option<Fader>
  {
    if k < |FADERS| then Some(FADERS[k]) else None
  }

  /** `ProfileSettings::parse_preset`: the last character of the key is a
      one-based preset number. An empty key or a number past the last
      preset gives an error, a non-digit fails the digit parse, and 0 wraps
      to 255 in the `u8` subtraction, which names no preset. */
  function ParsePreset(key: string): (r: Result<Preset, ProfileError>)
    ensures r.Ok? ==> |key| > 0 && '1' <= key[|key| - 1] <= '6'
    ensures r.Err? ==> r.error == NoSuchPreset || r.error == ExpectedInt
  {
    if key == [] then Err(NoSuchPreset)
    else
      match DigitSuffix(key)
      case Err(e) => Err(e)
      case Ok(id) =>
        match NthPreset(WrappingDecrement(id))
        case None => Err(NoSuchPreset)
        case Some(p) => Ok(p)
  }

  /** A key names preset `p` exactly when its last character is the digit
      `d` with 1 <= d <= 6 and `p` is the d-th preset. */
  lemma ParsePresetSpec(key: string, p: Preset)
    ensures ParsePreset(key) == Ok(p) <==>
      exists d :: 1 <= d <= 6 && |key| > 0 && key[|key| - 1] == DigitChar(d) && p == PRESETS[d - 1]
  {
    if ParsePreset(key) == Ok(p) {
      var d := DigitSuffix(key).value;
      assert 1 <= d <= 6 && key[|key| - 1] == DigitChar(d) && p == PRESETS[d - 1];
    }
    if exists d :: 1 <= d <= 6 && |key| > 0 && key[|key| - 1] == DigitChar(d) && p == PRESETS[d - 1] {
      var d :| 1 <= d <= 6 && |key| > 0 && key[|key| - 1] == DigitChar(d) && p == PRESETS[d - 1];
      assert DigitValue(key[|key| - 1]) == Some(d);
    }
  }

  /** The ways `parse_preset` fails. */
  lemma ParsePresetErrors(key: string)
    ensures key == [] ==> ParsePreset(key) == Err(NoSuchPreset)
    ensures |key| > 0 && !('0' <= key[|key| - 1] <= '9') ==> ParsePreset(key) == Err(ExpectedInt)
    ensures |key| > 0 && (key[|key| - 1] == '0' || '7' <= key[|key| - 1] <= '9') ==> ParsePreset(key) == Err(NoSuchPreset)
  {
  }

  /** The tag written for a preset (a prefix and its `tagSuffix`) reads back
      as that preset. */
  lemma TagSuffixParses(prefix: string, p: Preset)
    ensures ParsePreset(prefix + TagSuffix(p)) == Ok(p)
  {
    var key := prefix + TagSuffix(p);
    var d := match p
      case Preset1 => 1 case Preset2 => 2 case Preset3 => 3
      case Preset4 => 4 case Preset5 => 5 case Preset6 => 6;
    assert key[|key| - 1] == DigitChar(d);
    ParsePresetSpec(key, p);
  }

  /** The fader a one-based (`mute`, `scribble`) or zero-based
      (`FaderMeter`) digit suffix names; any other digit reaches an
      `unwrap()` on `None`. */
  function FaderFromSuffix(name: string, oneBased: bool): (r: Result<Fader, ProfileError>)
    requires |name| > 0
    ensures r.Ok? ==> '0' <= name[|name| - 1] <= '9'
    ensures r.Err? ==> r.error == ExpectedInt || r.error == Panic
  {
    match DigitSuffix(name)
    case Err(e) => Err(e)
    case Ok(id) =>
      match NthFader(if oneBased then WrappingDecrement(id) else id)
      case None => Err(Panic)
      case Some(f) => Ok(f)
  }

  /** Suffix `d` names `FADERS[d - 1]` one-based (1 to 4) and `FADERS[d]`
      zero-based (0 to 3); every other digit panics. */
  lemma FaderFromSuffixSpec(name: string, oneBased: bool)
    requires |name| > 0 && '0' <= name[|name| - 1] <= '9'
    ensures var d := name[|name| - 1] as int - '0' as int;
      && (oneBased && 1 <= d <= 4 ==> FaderFromSuffix(name, oneBased) == Ok(FADERS[d - 1]))
      && (!oneBased && d <= 3 ==> FaderFromSuffix(name, oneBased) == Ok(FADERS[d]))
      && (oneBased && (d == 0 || d > 4) ==> FaderFromSuffix(name, oneBased) == Err(Panic))
      && (!oneBased && d > 3 ==> FaderFromSuffix(name, oneBased) == Err(Panic))
  {
  }

  // ---- Tag routing in `ProfileSettings::load` -------------------------------

  /** The effect bases that own a root tag and one tag per preset. */
  datatype EffectKind = Megaphone | Robot | Hardtune | Reverb | Echo | Pitch | Gender

  /** In the order `load` tests them. */
  const EFFECT_KINDS: seq<EffectKind> := [Megaphone, Robot, Hardtune, Reverb, Echo, Pitch, Gender]

  /** The root tag of an effect base; its preset tags add `preset` and a digit. */
  function RootTag(k: EffectKind): string
  {
    match k
    case Megaphone => "megaphoneEffect"
    case Robot => "robotEffect"
    case Hardtune => "hardtuneEffect"
    case Reverb => "reverbEncoder"
    case Echo => "echoEncoder"
    case Pitch => "pitchEncoder"
    case Gender => "genderEncoder"
  }

  /** The tag that opens a sample button's element (and closing it ends the
      button's stacks). */
  function SampleTag(b: SampleButton): string
  {
    match b
    case TopLeft => "sampleTopLeft"
    case TopRight => "sampleTopRight"
    case BottomLeft => "sampleBottomLeft"
    case BottomRight => "sampleBottomRight"
    case Clear => "sampleClear"
  }

  /** The component a start tag's attributes are handed to. */
  datatype Target =
    | Root | Browser | Mixer | Context | MuteChat
    | MuteButton(fader: Fader)
    | FaderMeter(fader: Fader)
    | Effects(preset: Preset)
    | Scribble(fader: Fader)
    | EffectRoot(kind: EffectKind)
    | EffectPreset(kind: EffectKind, preset: Preset)
    | Sampler(button: SampleButton)
    | SampleStack(button: SampleButton, id: char)
    | Simple(element: SimpleElement)

  /** What `load` does with one start tag: hand it to a component, or pass
      over it (`AppTree` and unhandled tags). */
  datatype Routed = Delegate(target: Target) | Ignore

  /** The preset whose `contextTitle` is `name`, searched in `Preset::iter()` order. */
  function EffectsPreset(name: string): (r: Option<Preset>)
    ensures r.Some? ==> ContextTitle(r.value) == name
    ensures r.None? ==> forall p: Preset :: ContextTitle(p) != name
  {
    if name == "effects1" then Some(Preset1)
    else if name == "effects2" then Some(Preset2)
    else if name == "effects3" then Some(Preset3)
    else if name == "effects4" then Some(Preset4)
    else if name == "effects5" then Some(Preset5)
    else if name == "effects6" then Some(Preset6)
    else None
  }

  /** The button whose tag is `name`. */
  function SampleButtonFor(name: string): (r: Option<SampleButton>)
    ensures r.Some? ==> SampleTag(r.value) == name
    ensures r.None? ==> forall b: SampleButton :: SampleTag(b) != name
  {
    if name == "sampleTopLeft" then Some(TopLeft)
    else if name == "sampleTopRight" then Some(TopRight)
    else if name == "sampleBottomLeft" then Some(BottomLeft)
    else if name == "sampleBottomRight" then Some(BottomRight)
    else if name == "sampleClear" then Some(Clear)
    else None
  }

  /** `SimpleElements::from_str`. */
  function SimpleFromStr(name: string): (r: Option<SimpleElement>)
    ensures r.Some? ==> SimpleTag(r.value) == name
    ensures r.None? ==> forall e: SimpleElement :: SimpleTag(e) != name
  {
    if name == "sampleBankA" then Some(SampleBankA)
    else if name == "sampleBankB" then Some(SampleBankB)
    else if name == "sampleBankC" then Some(SampleBankC)
    else if name == "fxClear" then Some(FxClear)
    else if name == "swear" then Some(Swear)
    else if name == "globalColour" then Some(GlobalColour)
    else if name == "logoX" then Some(LogoX)
    else None
  }

  /** The errors a start tag can raise: a non-digit where a number is
      expected, a number that names no fader, or an unknown simple element. */
  const TAG_ERRORS: set<ProfileError> := {ExpectedInt, Panic, UnknownSimpleElement}

  /** The routing of a start tag, in the order of the tests in
      `ProfileSettings::load`; `active` is the open sample button. */
  function Route(name: string, active: Option<SampleButton>): (r: Result<Routed, ProfileError>)
    ensures r.Err? ==> r.error in TAG_ERRORS
  {
    if name == "ValueTreeRoot" then Ok(Delegate(Root))
    else if name == "browserPreviewTree" then Ok(Delegate(Browser))
    else if name == "mixerTree" then Ok(Delegate(Mixer))
    else if name == "selectedContext" then Ok(Delegate(Context))
    else if name == "muteChat" then Ok(Delegate(MuteChat))
    else if StartsWith(name, "mute") && name != "muteChat" then
      match FaderFromSuffix(name, true)
      case Err(e) => Err(e)
      case Ok(f) => Ok(Delegate(MuteButton(f)))
    else if StartsWith(name, "FaderMeter") then
      match FaderFromSuffix(name, false)
      case Err(e) => Err(e)
      case Ok(f) => Ok(Delegate(FaderMeter(f)))
    else if StartsWith(name, "effects") && EffectsPreset(name).Some? then
      Ok(Delegate(Effects(EffectsPreset(name).value)))
    else if StartsWith(name, "scribble") then
      match FaderFromSuffix(name, true)
      case Err(e) => Err(e)
      case Ok(f) => Ok(Delegate(Scribble(f)))
    else RouteEffect(name, EFFECT_KINDS, active)
  }

  /** The root and preset tests of each effect base, in turn; a preset tag
      whose number does not parse falls through to the next test. */
  function RouteEffect(name: string, kinds: seq<EffectKind>, active: Option<SampleButton>): (r: Result<Routed, ProfileError>)
    ensures r.Err? ==> r.error in TAG_ERRORS
    decreases |kinds|
  {
    if kinds == [] then RouteSample(name, active)
    else if name == RootTag(kinds[0]) then Ok(Delegate(EffectRoot(kinds[0])))
    else if StartsWith(name, RootTag(kinds[0]) + "preset") && ParsePreset(name).Ok? then
      Ok(Delegate(EffectPreset(kinds[0], ParsePreset(name).value)))
    else RouteEffect(name, kinds[1..], active)
  }

  /** The sample buttons, their stacks, and the simple elements. A stack tag
      with no open button falls through; a `sampleBank` tag that is not a
      simple element name is an error. */
  function RouteSample(name: string, active: Option<SampleButton>): (r: Result<Routed, ProfileError>)
    ensures r.Err? ==> r.error == UnknownSimpleElement
  {
    if SampleButtonFor(name).Some? then Ok(Delegate(Sampler(SampleButtonFor(name).value)))
    else if StartsWith(name, "sampleStack") && active.Some? then
      Ok(Delegate(SampleStack(active.value, name[|name| - 1])))
    else if StartsWith(name, "sampleBank") || name == "fxClear" || name == "swear"
      || name == "globalColour" || name == "logoX" then
      match SimpleFromStr(name)
      case None => Err(UnknownSimpleElement)
      case Some(e) => Ok(Delegate(Simple(e)))
    else Ok(Ignore)
  }

  /** A start tag's name cannot start with `prefix` when some character disagrees. */
  lemma DiffersAt(name: string, prefix: string, i: nat)
    requires i < |prefix| && i < |name| && name[i] != prefix[i]
    ensures !StartsWith(name, prefix) && name != prefix
  {
  }

  /** `mute1` to `mute4` reach the mute buttons of faders A to D (one-based);
      any other digit panics and a non-digit is a parse error. */
  lemma MuteTagRouting(name: string, active: Option<SampleButton>)
    requires StartsWith(name, "mute") && name != "muteChat"
    ensures var c := name[|name| - 1]; var d := c as int - '0' as int;
      && (!('0' <= c <= '9') ==> Route(name, active) == Err(ExpectedInt))
      && ('1' <= c <= '4' ==> Route(name, active) == Ok(Delegate(MuteButton(FADERS[d - 1]))))
      && (c == '0' || '5' <= c <= '9' ==> Route(name, active) == Err(Panic))
  {
    DiffersAt(name, "ValueTreeRoot", 0);
    DiffersAt(name, "browserPreviewTree", 0);
    DiffersAt(name, "mixerTree", 1);
    DiffersAt(name, "selectedContext", 0);
    if '0' <= name[|name| - 1] <= '9' {
      FaderFromSuffixSpec(name, true);
    }
  }

  /** `FaderMeter0` to `FaderMeter3` reach faders A to D (zero-based); any
      other digit panics and a non-digit is a parse error. */
  lemma FaderMeterTagRouting(name: string, active: Option<SampleButton>)
    requires StartsWith(name, "FaderMeter")
    ensures var c := name[|name| - 1]; var d := c as int - '0' as int;
      && (!('0' <= c <= '9') ==> Route(name, active) == Err(ExpectedInt))
      && ('0' <= c <= '3' ==> Route(name, active) == Ok(Delegate(FaderMeter(FADERS[d]))))
      && ('4' <= c <= '9' ==> Route(name, active) == Err(Panic))
  {
    DiffersAt(name, "ValueTreeRoot", 0);
    DiffersAt(name, "browserPreviewTree", 0);
    DiffersAt(name, "mixerTree", 0);
    DiffersAt(name, "selectedContext", 0);
    DiffersAt(name, "muteChat", 0);
    DiffersAt(name, "mute", 0);
    if '0' <= name[|name| - 1] <= '9' {
      FaderFromSuffixSpec(name, false);
    }
  }

  /** `scribble1` to `scribble4` reach the scribble strips of faders A to D
      (one-based), with the same failures as the mute tags. */
  lemma ScribbleTagRouting(name: string, active: Option<SampleButton>)
    requires StartsWith(name, "scribble")
    ensures var c := name[|name| - 1]; var d := c as int - '0' as int;
      && (!('0' <= c <= '9') ==> Route(name, active) == Err(ExpectedInt))
      && ('1' <= c <= '4' ==> Route(name, active) == Ok(Delegate(Scribble(FADERS[d - 1]))))
      && (c == '0' || '5' <= c <= '9' ==> Route(name, active) == Err(Panic))
  {
    DiffersAt(name, "ValueTreeRoot", 0);
    DiffersAt(name, "browserPreviewTree", 0);
    DiffersAt(name, "mixerTree", 0);
    DiffersAt(name, "selectedContext", 1);
    DiffersAt(name, "muteChat", 0);
    DiffersAt(name, "mute", 0);
    DiffersAt(name, "FaderMeter", 0);
    DiffersAt(name, "effects", 0);
    if '0' <= name[|name| - 1] <= '9' {
      FaderFromSuffixSpec(name, true);
    }
  }

  /** A preset's `effects` tag reaches that preset's effects element. */
  lemma EffectsTagRouting(p: Preset, active: Option<SampleButton>)
    ensures Route(ContextTitle(p), active) == Ok(Delegate(Effects(p)))
  {
    var name := ContextTitle(p);
    DiffersAt(name, "mute", 0);
    DiffersAt(name, "FaderMeter", 0);
    assert name[..7] == "effects";
  }

  /** The effect tests in `load` pass over a tag that is neither the root
      nor a preset tag of the first kind still to be tested. */
  lemma RouteEffectStep(name: string, i: nat, active: Option<SampleButton>)
    requires i < |EFFECT_KINDS|
    requires name != RootTag(EFFECT_KINDS[i]) && !StartsWith(name, RootTag(EFFECT_KINDS[i]) + "preset")
    ensures RouteEffect(name, EFFECT_KINDS[i..], active) == RouteEffect(name, EFFECT_KINDS[i + 1..], active)
  {
    assert EFFECT_KINDS[i..][1..] == EFFECT_KINDS[i + 1..];
  }

  /** The position of a kind in `EFFECT_KINDS`. */
  function KindIndex(k: EffectKind): (i: nat)
    ensures i < |EFFECT_KINDS| && EFFECT_KINDS[i] == k
  {
    match k
    case Megaphone => 0 case Robot => 1 case Hardtune => 2 case Reverb => 3
    case Echo => 4 case Pitch => 5 case Gender => 6
  }

  /** A tag that matches none of the tests before the effect bases reaches them. */
  lemma RouteReachesEffects(name: string, active: Option<SampleButton>)
    requires name !in ["ValueTreeRoot", "browserPreviewTree", "mixerTree", "selectedContext", "muteChat"]
    requires !StartsWith(name, "mute") && !StartsWith(name, "FaderMeter")
    requires !StartsWith(name, "effects") && !StartsWith(name, "scribble")
    ensures Route(name, active) == RouteEffect(name, EFFECT_KINDS, active)
  {
  }

  /** None of `kinds` has `name` as its root tag or as a preset tag prefix. */
  predicate NoEffectTag(name: string, kinds: seq<EffectKind>)
  {
    forall k | k in kinds :: name != RootTag(k) && !StartsWith(name, RootTag(k) + "preset")
  }

  /** The effect tests pass over one kind whose tags `name` does not match. */
  lemma PassEffectKind(name: string, kinds: seq<EffectKind>, active: Option<SampleButton>)
    requires kinds != [] && name != RootTag(kinds[0]) && !StartsWith(name, RootTag(kinds[0]) + "preset")
    ensures RouteEffect(name, kinds, active) == RouteEffect(name, kinds[1..], active)
  {
  }

  /** The effect tests pass over kinds whose tags `name` does not match. */
  lemma {:induction false} SkipEffectKinds(name: string, before: seq<EffectKind>, after: seq<EffectKind>, active: Option<SampleButton>)
    requires NoEffectTag(name, before)
    ensures RouteEffect(name, before + after, active) == RouteEffect(name, after, active)
    decreases |before|
  {
    if before != [] {
      var kinds := before + after;
      assert kinds[0] == before[0] && kinds[1..] == before[1..] + after;
      assert before[0] in before;
      PassEffectKind(name, kinds, active);
      assert NoEffectTag(name, before[1..]) by {
        forall k | k in before[1..] ensures k in before { }
      }
      SkipEffectKinds(name, before[1..], after, active);
    } else {
      assert before + after == after;
    }
  }

  /** The tests before the effect bases pass over any tag that begins like
      one of the bases' root tags: its first or second character differs
      from each literal they compare against. */
  lemma TopTestsPass(name: string, active: Option<SampleButton>)
    requires |name| >= 2 && name[0] in {'m', 'r', 'h', 'e', 'p', 'g'}
    requires name[0] == 'm' ==> name[1] == 'e'
    requires name[0] == 'e' ==> name[1] == 'c'
    ensures Route(name, active) == RouteEffect(name, EFFECT_KINDS, active)
  {
    var m := if name[0] == 'm' then 1 else 0;
    var e := if name[0] == 'e' then 1 else 0;
    DiffersAt(name, "ValueTreeRoot", 0); DiffersAt(name, "browserPreviewTree", 0);
    DiffersAt(name, "mixerTree", m); DiffersAt(name, "selectedContext", 0);
    DiffersAt(name, "muteChat", m); DiffersAt(name, "mute", m);
    DiffersAt(name, "FaderMeter", 0); DiffersAt(name, "effects", e);
    DiffersAt(name, "scribble", 0);
    RouteReachesEffects(name, active);
  }

  /** No two root tags share their first two characters. */
  lemma RootTagsStartApart(k1: EffectKind, k2: EffectKind)
    requires k1 != k2
    ensures RootTag(k1)[0] != RootTag(k2)[0] || RootTag(k1)[1] != RootTag(k2)[1]
  {
  }

  /** A tag that begins with the root tag of `k` is neither the root tag
      nor a preset tag of another kind. */
  lemma OtherKindPasses(name: string, k: EffectKind, other: EffectKind)
    requires StartsWith(name, RootTag(k)) && other != k
    ensures name != RootTag(other) && !StartsWith(name, RootTag(other) + "preset")
  {
    var root := RootTag(k);
    assert name[0] == root[0] && name[1] == root[1];
    RootTagsStartApart(other, k);
    var d := if RootTag(other)[0] != root[0] then 0 else 1;
    DiffersAt(name, RootTag(other), d);
    DiffersAt(name, RootTag(other) + "preset", d);
  }

  /** A tag that begins with the root tag of kind `k` reaches that kind's
      own tests. */
  lemma EffectTagReachesKind(name: string, k: EffectKind, active: Option<SampleButton>)
    requires StartsWith(name, RootTag(k))
    ensures Route(name, active) == RouteEffect(name, EFFECT_KINDS[KindIndex(k)..], active)
  {
    var i := KindIndex(k);
    var root := RootTag(k);
    assert name[0] == root[0] && name[1] == root[1];
    TopTestsPass(name, active);
    forall other | other in EFFECT_KINDS[..i]
      ensures name != RootTag(other) && !StartsWith(name, RootTag(other) + "preset")
    {
      OtherKindPasses(name, k, other);
    }
    SplitAt(EFFECT_KINDS, i);
    SkipEffectKinds(name, EFFECT_KINDS[..i], EFFECT_KINDS[i..], active);
  }

  /** The first kind's own tests: its root tag, then a preset tag that parses. */
  lemma RouteEffectFirst(name: string, kinds: seq<EffectKind>, active: Option<SampleButton>)
    requires kinds != []
    ensures name == RootTag(kinds[0]) ==> RouteEffect(name, kinds, active) == Ok(Delegate(EffectRoot(kinds[0])))
    ensures name != RootTag(kinds[0]) && StartsWith(name, RootTag(kinds[0]) + "preset") && ParsePreset(name).Ok? ==>
      RouteEffect(name, kinds, active) == Ok(Delegate(EffectPreset(kinds[0], ParsePreset(name).value)))
  {
  }

  /** An effect base's root tag reaches its root parser. */
  lemma RootTagRouting(k: EffectKind, active: Option<SampleButton>)
    ensures Route(RootTag(k), active) == Ok(Delegate(EffectRoot(k)))
  {
    var root := RootTag(k);
    var i := KindIndex(k);
    SplitAt(EFFECT_KINDS, i);
    assert root[..|root|] == root;
    EffectTagReachesKind(root, k, active);
    RouteEffectFirst(root, EFFECT_KINDS[i..], active);
  }

  /** An effect base's tag for preset `p` reaches its parser for that preset. */
  lemma PresetTagRouting(k: EffectKind, p: Preset, active: Option<SampleButton>)
    ensures Route(RootTag(k) + TagSuffix(p), active) == Ok(Delegate(EffectPreset(k, p)))
  {
    var root := RootTag(k);
    var i := KindIndex(k);
    SplitAt(EFFECT_KINDS, i);
    var name := root + TagSuffix(p);
    assert TagSuffix(p)[..6] == "preset";
    ConcatPrefix(root, TagSuffix(p), "preset");
    EffectTagReachesKind(name, k, active);
    TagSuffixParses(root, p);
    RouteEffectFirst(name, EFFECT_KINDS[i..], active);
  }

  /** An effect base's root tag reaches its root parser, and its tag for
      preset `p` reaches its parser for that preset. */
  lemma EffectTagRouting(k: EffectKind, p: Preset, active: Option<SampleButton>)
    ensures Route(RootTag(k), active) == Ok(Delegate(EffectRoot(k)))
    ensures Route(RootTag(k) + TagSuffix(p), active) == Ok(Delegate(EffectPreset(k, p)))
  {
    RootTagRouting(k, active);
    PresetTagRouting(k, p, active);
  }

  /** No effect base's tags begin with the first two characters of `name`. */
  lemma NotEffectTag(name: string, k: EffectKind)
    requires |name| >= 2 && name[0] in {'s', 'f', 'g', 'l'}
    requires name[0] == 'g' ==> name[1] == 'l'
    ensures name != RootTag(k) && !StartsWith(name, RootTag(k) + "preset")
  {
    var d := if name[0] == 'g' then 1 else 0;
    DiffersAt(name, RootTag(k), d);
    DiffersAt(name, RootTag(k) + "preset", d);
  }

  /** The sample and simple-element tags pass every earlier test. */
  lemma SampleTestsReached(name: string, active: Option<SampleButton>)
    requires |name| >= 2 && name[0] in {'s', 'f', 'g', 'l'}
    requires name[0] == 's' ==> name[1] in {'a', 'w'}
    requires name[0] == 'g' ==> name[1] == 'l'
    ensures Route(name, active) == RouteSample(name, active)
  {
    var s := if name[0] == 's' then 1 else 0;
    DiffersAt(name, "ValueTreeRoot", 0); DiffersAt(name, "browserPreviewTree", 0);
    DiffersAt(name, "mixerTree", 0); DiffersAt(name, "selectedContext", s);
    DiffersAt(name, "muteChat", 0); DiffersAt(name, "mute", 0);
    DiffersAt(name, "FaderMeter", 0); DiffersAt(name, "effects", 0);
    DiffersAt(name, "scribble", s);
    RouteReachesEffects(name, active);
    forall k | k in EFFECT_KINDS
      ensures name != RootTag(k) && !StartsWith(name, RootTag(k) + "preset")
    {
      NotEffectTag(name, k);
    }
    assert EFFECT_KINDS + [] == EFFECT_KINDS;
    SkipEffectKinds(name, EFFECT_KINDS, [], active);
  }

  /** Opening a sample button's element reaches that button's parser. */
  lemma SampleTagRouting(b: SampleButton, active: Option<SampleButton>)
    ensures Route(SampleTag(b), active) == Ok(Delegate(Sampler(b)))
  {
    SampleTestsReached(SampleTag(b), active);
  }

  /** A simple element's tag and a `sampleStack` tag open no sample button. */
  lemma NotSampleButtonTag(name: string)
    requires |name| >= 2
    requires name[0] != 's' || name[1] == 'w' || StartsWith(name, "sampleBank") || StartsWith(name, "sampleStack")
    ensures SampleButtonFor(name).None?
  {
    if name[0] != 's' || name[1] == 'w' {
      var i := if name[0] != 's' then 0 else 1;
      DiffersAt(name, "sampleTopLeft", i); DiffersAt(name, "sampleTopRight", i);
      DiffersAt(name, "sampleBottomLeft", i); DiffersAt(name, "sampleBottomRight", i);
      DiffersAt(name, "sampleClear", i);
    } else {
      assert name[6] == name[..10][6];
      var j := if name[6] == 'B' then 7 else 6;
      DiffersAt(name, "sampleTopLeft", 6); DiffersAt(name, "sampleTopRight", 6);
      DiffersAt(name, "sampleBottomLeft", j); DiffersAt(name, "sampleBottomRight", j);
      DiffersAt(name, "sampleClear", 6);
    }
  }

  /** The sample tests for a `sampleStack` tag. */
  lemma SampleStackInSampleTests(name: string, active: Option<SampleButton>)
    requires StartsWith(name, "sampleStack")
    ensures active.Some? ==> RouteSample(name, active) == Ok(Delegate(SampleStack(active.value, name[|name| - 1])))
    ensures active.None? ==> RouteSample(name, active) == Ok(Ignore)
  {
    assert name[..11] == "sampleStack";
    NotSampleButtonTag(name);
    DiffersAt(name, "sampleBank", 6);
  }

  /** A `sampleStack` tag goes to the open sample button, and is passed
      over when no button is open. */
  lemma SampleStackRouting(name: string, active: Option<SampleButton>)
    requires StartsWith(name, "sampleStack")
    ensures active.Some? ==> Route(name, active) == Ok(Delegate(SampleStack(active.value, name[|name| - 1])))
    ensures active.None? ==> Route(name, active) == Ok(Ignore)
  {
    assert name[..11] == "sampleStack";
    SampleTestsReached(name, active);
    SampleStackInSampleTests(name, active);
  }

  /** The last of the sample tests for a simple element's tag. */
  lemma SimpleTagInSampleTests(e: SimpleElement, active: Option<SampleButton>)
    ensures RouteSample(SimpleTag(e), active) == Ok(Delegate(Simple(e)))
  {
    var name := SimpleTag(e);
    if e.SampleBankA? || e.SampleBankB? || e.SampleBankC? {
      assert name[..10] == "sampleBank";
      DiffersAt(name, "sampleStack", 6);
    } else {
      DiffersAt(name, "sampleStack", if name[0] == 's' then 1 else 0);
    }
    NotSampleButtonTag(name);
  }

  /** A simple element's tag reaches that element's parser. */
  lemma SimpleTagRouting(e: SimpleElement, active: Option<SampleButton>)
    ensures Route(SimpleTag(e), active) == Ok(Delegate(Simple(e)))
  {
    SampleTestsReached(SimpleTag(e), active);
    SimpleTagInSampleTests(e, active);
  }

  /** The sample tests for a `sampleBank` tag that names no simple element. */
  lemma UnknownSampleBankInSampleTests(name: string, active: Option<SampleButton>)
    requires StartsWith(name, "sampleBank") && SimpleFromStr(name).None?
    ensures RouteSample(name, active) == Err(UnknownSimpleElement)
  {
    assert name[..10] == "sampleBank";
    NotSampleButtonTag(name);
    DiffersAt(name, "sampleStack", 6);
  }

  /** A `sampleBank` tag that names no simple element is an error. */
  lemma UnknownSampleBankRouting(name: string, active: Option<SampleButton>)
    requires StartsWith(name, "sampleBank") && SimpleFromStr(name).None?
    ensures Route(name, active) == Err(UnknownSimpleElement)
  {
    assert name[..10] == "sampleBank";
    SampleTestsReached(name, active);
    UnknownSampleBankInSampleTests(name, active);
  }

  // ---- The event loop of `ProfileSettings::load` ----------------------------

  /** The events the XML reader yields, as far as `load` looks at them. */
  datatype XmlEvent =
    | StartElement(name: string, attributes: seq<Attribute>)
    | EndElement(name: string)
    | ReadError
    | OtherEvent

  /** One hand-off of a start tag's attributes to a component. */
  datatype Call = Call(target: Target, attributes: seq<Attribute>)

  /** The loop's state: the hand-offs so far and the open sample button. */
  datatype Reader = Reader(calls: seq<Call>, active: Option<SampleButton>)

  const FRESH_READER: Reader := Reader([], None)

  /** One event other than a read error. */
  function Step(r: Reader, e: XmlEvent): (o: Result<Reader, ProfileError>)
    requires !e.ReadError?
    ensures o.Ok? ==> r.calls <= o.value.calls && |o.value.calls| <= |r.calls| + 1
    ensures o.Err? ==> e.StartElement? && o.error in TAG_ERRORS
    ensures !e.StartElement? ==> o.Ok? && o.value.calls == r.calls
  {
    match e
    case StartElement(name, attributes) =>
      (match Route(name, r.active)
       case Err(err) => Err(err)
       case Ok(Ignore) => Ok(r)
       case Ok(Delegate(t)) =>
         Ok(Reader(r.calls + [Call(t, attributes)], if t.Sampler? then Some(t.button) else r.active)))
    case EndElement(name) =>
      Ok(if SampleButtonFor(name).Some? then r.(active := None) else r)
    case OtherEvent => Ok(r)
  }

  /** The loop over `events` from state `r`: the first read error ends it
      with what has been read so far. */
  function ReadFrom(r: Reader, events: seq<XmlEvent>): (o: Result<Reader, ProfileError>)
    ensures o.Ok? ==> r.calls <= o.value.calls && |o.value.calls| <= |r.calls| + |events|
    ensures o.Err? ==> o.error in TAG_ERRORS
    decreases |events|
  {
    if events == [] || events[0].ReadError? then Ok(r)
    else
      match Step(r, events[0])
      case Err(e) => Err(e)
      case Ok(next) => ReadFrom(next, events[1..])
  }

  /** `ProfileSettings::load`: the hand-offs the event loop makes, or the
      first error a tag raises. */
  method LoadSettings(events: seq<XmlEvent>) returns (r: Result<seq<Call>, ProfileError>)
    ensures r.Ok? <==> ReadFrom(FRESH_READER, events).Ok?
    ensures r.Ok? ==> r.value == ReadFrom(FRESH_READER, events).value.calls
    ensures r.Err? ==> r.error == ReadFrom(FRESH_READER, events).error
  {
    var calls: seq<Call> := [];
    var activeSampleButton: Option<SampleButton> := None;
    var i := 0;
    while i < |events|
      invariant 0 <= i <= |events|
      invariant ReadFrom(FRESH_READER, events) == ReadFrom(Reader(calls, activeSampleButton), events[i..])
    {
      assert events[i..][1..] == events[i + 1..];
      match events[i] {
        case StartElement(name, attributes) =>
          var routed := Route(name, activeSampleButton);
          match routed {
            case Err(e) =>
              return Err(e);
            case Ok(Ignore) =>
            case Ok(Delegate(target)) =>
              calls := calls + [Call(target, attributes)];
              if target.Sampler? {
                activeSampleButton := Some(target.button);
              }
          }
        case EndElement(name) =>
          if SampleButtonFor(name).Some? {
            activeSampleButton := None;
          }
        case ReadError =>
          break;
        case OtherEvent =>
      }
      i := i + 1;
    }
    return Ok(calls);
  }

  /** Whatever follows a read error is never looked at: the result is the
      one for the events before it, which is `Ok` unless one of them failed. */
  lemma {:induction false} ReadErrorStops(r: Reader, before: seq<XmlEvent>, after: seq<XmlEvent>)
    ensures ReadFrom(r, before + [ReadError] + after) == ReadFrom(r, before)
    decreases |before|
  {
    var events := before + [ReadError] + after;
    if before != [] {
      assert events[0] == before[0];
      assert events[1..] == before[1..] + [ReadError] + after;
      if !before[0].ReadError? && Step(r, before[0]).Ok? {
        ReadErrorStops(Step(r, before[0]).value, before[1..], after);
      }
    } else {
      assert events[0] == ReadError;
    }
  }


  // ---- The open sample button ----------------------------------------------

  /** Opening a sample button's element hands it to that button and makes
      it the open button. */
  lemma SampleOpenStep(r: Reader, b: SampleButton, attributes: seq<Attribute>)
    ensures Step(r, StartElement(SampleTag(b), attributes))
         == Ok(Reader(r.calls + [Call(Sampler(b), attributes)], Some(b)))
  {
    SampleTagRouting(b, r.active);
  }

  /** Closing any of the five sample elements clears the open button;
      closing any other element changes nothing. */
  lemma CloseStep(r: Reader, name: string)
    ensures (exists b :: SampleTag(b) == name) ==> Step(r, EndElement(name)) == Ok(r.(active := None))
    ensures (forall b :: SampleTag(b) != name) ==> Step(r, EndElement(name)) == Ok(r)
  {
  }

  /** A `sampleStack` element is handed to the open button, and is passed
      over (nothing recorded, nothing changed) when no button is open. */
  lemma SampleStackStep(r: Reader, name: string, attributes: seq<Attribute>)
    requires StartsWith(name, "sampleStack")
    ensures r.active.None? ==> Step(r, StartElement(name, attributes)) == Ok(r)
    ensures r.active.Some? ==>
      var stack := Call(SampleStack(r.active.value, name[|name| - 1]), attributes);
      Step(r, StartElement(name, attributes)) == Ok(r.(calls := r.calls + [stack]))
  {
    SampleStackRouting(name, r.active);
  }

  /** The button of the last hand-off to a sample button, if any. */
  function LastSampler(calls: seq<Call>): Option<SampleButton>
    decreases |calls|
  {
    if calls == [] then None
    else if calls[|calls| - 1].target.Sampler? then Some(calls[|calls| - 1].target.button)
    else LastSampler(calls[..|calls| - 1])
  }

  /** Every stack hand-off went to the button whose element was opened
      last before it. */
  predicate StacksFollowSampler(calls: seq<Call>)
  {
    forall i | 0 <= i < |calls| && calls[i].target.SampleStack? ::
      LastSampler(calls[..i]) == Some(calls[i].target.button)
  }

  /** What the loop keeps true: stacks so far went to the right button, and
      an open button is the one opened last. */
  predicate Consistent(r: Reader)
  {
    StacksFollowSampler(r.calls) && (r.active.Some? ==> LastSampler(r.calls) == r.active)
  }

  /** The routing hands a stack only to the open button. */
  lemma {:induction false} RouteEffectStack(name: string, kinds: seq<EffectKind>, active: Option<SampleButton>)
    requires RouteEffect(name, kinds, active).Ok? && RouteEffect(name, kinds, active).value.Delegate?
    requires RouteEffect(name, kinds, active).value.target.SampleStack?
    ensures active == Some(RouteEffect(name, kinds, active).value.target.button)
    decreases |kinds|
  {
    if kinds != [] && name != RootTag(kinds[0])
      && !(StartsWith(name, RootTag(kinds[0]) + "preset") && ParsePreset(name).Ok?) {
      RouteEffectStack(name, kinds[1..], active);
    }
  }

  lemma RouteStack(name: string, active: Option<SampleButton>)
    requires Route(name, active).Ok? && Route(name, active).value.Delegate?
    requires Route(name, active).value.target.SampleStack?
    ensures active == Some(Route(name, active).value.target.button)
  {
    if Route(name, active) == RouteEffect(name, EFFECT_KINDS, active) {
      RouteEffectStack(name, EFFECT_KINDS, active);
    }
  }

  lemma StepKeepsConsistent(r: Reader, e: XmlEvent)
    requires !e.ReadError? && Consistent(r) && Step(r, e).Ok?
    ensures Consistent(Step(r, e).value)
  {
    if e.StartElement? && Route(e.name, r.active).value.Delegate? {
      var t := Route(e.name, r.active).value.target;
      var calls := r.calls + [Call(t, e.attributes)];
      assert calls[..|r.calls|] == r.calls;
      if t.SampleStack? {
        RouteStack(e.name, r.active);
      }
      forall i | 0 <= i < |calls| && calls[i].target.SampleStack?
        ensures LastSampler(calls[..i]) == Some(calls[i].target.button)
      {
        if i < |r.calls| {
          assert calls[..i] == r.calls[..i];
        }
      }
    }
  }

  lemma {:induction false} ReadKeepsConsistent(r: Reader, events: seq<XmlEvent>)
    requires Consistent(r)
    ensures ReadFrom(r, events).Ok? ==> Consistent(ReadFrom(r, events).value)
    decreases |events|
  {
    if events != [] && !events[0].ReadError? && Step(r, events[0]).Ok? {
      StepKeepsConsistent(r, events[0]);
      ReadKeepsConsistent(Step(r, events[0]).value, events[1..]);
    }
  }

  /** In a loaded profile every `sampleStack` element went to the sample
      button whose element was opened most recently before it, and an open
      button at the end is the last one opened. */
  lemma LoadedStacksFollowSampler(events: seq<XmlEvent>)
    ensures ReadFrom(FRESH_READER, events).Ok? ==> Consistent(ReadFrom(FRESH_READER, events).value)
  {
    ReadKeepsConsistent(FRESH_READER, events);
  }

  // ---- `ProfileSettings::load_preset` ----------------------------------------

  /** What `load_preset` does with the current preset: rename it, or hand
      an effect base the attributes for it. */
  datatype PresetCall =
    | SetName(name: string)
    | LoadEffectPreset(kind: EffectKind, preset: Preset, attributes: seq<Attribute>)

  /** The value of the first attribute whose name is `name`. */
  function FirstNamed(attributes: seq<Attribute>): (r: Option<string>)
    ensures r.None? <==> forall i | 0 <= i < |attributes| :: attributes[i].name != "name"
    decreases |attributes|
  {
    if attributes == [] then None
    else if attributes[0].name == "name" then Some(attributes[0].value)
    else FirstNamed(attributes[1..])
  }

  /** The effect base a preset file's tag names: its root tag, matched exactly. */
  function PresetKind(name: string): (r: Option<EffectKind>)
    ensures r.Some? ==> RootTag(r.value) == name
    ensures r.None? ==> forall k :: RootTag(k) != name
  {
    if name == "reverbEncoder" then Some(Reverb)
    else if name == "echoEncoder" then Some(Echo)
    else if name == "pitchEncoder" then Some(Pitch)
    else if name == "genderEncoder" then Some(Gender)
    else if name == "megaphoneEffect" then Some(Megaphone)
    else if name == "robotEffect" then Some(Robot)
    else if name == "hardtuneEffect" then Some(Hardtune)
    else None
  }

  /** The call a tag after the top element makes: none for an unknown tag. */
  function TagCall(current: Preset, name: string, attributes: seq<Attribute>): seq<PresetCall>
  {
    match PresetKind(name)
    case None => []
    case Some(k) => [LoadEffectPreset(k, current, attributes)]
  }

  /** The loop of `load_preset` from state `readTop`, having made `calls`. */
  function PresetReadFrom(current: Preset, readTop: bool, calls: seq<PresetCall>, events: seq<XmlEvent>)
    : (o: Result<seq<PresetCall>, ProfileError>)
    ensures o.Err? ==> !readTop && o.error == PresetNameNotFound
    decreases |events|
  {
    if events == [] then Ok(calls)
    else
      match events[0]
      case StartElement(name, attributes) =>
        if !readTop then
          match FirstNamed(attributes)
          case None => Err(PresetNameNotFound)
          case Some(v) => PresetReadFrom(current, true, calls + [SetName(v)], events[1..])
        else PresetReadFrom(current, true, calls + TagCall(current, name, attributes), events[1..])
      case _ => PresetReadFrom(current, readTop, calls, events[1..])
  }

  /** `ProfileSettings::load_preset` into preset `current`: the calls it
      makes, or the error for a top element without a name. */
  method LoadPreset(current: Preset, events: seq<XmlEvent>) returns (r: Result<seq<PresetCall>, ProfileError>)
    ensures r == PresetReadFrom(current, false, [], events)
  {
    var calls: seq<PresetCall> := [];
    var readTop := false;
    for i := 0 to |events|
      invariant PresetReadFrom(current, false, [], events) == PresetReadFrom(current, readTop, calls, events[i..])
    {
      assert events[i..][1..] == events[i + 1..];
      match events[i] {
        case StartElement(name, attributes) =>
          if !readTop {
            ghost var before := calls;
            var j := 0;
            while j < |attributes|
              invariant 0 <= j <= |attributes|
              invariant !readTop && calls == before
              invariant FirstNamed(attributes) == FirstNamed(attributes[j..])
            {
              assert attributes[j..][1..] == attributes[j + 1..];
              if attributes[j].name == "name" {
                readTop := true;
                calls := calls + [SetName(attributes[j].value)];
                assert FirstNamed(attributes) == Some(attributes[j].value);
                break;
              }
              j := j + 1;
            }
            if !readTop {
              assert FirstNamed(attributes) == None;
              return Err(PresetNameNotFound);
            }
          } else {
            match PresetKind(name) {
              case Some(kind) =>
                calls := calls + [LoadEffectPreset(kind, current, attributes)];
              case None =>
                assert calls + TagCall(current, name, attributes) == calls;
            }
          }
        case _ =>
      }
    }
    return Ok(calls);
  }

  /** The calls one event makes once the top element is read: a start tag
      its `TagCall`, any other event none. */
  function EventCalls(current: Preset, e: XmlEvent): seq<PresetCall>
  {
    if e.StartElement? then TagCall(current, e.name, e.attributes) else []
  }

  /** The calls the tags of `events` make once the top element is read:
      each recognised tag in order, aimed at `current`. */
  function PresetCallsOf(current: Preset, events: seq<XmlEvent>): seq<PresetCall>
    decreases |events|
  {
    if events == [] then []
    else EventCalls(current, events[0]) + PresetCallsOf(current, events[1..])
  }

  /** After the top element, nothing fails: the result is the calls so far
      followed by one call per recognised tag; unknown tags, end tags and
      read errors add nothing. */
  lemma {:induction false} AfterTopElement(current: Preset, calls: seq<PresetCall>, events: seq<XmlEvent>)
    ensures PresetReadFrom(current, true, calls, events) == Ok(calls + PresetCallsOf(current, events))
    decreases |events|
  {
    if events == [] {
      assert calls + [] == calls;
    } else {
      var more := EventCalls(current, events[0]);
      AfterTopStep(current, calls, events);
      AfterTopElement(current, calls + more, events[1..]);
      assert calls + more + PresetCallsOf(current, events[1..]) == calls + PresetCallsOf(current, events);
    }
  }

  /** One event after the top element adds its `EventCalls`. */
  lemma AfterTopStep(current: Preset, calls: seq<PresetCall>, events: seq<XmlEvent>)
    requires events != []
    ensures PresetReadFrom(current, true, calls, events)
      == PresetReadFrom(current, true, calls + EventCalls(current, events[0]), events[1..])
  {
    if !events[0].StartElement? {
      assert calls + [] == calls;
    }
  }

  /** The first start element decides: with no `name` attribute the load
      fails; otherwise the preset is renamed to the first `name` value and
      every later recognised tag loads into the current preset. */
  lemma {:induction false} FirstElementRule(current: Preset, calls: seq<PresetCall>, events: seq<XmlEvent>, k: nat)
    requires k < |events| && events[k].StartElement?
    requires forall j | 0 <= j < k :: !events[j].StartElement?
    ensures FirstNamed(events[k].attributes).None? ==>
      PresetReadFrom(current, false, calls, events) == Err(PresetNameNotFound)
    ensures FirstNamed(events[k].attributes).Some? ==>
      PresetReadFrom(current, false, calls, events)
        == Ok(calls + [SetName(FirstNamed(events[k].attributes).value)] + PresetCallsOf(current, events[k + 1..]))
    decreases k
  {
    if k == 0 {
      if FirstNamed(events[0].attributes).Some? {
        AfterTopElement(current, calls + [SetName(FirstNamed(events[0].attributes).value)], events[1..]);
      }
    } else {
      FirstElementRule(current, calls, events[1..], k - 1);
      assert events[1..][k - 1 + 1..] == events[k + 1..];
    }
  }

  /** A preset file without any start element changes nothing. */
  lemma {:induction false} NoTopElement(current: Preset, calls: seq<PresetCall>, events: seq<XmlEvent>)
    requires forall j | 0 <= j < |events| :: !events[j].StartElement?
    ensures PresetReadFrom(current, false, calls, events) == Ok(calls)
    decreases |events|
  {
    if events != [] {
      NoTopElement(current, calls, events[1..]);
    }
  }

  // ---- Simple elements -------------------------------------------------------

  /** The simple elements `load` stored: for each element, the attributes
      of the last tag handed to it. */
  function SimpleElementsOf(calls: seq<Call>): (m: map<SimpleElement, seq<Attribute>>)
    decreases |calls|
  {
    if calls == [] then map[]
    else
      var last := calls[|calls| - 1];
      var earlier := SimpleElementsOf(calls[..|calls| - 1]);
      if last.target.Simple? then earlier[last.target.element := last.attributes] else earlier
  }

  /** The last call stores its attributes when it went to a simple element
      and leaves the other elements as they were. */
  lemma SimpleElementsLast(calls: seq<Call>, e: SimpleElement)
    requires calls != []
    ensures var m := SimpleElementsOf(calls);
      calls[|calls| - 1].target == Simple(e) ==> e in m && m[e] == calls[|calls| - 1].attributes
    ensures var m, m0 := SimpleElementsOf(calls), SimpleElementsOf(calls[..|calls| - 1]);
      calls[|calls| - 1].target != Simple(e) ==> (e in m <==> e in m0) && (e in m ==> m[e] == m0[e])
  {
  }

  /** An element is stored exactly when some tag was handed to it, and what
      is stored comes from the last such tag. */
  lemma {:induction false} SimpleElementsOfSpec(calls: seq<Call>, e: SimpleElement)
    ensures e in SimpleElementsOf(calls) <==> exists i | 0 <= i < |calls| :: calls[i].target == Simple(e)
    ensures e in SimpleElementsOf(calls) ==> exists i | 0 <= i < |calls| ::
      && calls[i] == Call(Simple(e), SimpleElementsOf(calls)[e])
      && forall j | i < j < |calls| :: calls[j].target != Simple(e)
    decreases |calls|
  {
    if calls != [] {
      var n := |calls| - 1;
      var earlier := calls[..n];
      var m := SimpleElementsOf(calls);
      SimpleElementsOfSpec(earlier, e);
      SimpleElementsLast(calls, e);
      if calls[n].target == Simple(e) {
        assert calls[n] == Call(Simple(e), m[e]);
      } else {
        assert forall i | 0 <= i < n :: earlier[i] == calls[i];
        if e in m {
          var i :| 0 <= i < n && earlier[i] == Call(Simple(e), SimpleElementsOf(earlier)[e])
            && forall j | i < j < n :: earlier[j].target != Simple(e);
          assert calls[i] == Call(Simple(e), m[e]);
          assert forall j | i < j < |calls| :: calls[j].target != Simple(e);
        } else {
          assert forall i | 0 <= i < n :: calls[i].target != Simple(e);
        }
      }
    }
  }

  /** `simple_element` / `simple_element_mut`: the stored element, or the
      `GlobalColour` element when it is missing (and a panic when that is
      missing too, which the precondition rules out). */
  function SimpleElementFor(elements: map<SimpleElement, seq<Attribute>>, name: SimpleElement): (r: seq<Attribute>)
    requires name in elements || GlobalColour in elements
    ensures r in elements.Values
  {
    if name in elements then elements[name] else elements[GlobalColour]
  }

  /** Once a profile had a `globalColour` tag, every element can be looked
      up: a present element answers for itself, a missing one with the
      global colour. */
  lemma SimpleElementFallback(calls: seq<Call>, name: SimpleElement)
    requires exists i | 0 <= i < |calls| :: calls[i].target == Simple(GlobalColour)
    ensures name in SimpleElementsOf(calls) || GlobalColour in SimpleElementsOf(calls)
    ensures (exists i | 0 <= i < |calls| :: calls[i].target == Simple(name)) ==>
      && name in SimpleElementsOf(calls)
      && SimpleElementFor(SimpleElementsOf(calls), name) == SimpleElementsOf(calls)[name]
    ensures (forall i | 0 <= i < |calls| :: calls[i].target != Simple(name)) ==>
      && GlobalColour in SimpleElementsOf(calls)
      && SimpleElementFor(SimpleElementsOf(calls), name) == SimpleElementsOf(calls)[GlobalColour]
  {
    SimpleElementsOfSpec(calls, GlobalColour);
    SimpleElementsOfSpec(calls, name);
  }

  // ---- Scribbles in the profile archive ---------------------------------------

  /** The number of scribble slots, one per fader. */
  const SCRIBBLE_SLOTS: nat := 4

  /** `format!("scribble{}.png", i + 1)`. */
  function ScribbleName(i: nat): string
  {
    "scribble" + NatToString(i + 1) + ".png"
  }

  /** Different slots use different file names, and none is `profile.xml`. */
  lemma ScribbleNamesDistinct(i: nat, j: nat)
    ensures i != j ==> ScribbleName(i) != ScribbleName(j)
    ensures ScribbleName(i) != "profile.xml"
  {
    var a := ScribbleName(i);
    var b := ScribbleName(j);
    if a == b {
      assert a[8..|a| - 4] == NatToString(i + 1);
      assert b[8..|b| - 4] == NatToString(j + 1);
      NatToStringInjective(i + 1, j + 1);
    }
    assert a[0] == 's';
  }

  /** A zip entry as it is written. */
  datatype Entry = Entry(name: string, data: seq<byte>)

  /** The archive a list of written entries reads back as; a later entry
      under the same name replaces an earlier one. */
  function ArchiveOf(entries: seq<Entry>): map<string, seq<byte>>
    decreases |entries|
  {
    if entries == [] then map[]
    else
      var last := entries[|entries| - 1];
      ArchiveOf(entries[..|entries| - 1])[last.name := last.data]
  }

  /** What `Profile::load` reads into slot `i`: the file's bytes, or
      nothing when the file is absent. */
  function ScribbleIn(archive: map<string, seq<byte>>, i: nat): seq<byte>
  {
    if ScribbleName(i) in archive then archive[ScribbleName(i)] else []
  }

  /** The entries `Profile::save` writes for the first `n` slots: only the
      non-empty ones. */
  function SavedScribbles(scribbles: seq<seq<byte>>, n: nat): seq<Entry>
    requires n <= |scribbles|
  {
    if n == 0 then []
    else
      var earlier := SavedScribbles(scribbles, n - 1);
      if scribbles[n - 1] != [] then earlier + [Entry(ScribbleName(n - 1), scribbles[n - 1])] else earlier
  }

  /** A loaded (or built) profile: the settings hand-offs and four scribbles. */
  datatype Profile = Profile(settings: seq<Call>, scribbles: seq<seq<byte>>)

  /** What `Profile::load` gives for an archive, with the XML of
      `profile.xml` turned into events by `parseXml`. */
  function ProfileFrom(archive: map<string, seq<byte>>, parseXml: seq<byte> -> seq<XmlEvent>): Result<Profile, ProfileError>
  {
    if "profile.xml" !in archive then Err(FileNotFound("profile.xml"))
    else
      match ReadFrom(FRESH_READER, parseXml(archive["profile.xml"]))
      case Err(e) => Err(e)
      case Ok(reader) => Ok(Profile(reader.calls, seq(SCRIBBLE_SLOTS, i requires 0 <= i => ScribbleIn(archive, i))))
  }

  /** `Profile::load`: fill the four slots from the archive, then read the
      settings from `profile.xml`. */
  method LoadProfile(archive: map<string, seq<byte>>, parseXml: seq<byte> -> seq<XmlEvent>)
    returns (r: Result<Profile, ProfileError>)
    ensures r == ProfileFrom(archive, parseXml)
  {
    var scribbles := new seq<byte>[SCRIBBLE_SLOTS](_ => []);
    for i := 0 to SCRIBBLE_SLOTS
      invariant forall j | 0 <= j < i :: scribbles[j] == ScribbleIn(archive, j)
      invariant forall j | i <= j < SCRIBBLE_SLOTS :: scribbles[j] == []
    {
      var filename := ScribbleName(i);
      if filename in archive {
        scribbles[i] := archive[filename];
      }
    }
    if "profile.xml" !in archive {
      return Err(FileNotFound("profile.xml"));
    }
    var settings := LoadSettings(parseXml(archive["profile.xml"]));
    match settings {
      case Err(e) =>
        return Err(e);
      case Ok(calls) =>
        assert scribbles[..] == seq(SCRIBBLE_SLOTS, i requires 0 <= i => ScribbleIn(archive, i));
        return Ok(Profile(calls, scribbles[..]));
    }
  }

  /** `Profile::save`: `profile.xml` (the bytes `xml` the settings write to)
      first, then one file per non-empty slot. */
  method SaveProfile(profile: Profile, xml: seq<byte>) returns (entries: seq<Entry>)
    requires |profile.scribbles| == SCRIBBLE_SLOTS
    ensures entries == [Entry("profile.xml", xml)] + SavedScribbles(profile.scribbles, SCRIBBLE_SLOTS)
  {
    entries := [Entry("profile.xml", xml)];
    for i := 0 to SCRIBBLE_SLOTS
      invariant entries == [Entry("profile.xml", xml)] + SavedScribbles(profile.scribbles, i)
    {
      if profile.scribbles[i] != [] {
        entries := entries + [Entry(ScribbleName(i), profile.scribbles[i])];
      }
    }
  }

  /** A later entry of the same name replaces an earlier one. */
  lemma ArchiveAppend(entries: seq<Entry>, entry: Entry)
    ensures ArchiveOf(entries + [entry]) == ArchiveOf(entries)[entry.name := entry.data]
  {
    assert (entries + [entry])[..|entries|] == entries;
  }

  /** Adding an entry for slot `k` leaves what every other slot and
      `profile.xml` read unchanged. */
  lemma AddScribbleEntry(before: map<string, seq<byte>>, k: nat, data: seq<byte>)
    ensures var after := before[ScribbleName(k) := data];
      && ScribbleIn(after, k) == data
      && ("profile.xml" in after <==> "profile.xml" in before)
      && ("profile.xml" in before ==> after["profile.xml"] == before["profile.xml"])
      && forall i: nat | i != k :: ScribbleIn(after, i) == ScribbleIn(before, i)
  {
    ScribbleNamesDistinct(k, k);
    forall i: nat | i != k ensures ScribbleName(i) != ScribbleName(k) {
      ScribbleNamesDistinct(i, k);
    }
  }

  /** `archive` holds `xml` as `profile.xml`, the first `n` scribbles in
      their slots and nothing in the slots after them. */
  ghost predicate HoldsSaved(archive: map<string, seq<byte>>, scribbles: seq<seq<byte>>, xml: seq<byte>, n: nat)
    requires n <= |scribbles|
  {
    && "profile.xml" in archive && archive["profile.xml"] == xml
    && (forall i: nat | i < n :: ScribbleIn(archive, i) == scribbles[i])
    && (forall i: nat | n <= i :: ScribbleIn(archive, i) == [])
  }

  /** Saving slot `n - 1` after the slots before it: a non-empty scribble
      is added under its own name, an empty one adds nothing. */
  lemma SavedSlot(archive: map<string, seq<byte>>, scribbles: seq<seq<byte>>, xml: seq<byte>, n: nat)
    requires 0 < n <= |scribbles| && HoldsSaved(archive, scribbles, xml, n - 1)
    ensures scribbles[n - 1] != [] ==> HoldsSaved(archive[ScribbleName(n - 1) := scribbles[n - 1]], scribbles, xml, n)
    ensures scribbles[n - 1] == [] ==> HoldsSaved(archive, scribbles, xml, n)
  {
    if scribbles[n - 1] != [] {
      AddScribbleEntry(archive, n - 1, scribbles[n - 1]);
    }
  }

  /** The archive of the first `n` saved slots holds exactly the non-empty
      ones among them, each under its own name, and `profile.xml` as it was
      written before them. */
  lemma {:induction false} SavedArchiveHolds(scribbles: seq<seq<byte>>, xml: seq<byte>, n: nat)
    requires n <= |scribbles|
    ensures HoldsSaved(ArchiveOf([Entry("profile.xml", xml)] + SavedScribbles(scribbles, n)), scribbles, xml, n)
    decreases n
  {
    var head := [Entry("profile.xml", xml)];
    if n == 0 {
      assert head + [] == head;
      assert ArchiveOf(head) == map["profile.xml" := xml];
      forall i: nat ensures ScribbleName(i) !in ArchiveOf(head) {
        ScribbleNamesDistinct(i, i);
      }
    } else {
      SavedArchiveHolds(scribbles, xml, n - 1);
      var earlier := head + SavedScribbles(scribbles, n - 1);
      SavedSlot(ArchiveOf(earlier), scribbles, xml, n);
      if scribbles[n - 1] != [] {
        var entry := Entry(ScribbleName(n - 1), scribbles[n - 1]);
        assert head + SavedScribbles(scribbles, n) == earlier + [entry];
        ArchiveAppend(earlier, entry);
      } else {
        assert head + SavedScribbles(scribbles, n) == earlier;
      }
    }
  }

  /** The archive `Profile::save` writes holds `profile.xml` as written and
      the first `n` scribbles in their slots; the slots after them are empty. */
  lemma SavedArchive(scribbles: seq<seq<byte>>, xml: seq<byte>, n: nat)
    requires n <= |scribbles|
    ensures var archive := ArchiveOf([Entry("profile.xml", xml)] + SavedScribbles(scribbles, n));
      && "profile.xml" in archive && archive["profile.xml"] == xml
      && (forall i: nat | i < n :: ScribbleIn(archive, i) == scribbles[i])
      && (forall i: nat | n <= i :: ScribbleIn(archive, i) == [])
  {
    SavedArchiveHolds(scribbles, xml, n);
  }

  /** Saving a profile and loading the archive back gives the same four
      scribbles and the same settings, provided the written XML reads back
      as the same hand-offs. */
  lemma ProfileRoundTrip(profile: Profile, xml: seq<byte>, parseXml: seq<byte> -> seq<XmlEvent>)
    requires |profile.scribbles| == SCRIBBLE_SLOTS
    requires ReadFrom(FRESH_READER, parseXml(xml)).Ok?
    requires ReadFrom(FRESH_READER, parseXml(xml)).value.calls == profile.settings
    ensures ProfileFrom(ArchiveOf([Entry("profile.xml", xml)] + SavedScribbles(profile.scribbles, SCRIBBLE_SLOTS)), parseXml)
         == Ok(profile)
  {
    var archive := ArchiveOf([Entry("profile.xml", xml)] + SavedScribbles(profile.scribbles, SCRIBBLE_SLOTS));
    SavedArchive(profile.scribbles, xml, SCRIBBLE_SLOTS);
    assert seq(SCRIBBLE_SLOTS, i requires 0 <= i => ScribbleIn(archive, i)) == profile.scribbles;
  }
}
