/**
 * The controls panel: a local copy of the configuration, replaced whenever
 * the configuration it is given changes, and handlers that merge one-field
 * updates into the copy and emit them; the hex field passes on only a full
 * `#RRGGBB` colour, and the presets emit whole configurations.
 */
module ControlsPanel {
  import opened Wrappers
  import opened Types
  import GeneratorHook

  /* ---------- The hex field's filter ---------- */

  predicate IsHexDigit(c: char) {
    '0' <= c <= '9' || 'A' <= c <= 'F' || 'a' <= c <= 'f'
  }

  /** At most budget hex digits, and nothing after them. */
  function HexRun(s: string, budget: nat): bool {
    if s == [] then true
    else budget > 0 && IsHexDigit(s[0]) && HexRun(s[1..], budget - 1)
  }

  /** The field's pattern `^#[0-9A-Fa-f]{0,6}$`: a '#', then up to six hex digits to the end. */
  predicate MatchesHexPattern(v: string) {
    |v| >= 1 && v[0] == '#' && HexRun(v[1..], 6)
  }

  /** The run accepts exactly the strings of at most budget characters, all hex digits. */
  lemma {:induction false} HexRunMeans(s: string, budget: nat)
    ensures HexRun(s, budget) <==> |s| <= budget && forall i :: 0 <= i < |s| ==> IsHexDigit(s[i])
  {
    if s != [] && budget > 0 {
      HexRunMeans(s[1..], budget - 1);
      assert forall i :: 0 <= i < |s[1..]| ==> s[1..][i] == s[i + 1];
    }
  }

  /** The pattern accepts a '#' followed by up to six hex digits, and nothing else. */
  lemma PatternMeans(v: string)
    ensures MatchesHexPattern(v) <==> && 1 <= |v| <= 7 && v[0] == '#'
                                      && forall i :: 1 <= i < |v| ==> IsHexDigit(v[i])
  {
    if |v| >= 1 {
      HexRunMeans(v[1..], 6);
      if forall i :: 1 <= i < |v| ==> IsHexDigit(v[i]) {
        forall i | 0 <= i < |v[1..]|
          ensures IsHexDigit(v[1..][i])
        {
          assert v[1..][i] == v[i + 1];
        }
      }
      if forall i :: 0 <= i < |v[1..]| ==> IsHexDigit(v[1..][i]) {
        forall i | 1 <= i < |v|
          ensures IsHexDigit(v[i])
        {
          assert v[i] == v[1..][i - 1];
        }
      }
    }
  }

  /** What the hex field emits for a typed value: the colour, once the pattern holds at seven characters. */
  function HexUpdate(v: string): Option<PanelUpdate> {
    if MatchesHexPattern(v) && |v| == 7 then Some(PanelUpdate(None, None, Some(v))) else None
  }

  /** The hex field emits exactly on a '#' and six hex digits, and emits that colour alone. */
  lemma EmitsIffSixHexDigits(v: string)
    ensures HexUpdate(v).Some? <==> |v| == 7 && v[0] == '#' && forall i :: 1 <= i < 7 ==> IsHexDigit(v[i])
    ensures HexUpdate(v).Some? ==> HexUpdate(v).value == PanelUpdate(None, None, Some(v))
  {
    PatternMeans(v);
  }

  /** Partial colours the pattern lets through while typing emit nothing. */
  lemma ShortPrefixesEmitNothing()
    ensures MatchesHexPattern("#") && HexUpdate("#").None?
    ensures MatchesHexPattern("#abc") && HexUpdate("#abc").None?
    ensures !MatchesHexPattern("#abcdefa") && !MatchesHexPattern("#ggg")
  {
    assert "#abc"[1..] == "abc";
    assert "#abcdefa"[1..] == "abcdefa";
    assert "#ggg"[1..] == "ggg";
  }

  /* ---------- The presets ---------- */

  datatype Preset = Default | Rounded | DarkCircle | BlueBadge

  /** The (padding, radius, background) a preset button sets. */
  function PresetConfig(p: Preset): (c: PanelConfig)
    ensures 0 <= c.paddingPercent <= 30 && 0 <= c.radiusPercent <= 50
  {
    match p
    case Default => PanelConfig(10, 0, "#ffffff")
    case Rounded => PanelConfig(15, 25, "#f3f4f6")
    case DarkCircle => PanelConfig(20, 50, "#1f2937")
    case BlueBadge => PanelConfig(5, 10, "#3b82f6")
  }

  /** Every preset's colour is one the hex field would pass on. */
  lemma PresetColoursPassHexField(p: Preset)
    ensures HexUpdate(PresetConfig(p).backgroundColor) == Some(PanelUpdate(None, None, Some(PresetConfig(p).backgroundColor)))
  {
    var v := PresetConfig(p).backgroundColor;
    assert |v| == 7 && v[0] == '#';
    assert forall i :: 1 <= i < 7 ==> IsHexDigit(v[i]);
    PatternMeans(v);
  }

  /** The button's update: every field supplied. */
  function PresetUpdate(p: Preset): PanelUpdate {
    var c := PresetConfig(p);
    PanelUpdate(Some(c.paddingPercent), Some(c.radiusPercent), Some(c.backgroundColor))
  }

  /** A preset overrides the whole configuration, whatever it was. */
  lemma PresetOverridesAll(c: PanelConfig, p: Preset)
    ensures Merge(c, PresetUpdate(p)) == PresetConfig(p)
  {
  }

  /** The Default preset is the hook's default configuration, and no two presets agree. */
  lemma PresetsAreDistinct(p: Preset, q: Preset)
    ensures PresetConfig(Default) == GeneratorHook.DefaultConfig
    ensures p != q ==> PresetConfig(p) != PresetConfig(q)
  {
  }

  /* ---------- The panel ---------- */

  class Panel {
    var localConfig: PanelConfig
    /** The updates handed to the parent, oldest first. */
    var emitted: seq<PanelUpdate>

    constructor(config: PanelConfig)
      ensures localConfig == config && emitted == []
    {
      localConfig := config;
      emitted := [];
    }

    /** The sync effect: a new configuration from the parent replaces the local copy. */
    method SyncFromProp(config: PanelConfig)
      modifies this
      ensures localConfig == config && emitted == old(emitted)
    {
      localConfig := config;
    }

    /** Merges an update into the local copy and emits it. */
    method Apply(u: PanelUpdate)
      modifies this
      ensures localConfig == Merge(old(localConfig), u)
      ensures emitted == old(emitted) + [u]
    {
      localConfig := Merge(localConfig, u);
      emitted := emitted + [u];
    }

    /** The padding slider: its value alone is merged and emitted. */
    method HandlePaddingChange(value: int)
      modifies this
      ensures localConfig == old(localConfig).(paddingPercent := value)
      ensures emitted == old(emitted) + [PanelUpdate(Some(value), None, None)]
    {
      Apply(PanelUpdate(Some(value), None, None));
    }

    /** The radius slider: its value alone is merged and emitted. */
    method HandleRadiusChange(value: int)
      modifies this
      ensures localConfig == old(localConfig).(radiusPercent := value)
      ensures emitted == old(emitted) + [PanelUpdate(None, Some(value), None)]
    {
      Apply(PanelUpdate(None, Some(value), None));
    }

    /** The colour picker: its value is forwarded as it is, unfiltered. */
    method HandleColorChange(value: string)
      modifies this
      ensures localConfig == old(localConfig).(backgroundColor := value)
      ensures emitted == old(emitted) + [PanelUpdate(None, None, Some(value))]
    {
      Apply(PanelUpdate(None, None, Some(value)));
    }

    /** The hex field: a full colour is merged and emitted; anything else changes nothing. */
    method HandleHexColorChange(value: string)
      modifies this
      ensures HexUpdate(value).Some? ==>
                && localConfig == old(localConfig).(backgroundColor := value)
                && emitted == old(emitted) + [PanelUpdate(None, None, Some(value))]
      ensures HexUpdate(value).None? ==> localConfig == old(localConfig) && emitted == old(emitted)
    {
      if MatchesHexPattern(value) {
        if |value| == 7 {
          Apply(PanelUpdate(None, None, Some(value)));
        }
      }
    }

    /** A preset button: its update is emitted; the local copy changes only through the sync. */
    method ApplyPreset(p: Preset)
      modifies this
      ensures localConfig == old(localConfig)
      ensures emitted == old(emitted) + [PresetUpdate(p)]
    {
      emitted := emitted + [PresetUpdate(p)];
    }
  }
}
