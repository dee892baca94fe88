/** The settings map operations of `ChartSettings` that do not go through
    the settings library: which settings are being edited, when "Reset to
    defaults" is offered, and what a reset hands to the owner. */
module SettingsOps {
  import opened JsValues

  /** `_getSettings()`: the `settings` prop when there is one, else the
      first series' card settings. */
  function EffectiveSettings(propSettings: Option<Props>, cardSettings: Option<Props>): (r: Option<Props>)
    ensures propSettings.Some? ==> r == propSettings
    ensures propSettings.None? ==> r == cardSettings
  {
    if propSettings.Some? then propSettings else cardSettings
  }

  /** Whether the footer gets an `onReset` handler: the settings are not
      deep-equal to `{}` and carry no `virtual_card` (absent settings read
      as `{}` for that test). */
  function ResetOffered(settings: Option<Props>): (r: bool)
    ensures settings == Some(map[]) ==> !r
    ensures settings.Some? && !IsNullish(Get(settings.value, "virtual_card")) ==> !r
    ensures settings.None? ==> r
    ensures settings.Some? && settings.value != map[] && IsNullish(Get(settings.value, "virtual_card")) ==> r
  {
    var orEmpty := if settings.Some? then settings.value else map[];
    settings != Some(map[]) && IsNullish(Get(orEmpty, "virtual_card"))
  }

  /** `handleResetSettings`: the dashboard card's original settings (none
      when there is no dashboard card) overridden key by key by the
      click-behaviour settings of the settings being edited, which a reset
      must keep. `clickBehaviorOf` stands for the library's
      `getClickBehaviorSettings`, and `settings` is `_getSettings()`. */
  function ResetSettings(original: Option<Props>, settings: Option<Props>,
                         clickBehaviorOf: Option<Props> -> Props): (r: Props)
    ensures r.Keys == clickBehaviorOf(settings).Keys + (if original.Some? then original.value.Keys else {})
    ensures forall k :: k in clickBehaviorOf(settings) ==> r[k] == clickBehaviorOf(settings)[k]
    ensures original.Some? ==>
              forall k :: k in original.value && k !in clickBehaviorOf(settings) ==> r[k] == original.value[k]
  {
    Overlay(if original.Some? then original.value else map[], clickBehaviorOf(settings))
  }
}
