/** `withTransientSettingState`: a wrapper that keeps its own copy of the
    settings, lets the editor change that copy, and hands it to the owner
    when the editor is done. */
module TransientSettings {
  import opened JsValues

  /** A settings object with its reference identity: two distinct objects
      have distinct identities, so `!==` is inequality here. */
  datatype SettingsObject = SettingsObject(identity: nat, entries: Props)

  class TransientSettingState {
    /** The `settings` prop as last received from the owner. */
    var propSettings: Option<SettingsObject>
    /** The wrapper's own `settings` state, which the editor is given. */
    var settings: Option<SettingsObject>

    /** The local settings start as the prop. */
    constructor(props: Option<SettingsObject>)
      ensures propSettings == props && settings == props
    {
      propSettings := props;
      settings := props;
    }

    /** `UNSAFE_componentWillReceiveProps`: a different settings object from
        the owner replaces the local settings; the same object leaves the
        local edits in place. */
    method ReceiveProps(next: Option<SettingsObject>)
      modifies this
      ensures propSettings == next
      ensures old(propSettings) != next ==> settings == next
      ensures old(propSettings) == next ==> settings == old(settings)
    {
      if propSettings != next {
        settings := next;
      }
      propSettings := next;
    }

    /** The `onChange` given to the editor: an edit replaces the local
        settings and nothing else. */
    method Change(edited: SettingsObject)
      modifies this`settings
      ensures settings == Some(edited)
    {
      settings := Some(edited);
    }

    /** The `onDone` given to the editor: the settings it forwards to the
        owner's `onChange`, the ones passed in or else the local ones. */
    method Done(given: Option<SettingsObject>) returns (forwarded: Option<SettingsObject>)
      ensures given.Some? ==> forwarded == given
      ensures given.None? ==> forwarded == settings
    {
      forwarded := if given.Some? then given else settings;
    }
  }

  /** An edit survives a re-render in which the owner passes the same
      settings object, and is discarded when the owner passes another. */
  method EditThenReceive(state: TransientSettingState, edited: SettingsObject, next: Option<SettingsObject>)
    modifies state
    ensures state.propSettings == next
    ensures next == old(state.propSettings) ==> state.settings == Some(edited)
    ensures next != old(state.propSettings) ==> state.settings == next
  {
    state.Change(edited);
    state.ReceiveProps(next);
  }
}
