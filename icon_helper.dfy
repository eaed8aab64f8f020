/** updateButtonIcon (src/lib/icon-helper.ts): redraws a button's icon in the
    configured colours. Nothing happens unless a colour is configured; the
    toggle button has one icon per state, every other button one icon. */
module IconHelper {
  import opened Types
  import opened Text
  import opened IconGenerator
  import opened Effects

  /** The toggle button's icons, indexed by state (0 off, 1 on). */
  const StateIcons: seq<string> := ["imgs/actions/toggle-off.png", "imgs/actions/toggle-on.png"]

  predicate HasColours(settings: ActionSettings) {
    Truthy(settings.iconColor) || Truthy(settings.backgroundColor)
  }

  /** The icon a redraw starts from: the state icon for the toggle button
      given a state, the action's own icon otherwise. */
  function IconFor(uuid: string, state: Option<int>): string
    requires uuid == ToggleUuid && state.Some? ==> 0 <= state.value < 2
  {
    if uuid == ToggleUuid && state.Some? then StateIcons[state.value] else ActionIconPath(uuid)
  }

  /** updateButtonIcon. A toggle state with no icon of its own redraws
      nothing; every other case draws one image, for the given state on the
      toggle button and for the whole key on the others. */
  function UpdateButtonIcon(uuid: string, settings: ActionSettings, state: Option<int>, env: IconEnv): (es: seq<Effect>)
    ensures |es| <= 1 && KeyImageOnly(es)
    ensures es == [] <==> !HasColours(settings) || (uuid == ToggleUuid && state.Some? && !(0 <= state.value < 2))
    ensures es != [] ==>
      && es[0].forState == (if uuid == ToggleUuid then state else None)
      && es[0].image == GenerateColoredIcon(IconFor(uuid, state), settings.iconColor, settings.backgroundColor, env)
  {
    if !HasColours(settings) then []
    else if uuid == ToggleUuid && state.Some? then
      if 0 <= state.value < 2 then
        [SetImage(GenerateColoredIcon(StateIcons[state.value], settings.iconColor, settings.backgroundColor, env), state)]
      else []
    else
      [SetImage(GenerateColoredIcon(ActionIconPath(uuid), settings.iconColor, settings.backgroundColor, env), None)]
  }

  /** When the files are present and rendering works, the toggle button's
      redraw shows the icon of the state it is given, never the other one. */
  lemma ToggleIconFollowsState(settings: ActionSettings, state: int, env: IconEnv)
    requires HasColours(settings) && 0 <= state < 2
    requires StateIcons[state] in env.files && env.renderOk
    ensures var es := UpdateButtonIcon(ToggleUuid, settings, Some(state), env);
      && |es| == 1
      && es[0].image.DataUri?
      && es[0].image.source == StateIcons[state]
      && es[0].image.source != StateIcons[1 - state]
      && es[0].forState == Some(state)
  {
    assert !StartsWith(StateIcons[state], "assets/") by {
      assert StateIcons[state][0] == 'i';
    }
  }
}
