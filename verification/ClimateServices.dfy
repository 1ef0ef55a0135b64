/**
 What the Home Assistant services do to a climate device, set against what the engine takes them for
 (apps/home-assistant-climate-provider/src/execution.ts:347-357, 532-539, home-assistant.ts:74-104).
 */
module ClimateServices {
  import opened Wrappers
  import opened ClimateStore
  import opened ClimateEngine

  const OFF: string := ['o', 'f', 'f']
  const UNAVAILABLE: string := ['u', 'n', 'a', 'v', 'a', 'i', 'l', 'a', 'b', 'l', 'e']
  const UNKNOWN: string := ['u', 'n', 'k', 'n', 'o', 'w', 'n']

  /** The part of `normalizeClimateState` that reads the state text. */
  function Normalised(s: Climate, text: string): Climate {
    var reachable := text != UNAVAILABLE && text != UNKNOWN;
    s.(power := if text == OFF then PowerOff else if text == UNAVAILABLE then PowerUnavailable
                else if text == UNKNOWN then PowerUnknown else PowerOn,
       reachable := reachable,
       hvacMode := if reachable then Some(text) else None)
  }

  /** The state text a device reports after it obeyed a service; `last` is the mode it resumes when turned on. */
  function TextAfter(service: Service, text: string, last: string): string {
    match service
    case TurnOn => if text == OFF then last else text
    case TurnOff => OFF
    case SetMode(mode) => mode
    case SetTarget(_) => text
  }

  function Obeyed(service: Service, s: Climate, text: string, last: string): Climate {
    var next := Normalised(s, TextAfter(service, text, last));
    if service.SetTarget? then next.(targetTemperature := Some(service.temperature)) else next
  }

  predicate IsMode(text: string) {
    text != UNAVAILABLE && text != UNKNOWN
  }

  /** The service called is the one that brings about what the task asks for. */
  lemma ServiceBringsDesired(desired: Desired, s: Climate, text: string, last: string)
    requires IsMode(text) && IsMode(last) && last != OFF
    requires desired.DesiredMode? ==> IsMode(desired.hvacMode)
    ensures var next := Obeyed(ServiceFor(desired), s, text, last);
            next.reachable && Shows(desired, next)
  {}

  /** The power a service gives the device, if it changes it. */
  function Switched(service: Service, s: Climate, text: string, last: string): Option<Power> {
    var before, after := Normalised(s, text).power, Obeyed(service, s, text, last).power;
    if before == after then None else if after.PowerOn? then Some(On) else if after.PowerOff? then Some(Off) else None
  }

  /** The one dispatch that switches the device without the power guard: mode `off` for a device that is on. */
  predicate SwitchesUnseen(desired: Desired, text: string) {
    desired.DesiredMode? && desired.hvacMode == OFF && text != OFF
  }

  /**
   For a reachable device that does not show the desired state yet, the power intent the guard works with is the power
   the service switches the device to, if any, exactly unless the task sets mode `off` on a device that is on.
   */
  lemma GuardSeesSwitchExactly(desired: Desired, s: Climate, text: string, last: string)
    requires IsMode(text) && IsMode(last) && last != OFF
    requires desired.DesiredMode? ==> IsMode(desired.hvacMode)
    requires !Shows(desired, Normalised(s, text))
    ensures PowerIntent(desired, Normalised(s, text)) == Switched(ServiceFor(desired), s, text, last)
            <==> !SwitchesUnseen(desired, text)
  {}
}
