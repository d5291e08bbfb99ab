/**
 * The Observer gate shared by both scroll sessions: a wheel or touch event's
 * deltaY is divided by a per-device sensitivity and becomes the new target
 * of the delta smoother (`deltaTo`).
 */
module ScrollInput {

  /** Divisors for wheel and touch deltas (`scrollSensitivity`). */
  datatype Sensitivity = Sensitivity(wheel: real, touch: real)

  const DefaultSensitivity := Sensitivity(1000.0, 500.0)

  /** The only event type that selects the touch divisor. */
  const TouchMove := "touchmove"

  predicate PositiveSensitivity(s: Sensitivity)
  {
    s.wheel > 0.0 && s.touch > 0.0
  }

  /** `e.event.type === "touchmove" ? touch : wheel`: any other type falls back to the wheel divisor. */
  function Divisor(eventType: string, s: Sensitivity): (d: real)
    ensures d == s.touch || d == s.wheel
    ensures PositiveSensitivity(s) ==> d > 0.0
  {
    if eventType == TouchMove then s.touch else s.wheel
  }

  /**
   * The value handed to deltaTo for an event: it moves the timeline in the
   * direction of the gesture, and not at all for a zero delta.
   */
  function DeltaTarget(deltaY: real, eventType: string, s: Sensitivity): (target: real)
    requires PositiveSensitivity(s)
    ensures target > 0.0 <==> deltaY > 0.0
    ensures target < 0.0 <==> deltaY < 0.0
    ensures target * Divisor(eventType, s) == deltaY
  {
    deltaY / Divisor(eventType, s)
  }

  /** With the default divisors a touch delta moves the timeline twice as far as the same wheel delta. */
  lemma TouchMovesTwiceAsFar(deltaY: real, eventType: string)
    requires eventType != TouchMove
    ensures DeltaTarget(deltaY, TouchMove, DefaultSensitivity)
         == 2.0 * DeltaTarget(deltaY, eventType, DefaultSensitivity)
  {
  }
}
