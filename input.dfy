/**
  What the participant and the keyboard deliver to the experiment scripts.
  Keyboard polling with a deadline (PsychoPy's event.waitKeys with maxWait)
  becomes an Option: None when the deadline passed without a key press.
 */
module Input {

  datatype Option<+T> = None | Some(value: T)

  /** The two response keys of the two-step and operation-span tasks. */
  datatype Key = F | J

  /** The key name PsychoPy reports for a key. */
  function KeyName(k: Key): (name: string)
    ensures |name| == 1
    ensures (name == "f") <==> k == F
    ensures (name == "j") <==> k == J
  {
    match k
    case F => "f"
    case J => "j"
  }

  /** The screen side a key answers for: 'f' the left stimulus, 'j' the right one. */
  function Side(k: Key): (i: nat)
    ensures i < 2
    ensures (i == 0) <==> k == F
  {
    match k
    case F => 0
    case J => 1
  }

  /** A key press together with its reaction time (seconds after the stage began). */
  datatype Press = Press(key: Key, rt: real)
}
