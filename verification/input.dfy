/** The joypad snapshot of `InputState::poll`: sixteen buttons, each asked
    of the frontend's input state callback once, stored at the slot whose
    position is the button's joypad id. */
module Input {
  import opened Common
  import opened LibretroApi

  /** The joypad buttons, in declaration order. */
  datatype ControllerButton =
    | PadB | PadY | PadSelect | PadStart | PadUp | PadDown | PadLeft | PadRight
    | PadA | PadX | PadL | PadR | PadL2 | PadR2 | PadL3 | PadR3

  /** The buttons in declaration order. */
  const BUTTONS: seq<ControllerButton> :=
    [PadB, PadY, PadSelect, PadStart, PadUp, PadDown, PadLeft, PadRight,
     PadA, PadX, PadL, PadR, PadL2, PadR2, PadL3, PadR3]

  /** The number of button slots of an `InputState`. */
  const BUTTON_COUNT: nat := 16

  /** Each button's discriminant: the header's RETRO_DEVICE_ID_JOYPAD_* id. */
  function JoypadId(b: ControllerButton): u32
  {
    match b
    case PadB => JOYPAD_B
    case PadY => JOYPAD_Y
    case PadSelect => JOYPAD_SELECT
    case PadStart => JOYPAD_START
    case PadUp => JOYPAD_UP
    case PadDown => JOYPAD_DOWN
    case PadLeft => JOYPAD_LEFT
    case PadRight => JOYPAD_RIGHT
    case PadA => JOYPAD_A
    case PadX => JOYPAD_X
    case PadL => JOYPAD_L
    case PadR => JOYPAD_R
    case PadL2 => JOYPAD_L2
    case PadR2 => JOYPAD_R2
    case PadL3 => JOYPAD_L3
    case PadR3 => JOYPAD_R3
  }

  /** The static assertions: the discriminants are exactly 0 .. 15 in
      declaration order, so every button has its own slot and every slot
      its own button. */
  lemma DiscriminantsAreSlots()
    ensures |BUTTONS| == BUTTON_COUNT
    ensures forall i :: 0 <= i < |BUTTONS| ==> JoypadId(BUTTONS[i]) == i as u32
    ensures forall b :: b in BUTTONS
  {
    forall b: ControllerButton
      ensures b in BUTTONS
    {
      assert BUTTONS[JoypadId(b)] == b;
    }
  }

  /** The slot a button indexes (`*index as uint`). */
  function Slot(b: ControllerButton): (i: nat)
    ensures i < BUTTON_COUNT && BUTTONS[i] == b
  {
    DiscriminantsAreSlots();
    JoypadId(b) as nat
  }

  /** The slots of distinct buttons are distinct. */
  lemma SlotInjective(a: ControllerButton, b: ControllerButton)
    requires Slot(a) == Slot(b)
    ensures a == b
  {
  }

  datatype ButtonState = ButtonState(pressed: bool, down: bool, up: bool)

  /** The snapshot. The fixed-size array of the source becomes a sequence
      that `Valid` keeps at sixteen slots. */
  datatype InputState = InputState(button: seq<ButtonState>)
  {
    predicate Valid()
    {
      |button| == BUTTON_COUNT
    }
  }

  /** `state[b]`: the slot at the button's position, always in bounds. */
  function Index(st: InputState, b: ControllerButton): (r: ButtonState)
    requires st.Valid()
    ensures exists i :: 0 <= i < BUTTON_COUNT && BUTTONS[i] == b && r == st.button[i]
  {
    st.button[Slot(b)]
  }

  /** The frontend's `retro_input_state_t`: port, device, index and id in,
      a 16-bit state out. The answers are taken as fixed during one poll. */
  type InputStateCallback = (u32, bv32, u32, u32) -> i16

  /** One query of the input state callback. */
  datatype Query = Query(port: u32, device: bv32, index: u32, id: u32)

  /** The state of a button as the callback reports it: pressed if the
      answer is nonzero; edge tracking is not implemented, so `down` and
      `up` are false. */
  function ButtonReport(player: u32, cb: InputStateCallback, b: ControllerButton): ButtonState
  {
    ButtonState(cb(player, DEVICE_JOYPAD, 0, JoypadId(b)) != 0, false, false)
  }

  /** `InputState::poll`: query the callback for each button in declaration
      order, for the given player on the joypad device at index 0. The
      player number is passed on unchecked. */
  method Poll(player: u32, cb: InputStateCallback) returns (st: InputState, queries: seq<Query>)
    ensures st.Valid() && |queries| == BUTTON_COUNT
    ensures forall i :: 0 <= i < BUTTON_COUNT ==> queries[i] == Query(player, DEVICE_JOYPAD, 0, i as u32)
    ensures forall i :: 0 <= i < BUTTON_COUNT ==>
      st.button[i] == ButtonState(cb(player, DEVICE_JOYPAD, 0, i as u32) != 0, false, false)
  {
    DiscriminantsAreSlots();
    var button: seq<ButtonState> := [];
    queries := [];
    var i := 0;
    while i < |BUTTONS|
      invariant 0 <= i <= |BUTTONS| && |button| == |queries| == i
      invariant forall j :: 0 <= j < i ==> queries[j] == Query(player, DEVICE_JOYPAD, 0, j as u32)
      invariant forall j :: 0 <= j < i ==> button[j] == ButtonReport(player, cb, BUTTONS[j])
    {
      var id := JoypadId(BUTTONS[i]);
      queries := queries + [Query(player, DEVICE_JOYPAD, 0, id)];
      button := button + [ButtonState(cb(player, DEVICE_JOYPAD, 0, id) != 0, false, false)];
      i := i + 1;
    }
    st := InputState(button);
  }

  /** Indexing a polled snapshot by a button gives exactly what the callback
      reported for that button's id. */
  lemma IndexAfterPoll(player: u32, cb: InputStateCallback, st: InputState, b: ControllerButton)
    requires st.Valid()
    requires forall i :: 0 <= i < BUTTON_COUNT ==>
      st.button[i] == ButtonState(cb(player, DEVICE_JOYPAD, 0, i as u32) != 0, false, false)
    ensures Index(st, b) == ButtonReport(player, cb, b)
    ensures Index(st, b).pressed <==> cb(player, DEVICE_JOYPAD, 0, JoypadId(b)) != 0
  {
    DiscriminantsAreSlots();
    assert JoypadId(b) == Slot(b) as u32;
  }
}
